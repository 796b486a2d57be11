/** Words of a command line, and which command a line runs. */
module CommandLine {
  import opened CStrings

  datatype Option<T> = None | Some(value: T)

  /** isspace in the C locale. */
  predicate IsSpace(c: char) {
    c == ' ' || '\t' <= c <= '\r'
  }

  // ---------------------------------------------------------------------------
  // Words
  // ---------------------------------------------------------------------------

  /** The first position from `p` on that is outside a word. */
  function WordEnd(text: string, p: nat): (e: nat)
    requires p <= |text|
    ensures p <= e <= |text| && (forall i :: p <= i < e ==> !IsSpace(text[i]))
    ensures e < |text| ==> IsSpace(text[e])
    decreases |text| - p
  {
    if p == |text| || IsSpace(text[p]) then p else WordEnd(text, p + 1)
  }

  /** The first position from `p` on that is not a space. */
  function SpaceEnd(text: string, p: nat): (e: nat)
    requires p <= |text|
    ensures p <= e <= |text| && (forall i :: p <= i < e ==> IsSpace(text[i]))
    ensures e < |text| ==> !IsSpace(text[e])
    decreases |text| - p
  {
    if p == |text| || !IsSpace(text[p]) then p else SpaceEnd(text, p + 1)
  }

  datatype Span = Span(start: nat, end: nat)

  /** A longest run of characters without a space. */
  predicate IsWord(text: string, w: Span) {
    && w.start < w.end <= |text|
    && (forall i :: w.start <= i < w.end ==> !IsSpace(text[i]))
    && (w.start == 0 || IsSpace(text[w.start - 1]))
    && (w.end == |text| || IsSpace(text[w.end]))
  }

  /** Where repeated calls of get_next_arg stand, starting after the leading space. */
  function Position(text: string, k: nat): (p: nat)
    ensures p <= |text|
  {
    if k == 0 then SpaceEnd(text, 0) else SpaceEnd(text, WordEnd(text, Position(text, k - 1)))
  }

  /** Is the `k`-th position still before the end, and thus at a word? */
  predicate Reached(text: string, k: nat) {
    Position(text, k) < |text|
  }

  function WordAt(text: string, k: nat): Span {
    Span(Position(text, k), WordEnd(text, Position(text, k)))
  }

  /** Each position before the end is the start of a word, behind the word before it. */
  lemma {:induction false} PositionsAreWords(text: string, k: nat)
    requires Reached(text, k)
    ensures IsWord(text, WordAt(text, k))
    ensures k > 0 ==> Reached(text, k - 1) && WordAt(text, k - 1).end < WordAt(text, k).start
  {
    if k > 0 {
      var before := Position(text, k - 1);
      var e := WordEnd(text, before);
      assert before < |text|;
      assert e < Position(text, k);
    }
  }

  /** Every word is found, and found once. */
  lemma {:induction false} EveryWordFound(text: string, w: Span, k: nat)
    requires IsWord(text, w) && Position(text, k) <= w.start
    ensures exists j :: j >= k && Reached(text, j) && WordAt(text, j) == w
    decreases w.start - Position(text, k)
  {
    var p := Position(text, k);
    if p == w.start {
      SameEnd(text, w);
      assert Reached(text, k) && WordAt(text, k) == w;
    } else {
      var e := WordEnd(text, p);
      var next := SpaceEnd(text, e);
      assert !IsSpace(text[w.start]) && IsSpace(text[w.start - 1]);
      assert next == Position(text, k + 1);
      assert e <= w.start;
      assert next <= w.start;
      assert p < e;
      EveryWordFound(text, w, k + 1);
    }
  }

  lemma SameEnd(text: string, w: Span)
    requires IsWord(text, w)
    ensures WordEnd(text, w.start) == w.end
  {
    var e := WordEnd(text, w.start);
    assert !IsSpace(text[w.start]);
  }

  /** The positions list exactly the words of the text, in order; none is listed twice. */
  lemma ArgumentsAreWords(text: string, w: Span)
    ensures IsWord(text, w) <==> exists k :: Reached(text, k) && WordAt(text, k) == w
  {
    if IsWord(text, w) {
      assert !IsSpace(text[w.start]);
      EveryWordFound(text, w, 0);
    }
    forall k | Reached(text, k) && WordAt(text, k) == w ensures IsWord(text, w) {
      PositionsAreWords(text, k);
    }
  }

  lemma {:induction false} PositionsIncrease(text: string, j: nat, k: nat)
    requires j < k && Reached(text, k)
    ensures Reached(text, j) && WordAt(text, j).end < WordAt(text, k).start
    decreases k
  {
    PositionsAreWords(text, k);
    if j < k - 1 {
      PositionsIncrease(text, j, k - 1);
      assert WordAt(text, k - 1).start <= WordAt(text, k - 1).end;
    }
  }

  /** The words run out: no text has more than every second character start one. */
  lemma {:induction false} EnumerationEnds(text: string, k: nat)
    requires Reached(text, k)
    ensures 2 * k <= Position(text, k) < |text|
  {
    hide Position, WordEnd, SpaceEnd, IsSpace;
    PositionsAreWords(text, k);
    if k > 0 {
      EnumerationEnds(text, k - 1);
      PositionsAreWords(text, k - 1);
    }
  }

  // ---------------------------------------------------------------------------
  // The pointer walks
  // ---------------------------------------------------------------------------

  /** A NUL-terminated buffer. */
  predicate Terminated(buffer: string) {
    |CString(buffer)| < |buffer|
  }

  lemma Inside(buffer: string)
    requires Terminated(buffer)
    ensures var text := CString(buffer);
      buffer[|text|] == '\0' && forall i :: 0 <= i < |text| ==> buffer[i] == text[i] && buffer[i] != '\0'
  {
    var text := CString(buffer);
    assert forall i :: 0 <= i < |text| ==> text[i] in text;
  }

  method GetEndOfArg(buffer: string, p: nat) returns (e: nat)
    requires Terminated(buffer) && p <= |CString(buffer)|
    ensures e == WordEnd(CString(buffer), p)
  {
    hide CString;
    Inside(buffer);
    e := p;
    while buffer[e] != '\0' && !IsSpace(buffer[e])
      invariant p <= e <= |CString(buffer)| && WordEnd(CString(buffer), e) == WordEnd(CString(buffer), p)
      decreases |CString(buffer)| - e
    {
      e := e + 1;
    }
  }

  method EndOfSpace(buffer: string, p: nat) returns (e: nat)
    requires Terminated(buffer) && p <= |CString(buffer)|
    ensures e == SpaceEnd(CString(buffer), p)
  {
    hide CString;
    Inside(buffer);
    e := p;
    while IsSpace(buffer[e])
      invariant p <= e <= |CString(buffer)| && SpaceEnd(CString(buffer), e) == SpaceEnd(CString(buffer), p)
      decreases |CString(buffer)| - e
    {
      e := e + 1;
    }
  }

  /** From one argument to the next, and the end of that one. */
  method GetNextArg(buffer: string, p: nat) returns (start: nat, end: nat)
    requires Terminated(buffer) && p <= |CString(buffer)|
    ensures start == SpaceEnd(CString(buffer), WordEnd(CString(buffer), p))
    ensures end == WordEnd(CString(buffer), start)
    ensures forall k: nat :: p == Position(CString(buffer), k) ==> Span(start, end) == WordAt(CString(buffer), k + 1)
  {
    hide CString;
    var e := GetEndOfArg(buffer, p);
    start := EndOfSpace(buffer, e);
    end := GetEndOfArg(buffer, start);
  }

  /** True exactly when no word, nor a rest of one, is left from `p` on. */
  method CheckEndOfArgs(buffer: string, p: nat) returns (r: bool)
    requires Terminated(buffer) && p <= |CString(buffer)|
    ensures r <==> forall i :: p <= i < |CString(buffer)| ==> IsSpace(CString(buffer)[i])
  {
    hide CString;
    Inside(buffer);
    var e := EndOfSpace(buffer, p);
    return buffer[e] == '\0';
  }

  // ---------------------------------------------------------------------------
  // Which command a line runs
  // ---------------------------------------------------------------------------

  /** What a line causes: a command with the position of its arguments, help on all commands or one, or a refusal. */
  datatype Action = Command(index: nat, args: nat) | Help(topic: Option<nat>) | Unknown

  const HELP := "help"

  /** The first command with a given name; the empty name stands for none. */
  function Named(names: seq<string>, name: string): (r: Option<nat>)
    ensures r.Some? ==> r.value < |names| && names[r.value] == name != "" && name !in names[..r.value]
    ensures r.None? ==> name == "" || name !in names
  {
    if name == "" || names == [] then None
    else if names[0] == name then Some(0)
    else
      var r := Named(names[1..], name);
      assert r.Some? ==> names[..r.value + 1] == [names[0]] + names[1..][..r.value];
      if r.Some? then Some(r.value + 1) else None
  }

  function Dispatch(names: seq<string>, text: string): Action {
    var e := WordEnd(text, 0);
    var first := text[..e];
    var args := SpaceEnd(text, e);
    var command := Named(names, first);
    if command.Some? then Command(command.value, args)
    else if first <= HELP then Help(Named(names, text[args..WordEnd(text, args)]))
    else Unknown
  }

  /** strncmp: equal up to `n` characters or up to a NUL in both. */
  method SameStart(buffer: string, p: nat, other: string, n: nat) returns (r: bool)
    requires Terminated(buffer) && p + n <= |CString(buffer)| && '\0' !in other
    ensures r <==> buffer[p..p + n] <= other
  {
    hide CString;
    Inside(buffer);
    var i := 0;
    while i < n
      invariant 0 <= i <= n && i <= |other| && buffer[p..p + i] == other[..i]
    {
      var c := if i < |other| then other[i] else '\0';
      assert buffer[p + i] != '\0';
      if buffer[p + i] != c {
        assert buffer[p..p + n][i] == buffer[p + i];
        return false;
      }
      assert buffer[p..p + i + 1] == buffer[p..p + i] + [buffer[p + i]];
      assert i < |other| && other[..i + 1] == other[..i] + [other[i]];
      i := i + 1;
    }
    return true;
  }

  method FindCommand(names: seq<string>, buffer: string, p: nat, length: nat) returns (r: Option<nat>)
    requires Terminated(buffer) && p + length <= |CString(buffer)|
    requires forall i :: 0 <= i < |names| ==> '\0' !in names[i]
    ensures r == Named(names, buffer[p..p + length])
  {
    if length == 0 {
      return None;
    }
    ghost var name := buffer[p..p + length];
    hide CString, Terminated;
    var i := 0;
    while i < |names|
      invariant 0 <= i <= |names|
      invariant name !in names[..i]
    {
      var same := |names[i]| == length;
      if same {
        same := SameStart(buffer, p, names[i], length);
      }
      if same {
        assert name == names[i][..length] == names[i];
        return Some(i);
      }
      assert name != names[i];
      assert names[..i + 1] == names[..i] + [names[i]];
      i := i + 1;
    }
    assert names[..i] == names;
    return None;
  }

  method HandleCommand(names: seq<string>, buffer: string) returns (r: Action)
    requires Terminated(buffer)
    requires forall i :: 0 <= i < |names| ==> '\0' !in names[i]
    ensures r == Dispatch(names, CString(buffer))
  {
    Inside(buffer);
    hide CString, Named, WordEnd, SpaceEnd, IsSpace;
    ghost var text := CString(buffer);
    var length := GetEndOfArg(buffer, 0);
    assert buffer[0..length] == text[..length];
    var command := FindCommand(names, buffer, 0, length);
    if command.Some? {
      var args := EndOfSpace(buffer, length);
      return Command(command.value, args);
    }
    var help := SameStart(buffer, 0, HELP, length);
    if help {
      var args := EndOfSpace(buffer, length);
      var end := GetEndOfArg(buffer, args);
      var topic := FindCommand(names, buffer, args, end - args);
      assert buffer[args..args + (end - args)] == text[args..end];
      return Help(topic);
    }
    return Unknown;
  }

  /** The white space of the C locale: tab, newline, vertical tab, form feed, carriage return, space. */
  lemma SpaceCodes(c: char)
    ensures IsSpace(c) <==> c as int in {9, 10, 11, 12, 13, 32}
  {
  }

  /** Help on the first command with the name that the second word gives, and on all commands if there is none. */
  predicate HelpOn(names: seq<string>, text: string, topic: Option<nat>) {
    var second := text[WordAt(text, 1).start..WordAt(text, 1).end];
    && (topic.Some? <==> second != "" && second in names)
    && (topic.Some? ==> topic.value < |names| && names[topic.value] == second && second !in names[..topic.value])
  }

  /**
   A line that starts with a word runs the first command of that name, with the next word as its
   arguments; otherwise the word is a start of "help" and the next word is its topic, or it is unknown.
   */
  lemma LineRunsCommand(names: seq<string>, text: string)
    requires text != "" && !IsSpace(text[0])
    ensures
      var first := WordAt(text, 0);
      var word := text[first.start..first.end];
      && first.start == 0 && IsWord(text, first)
      && (word in names <==> Dispatch(names, text).Command?)
      && (word in names ==>
            var r := Dispatch(names, text);
            names[r.index] == word && word !in names[..r.index] && r.args == Position(text, 1))
      && (word !in names ==>
            if word <= "help" then Dispatch(names, text).Help? && HelpOn(names, text, Dispatch(names, text).topic)
            else Dispatch(names, text).Unknown?)
  {
    hide Named, WordEnd, SpaceEnd;
    PositionsAreWords(text, 0);
    assert text[0..WordEnd(text, 0)] == text[..WordEnd(text, 0)];
  }

  /** A line that is empty or starts with a space runs no command, whatever follows: its first word is empty. */
  lemma EmptyWordIsHelp(names: seq<string>, text: string)
    requires text == "" || IsSpace(text[0])
    ensures Dispatch(names, text).Help?
    ensures
      var first, topic := text[WordAt(text, 0).start..WordAt(text, 0).end], Dispatch(names, text).topic;
      && (topic.Some? <==> first != "" && first in names)
      && (topic.Some? ==> topic.value < |names| && names[topic.value] == first && first !in names[..topic.value])
  {
    hide Named;
    assert text[..WordEnd(text, 0)] == "";
  }
}
