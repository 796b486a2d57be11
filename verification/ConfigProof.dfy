/** The one pass over the tokens of a document finds what lookup in its tree finds. */
module ConfigProof {
  import opened ConfigTree

  // ---------------------------------------------------------------------------
  // Walking a stretch of tokens
  // ---------------------------------------------------------------------------

  /**
   From `k` the pass over tokens `start` up to `stop` writes `w` and ends in `k'`. If these tokens
   are the last ones, `over` tells whether the pass looks behind the last of them.
   */
  ghost predicate Covers(k: Keys, tokens: seq<Token>, start: nat, stop: nat, k': Keys, w: seq<Write>, over: bool) {
    && start <= stop <= |tokens|
    && Walk(k, tokens, start, stop) == Visit(k', w)
    && (stop == |tokens| ==> (InBounds(k, tokens, start, stop) <==> !over))
  }

  lemma {:induction false} WalkThen(k: Keys, tokens: seq<Token>, a: nat, b: nat, c: nat)
    requires a <= b <= c <= |tokens|
    ensures
      var v := Walk(k, tokens, a, b);
      var w := Walk(v.keys, tokens, b, c);
      Walk(k, tokens, a, c) == Visit(w.keys, v.writes + w.writes)
    decreases c
  {
    hide Step;
    if b < c {
      WalkThen(k, tokens, a, b, c - 1);
      var v := Walk(k, tokens, a, b);
      var w := Walk(v.keys, tokens, b, c - 1);
      var x := Step(w.keys, tokens, c - 1);
      assert v.writes + w.writes + x.writes == v.writes + (w.writes + x.writes);
    } else {
      var v := Walk(k, tokens, a, b);
      assert v.writes + [] == v.writes;
    }
  }

  lemma CoversThen(k: Keys, tokens: seq<Token>, a: nat, b: nat, c: nat, k1: Keys, k2: Keys,
                   w1: seq<Write>, w2: seq<Write>, over1: bool, over2: bool)
    requires Covers(k, tokens, a, b, k1, w1, over1) && Covers(k1, tokens, b, c, k2, w2, over2)
    ensures Covers(k, tokens, a, c, k2, w1 + w2, if b < c then over2 else over1)
  {
    hide Walk, LooksAhead;
    WalkThen(k, tokens, a, b, c);
    if b < c {
      if c == |tokens| { BoundsThen(k, tokens, a, b, c); }
    } else {
      WalkNone(k1, tokens, b);
      assert w1 + [] == w1;
    }
  }

  lemma WalkNone(k: Keys, tokens: seq<Token>, i: nat)
    requires i <= |tokens|
    ensures Walk(k, tokens, i, i) == Visit(k, [])
  {
  }

  /** Only the last tokens can make the pass look too far. */
  lemma BoundsThen(k: Keys, tokens: seq<Token>, a: nat, b: nat, c: nat)
    requires a <= b < c == |tokens|
    ensures InBounds(k, tokens, a, c) <==> InBounds(Walk(k, tokens, a, b).keys, tokens, b, c)
  {
    hide Walk, LooksAhead;
    var k1 := Walk(k, tokens, a, b).keys;
    forall i | b <= i < c ensures Walk(k, tokens, a, i).keys == Walk(k1, tokens, b, i).keys {
      WalkThen(k, tokens, a, b, i);
    }
  }

  lemma CoversStep(k: Keys, tokens: seq<Token>, i: nat, v: Visit)
    requires i < |tokens| && Step(k, tokens, i) == v
    ensures Covers(k, tokens, i, i + 1, v.keys, v.writes, LooksAhead(k, tokens, i))
  {
    hide Step, LooksAhead;
    WalkNone(k, tokens, i);
    assert [] + v.writes == v.writes;
  }

  lemma CoversNothing(k: Keys, tokens: seq<Token>, i: nat)
    requires i <= |tokens|
    ensures Covers(k, tokens, i, i, k, [], false)
  {
  }

  /** `part` stands in `tokens` at `at`. */
  predicate Stands(tokens: seq<Token>, at: nat, part: seq<Token>) {
    at + |part| <= |tokens| && tokens[at..at + |part|] == part
  }

  lemma StandsParts(tokens: seq<Token>, at: nat, x: seq<Token>, y: seq<Token>)
    requires Stands(tokens, at, x + y)
    ensures Stands(tokens, at, x) && Stands(tokens, at + |x|, y)
    ensures x != [] ==> tokens[at] == x[0]
  {
    assert tokens[at..at + |x + y|][..|x|] == x;
    assert tokens[at..at + |x + y|][|x|..] == y;
    assert x != [] ==> tokens[at] == tokens[at..at + |x + y|][0];
  }

  // ---------------------------------------------------------------------------
  // Tokens the pass does not react to
  // ---------------------------------------------------------------------------

  predicate Below(k: Keys, n: int) {
    forall p :: Watch(k, p) < n
  }

  predicate Inert(k: Keys, t: Token) {
    t.parent != 0 && forall p :: !Reacts(k, p, t)
  }

  lemma UnwatchedIsInert(k: Keys, t: Token)
    requires t.parent != 0 && forall p :: Watch(k, p) != t.parent
    ensures Inert(k, t)
  {
  }

  lemma InertStep(k: Keys, tokens: seq<Token>, i: nat)
    requires i < |tokens| && Inert(k, tokens[i])
    ensures Covers(k, tokens, i, i + 1, k, [], false)
  {
    hide Reacts;
    CoversStep(k, tokens, i, Visit(k, []));
  }

  lemma InertThen(k: Keys, tokens: seq<Token>, a: nat, b: nat, c: nat)
    requires Covers(k, tokens, a, b, k, [], false) && Covers(k, tokens, b, c, k, [], false)
    ensures Covers(k, tokens, a, c, k, [], false)
  {
    CoversThen(k, tokens, a, b, c, k, k, [], [], false, false);
    var none: seq<Write> := [];
    assert none + [] == none;
  }

  /** A value whose first token is inert and whose tokens are all above every watched index. */
  lemma {:induction false} InertValue(j: Json, tokens: seq<Token>, at: nat, parent: int, k: Keys)
    requires at > 0 && Stands(tokens, at, Flatten(j, at, parent)) && Below(k, at) && Inert(k, Flatten(j, at, parent)[0])
    ensures Covers(k, tokens, at, at + Size(j), k, [], false)
    decreases j, 1
  {
    hide Covers, Stands, Reacts, Flatten, FlattenItems, FlattenMembers, SizeItems, SizeMembers;
    ValueStands(j, tokens, at, parent);
    InertStep(k, tokens, at);
    match j
    case Str(_) =>
    case Prim(_) =>
    case Arr(items) =>
      InertItems(items, tokens, at + 1, at, k);
      InertThen(k, tokens, at, at + 1, at + Size(j));
    case Obj(members) =>
      InertMembers(members, tokens, at + 1, at, k);
      InertThen(k, tokens, at, at + 1, at + Size(j));
  }

  lemma ValueStands(j: Json, tokens: seq<Token>, at: nat, parent: int)
    requires Stands(tokens, at, Flatten(j, at, parent))
    ensures at < |tokens| && tokens[at] == Flatten(j, at, parent)[0]
    ensures j.Arr? ==> Stands(tokens, at + 1, FlattenItems(j.items, at + 1, at))
    ensures j.Obj? ==> Stands(tokens, at + 1, FlattenMembers(j.members, at + 1, at))
  {
    var all := Flatten(j, at, parent);
    StandsParts(tokens, at, all, []);
    assert all + [] == all;
    if j.Arr? || j.Obj? {
      StandsParts(tokens, at, [all[0]], all[1..]);
      assert all[1..] == if j.Arr? then FlattenItems(j.items, at + 1, at) else FlattenMembers(j.members, at + 1, at);
    }
  }

  lemma HeadParent(j: Json, at: nat, parent: int)
    ensures Flatten(j, at, parent)[0].parent == parent
    ensures Flatten(j, at, parent)[0].kind == STRING <==> j.Str?
    ensures j.Str? ==> Flatten(j, at, parent)[0].text == j.text
    ensures Flatten(j, at, parent)[0].kind == ARRAY <==> j.Arr?
  {
  }

  lemma {:induction false} InertItems(items: seq<Json>, tokens: seq<Token>, at: nat, parent: int, k: Keys)
    requires 0 < parent < at && Stands(tokens, at, FlattenItems(items, at, parent))
    requires Below(k, at) && forall p :: Watch(k, p) != parent
    ensures Covers(k, tokens, at, at + SizeItems(items), k, [], false)
    decreases items
  {
    hide Covers, Flatten, FlattenItems, SizeItems, Stands, Reacts, Below, Inert;
    NoItemsStand(items, tokens, at, parent);
    if items == [] {
      CoversNothing(k, tokens, at);
    } else {
      var j := items[0];
      var stop := at + Size(j);
      HeadParent(j, at, parent);
      UnwatchedIsInert(k, Flatten(j, at, parent)[0]);
      InertValue(j, tokens, at, parent, k);
      BelowMore(k, at, stop);
      InertItems(items[1..], tokens, stop, parent, k);
      InertThen(k, tokens, at, stop, at + SizeItems(items));
    }
  }

  lemma {:induction false} InertMembers(members: seq<Member>, tokens: seq<Token>, at: nat, parent: int, k: Keys)
    requires 0 < parent < at && Stands(tokens, at, FlattenMembers(members, at, parent))
    requires Below(k, at) && forall p :: Watch(k, p) != parent
    ensures Covers(k, tokens, at, at + SizeMembers(members), k, [], false)
    decreases members
  {
    hide Covers, Flatten, FlattenMembers, SizeMembers, Stands, Reacts, Below, Inert;
    if members == [] {
      NoMembersStand(members, tokens, at, parent);
      CoversNothing(k, tokens, at);
    } else {
      var j := members[0].value;
      var stop := at + 1 + Size(j);
      MemberStands(members, tokens, at, parent);
      UnwatchedIsInert(k, tokens[at]);
      InertStep(k, tokens, at);
      InertMemberValue(j, tokens, at + 1, k);
      InertThen(k, tokens, at, at + 1, stop);
      BelowMore(k, at, stop);
      InertMembers(members[1..], tokens, stop, parent, k);
      InertThen(k, tokens, at, stop, at + SizeMembers(members));
    }
  }

  lemma BelowMore(k: Keys, n: int, m: int)
    requires Below(k, n) && n <= m
    ensures Below(k, m)
  {
  }

  /** A value behind a key that is above every watched index. */
  lemma {:induction false} InertMemberValue(j: Json, tokens: seq<Token>, at: nat, k: Keys)
    requires at > 1 && Stands(tokens, at, Flatten(j, at, at - 1)) && Below(k, at - 1)
    ensures Covers(k, tokens, at, at + Size(j), k, [], false)
    decreases j, 2
  {
    hide Flatten, Stands, Covers;
    HeadParent(j, at, at - 1);
    UnwatchedIsInert(k, Flatten(j, at, at - 1)[0]);
    InertValue(j, tokens, at, at - 1, k);
  }

  lemma NoMembersStand(members: seq<Member>, tokens: seq<Token>, at: nat, parent: int)
    requires members == [] && Stands(tokens, at, FlattenMembers(members, at, parent))
    ensures at <= |tokens| && SizeMembers(members) == 0
  {
  }

  lemma MemberStands(members: seq<Member>, tokens: seq<Token>, at: nat, parent: int)
    requires members != [] && Stands(tokens, at, FlattenMembers(members, at, parent))
    ensures
      var j := members[0].value;
      && at < |tokens| && tokens[at] == Token(STRING, members[0].key, parent)
      && Stands(tokens, at + 1, Flatten(j, at + 1, at))
      && Stands(tokens, at + 1 + Size(j), FlattenMembers(members[1..], at + 1 + Size(j), parent))
      && at + 1 < |tokens| && tokens[at + 1] == Flatten(j, at + 1, at)[0]
      && SizeMembers(members) == 1 + Size(j) + SizeMembers(members[1..])
  {
    var j := members[0].value;
    var key := [Token(STRING, members[0].key, parent)];
    var value := Flatten(j, at + 1, at);
    var rest := FlattenMembers(members[1..], at + 1 + Size(j), parent);
    StandsParts(tokens, at, key + value, rest);
    StandsParts(tokens, at, key, value);
    StandsParts(tokens, at + 1, value, []);
    assert value + [] == value;
  }

  // ---------------------------------------------------------------------------
  // Tokens at a place
  // ---------------------------------------------------------------------------

  lemma OnlyOne(k: Keys, t: Token, p: Place)
    requires Reacts(k, p, t) && forall q :: q != p ==> !Reacts(k, q, t)
    ensures FirstOf(k, t) == Some(p)
  {
    hide FirstOf;
  }

  /** Of all places only `p` is watched at `at`. */
  predicate OnlyAt(k: Keys, p: Place, at: int) {
    Watch(k, p) == at && forall q :: q != p ==> Watch(k, q) != at
  }

  /** Every watched index is below `n`, but that of an open place, which is `n`. */
  predicate Settled(k: Keys, n: int, open: Option<Place>) {
    forall p :: if open == Some(p) then Watch(k, p) == n else Watch(k, p) < n
  }

  predicate Holds(p: Place) {
    p != NtpUrl && p != NtpArray
  }

  /** Places that a walk below another place may move. */
  predicate Nestable(p: Place) {
    p in {Lwm2mPsk, MqttPsk, NtpUrl, NtpArray}
  }

  /** From `k` to `k'` only nested places moved, and to `lo` or behind it. */
  predicate Moved(k: Keys, k': Keys, p: Place, lo: int) {
    forall q :: Watch(k', q) == Watch(k, q) || (Nestable(q) && q != p && lo <= Watch(k', q))
  }

  lemma MovedOnly(k: Keys, k': Keys, p: Place, parent: int, lo: int)
    requires OnlyAt(k, p, parent) && parent < lo && Moved(k, k', p, lo)
    ensures OnlyAt(k', p, parent)
  {
    hide Watch;
  }

  lemma MovedThen(k: Keys, k1: Keys, k2: Keys, p: Place, lo: int, mid: int)
    requires Moved(k, k1, p, lo) && Moved(k1, k2, p, mid) && lo <= mid
    ensures Moved(k, k2, p, lo)
  {
    hide Watch;
  }

  /** A walk below a nested place, seen from the place around it. */
  lemma NestedThen(k: Keys, k1: Keys, k2: Keys, p: Place, n: Place, lo: int, mid: int)
    requires Moved(k, k1, p, lo) && Moved(k1, k2, n, mid) && lo <= mid && !Nestable(p)
    ensures Moved(k, k2, p, lo)
  {
    hide Watch;
  }

  lemma NothingMoved(k: Keys, p: Place, lo: int)
    ensures Moved(k, k, p, lo)
  {
  }

  lemma WatchSet(k: Keys, p: Place, i: int)
    ensures forall q :: Watch(k.Set(p, i), q) == if q != p then Watch(k, q) else if Holds(p) then i + 1 else i
  {
  }

  lemma SettledOnly(k: Keys, n: int, p: Place)
    requires Settled(k, n, Some(p))
    ensures OnlyAt(k, p, n)
  {
    hide Watch;
  }

  lemma SettledBelow(k: Keys, n: int)
    ensures Settled(k, n, None) <==> Below(k, n)
  {
  }

  /** What was open or below stays behind once a token has passed. */
  lemma SettledMore(k: Keys, n: int, m: int, open: Option<Place>)
    requires Settled(k, n, open) && n < m
    ensures Settled(k, m, None) && Below(k, m)
  {
    hide Watch;
  }

  /** A key of a place opens a nested place for the token behind it. */
  lemma OpenNested(k: Keys, p: Place, n: Place, parent: int, at: int, open: Option<Place>)
    requires OnlyAt(k, p, parent) && parent < at && Settled(k, at, open) && n != p && Nestable(n) && n != NtpArray
    ensures Settled(k.Set(n, at), at + 1, if n == NtpUrl then None else Some(n))
    ensures Moved(k, k.Set(n, at), p, at)
    ensures n == NtpUrl && open.None? ==> OnlyAt(k.Set(n, at), n, at)
  {
    WatchSet(k, n, at);
    hide Watch;
  }

  /** What stands behind token `i`. */
  function BehindAt(tokens: seq<Token>, i: nat): Behind {
    if i >= |tokens| then End else if tokens[i].kind == STRING then Text(tokens[i].text) else NotText
  }

  lemma KeyCovered(k: Keys, tokens: seq<Token>, i: nat, p: Place)
    requires i < |tokens| && tokens[i].kind == STRING && tokens[i].parent > 0
    requires OnlyAt(k, p, tokens[i].parent) && Holds(p)
    ensures
      var v := KeyStep(k, p, tokens, i);
      && v.writes == KeyReads(p, tokens[i].text, BehindAt(tokens, i + 1))
      && Covers(k, tokens, i, i + 1, v.keys, v.writes, p != Ntp)
  {
    OnlyOne(k, tokens[i], p);
    assert LooksAhead(k, tokens, i) <==> p != Ntp;
    hide FirstOf, LooksAhead, Covers, OnlyAt;
    CoversStep(k, tokens, i, KeyStep(k, p, tokens, i));
  }

  /** The key indices after a string taken as a key. */
  lemma KeyMoves(k: Keys, tokens: seq<Token>, i: nat, p: Place, parent: int, open: Option<Place>)
    requires i < |tokens| && OnlyAt(k, p, parent) && parent < i && Settled(k, i, open) && Holds(p)
    ensures
      var k' := KeyStep(k, p, tokens, i).keys;
      && Settled(k', i + 1, Opens(p, tokens[i].text))
      && Moved(k, k', p, i) && OnlyAt(k', p, parent)
  {
    var slot, nested := SlotOf(p, tokens[i].text), NestedOf(p, tokens[i].text);
    if slot.None? && nested.Some? {
      OpenNested(k, p, nested.value, parent, i, open);
    } else {
      SettledMore(k, i, i + 1, open);
      NothingMoved(k, p, i);
    }
    var k' := KeyStep(k, p, tokens, i).keys;
    MovedOnly(k, k', p, parent, i);
  }

  /** A string in the NTP list. */
  lemma ItemStep(k: Keys, tokens: seq<Token>, i: nat)
    requires i < |tokens| && tokens[i].kind == STRING && tokens[i].parent > 0
    requires OnlyAt(k, NtpArray, tokens[i].parent)
    ensures Covers(k, tokens, i, i + 1, k, [Write(NtpServer, tokens[i].text)], false)
  {
    OnlyOne(k, tokens[i], NtpArray);
    assert !LooksAhead(k, tokens, i);
    hide FirstOf, LooksAhead, Covers;
    CoversStep(k, tokens, i, Visit(k, [Write(NtpServer, tokens[i].text)]));
  }

  /** The array behind an NTP url key. */
  lemma UrlStep(k: Keys, tokens: seq<Token>, i: nat)
    requires i < |tokens| && tokens[i].kind == ARRAY && tokens[i].parent > 0
    requires OnlyAt(k, NtpUrl, tokens[i].parent)
    ensures Covers(k, tokens, i, i + 1, k.Set(NtpArray, i), [], false)
  {
    OnlyOne(k, tokens[i], NtpUrl);
    assert !LooksAhead(k, tokens, i);
    hide FirstOf, LooksAhead, Covers;
    CoversStep(k, tokens, i, Visit(k.Set(NtpArray, i), []));
  }

  lemma NoItemsStand(items: seq<Json>, tokens: seq<Token>, at: nat, parent: int)
    requires Stands(tokens, at, FlattenItems(items, at, parent))
    ensures items == [] ==> at <= |tokens| && SizeItems(items) == 0
    ensures items != [] ==>
      && Stands(tokens, at, Flatten(items[0], at, parent))
      && Stands(tokens, at + Size(items[0]), FlattenItems(items[1..], at + Size(items[0]), parent))
      && SizeItems(items) == Size(items[0]) + SizeItems(items[1..])
  {
    if items != [] {
      StandsParts(tokens, at, Flatten(items[0], at, parent), FlattenItems(items[1..], at + Size(items[0]), parent));
    }
  }

  lemma ItemCovered(j: Json, tokens: seq<Token>, at: nat, parent: int, k: Keys)
    requires 0 < parent < at && Stands(tokens, at, Flatten(j, at, parent))
    requires OnlyAt(k, NtpArray, parent) && Below(k, at)
    ensures Covers(k, tokens, at, at + Size(j), k, if j.Str? then [Write(NtpServer, j.text)] else [], false)
  {
    hide Covers, Stands, Flatten, Below;
    HeadParent(j, at, parent);
    ValueStands(j, tokens, at, parent);
    if j.Str? {
      ItemStep(k, tokens, at);
    } else {
      InertValue(j, tokens, at, parent, k);
    }
  }

  /** The list under an NTP url key. */
  lemma {:induction false} ListCovered(items: seq<Json>, tokens: seq<Token>, at: nat, parent: int, k: Keys)
    requires 0 < parent < at && Stands(tokens, at, FlattenItems(items, at, parent))
    requires OnlyAt(k, NtpArray, parent) && Below(k, at)
    ensures Covers(k, tokens, at, at + SizeItems(items), k, ListWrites(items), false)
    decreases items
  {
    hide Covers, Flatten, FlattenItems, SizeItems, Stands, OnlyAt, Below;
    NoItemsStand(items, tokens, at, parent);
    if items == [] {
      CoversNothing(k, tokens, at);
    } else {
      var j := items[0];
      var stop := at + Size(j);
      ItemCovered(j, tokens, at, parent, k);
      BelowMore(k, at, stop);
      ListCovered(items[1..], tokens, stop, parent, k);
      CoversThen(k, tokens, at, stop, at + SizeItems(items), k, k,
                 if j.Str? then [Write(NtpServer, j.text)] else [], ListWrites(items[1..]), false, false);
    }
  }

  /** The value of an NTP url key: a list, or nothing. */
  lemma UrlCovered(j: Json, tokens: seq<Token>, at: nat, k: Keys) returns (k': Keys)
    requires at > 1 && Stands(tokens, at, Flatten(j, at, at - 1)) && OnlyAt(k, NtpUrl, at - 1) && Below(k, at)
    ensures Covers(k, tokens, at, at + Size(j), k', if j.Arr? then ListWrites(j.items) else [], false)
    ensures Moved(k, k', NtpUrl, at) && Below(k', at + Size(j))
  {
    hide Covers, Stands, Flatten, FlattenItems, SizeItems;
    HeadParent(j, at, at - 1);
    ValueStands(j, tokens, at, at - 1);
    if j.Arr? {
      k' := k.Set(NtpArray, at);
      UrlStep(k, tokens, at);
      WatchSet(k, NtpArray, at);
      ListCovered(j.items, tokens, at + 1, at, k');
      CoversThen(k, tokens, at, at + 1, at + Size(j), k', k', [], ListWrites(j.items), false, false);
      assert [] + ListWrites(j.items) == ListWrites(j.items);
    } else {
      k' := k;
      InertValue(j, tokens, at, at - 1, k);
    }
  }

  // ---------------------------------------------------------------------------
  // Objects and arrays at a place
  // ---------------------------------------------------------------------------

  /** The token of a value at a place: nothing reacts to it. */
  predicate Resting(k: Keys, j: Json, parent: int) {
    parent != 0 && forall p :: Watch(k, p) == parent ==> Holds(p) && !j.Str?
  }

  lemma RestingIsInert(k: Keys, j: Json, at: nat, parent: int)
    requires Resting(k, j, parent) || (parent != 0 && forall p :: Watch(k, p) != parent)
    ensures Inert(k, Flatten(j, at, parent)[0])
  {
    HeadParent(j, at, parent);
    hide Flatten;
  }

  /** The token behind a value, and the one behind its last child. */
  lemma LastChild(j: Json)
    ensures j.Obj? ==> Size(j) == 1 + SizeMembers(j.members)
    ensures j.Arr? ==> Size(j) == 1 + SizeItems(j.items)
    ensures j.Str? || j.Prim? ==> Size(j) == 1
  {
  }

  lemma HeadBehind(j: Json, tokens: seq<Token>, at: nat, parent: int)
    requires Stands(tokens, at, Flatten(j, at, parent))
    ensures BehindAt(tokens, at) == Head(j)
  {
    ValueStands(j, tokens, at, parent);
    HeadParent(j, at, parent);
    hide Flatten, Stands;
  }

  /** A value whose children stand at a place. */
  lemma {:induction false} PlaceCovered(p: Place, j: Json, tokens: seq<Token>, at: nat, parent: int, k: Keys) returns (k': Keys)
    requires Holds(p) && 0 < parent < at && Stands(tokens, at, Flatten(j, at, parent))
    requires Settled(k, at, Some(p)) && Inert(k, Flatten(j, at, parent)[0])
    ensures Covers(k, tokens, at, at + Size(j), k', PlaceReads(p, j, BehindAt(tokens, at + Size(j))), EndsAt(p, j))
    ensures Moved(k, k', p, at + 1) && Settled(k', at + Size(j), Leaves(p, j))
    decreases j, 1
  {
    hide Covers, Stands, Flatten, FlattenMembers, FlattenItems, SizeMembers, SizeItems, Inert, BehindAt, Moved, Size,
      Settled, OnlyAt, MembersEnd, ItemsEnd, MemberReads, ItemReads;
    SettledOnly(k, at, p);
    ValueStands(j, tokens, at, parent);
    LastChild(j);
    InertStep(k, tokens, at);
    SettledMore(k, at, at + 1, Some(p));
    NothingMoved(k, p, at + 1);
    k' := k;
    var stop := at + Size(j);
    var behind := BehindAt(tokens, stop);
    match j
    case Obj(members) =>
      k' := MembersCovered(p, members, tokens, at + 1, at, k);
      CoversThen(k, tokens, at, at + 1, stop, k, k', [], MemberReads(p, members, behind), false, MembersEnd(p, members));
      assert [] + MemberReads(p, members, behind) == MemberReads(p, members, behind);
      NoneIsLast(members, []);
      NoneEnds(p);
    case Arr(items) =>
      k' := ItemsCovered(p, items, None, tokens, at + 1, at, k);
      CoversThen(k, tokens, at, at + 1, stop, k, k', [], ItemReads(p, items, None, behind), false, ItemsEnd(p, items, None));
      assert [] + ItemReads(p, items, None, behind) == ItemReads(p, items, None, behind);
      NoneIsLast([], items);
      NoneEnds(p);
    case _ =>
  }

  lemma NoneEnds(p: Place)
    ensures !MembersEnd(p, []) && !ItemsEnd(p, [], None)
  {
  }

  lemma NoneIsLast(members: seq<Member>, items: seq<Json>)
    ensures SizeMembers(members) == 0 <==> members == []
    ensures SizeItems(items) == 0 <==> items == []
  {
  }

  lemma {:induction false} MembersCovered(p: Place, members: seq<Member>, tokens: seq<Token>, at: nat, parent: int, k: Keys)
    returns (k': Keys)
    requires Holds(p) && 0 < parent < at && Stands(tokens, at, FlattenMembers(members, at, parent))
    requires OnlyAt(k, p, parent) && Settled(k, at, None)
    ensures
      var stop := at + SizeMembers(members);
      Covers(k, tokens, at, stop, k', MemberReads(p, members, BehindAt(tokens, stop)), MembersEnd(p, members))
    ensures Moved(k, k', p, at) && OnlyAt(k', p, parent) && Settled(k', at + SizeMembers(members), None)
    decreases members
  {
    hide Covers, Stands, Flatten, FlattenMembers, SizeMembers, Size, BehindAt, Moved, Settled, OnlyAt, EndsAt, Opens;
    if members == [] {
      NoMembersStand(members, tokens, at, parent);
      CoversNothing(k, tokens, at);
      NothingMoved(k, p, at);
      k' := k;
    } else {
      var m, rest := members[0], members[1..];
      var mid, stop := at + 1 + Size(m.value), at + SizeMembers(members);
      MemberStands(members, tokens, at, parent);
      MembersBehind(rest, tokens, mid, parent);
      var k1 := MemberCovered(p, m, tokens, at, parent, k);
      k' := MembersCovered(p, rest, tokens, mid, parent, k1);
      MovedThen(k, k1, k', p, at, mid);
      var behind := BehindAt(tokens, stop);
      CoversThen(k, tokens, at, mid, stop, k1, k', MemberReads1(p, m, BehindMember(rest, behind)), MemberReads(p, rest, behind),
                 MemberEnds(p, m), MembersEnd(p, rest));
      NoneIsLast(rest, []);
    }
  }

  function MemberReads1(p: Place, m: Member, behind: Behind): seq<Write> {
    KeyReads(p, m.key, Head(m.value)) + NestedReads(p, m, behind)
  }

  predicate MemberEnds(p: Place, m: Member) {
    var n := Opens(p, m.key);
    n.Some? && EndsAt(n.value, m.value)
  }

  /** What stands behind a member or an item. */
  lemma MembersBehind(rest: seq<Member>, tokens: seq<Token>, at: nat, parent: int)
    requires Stands(tokens, at, FlattenMembers(rest, at, parent))
    ensures BehindAt(tokens, at) == BehindMember(rest, BehindAt(tokens, at + SizeMembers(rest)))
  {
    if rest != [] {
      MemberStands(rest, tokens, at, parent);
    }
  }

  lemma ItemsBehind(rest: seq<Json>, tokens: seq<Token>, at: nat, parent: int)
    requires Stands(tokens, at, FlattenItems(rest, at, parent))
    ensures BehindAt(tokens, at) == BehindItem(rest, BehindAt(tokens, at + SizeItems(rest)))
  {
    NoItemsStand(rest, tokens, at, parent);
    hide Stands, FlattenItems;
    if rest != [] {
      HeadBehind(rest[0], tokens, at, parent);
    }
  }

  /** A nested place opens no further one. */
  lemma {:induction false} NothingLeft(n: Place, items: seq<Json>, open: Option<Place>)
    requires n in {Lwm2mPsk, MqttPsk}
    ensures LastOpens(n, items, open) == if items == [] then open else None
    decreases items
  {
    if items != [] {
      NothingLeft(n, items[1..], OpensItem(n, items[0]));
    }
  }

  lemma NoneLeaves(n: Place, j: Json)
    requires n in {Lwm2mPsk, MqttPsk}
    ensures Leaves(n, j) == None
  {
    if j.Arr? { NothingLeft(n, j.items, None); }
  }

  /** One member at a place: its key, and its value. */
  lemma {:induction false} MemberCovered(p: Place, m: Member, tokens: seq<Token>, at: nat, parent: int, k: Keys)
    returns (k': Keys)
    requires Holds(p) && 0 < parent < at && OnlyAt(k, p, parent) && Settled(k, at, None)
    requires at + 1 < |tokens| && tokens[at] == Token(STRING, m.key, parent)
    requires Stands(tokens, at + 1, Flatten(m.value, at + 1, at)) && tokens[at + 1] == Flatten(m.value, at + 1, at)[0]
    ensures
      var stop := at + 1 + Size(m.value);
      Covers(k, tokens, at, stop, k', MemberReads1(p, m, BehindAt(tokens, stop)), MemberEnds(p, m))
    ensures Moved(k, k', p, at) && OnlyAt(k', p, parent) && Settled(k', at + 1 + Size(m.value), None)
    decreases m.value, 3
  {
    hide Covers, Stands, Flatten, Walk, Size, EndsAt, PlaceReads, KeyReads, BehindAt;
    var stop := at + 1 + Size(m.value);
    KeyCovered(k, tokens, at, p);
    KeyMoves(k, tokens, at, p, parent, None);
    HeadBehind(m.value, tokens, at + 1, at);
    var v := KeyStep(k, p, tokens, at);
    var w: seq<Write> := [];
    var n := Opens(p, m.key);
    if n.Some? {
      ValueRests(v.keys, m.value, at, n.value);
      k' := PlaceCovered(n.value, m.value, tokens, at + 1, at, v.keys);
      NoneLeaves(n.value, m.value);
      NestedThen(k, v.keys, k', p, n.value, at, at + 2);
      w := PlaceReads(n.value, m.value, BehindAt(tokens, stop));
    } else if SlotOf(p, m.key).None? && NestedOf(p, m.key) == Some(NtpUrl) {
      OpenNested(k, p, NtpUrl, parent, at, None);
      k' := UrlCovered(m.value, tokens, at + 1, v.keys);
      NestedThen(k, v.keys, k', p, NtpUrl, at, at + 1);
      w := if m.value.Arr? then ListWrites(m.value.items) else [];
    } else {
      k' := k;
      InertMemberValue(m.value, tokens, at + 1, k);
      SettledMore(k, at, stop, None);
    }
    MovedOnly(k, k', p, parent, at);
    CoversThen(k, tokens, at, at + 1, stop, v.keys, k', v.writes, w, p != Ntp, MemberEnds(p, m));
  }

  /** The value behind the key of a nested place. */
  lemma ValueRests(k: Keys, j: Json, at: nat, n: Place)
    requires at > 0 && Settled(k, at + 1, Some(n)) && n in {Lwm2mPsk, MqttPsk}
    requires forall q :: Watch(k, q) != at
    ensures Inert(k, Flatten(j, at + 1, at)[0])
  {
    RestingIsInert(k, j, at + 1, at);
  }

  lemma {:induction false} ItemsCovered(p: Place, items: seq<Json>, open: Option<Place>, tokens: seq<Token>, at: nat, parent: int, k: Keys)
    returns (k': Keys)
    requires Holds(p) && 0 < parent < at && Stands(tokens, at, FlattenItems(items, at, parent))
    requires OnlyAt(k, p, parent) && Settled(k, at, open) && (open.Some? ==> OpenedBy(p, open.value))
    ensures
      var stop := at + SizeItems(items);
      Covers(k, tokens, at, stop, k', ItemReads(p, items, open, BehindAt(tokens, stop)), ItemsEnd(p, items, open))
    ensures Moved(k, k', p, at) && OnlyAt(k', p, parent)
    ensures Settled(k', at + SizeItems(items), LastOpens(p, items, open))
    decreases items
  {
    hide Covers, Stands, Flatten, FlattenItems, SizeItems, Size, BehindAt, Moved, Settled, OnlyAt, EndsAt, PlaceReads, Opens;
    NoItemsStand(items, tokens, at, parent);
    if items == [] {
      CoversNothing(k, tokens, at);
      NothingMoved(k, p, at);
      k' := k;
    } else {
      var j, rest := items[0], items[1..];
      var mid, stop := at + Size(j), at + SizeItems(items);
      ItemsBehind(rest, tokens, mid, parent);
      OpensBy(p, j);
      var k1 := ItemAtCovered(p, j, open, tokens, at, parent, k);
      k' := ItemsCovered(p, rest, OpensItem(p, j), tokens, mid, parent, k1);
      MovedThen(k, k1, k', p, at, mid);
      var behind := BehindAt(tokens, stop);
      CoversThen(k, tokens, at, mid, stop, k1, k', ItemReads1(p, j, open, BehindItem(rest, behind)),
                 ItemReads(p, rest, OpensItem(p, j), behind), ItemEnds(p, j, open), ItemsEnd(p, rest, OpensItem(p, j)));
      NoneIsLast([], rest);
    }
  }

  predicate OpenedBy(p: Place, n: Place) {
    n in {Lwm2mPsk, MqttPsk} && p in {Lwm2m, Mqtt}
  }

  lemma OpensBy(p: Place, j: Json)
    ensures OpensItem(p, j).Some? ==> OpenedBy(p, OpensItem(p, j).value)
  {
  }

  function ItemReads1(p: Place, j: Json, open: Option<Place>, behind: Behind): seq<Write> {
    if j.Str? then KeyReads(p, j.text, behind)
    else if open.Some? then PlaceReads(open.value, j, behind)
    else []
  }

  predicate ItemEnds(p: Place, j: Json, open: Option<Place>) {
    if j.Str? then p != Ntp else open.Some? && EndsAt(open.value, j)
  }

  /** One item of an array at a place: a key, a value at the place the key before it opened, or nothing. */
  lemma {:induction false} ItemAtCovered(p: Place, j: Json, open: Option<Place>, tokens: seq<Token>, at: nat, parent: int, k: Keys)
    returns (k': Keys)
    requires Holds(p) && 0 < parent < at && Stands(tokens, at, Flatten(j, at, parent))
    requires OnlyAt(k, p, parent) && Settled(k, at, open) && (open.Some? ==> OpenedBy(p, open.value))
    ensures Covers(k, tokens, at, at + Size(j), k', ItemReads1(p, j, open, BehindAt(tokens, at + Size(j))), ItemEnds(p, j, open))
    ensures Moved(k, k', p, at) && OnlyAt(k', p, parent) && Settled(k', at + Size(j), OpensItem(p, j))
    decreases j, 3
  {
    hide Covers, Stands, Flatten, Size, BehindAt, EndsAt, PlaceReads, KeyReads, Opens;
    ValueStands(j, tokens, at, parent);
    HeadParent(j, at, parent);
    LastChild(j);
    if j.Str? {
      KeyCovered(k, tokens, at, p);
      KeyMoves(k, tokens, at, p, parent, open);
      k' := KeyStep(k, p, tokens, at).keys;
    } else {
      RestingIsInert(k, j, at, parent);
      if open.Some? {
        k' := PlaceCovered(open.value, j, tokens, at, parent, k);
        NoneLeaves(open.value, j);
        NothingMoved(k, p, at);
        NestedThen(k, k, k', p, open.value, at, at + 1);
      } else {
        k' := k;
        SettledBelow(k, at);
        InertValue(j, tokens, at, parent, k);
        NothingMoved(k, p, at);
        SettledMore(k, at, at + Size(j), None);
      }
      MovedOnly(k, k', p, parent, at);
    }
  }

  // ---------------------------------------------------------------------------
  // The document
  // ---------------------------------------------------------------------------

  lemma SectionStep(k: Keys, tokens: seq<Token>, i: nat)
    requires i < |tokens| && TopLevelKey(tokens[i])
    ensures
      var section := SectionOf(tokens[i].text);
      Covers(k, tokens, i, i + 1, if section.Some? then k.Set(section.value, i) else k, [], false)
  {
    var section := SectionOf(tokens[i].text);
    CoversStep(k, tokens, i, Visit(if section.Some? then k.Set(section.value, i) else k, []));
  }

  lemma OpenSection(k: Keys, p: Place, at: int, open: Option<Place>)
    requires Settled(k, at, open) && !Nestable(p) && (open.Some? ==> Nestable(open.value))
    ensures Settled(k.Set(p, at), at + 1, Some(p))
    ensures forall q :: Watch(k.Set(p, at), q) == at <==> open == Some(q)
  {
    WatchSet(k, p, at);
    hide Watch;
  }

  /** The value of a top-level key. */
  lemma SectionValueCovered(m: Member, open: Option<Place>, tokens: seq<Token>, at: nat, k: Keys) returns (k': Keys)
    requires at > 0 && Stands(tokens, at + 1, Flatten(m.value, at + 1, at))
    requires open.Some? ==> open.value in {Lwm2mPsk, MqttPsk}
    requires forall q :: Watch(k, q) == at <==> open == Some(q)
    requires Settled(k, at + 1, SectionOf(m.key))
    ensures
      var stop := at + 1 + Size(m.value);
      Covers(k, tokens, at + 1, stop, k', ValueReads(m, open, BehindAt(tokens, stop)), ValueEnds(m, open))
    ensures Settled(k', at + 1 + Size(m.value), LeavesOpen(m))
  {
    hide Covers, Stands, Flatten, Size, BehindAt, EndsAt, PlaceReads, KeyReads, Watch, SectionOf;
    var j, section := m.value, SectionOf(m.key);
    ValueStands(j, tokens, at + 1, at);
    HeadParent(j, at + 1, at);
    LastChild(j);
    SectionHolds(m.key);
    if j.Str? && open.Some? {
      KeyCovered(k, tokens, at + 1, open.value);
      NoNestedKey(open.value, j.text, k, tokens, at + 1);
      k' := k;
      SettledMore(k, at + 1, at + 2, section);
      SpilledOnly(m, open, BehindAt(tokens, at + 2));
    } else {
      RestingIsInert(k, j, at + 1, at);
      if section.Some? {
        k' := PlaceCovered(section.value, j, tokens, at + 1, at, k);
      } else {
        k' := k;
        SettledBelow(k, at + 1);
        InertValue(j, tokens, at + 1, at, k);
        SettledMore(k, at + 1, at + 1 + Size(j), None);
      }
      NothingSpilled(m, open, BehindAt(tokens, at + 1 + Size(j)));
    }
  }

  function ValueReads(m: Member, open: Option<Place>, behind: Behind): seq<Write> {
    var section := SectionOf(m.key);
    Spilled(open, m.value, behind) + (if section.Some? then PlaceReads(section.value, m.value, behind) else [])
  }

  predicate ValueEnds(m: Member, open: Option<Place>) {
    if m.value.Str? then open.Some?
    else SectionOf(m.key).Some? && EndsAt(SectionOf(m.key).value, m.value)
  }

  lemma SectionHolds(key: string)
    ensures SectionOf(key).Some? ==> Holds(SectionOf(key).value) && !Nestable(SectionOf(key).value)
  {
  }

  lemma NoNestedKey(n: Place, text: string, k: Keys, tokens: seq<Token>, i: nat)
    requires n in {Lwm2mPsk, MqttPsk} && i < |tokens|
    ensures KeyStep(k, n, tokens, i).keys == k
  {
  }

  lemma SpilledOnly(m: Member, open: Option<Place>, behind: Behind)
    requires m.value.Str? && open.Some?
    ensures ValueReads(m, open, behind) == KeyReads(open.value, m.value.text, behind) && LeavesOpen(m) == None
  {
  }

  lemma NothingSpilled(m: Member, open: Option<Place>, behind: Behind)
    requires !(m.value.Str? && open.Some?)
    ensures
      var section := SectionOf(m.key);
      && ValueReads(m, open, behind) == (if section.Some? then PlaceReads(section.value, m.value, behind) else [])
      && (section.Some? && m.value.Str? ==> !EndsAt(section.value, m.value))
  {
    hide PlaceReads, SectionOf;
    var section := SectionOf(m.key);
    assert section.Some? ==>
      [] + PlaceReads(section.value, m.value, behind) == PlaceReads(section.value, m.value, behind);
  }

  lemma LeavesNested(m: Member)
    ensures LeavesOpen(m).Some? ==> LeavesOpen(m).value in {Lwm2mPsk, MqttPsk}
  {
    if SectionOf(m.key).Some? && m.value.Arr? {
      LastNested(SectionOf(m.key).value, m.value.items, None);
    }
  }

  lemma {:induction false} LastNested(p: Place, items: seq<Json>, open: Option<Place>)
    requires open.Some? ==> open.value in {Lwm2mPsk, MqttPsk}
    ensures LastOpens(p, items, open).Some? ==> LastOpens(p, items, open).value in {Lwm2mPsk, MqttPsk}
    decreases items
  {
    if items != [] {
      LastNested(p, items[1..], OpensItem(p, items[0]));
    }
  }

  lemma {:induction false} DocumentCovered(members: seq<Member>, open: Option<Place>, tokens: seq<Token>, at: nat, k: Keys)
    returns (k': Keys)
    requires at > 0 && Settled(k, at, open) && (open.Some? ==> open.value in {Lwm2mPsk, MqttPsk})
    requires Stands(tokens, at, FlattenMembers(members, at, 0)) && at + SizeMembers(members) == |tokens|
    ensures Covers(k, tokens, at, |tokens|, k', DocumentReads(members, open), DocumentEnds(members, open))
    decreases |members|
  {
    hide Covers, Stands, Flatten, FlattenMembers, SizeMembers, Size, EndsAt, PlaceReads, SectionOf, Leaves, Watch, Spilled;
    if members == [] {
      NoMembersStand(members, tokens, at, 0);
      CoversNothing(k, tokens, at);
      k' := k;
    } else {
      var m, rest := members[0], members[1..];
      var section, mid := SectionOf(m.key), at + 1 + Size(m.value);
      MemberStands(members, tokens, at, 0);
      MembersBehind(rest, tokens, mid, 0);
      SectionStep(k, tokens, at);
      var k1 := if section.Some? then k.Set(section.value, at) else k;
      OpenedAt(m.key, k, at, open);
      var k2 := SectionValueCovered(m, open, tokens, at, k1);
      LeavesNested(m);
      k' := DocumentCovered(rest, LeavesOpen(m), tokens, mid, k2);
      var w1, w2 := ValueReads(m, open, BehindMember(rest, End)), DocumentReads(rest, LeavesOpen(m));
      CoversThen(k, tokens, at, at + 1, mid, k1, k2, [], w1, false, ValueEnds(m, open));
      assert [] + w1 == w1;
      NoneIsLast(rest, []);
      CoversThen(k, tokens, at, mid, |tokens|, k2, k', w1, w2, ValueEnds(m, open), DocumentEnds(rest, LeavesOpen(m)));
    }
  }

  lemma OpenedAt(key: string, k: Keys, at: nat, open: Option<Place>)
    requires Settled(k, at, open) && (open.Some? ==> open.value in {Lwm2mPsk, MqttPsk})
    ensures
      var section := SectionOf(key);
      var k1 := if section.Some? then k.Set(section.value, at) else k;
      && Settled(k1, at + 1, section) && forall q :: Watch(k1, q) == at <==> open == Some(q)
  {
    var section := SectionOf(key);
    SectionHolds(key);
    if section.Some? {
      OpenSection(k, section.value, at, open);
    } else {
      SettledMore(k, at, at + 1, open);
    }
  }

  /**
   For every document whose root is an object: what the one pass over its flat tokens finds, as a
   recursion over the tree, and exactly when it stays in bounds.
   */
  lemma WalkReads(members: seq<Member>)
    ensures
      var tokens := Flatten(Obj(members), 0, -1);
      && Walk(UNSEEN, tokens, 0, |tokens|).writes == DocumentReads(members, None)
      && (InBounds(UNSEEN, tokens, 0, |tokens|) <==> !EndsInKey(members))
  {
    assert members == [] ==> !EndsInKey(members);
    hide Flatten, FlattenMembers, SizeMembers, Stands, Walk, InBounds, DocumentReads, DocumentEnds;
    var tokens := Flatten(Obj(members), 0, -1);
    DocumentStands(members);
    RootStep(tokens);
    SettledBelow(UNSEEN, 1);
    var k := DocumentCovered(members, None, tokens, 1, UNSEEN);
    CoversThen(UNSEEN, tokens, 0, 1, |tokens|, UNSEEN, k, [], DocumentReads(members, None), false, EndsInKey(members));
    assert [] + DocumentReads(members, None) == DocumentReads(members, None);
    NoneIsLast(members, []);
  }

  lemma DocumentStands(members: seq<Member>)
    ensures
      var tokens := Flatten(Obj(members), 0, -1);
      && tokens[0] == Token(OBJECT, "", -1)
      && Stands(tokens, 1, FlattenMembers(members, 1, 0)) && |tokens| == 1 + SizeMembers(members)
  {
    hide FlattenMembers, SizeMembers;
    var tokens := Flatten(Obj(members), 0, -1);
    assert tokens[1..] == FlattenMembers(members, 1, 0);
  }

  lemma RootStep(tokens: seq<Token>)
    requires tokens != [] && tokens[0] == Token(OBJECT, "", -1)
    ensures Covers(UNSEEN, tokens, 0, 1, UNSEEN, [], false) && Below(UNSEEN, 1)
  {
    assert Inert(UNSEEN, tokens[0]);
    InertStep(UNSEEN, tokens, 0);
    hide Covers;
  }

  // ---------------------------------------------------------------------------
  // When that is what lookup finds
  // ---------------------------------------------------------------------------

  /** Of what is read, `extra` is not found by lookup. */
  predicate Beyond(read: seq<Write>, found: seq<Write>, extra: seq<Write>) {
    |read| == |found| + |extra| && (extra == [] ==> read == found)
  }

  lemma BeyondThen(r1: seq<Write>, f1: seq<Write>, e1: seq<Write>, r2: seq<Write>, f2: seq<Write>, e2: seq<Write>)
    requires Beyond(r1, f1, e1) && Beyond(r2, f2, e2)
    ensures Beyond(r1 + r2, f1 + f2, e1 + e2)
  {
    assert e1 + e2 == [] ==> e1 == [] && e2 == [];
  }

  lemma {:induction false} PlaceBeyond(p: Place, j: Json, behind: Behind)
    ensures Beyond(PlaceReads(p, j, behind), PlaceWrites(p, j), PlaceMisread(p, j, behind))
    decreases j, 1
  {
    if j.Obj? {
      MembersBeyond(p, j.members, behind);
    }
  }

  lemma {:induction false} MembersBeyond(p: Place, members: seq<Member>, behind: Behind)
    ensures Beyond(MemberReads(p, members, behind), MemberWrites(p, members), MemberMisread(p, members, behind))
    decreases members
  {
    if members != [] {
      var m, rest := members[0], members[1..];
      var next, n := BehindMember(rest, behind), Opens(p, m.key);
      var extra := if n.None? then [] else PlaceMisread(n.value, m.value, next);
      if n.Some? {
        PlaceBeyond(n.value, m.value, next);
      }
      MemberBeyond(p, m, next, extra);
      MembersBeyond(p, rest, behind);
      BeyondThen(MemberReads1(p, m, next), ValueWrites(p, m), extra,
                 MemberReads(p, rest, behind), MemberWrites(p, rest), MemberMisread(p, rest, behind));
    }
  }

  lemma MemberBeyond(p: Place, m: Member, next: Behind, extra: seq<Write>)
    requires
      var n := Opens(p, m.key);
      if n.None? then extra == []
      else Beyond(PlaceReads(n.value, m.value, next), PlaceWrites(n.value, m.value), extra)
    ensures Beyond(MemberReads1(p, m, next), ValueWrites(p, m), extra)
  {
    hide PlaceReads, PlaceWrites;
    if Opens(p, m.key).Some? {
      assert KeyReads(p, m.key, Head(m.value)) == [];
      assert [] + NestedReads(p, m, next) == NestedReads(p, m, next);
    }
  }

  lemma {:induction false} DocumentBeyond(members: seq<Member>, open: Option<Place>)
    ensures Beyond(DocumentReads(members, open), DocumentWrites(members), DocumentMisread(members, open))
    decreases members
  {
    hide PlaceReads, PlaceWrites, PlaceMisread, Spilled, SectionOf, LeavesOpen;
    if members != [] {
      var m, rest := members[0], members[1..];
      var next, section := BehindMember(rest, End), SectionOf(m.key);
      var spilled := Spilled(open, m.value, next);
      var r1 := if section.Some? then PlaceReads(section.value, m.value, next) else [];
      var f1 := if section.Some? then PlaceWrites(section.value, m.value) else [];
      var e1 := if section.Some? then PlaceMisread(section.value, m.value, next) else [];
      if section.Some? {
        PlaceBeyond(section.value, m.value, next);
      }
      DocumentBeyond(rest, LeavesOpen(m));
      BeyondThen(spilled, [], spilled, r1, f1, e1);
      BeyondThen(spilled + r1, [] + f1, spilled + e1,
                 DocumentReads(rest, LeavesOpen(m)), DocumentWrites(rest), DocumentMisread(rest, LeavesOpen(m)));
      assert [] + f1 == f1;
    }
  }

  /**
   For every document whose root is an object, the pass finds what lookup in the tree finds, in
   document order, if and only if the arrays in the place of objects contribute nothing.
   */
  lemma WalkIsLookup(members: seq<Member>)
    ensures
      var tokens := Flatten(Obj(members), 0, -1);
      Walk(UNSEEN, tokens, 0, |tokens|).writes == DocumentWrites(members) <==> DocumentMisread(members, None) == []
  {
    hide Walk, Flatten, DocumentReads, DocumentWrites, DocumentMisread, DocumentEnds, InBounds;
    WalkReads(members);
    DocumentBeyond(members, None);
  }

  /** Without arrays in the place of objects both hold: nothing is misread, and the pass stays in bounds. */
  lemma {:induction false} ShapedDocument(members: seq<Member>)
    requires WellShaped(members)
    ensures DocumentMisread(members, None) == [] && !EndsInKey(members)
    decreases members
  {
    if members != [] {
      ShapedDocument(members[1..]);
      var section := SectionOf(members[0].key);
      if section.Some? {
        ShapedPlace(section.value, members[0].value, BehindMember(members[1..], End));
      }
    }
  }

  lemma {:induction false} ShapedPlace(p: Place, j: Json, behind: Behind)
    requires PlaceShaped(p, j)
    ensures PlaceMisread(p, j, behind) == [] && !EndsAt(p, j)
    decreases j, 1
  {
    if j.Obj? {
      ShapedMembers(p, j.members, behind);
    }
  }

  lemma {:induction false} ShapedMembers(p: Place, members: seq<Member>, behind: Behind)
    requires MembersShaped(p, members)
    ensures MemberMisread(p, members, behind) == [] && !MembersEnd(p, members)
    decreases members
  {
    if members != [] {
      ShapedMembers(p, members[1..], behind);
      var n := Opens(p, members[0].key);
      if n.Some? {
        ShapedPlace(n.value, members[0].value, BehindMember(members[1..], behind));
      }
    }
  }

  // ---------------------------------------------------------------------------
  // Two documents with arrays
  // ---------------------------------------------------------------------------

  /** The pass looks behind the last token of a document that ends in a string of a section's array. */
  const ENDS_IN_KEY: seq<Member> := [Member("wifi", Arr([Str("ssid")]))]

  lemma ArraySectionOverreads()
    ensures
      var tokens := Flatten(Obj(ENDS_IN_KEY), 0, -1);
      !InBounds(UNSEEN, tokens, 0, |tokens|)
  {
    assert DocumentEnds(ENDS_IN_KEY, None);
    hide Flatten, InBounds, DocumentEnds, DocumentReads;
    WalkReads(ENDS_IN_KEY);
  }

  /** The pass takes a string of a section's array as a key, and the next one as its value. */
  const MISREAD: seq<Member> := [Member("wifi", Arr([Str("ssid"), Str("foo"), Prim("1")]))]

  lemma ArrayItemMisread()
    ensures
      var tokens := Flatten(Obj(MISREAD), 0, -1);
      && InBounds(UNSEEN, tokens, 0, |tokens|)
      && Walk(UNSEEN, tokens, 0, |tokens|).writes == [Write(WifiSsid, "foo")]
      && DocumentWrites(MISREAD) == []
  {
    MisreadItems();
    var items := MISREAD[0].value.items;
    assert DocumentReads(MISREAD[1..], None) == [];
    assert LeavesOpen(MISREAD[0]) == LastOpens(Wifi, items, None);
    assert DocumentReads(MISREAD, None) == [Write(WifiSsid, "foo")];
    hide Flatten, InBounds, DocumentReads, Walk;
    WalkReads(MISREAD);
  }

  lemma MisreadItems()
    ensures ItemReads(Wifi, [Str("ssid"), Str("foo"), Prim("1")], None, End) == [Write(WifiSsid, "foo")]
    ensures !ItemsEnd(Wifi, [Str("ssid"), Str("foo"), Prim("1")], None)
  {
    var items := [Str("ssid"), Str("foo"), Prim("1")];
    assert items[1..] == [Str("foo"), Prim("1")] && items[1..][1..] == [Prim("1")] && items[1..][1..][1..] == [];
    assert ItemReads(Wifi, [Prim("1")], None, End) == [];
    assert ItemReads(Wifi, [Str("foo"), Prim("1")], None, End) == [];
  }
}
