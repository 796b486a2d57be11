/** The walk of miso_load_config in its own form: raw tokens, a text buffer, fixed-size character arrays. */
module ConfigLoad {
  import opened ConfigTree
  import opened ConfigProof
  import opened CStrings

  // ---------------------------------------------------------------------------
  // Configuration buffers
  // ---------------------------------------------------------------------------

  function SizeOf(slot: Slot): nat {
    match slot
    case WifiSsid => 32 case WifiKey => 32
    case Lwm2mUri => 128 case Lwm2mEndpoint => 128 case Lwm2mPskId => 128 case Lwm2mPskKey => 64
    case NtpServer => 64
    case MqttUri => 128 case MqttDevice => 128 case MqttPskId => 128 case MqttPskKey => 64
    case HttpUri => 128 case HttpSigUri => 128 case HttpKey => 256
    case ConfigUri => 128
  }

  /** copyString: clip to the buffer, clear it, copy. */
  function Stored(text: string, size: nat): (r: string)
    ensures |r| == size
  {
    var n := if |text| > size then size else |text|;
    Copied(Zeros(size), text, n)
  }

  type Buffers = map<Slot, string>

  predicate Sized(b: Buffers) {
    forall s: Slot :: s in b && |b[s]| == SizeOf(s)
  }

  /** Every value but the NTP server goes through copyString; that one is copied over the old text. */
  function Apply(b: Buffers, w: Write): (r: Buffers)
    requires Sized(b) && Fits(w)
    ensures Sized(r)
  {
    b[w.slot := if w.slot == NtpServer then Copied(b[NtpServer], w.text, |w.text|)
                else Stored(w.text, SizeOf(w.slot))]
  }

  /** The unclipped copy of an NTP server stays inside its buffer. */
  predicate Fits(w: Write) {
    w.slot == NtpServer ==> |w.text| <= SizeOf(NtpServer)
  }

  predicate AllFit(ws: seq<Write>) {
    forall i :: 0 <= i < |ws| ==> Fits(ws[i])
  }

  function ApplyAll(b: Buffers, ws: seq<Write>): (r: Buffers)
    requires Sized(b) && AllFit(ws)
    ensures Sized(r)
  {
    if ws == [] then b else Apply(ApplyAll(b, ws[..|ws| - 1]), ws[|ws| - 1])
  }

  // ---------------------------------------------------------------------------
  // What the buffers hold in the end
  // ---------------------------------------------------------------------------

  /** The text of the last value found for a slot. */
  function LastText(ws: seq<Write>, slot: Slot): Option<string> {
    if ws == [] then None
    else if ws[|ws| - 1].slot == slot then Some(ws[|ws| - 1].text)
    else LastText(ws[..|ws| - 1], slot)
  }

  /** Each buffer holds the last value found for it, clipped to its size, and nothing else was touched. */
  lemma {:induction false} LastValueWins(b: Buffers, ws: seq<Write>, slot: Slot)
    requires Sized(b) && AllFit(ws) && slot != NtpServer
    ensures ApplyAll(b, ws)[slot] == match LastText(ws, slot) { case None => b[slot] case Some(t) => Stored(t, SizeOf(slot)) }
    decreases |ws|
  {
    if ws != [] {
      LastValueWins(b, ws[..|ws| - 1], slot);
    }
  }

  /** The NTP buffer starts with the last server found; behind that text it keeps what earlier servers left. */
  lemma {:induction false} LastServerInFront(b: Buffers, ws: seq<Write>, i: nat)
    requires Sized(b) && AllFit(ws) && i < |ws| && ws[i].slot == NtpServer
    requires forall j :: i < j < |ws| ==> ws[j].slot != NtpServer
    ensures
      var text, before := ws[i].text, ApplyAll(b, ws[..i])[NtpServer];
      && |text| <= |before| && ApplyAll(b, ws)[NtpServer] == Copied(before, text, |text|)
      && CString(text) <= ApplyAll(b, ws)[NtpServer]
      && ApplyAll(b, ws)[NtpServer][|text|..] == before[|text|..]
    decreases |ws|
  {
    hide CString;
    assert Fits(ws[i]);
    if i < |ws| - 1 {
      var front := ws[..|ws| - 1];
      assert front[i] == ws[i] && front[..i] == ws[..i];
      LastServerInFront(b, front, i);
      assert ws[|ws| - 1].slot != NtpServer;
    } else {
      assert ws[i].text[..|ws[i].text|] == ws[i].text;
    }
  }

  lemma {:induction false} NothingForNtp(b: Buffers, ws: seq<Write>)
    requires Sized(b) && AllFit(ws) && LastText(ws, NtpServer).None?
    ensures ApplyAll(b, ws)[NtpServer] == b[NtpServer]
    decreases |ws|
  {
    if ws != [] {
      NothingForNtp(b, ws[..|ws| - 1]);
    }
  }

  /**
   The NTP buffer holds the new server alone exactly when what stood behind the new text's
   end was clear before; a shorter server leaves the tail of a longer one behind it.
   */
  lemma NtpTailStays(buffer: string, text: string)
    requires |text| <= |buffer| == SizeOf(NtpServer)
    ensures Copied(buffer, text, |text|) == Stored(text, SizeOf(NtpServer))
      <==> forall i :: |text| <= i < |buffer| ==> buffer[i] == '\0'
  {
    var c := CString(text[..|text|]);
    var copied, stored := Copied(buffer, text, |text|), Stored(text, |buffer|);
    assert forall i :: |text| <= i < |buffer| ==> copied[i] == buffer[i] && stored[i] == '\0';
    assert forall i :: 0 <= i < |text| ==> copied[i] == stored[i];
  }

  /**
   A stored value reads back through the C string functions exactly when it is shorter than
   its buffer; a longer one is clipped without a terminator, and a reader runs off the buffer.
   */
  lemma StoredTerminated(text: string, size: nat)
    ensures '\0' in Stored(text, size) <==> |CString(text)| < size
    ensures |CString(text)| < size ==> CString(Stored(text, size)) == CString(text)
  {
    hide Stored, CString, Zeros;
    var n := if |text| > size then size else |text|;
    FrontText(text, n);
    StoredIs(text, size);
    Padded(CString(text[..n]), size - |CString(text[..n])|);
  }

  lemma StoredIs(text: string, size: nat)
    ensures
      var n := if |text| > size then size else |text|;
      var c := CString(text[..n]);
      |c| <= size && Stored(text, size) == c + Zeros(size - |c|)
  {
    hide CString;
    var n := if |text| > size then size else |text|;
    assert text[..n][..n] == text[..n];
    assert Zeros(size)[n..] == Zeros(size - n);
  }

  lemma Padded(c: string, k: nat)
    requires '\0' !in c
    ensures '\0' in c + Zeros(k) <==> k > 0
    ensures k > 0 ==> CString(c + Zeros(k)) == c
  {
    if k > 0 {
      assert (c + Zeros(k))[|c|] == '\0';
      UpTo(c, c + Zeros(k));
    } else {
      assert c + Zeros(0) == c;
    }
  }

  /** The text behind which a buffer holds only NULs. */
  predicate ClearFrom(buffer: string, n: nat) {
    forall i :: n <= i < |buffer| ==> buffer[i] == '\0'
  }

  /** No NTP server of the list is longer than `n`. */
  predicate ServersWithin(ws: seq<Write>, n: nat) {
    forall j :: 0 <= j < |ws| && ws[j].slot == NtpServer ==> |ws[j].text| <= n
  }

  predicate PlainServers(ws: seq<Write>) {
    forall j :: 0 <= j < |ws| && ws[j].slot == NtpServer ==> '\0' !in ws[j].text
  }

  /** The NTP buffer is clear from `n` on exactly when it was before and no server reached further. */
  lemma {:induction false} ClearAfter(b: Buffers, ws: seq<Write>, n: nat)
    requires Sized(b) && AllFit(ws) && PlainServers(ws)
    ensures ClearFrom(ApplyAll(b, ws)[NtpServer], n) <==> ClearFrom(b[NtpServer], n) && ServersWithin(ws, n)
    decreases |ws|
  {
    hide CString, Copied, Stored, ClearFrom, ServersWithin, PlainServers;
    if ws == [] {
      ServersThen([], ws, n);
    } else {
      var front, w := ws[..|ws| - 1], ws[|ws| - 1];
      assert ws == front + [w];
      ServersThen(front, [w], n);
      ClearAfter(b, front, n);
      if w.slot == NtpServer {
        assert Fits(ws[|ws| - 1]);
        ClearCopied(ApplyAll(b, front)[NtpServer], w.text, n);
      }
    }
  }

  lemma ServersThen(ws: seq<Write>, more: seq<Write>, n: nat)
    requires |more| <= 1
    ensures ServersWithin([], n)
    ensures PlainServers(ws + more) ==> PlainServers(ws)
    ensures more != [] && more[0].slot == NtpServer && PlainServers(ws + more) ==> '\0' !in more[0].text
    ensures ServersWithin(ws + more, n) <==>
      ServersWithin(ws, n) && (more != [] && more[0].slot == NtpServer ==> |more[0].text| <= n)
  {
    var all := ws + more;
    assert forall j :: 0 <= j < |ws| ==> all[j] == ws[j];
    assert more != [] ==> all[|ws|] == more[0];
  }

  lemma ClearCopied(buffer: string, text: string, n: nat)
    requires |text| <= |buffer| && '\0' !in text
    ensures ClearFrom(Copied(buffer, text, |text|), n) <==> ClearFrom(buffer, n) && |text| <= n
  {
    hide CString;
    NoNul(text);
    assert text[..|text|] == text;
    var after := Copied(buffer, text, |text|);
    assert after == text + buffer[|text|..];
    assert forall i :: 0 <= i < |text| ==> after[i] == text[i] && text[i] in text;
    assert forall i :: |text| <= i < |after| ==> after[i] == buffer[i];
    assert |text| > n ==> after[|text| - 1] != '\0';
  }

  /**
   After a whole list of values the NTP buffer holds the last server and nothing else exactly when
   the buffer was clear behind it to begin with and no earlier server was longer.
   */
  lemma LastServerAlone(b: Buffers, ws: seq<Write>, i: nat)
    requires Sized(b) && AllFit(ws) && PlainServers(ws) && i < |ws| && ws[i].slot == NtpServer
    requires forall j :: i < j < |ws| ==> ws[j].slot != NtpServer
    ensures
      var text := ws[i].text;
      (ApplyAll(b, ws)[NtpServer] == Stored(text, SizeOf(NtpServer)))
      <==> (ClearFrom(b[NtpServer], |text|) && ServersWithin(ws[..i], |text|))
  {
    hide Copied, Stored, CString;
    var text := ws[i].text;
    LastServerInFront(b, ws, i);
    assert forall j :: 0 <= j < i ==> ws[..i][j] == ws[j];
    assert AllFit(ws[..i]) && PlainServers(ws[..i]);
    var before := ApplyAll(b, ws[..i])[NtpServer];
    NtpTailStays(before, text);
    ClearAfter(b, ws[..i], |text|);
    assert ClearFrom(before, |text|) <==> forall j :: |text| <= j < |before| ==> before[j] == '\0';
  }

  // ---------------------------------------------------------------------------
  // Whole documents
  // ---------------------------------------------------------------------------

  /** What a document leaves in the buffers, for every document whose root is an object. */
  function Loaded(b: Buffers, members: seq<Member>): (r: Buffers)
    requires Sized(b) && AllFit(DocumentReads(members, None))
    ensures Sized(r)
  {
    ApplyAll(b, DocumentReads(members, None))
  }

  /** A buffer but the NTP one: the last value the document has for it, or what it held. */
  lemma DocumentEffect(members: seq<Member>, b: Buffers, slot: Slot)
    requires Sized(b) && AllFit(DocumentReads(members, None)) && slot != NtpServer
    ensures
      var ws := DocumentReads(members, None);
      && Loaded(b, members)[slot] ==
           (match LastText(ws, slot) { case None => b[slot] case Some(t) => Stored(t, SizeOf(slot)) })
      && (DocumentMisread(members, None) == [] ==> ws == DocumentWrites(members))
  {
    hide DocumentReads, DocumentWrites, DocumentMisread;
    DocumentBeyond(members, None);
    LastValueWins(b, DocumentReads(members, None), slot);
  }

  /** The NTP buffer: the last server alone, exactly when no longer text was there before or came before it. */
  lemma DocumentServer(members: seq<Member>, b: Buffers, ws: seq<Write>, i: nat)
    requires ws == DocumentReads(members, None)
    requires Sized(b) && AllFit(ws) && PlainServers(ws) && i < |ws| && ws[i].slot == NtpServer
    requires forall j :: i < j < |ws| ==> ws[j].slot != NtpServer
    ensures
      var text := ws[i].text;
      (Loaded(b, members)[NtpServer] == Stored(text, SizeOf(NtpServer)))
      <==> (ClearFrom(b[NtpServer], |text|) && ServersWithin(ws[..i], |text|))
  {
    hide DocumentReads;
    LastServerAlone(b, ws, i);
  }

  // ---------------------------------------------------------------------------
  // Raw tokens
  // ---------------------------------------------------------------------------

  datatype RawToken = RawToken(kind: Kind, start: nat, end: nat, parent: int)

  /** A raw token and the token it stands for; a string is followed by its closing quote. */
  predicate Means(js: string, raw: RawToken, t: Token) {
    && raw.kind == t.kind && raw.parent == t.parent
    && (raw.kind == STRING ==> raw.start <= raw.end < |js| && js[raw.start..raw.end] == t.text && js[raw.end] == '"')
  }

  predicate AllMean(js: string, raw: seq<RawToken>, tokens: seq<Token>) {
    |raw| == |tokens| && forall i :: 0 <= i < |raw| ==> Means(js, raw[i], tokens[i])
  }

  // ---------------------------------------------------------------------------
  // The walk
  // ---------------------------------------------------------------------------

  method CopyString(dest: array<char>, js: string, start: nat, length: nat)
    requires start + length <= |js|
    modifies dest
    ensures dest[..] == Stored(js[start..start + length], dest.Length)
  {
    var n := if length > dest.Length then dest.Length else length;
    var i := 0;
    while i < dest.Length
      invariant 0 <= i <= dest.Length
      invariant forall j :: 0 <= j < i ==> dest[j] == '\0'
    {
      dest[i] := '\0';
      i := i + 1;
    }
    assert dest[..] == Zeros(dest.Length);
    StrNCpy(dest, js, start, n);
    assert js[start..start + n] == js[start..start + length][..n];
    assert js[start..start + n][..n] == js[start..start + length][..n];
  }

  class Loader {
    const js: string
    const raw: seq<RawToken>
    ghost const tokens: seq<Token>
    const buffers: map<Slot, array<char>>
    var wifiKey: int
    var lwm2mKey: int
    var ntpKey: int
    var lwm2mPskKey: int
    var ntpUrlKey: int
    var ntpUrlArray: int
    var mqttKey: int
    var mqttPskKey: int
    var httpKey: int
    var configKey: int

    constructor (js: string, raw: seq<RawToken>, ghost tokens: seq<Token>, buffers: map<Slot, array<char>>)
      requires AllMean(js, raw, tokens)
      requires forall s: Slot :: s in buffers && buffers[s].Length == SizeOf(s)
      requires forall s: Slot, t: Slot :: s != t ==> buffers[s] != buffers[t]
      ensures Valid() && this.tokens == tokens && this.buffers == buffers
    {
      this.js, this.raw, this.tokens, this.buffers := js, raw, tokens, buffers;
      wifiKey, lwm2mKey, ntpKey, lwm2mPskKey, ntpUrlKey := -128, -128, -128, -128, -128;
      ntpUrlArray, mqttKey, mqttPskKey, httpKey, configKey := -128, -128, -128, -128, -128;
    }

    /** The buffers are fifteen different arrays of the declared sizes. */
    ghost predicate Valid() {
      && AllMean(js, raw, tokens)
      && (forall s: Slot :: s in buffers && buffers[s].Length == SizeOf(s))
      && (forall s: Slot, t: Slot :: s != t ==> buffers[s] != buffers[t])
    }

    ghost function Arrays(): set<array<char>>
    {
      set s | s in buffers :: buffers[s]
    }

    ghost function Contents(): (b: Buffers)
      requires Valid()
      reads Arrays()
      ensures Sized(b)
    {
      map s | s in buffers :: buffers[s][..]
    }

    ghost function KeysNow(): Keys
      reads this
    {
      Keys(wifiKey, lwm2mKey, ntpKey, mqttKey, httpKey, configKey, lwm2mPskKey, mqttPskKey, ntpUrlKey, ntpUrlArray)
    }

    /** strncmp of the text at token `i` with a keyword, over the keyword's length. */
    method StartsWith(i: nat, keyword: string) returns (r: bool)
      requires Valid() && i < |raw| && raw[i].kind == STRING && '"' !in keyword
      ensures r <==> keyword <= tokens[i].text
    {
      ghost var text := tokens[i].text;
      var start := raw[i].start;
      var j := 0;
      while j < |keyword|
        invariant 0 <= j <= |keyword| && j <= |text|
        invariant keyword[..j] == text[..j]
      {
        assert j < |text| ==> js[start + j] == text[j];
        assert keyword[j] != '"';
        if js[start + j] != keyword[j] {
          return false;
        }
        j := j + 1;
      }
      return true;
    }

    /** copyString into the buffer of a slot. */
    method CopyInto(slot: Slot, start: nat, length: nat)
      requires Valid() && start + length <= |js|
      modifies Arrays()
      ensures Contents() == old(Contents())[slot := Stored(js[start..start + length], SizeOf(slot))]
    {
      hide Stored, SizeOf;
      CopyString(buffers[slot], js, start, length);
      assert forall s: Slot :: s != slot ==> buffers[s][..] == old(buffers[s][..]);
    }

    /** The NTP server is copied with its own length, over whatever the buffer holds. */
    method CopyServer(start: nat, length: nat)
      requires Valid() && start + length <= |js| && length <= SizeOf(NtpServer)
      modifies Arrays()
      ensures Contents() == old(Contents())[NtpServer := Copied(old(Contents())[NtpServer], js[start..start + length], length)]
    {
      hide Copied;
      StrNCpy(buffers[NtpServer], js, start, length);
      assert forall s: Slot :: s != NtpServer ==> buffers[s][..] == old(buffers[s][..]);
    }

    /** The text of the token behind token `i`, if it is a string. */
    method CopyValue(i: nat, slot: Slot)
      requires Valid() && i + 1 < |raw| && slot != NtpServer
      modifies Arrays()
      ensures Contents() ==
        if tokens[i + 1].kind == STRING then Apply(old(Contents()), Write(slot, tokens[i + 1].text)) else old(Contents())
    {
      hide Stored, SizeOf;
      var value := raw[i + 1];
      if value.kind == STRING {
        CopyInto(slot, value.start, value.end - value.start);
      }
    }

    /** What a visit of token `i` must leave behind. */
    twostate predicate Did(v: Visit)
      requires Valid()
      reads this, Arrays()
    {
      && KeysNow() == v.keys
      && AllFit(v.writes)
      && Contents() == ApplyAll(old(Contents()), v.writes)
    }

    method IsUriKey(i: nat) returns (r: bool)
      requires Valid() && i < |raw| && raw[i].kind == STRING
      ensures r <==> IsUri(tokens[i].text)
    {
      r := StartsWith(i, "uri");
      if !r {
        r := StartsWith(i, "url");
      }
    }

    method IsDeviceKey(i: nat) returns (r: bool)
      requires Valid() && i < |raw| && raw[i].kind == STRING
      ensures r <==> "endpoint" <= tokens[i].text || "device" <= tokens[i].text
    {
      r := StartsWith(i, "endpoint");
      if !r {
        r := StartsWith(i, "device");
      }
    }

    method VisitWifi(i: nat)
      requires Valid() && i + 1 < |raw| && raw[i].kind == STRING
      modifies this, Arrays()
      ensures Did(KeyStep(old(KeysNow()), Wifi, tokens, i))
    {
      hide Apply, ApplyAll, Stored, SizeOf, Contents, Copied, CString;
      NothingApplied(Contents());
      ApplyValue(Contents(), tokens[i + 1], Wifi, tokens[i].text);
      var ssid := StartsWith(i, "ssid");
      if ssid {
        CopyValue(i, WifiSsid);
      } else {
        var key := StartsWith(i, "key");
        if key {
          CopyValue(i, WifiKey);
        }
      }
    }

    method VisitLwm2m(i: nat)
      requires Valid() && i + 1 < |raw| && raw[i].kind == STRING
      modifies this, Arrays()
      ensures Did(KeyStep(old(KeysNow()), Lwm2m, tokens, i))
    {
      hide Apply, ApplyAll, Stored, SizeOf, Contents, Copied, CString;
      NothingApplied(Contents());
      ApplyValue(Contents(), tokens[i + 1], Lwm2m, tokens[i].text);
      var uri := IsUriKey(i);
      if uri {
        CopyValue(i, Lwm2mUri);
      } else {
        VisitLwm2mOther(i);
      }
    }

    method VisitLwm2mOther(i: nat)
      requires Valid() && i + 1 < |raw| && raw[i].kind == STRING && !IsUri(tokens[i].text)
      modifies this, Arrays()
      ensures Did(KeyStep(old(KeysNow()), Lwm2m, tokens, i))
    {
      hide Apply, ApplyAll, Stored, SizeOf, Contents, Copied, CString, IsUri;
      NothingApplied(Contents());
      ApplyValue(Contents(), tokens[i + 1], Lwm2m, tokens[i].text);
      Lwm2mKeysDisjoint(tokens[i].text);
      var psk := StartsWith(i, "psk");
      if psk {
        lwm2mPskKey := i;
      } else {
        var device := IsDeviceKey(i);
        if device {
          CopyValue(i, Lwm2mEndpoint);
        }
      }
    }

    method VisitMqtt(i: nat)
      requires Valid() && i + 1 < |raw| && raw[i].kind == STRING
      modifies this, Arrays()
      ensures Did(KeyStep(old(KeysNow()), Mqtt, tokens, i))
    {
      hide Apply, ApplyAll, Stored, SizeOf, Contents, Copied, CString;
      NothingApplied(Contents());
      ApplyValue(Contents(), tokens[i + 1], Mqtt, tokens[i].text);
      var uri := IsUriKey(i);
      if uri {
        CopyValue(i, MqttUri);
      } else {
        var device := StartsWith(i, "device");
        var psk := StartsWith(i, "psk");
        if device {
          CopyValue(i, MqttDevice);
        } else if psk {
          mqttPskKey := i;
        }
      }
    }

    method VisitLwm2mPsk(i: nat)
      requires Valid() && i + 1 < |raw| && raw[i].kind == STRING
      modifies this, Arrays()
      ensures Did(KeyStep(old(KeysNow()), Lwm2mPsk, tokens, i))
    {
      hide Apply, ApplyAll, Stored, SizeOf, Contents, Copied, CString;
      NothingApplied(Contents());
      ApplyValue(Contents(), tokens[i + 1], Lwm2mPsk, tokens[i].text);
      var id := StartsWith(i, "id");
      if id {
        CopyValue(i, Lwm2mPskId);
      } else {
        var key := StartsWith(i, "key");
        if key {
          CopyValue(i, Lwm2mPskKey);
        }
      }
    }

    method VisitMqttPsk(i: nat)
      requires Valid() && i + 1 < |raw| && raw[i].kind == STRING
      modifies this, Arrays()
      ensures Did(KeyStep(old(KeysNow()), MqttPsk, tokens, i))
    {
      hide Apply, ApplyAll, Stored, SizeOf, Contents, Copied, CString;
      NothingApplied(Contents());
      ApplyValue(Contents(), tokens[i + 1], MqttPsk, tokens[i].text);
      var id := StartsWith(i, "id");
      if id {
        CopyValue(i, MqttPskId);
      } else {
        var key := StartsWith(i, "key");
        if key {
          CopyValue(i, MqttPskKey);
        }
      }
    }

    method VisitHttp(i: nat)
      requires Valid() && i + 1 < |raw| && raw[i].kind == STRING
      modifies this, Arrays()
      ensures Did(KeyStep(old(KeysNow()), Http, tokens, i))
    {
      hide Apply, ApplyAll, Stored, SizeOf, Contents, Copied, CString;
      NothingApplied(Contents());
      ApplyValue(Contents(), tokens[i + 1], Http, tokens[i].text);
      var uri := IsUriKey(i);
      var sig := StartsWith(i, "sig");
      var key := StartsWith(i, "key");
      var slot := None;
      if uri {
        slot := Some(HttpUri);
      }
      if sig {
        slot := Some(HttpSigUri);
      } else if key {
        slot := Some(HttpKey);
      }
      HttpKeysDisjoint(tokens[i].text);
      if slot.Some? {
        CopyValue(i, slot.value);
      }
    }

    method VisitConfig(i: nat)
      requires Valid() && i + 1 < |raw| && raw[i].kind == STRING
      modifies this, Arrays()
      ensures Did(KeyStep(old(KeysNow()), Config, tokens, i))
    {
      hide Apply, ApplyAll, Stored, SizeOf, Contents, Copied, CString;
      NothingApplied(Contents());
      ApplyValue(Contents(), tokens[i + 1], Config, tokens[i].text);
      var uri := IsUriKey(i);
      if uri {
        CopyValue(i, ConfigUri);
      }
    }

    method VisitTopLevel(i: nat)
      requires Valid() && i < |raw| && TopLevelKey(tokens[i])
      modifies this
      ensures
        var section := SectionOf(tokens[i].text);
        KeysNow() == if section.Some? then old(KeysNow()).Set(section.value, i) else old(KeysNow())
    {
      var wifi := StartsWith(i, "wifi");
      if wifi { wifiKey := i; return; }
      var lwm2m := StartsWith(i, "lwm2m");
      if lwm2m { lwm2mKey := i; return; }
      var ntp := StartsWith(i, "ntp");
      if ntp { ntpKey := i; return; }
      var mqtt := StartsWith(i, "mqtt");
      if mqtt { mqttKey := i; return; }
      var http := StartsWith(i, "http");
      if http { httpKey := i; return; }
      var config := StartsWith(i, "config");
      if config { configKey := i; }
    }

    /** The body of the loop: what token `i` is, by its parent and kind. */
    method VisitToken(i: nat)
      requires Valid() && i < |raw|
      requires LooksAhead(KeysNow(), tokens, i) ==> i + 1 < |raw|
      requires AllFit(Step(KeysNow(), tokens, i).writes)
      modifies this, Arrays()
      ensures Did(Step(old(KeysNow()), tokens, i))
    {
      hide Apply, ApplyAll, Stored, SizeOf, Contents, KeyStep, Copied, SectionOf, CString, Fits;
      NothingApplied(Contents());
      var t := raw[i];
      if t.parent == 0 && t.kind == STRING {
        VisitTopLevel(i);
      } else if wifiKey + 1 == t.parent && t.kind == STRING {
        VisitWifi(i);
      } else if lwm2mKey + 1 == t.parent && t.kind == STRING {
        VisitLwm2m(i);
      } else if ntpKey + 1 == t.parent && t.kind == STRING {
        VisitNtp(i);
      } else if ntpUrlKey == t.parent && t.kind == ARRAY {
        ntpUrlArray := i;
      } else if ntpUrlArray == t.parent && t.kind == STRING {
        assert Step(KeysNow(), tokens, i).writes == [Write(NtpServer, tokens[i].text)];
        VisitServer(i);
      } else {
        VisitOther(i);
      }
    }

    /** The rest of the tests on token `i`, in their order. */
    method VisitOther(i: nat)
      requires Valid() && i < |raw|
      requires LooksAhead(KeysNow(), tokens, i) ==> i + 1 < |raw|
      requires !TopLevelKey(tokens[i])
      requires forall p :: p in {Wifi, Lwm2m, Ntp, NtpUrl, NtpArray} ==> !Reacts(KeysNow(), p, tokens[i])
      modifies this, Arrays()
      ensures Did(Step(old(KeysNow()), tokens, i))
    {
      hide Apply, ApplyAll, Stored, SizeOf, Contents, KeyStep, Copied, SectionOf, CString, Fits, TopLevelKey;
      NothingApplied(Contents());
      ghost var k := KeysNow();
      assert !Reacts(k, Wifi, tokens[i]) && !Reacts(k, Lwm2m, tokens[i]) && !Reacts(k, Ntp, tokens[i]);
      assert !Reacts(k, NtpUrl, tokens[i]) && !Reacts(k, NtpArray, tokens[i]);
      var t := raw[i];
      if mqttKey + 1 == t.parent && t.kind == STRING {
        VisitMqtt(i);
      } else if lwm2mPskKey + 1 == t.parent && t.kind == STRING {
        VisitLwm2mPsk(i);
      } else if mqttPskKey + 1 == t.parent && t.kind == STRING {
        VisitMqttPsk(i);
      } else if httpKey + 1 == t.parent && t.kind == STRING {
        VisitHttp(i);
      } else if configKey + 1 == t.parent && t.kind == STRING {
        VisitConfig(i);
      }
    }

    method VisitNtp(i: nat)
      requires Valid() && i < |raw| && raw[i].kind == STRING
      modifies this
      ensures KeyStep(old(KeysNow()), Ntp, tokens, i) == Visit(KeysNow(), [])
    {
      var url := StartsWith(i, "url");
      if url {
        ntpUrlKey := i;
      }
    }

    method VisitServer(i: nat)
      requires Valid() && i < |raw| && raw[i].kind == STRING && AllFit([Write(NtpServer, tokens[i].text)])
      modifies Arrays()
      ensures Contents() == ApplyAll(old(Contents()), [Write(NtpServer, tokens[i].text)])
    {
      hide Copied, Contents;
      var t := raw[i];
      assert Fits([Write(NtpServer, tokens[i].text)][0]);
      ApplyOne(Contents(), Write(NtpServer, tokens[i].text));
      CopyServer(t.start, t.end - t.start);
    }

    /** No key was seen yet. */
    method ForgetKeys()
      modifies this
      ensures KeysNow() == UNSEEN
    {
      wifiKey, lwm2mKey, ntpKey, lwm2mPskKey, ntpUrlKey := -128, -128, -128, -128, -128;
      ntpUrlArray, mqttKey, mqttPskKey, httpKey, configKey := -128, -128, -128, -128, -128;
    }

    /** The first `i` tokens were visited, from the buffers `before`. */
    ghost predicate Walked(i: nat, before: Buffers)
      requires Valid() && Sized(before) && i <= |tokens|
      reads this, Arrays()
    {
      var v := Walk(UNSEEN, tokens, 0, i);
      KeysNow() == v.keys && AllFit(v.writes) && Contents() == ApplyAll(before, v.writes)
    }

    method VisitNext(i: nat, ghost before: Buffers)
      requires Valid() && Sized(before) && InBounds(UNSEEN, tokens, 0, |tokens|)
      requires AllFit(Walk(UNSEEN, tokens, 0, |tokens|).writes)
      requires i < |raw| == |tokens| && Walked(i, before)
      modifies this, Arrays()
      ensures Walked(i + 1, before)
    {
      NextStep(tokens, i);
      ghost var v := Walk(UNSEEN, tokens, 0, i);
      ghost var w := Step(v.keys, tokens, i);
      hide Step, LooksAhead, Contents, ApplyAll, Walk, InBounds, AllFit, Apply, SizeOf, Valid, Arrays, AllMean, Sized, KeysNow;
      ApplyThen(before, v.writes, w.writes);
      VisitToken(i);
    }

    /** The loop of miso_load_config over all tokens. */
    method LoadTokens()
      requires Valid() && InBounds(UNSEEN, tokens, 0, |tokens|)
      requires AllFit(Walk(UNSEEN, tokens, 0, |tokens|).writes)
      modifies this, Arrays()
      ensures AllFit(Walk(UNSEEN, tokens, 0, |tokens|).writes)
      ensures Contents() == ApplyAll(old(Contents()), Walk(UNSEEN, tokens, 0, |tokens|).writes)
    {
      assert |raw| == |tokens|;
      ghost var before := Contents();
      ForgetKeys();
      WalkNothing(tokens);
      NothingApplied(before);
      assert Walked(0, before);
      FinishTokens(before);
    }

    /** The tokens of a document that does not end in a key: the buffers hold what the document has for them. */
    method LoadDocument(ghost members: seq<Member>)
      requires Valid() && tokens == Flatten(Obj(members), 0, -1)
      requires !EndsInKey(members) && AllFit(DocumentReads(members, None))
      modifies this, Arrays()
      ensures Contents() == Loaded(old(Contents()), members)
    {
      WalkReads(members);
      hide Contents, Walk, InBounds, DocumentReads, AllFit, ApplyAll, Flatten, EndsInKey, Valid;
      LoadTokens();
    }

    method FinishTokens(ghost before: Buffers)
      requires Valid() && Sized(before) && InBounds(UNSEEN, tokens, 0, |tokens|)
      requires AllFit(Walk(UNSEEN, tokens, 0, |tokens|).writes)
      requires |raw| == |tokens| && Walked(0, before)
      modifies this, Arrays()
      ensures Walked(|tokens|, before)
    {
      hide *;
      var i := 0;
      while i < |raw|
        invariant 0 <= i <= |raw| && Walked(i, before)
      {
        VisitNext(i, before);
        i := i + 1;
      }
    }
  }

  lemma WalkNothing(tokens: seq<Token>)
    ensures Walk(UNSEEN, tokens, 0, 0) == Visit(UNSEEN, [])
    ensures AllFit([])
  {
  }

  /** One more token of a walk that stays in bounds and whose writes all fit. */
  lemma NextStep(tokens: seq<Token>, i: nat)
    requires i < |tokens| && InBounds(UNSEEN, tokens, 0, |tokens|)
    requires AllFit(Walk(UNSEEN, tokens, 0, |tokens|).writes)
    ensures
      var v := Walk(UNSEEN, tokens, 0, i);
      var w := Step(v.keys, tokens, i);
      && AllFit(v.writes) && AllFit(w.writes) && (LooksAhead(v.keys, tokens, i) ==> i + 1 < |tokens|)
      && Walk(UNSEEN, tokens, 0, i + 1) == Visit(w.keys, v.writes + w.writes)
  {
    hide Step, LooksAhead, AllFit;
    PrefixFits(tokens, i + 1);
  }

  lemma {:induction false} ApplyThen(b: Buffers, v: seq<Write>, w: seq<Write>)
    requires Sized(b) && AllFit(v) && AllFit(w)
    ensures AllFit(v + w) && ApplyAll(b, v + w) == ApplyAll(ApplyAll(b, v), w)
    decreases |w|
  {
    hide Apply;
    if w == [] {
      assert v + w == v;
    } else {
      ApplyThen(b, v, w[..|w| - 1]);
      assert (v + w)[..|v + w| - 1] == v + w[..|w| - 1];
    }
  }

  lemma {:induction false} PrefixFits(tokens: seq<Token>, i: nat)
    requires 0 < i <= |tokens| && AllFit(Walk(UNSEEN, tokens, 0, |tokens|).writes)
    ensures AllFit(Walk(UNSEEN, tokens, 0, i - 1).writes)
    ensures AllFit(Step(Walk(UNSEEN, tokens, 0, i - 1).keys, tokens, i - 1).writes)
  {
    hide Step;
    WalkThen(UNSEEN, tokens, 0, i, |tokens|);
    var v := Walk(UNSEEN, tokens, 0, i - 1);
    var w := Step(v.keys, tokens, i - 1);
    var rest := Walk(w.keys, tokens, i, |tokens|).writes;
    var all := v.writes + w.writes + rest;
    FitsParts(v.writes + w.writes, rest);
    FitsParts(v.writes, w.writes);
  }

  lemma FitsParts(v: seq<Write>, w: seq<Write>)
    requires AllFit(v + w)
    ensures AllFit(v) && AllFit(w)
  {
    assert forall i :: 0 <= i < |v| ==> v[i] == (v + w)[i];
    assert forall i :: 0 <= i < |w| ==> w[i] == (v + w)[|v| + i];
  }

  lemma Lwm2mKeysDisjoint(key: string)
    ensures "psk" <= key ==> !("endpoint" <= key) && !("device" <= key)
  {
    assert "psk" <= key ==> key[0] == 'p';
    assert "endpoint" <= key ==> key[0] == 'e';
    assert "device" <= key ==> key[0] == 'd';
  }

  lemma HttpKeysDisjoint(key: string)
    ensures IsUri(key) ==> !("sig" <= key) && !("key" <= key)
  {
    assert "uri" <= key || "url" <= key ==> key[0] == 'u';
    assert "sig" <= key ==> key[0] == 's';
    assert "key" <= key ==> key[0] == 'k';
  }

  lemma NothingApplied(b: Buffers)
    requires Sized(b)
    ensures ApplyAll(b, []) == b
  {
  }

  /** The one write a key can cause. */
  lemma ApplyValue(b: Buffers, t: Token, p: Place, key: string)
    requires Sized(b)
    ensures
      var slot := SlotOf(p, key);
      slot.Some? ==>
        && slot.value != NtpServer && Fits(Write(slot.value, t.text))
        && ApplyAll(b, [Write(slot.value, t.text)]) == Apply(b, Write(slot.value, t.text))
  {
    if SlotOf(p, key).Some? {
      ApplyOne(b, Write(SlotOf(p, key).value, t.text));
    }
  }

  lemma ApplyOne(b: Buffers, w: Write)
    requires Sized(b) && Fits(w)
    ensures ApplyAll(b, [w]) == Apply(b, w)
  {
    assert [w][..0] == [];
    assert ApplyAll(b, []) == b;
  }
}
