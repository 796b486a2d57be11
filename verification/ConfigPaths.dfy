/**
 Which text of a document ends up in which buffer, by its path in the tree: a keyword that a key
 starts with for every object on the way, and any item of an array. Nothing here knows of sections,
 places or key indices.
 */
module ConfigPaths {
  import opened ConfigTree
  import opened ConfigProof
  import opened ConfigLoad
  import opened CStrings

  datatype Step = Key(word: string) | Either(word: string, other: string) | Item

  predicate Leads(step: Step, key: string) {
    match step
    case Key(word) => word <= key
    case Either(word, other) => word <= key || other <= key
    case Item => false
  }

  /** All texts in a tree whose path matches, in document order. */
  function At(j: Json, path: seq<Step>): seq<string>
    decreases j, 1
  {
    if path == [] then (if j.Str? then [j.text] else [])
    else match j
      case Obj(members) => if path[0] == Item then [] else AtMembers(members, path)
      case Arr(items) => if path[0] == Item then AtItems(items, path[1..]) else []
      case _ => []
  }

  function AtMembers(members: seq<Member>, path: seq<Step>): seq<string>
    requires path != []
    decreases members
  {
    if members == [] then [] else
    (if Leads(path[0], members[0].key) then At(members[0].value, path[1..]) else [])
    + AtMembers(members[1..], path)
  }

  function AtItems(items: seq<Json>, path: seq<Step>): seq<string>
    decreases items
  {
    if items == [] then [] else At(items[0], path) + AtItems(items[1..], path)
  }

  /** The texts of the values found for a slot, in order. */
  function TextsOf(ws: seq<Write>, slot: Slot): seq<string> {
    if ws == [] then []
    else (if ws[0].slot == slot then [ws[0].text] else []) + TextsOf(ws[1..], slot)
  }

  lemma {:induction false} TextsThen(a: seq<Write>, b: seq<Write>, slot: Slot)
    ensures TextsOf(a + b, slot) == TextsOf(a, slot) + TextsOf(b, slot)
  {
    if a == [] {
      assert a + b == b;
    } else {
      assert (a + b)[1..] == a[1..] + b;
      TextsThen(a[1..], b, slot);
    }
  }

  // ---------------------------------------------------------------------------
  // Every path and its slot
  // ---------------------------------------------------------------------------

  const URI: Step := Either("uri", "url")

  /** The path from the value at a place to a slot, if there is one. */
  function PathFrom(place: Place, slot: Slot): seq<Step> {
    match (place, slot)
    case (Wifi, WifiSsid) => [Key("ssid")]
    case (Wifi, WifiKey) => [Key("key")]
    case (Lwm2m, Lwm2mUri) => [URI]
    case (Lwm2m, Lwm2mEndpoint) => [Either("endpoint", "device")]
    case (Lwm2m, Lwm2mPskId) => [Key("psk"), Key("id")]
    case (Lwm2m, Lwm2mPskKey) => [Key("psk"), Key("key")]
    case (Lwm2mPsk, Lwm2mPskId) => [Key("id")]
    case (Lwm2mPsk, Lwm2mPskKey) => [Key("key")]
    case (Ntp, NtpServer) => [Key("url"), Item]
    case (Mqtt, MqttUri) => [URI]
    case (Mqtt, MqttDevice) => [Key("device")]
    case (Mqtt, MqttPskId) => [Key("psk"), Key("id")]
    case (Mqtt, MqttPskKey) => [Key("psk"), Key("key")]
    case (MqttPsk, MqttPskId) => [Key("id")]
    case (MqttPsk, MqttPskKey) => [Key("key")]
    case (Http, HttpUri) => [URI]
    case (Http, HttpSigUri) => [Key("sig")]
    case (Http, HttpKey) => [Key("key")]
    case (Config, ConfigUri) => [URI]
    case _ => []
  }

  /** The key a slot's section starts with, and the place it opens. */
  function SectionWord(slot: Slot): (string, Place) {
    match slot
    case WifiSsid => ("wifi", Wifi)
    case WifiKey => ("wifi", Wifi)
    case NtpServer => ("ntp", Ntp)
    case MqttUri => ("mqtt", Mqtt)
    case MqttDevice => ("mqtt", Mqtt)
    case MqttPskId => ("mqtt", Mqtt)
    case MqttPskKey => ("mqtt", Mqtt)
    case HttpUri => ("http", Http)
    case HttpSigUri => ("http", Http)
    case HttpKey => ("http", Http)
    case ConfigUri => ("config", Config)
    case _ => ("lwm2m", Lwm2m)
  }

  /** No two keywords of one place start with the same letter. */
  lemma FirstLetters(key: string)
    ensures "ssid" <= key ==> key[0] == 's'
    ensures "sig" <= key ==> key[0] == 's'
    ensures "key" <= key ==> key[0] == 'k'
    ensures "uri" <= key ==> key[0] == 'u'
    ensures "url" <= key ==> key[0] == 'u'
    ensures "endpoint" <= key ==> key[0] == 'e'
    ensures "device" <= key ==> key[0] == 'd'
    ensures "psk" <= key ==> key[0] == 'p'
    ensures "id" <= key ==> key[0] == 'i'
  {
  }

  lemma {:induction false} ListTexts(items: seq<Json>, slot: Slot)
    ensures TextsOf(ListWrites(items), slot) == if slot == NtpServer then AtItems(items, []) else []
  {
    if items != [] {
      ListTexts(items[1..], slot);
      TextsThen(if items[0].Str? then [Write(NtpServer, items[0].text)] else [], ListWrites(items[1..]), slot);
    }
  }

  predicate OfKeys(place: Place) {
    place != NtpUrl && place != NtpArray
  }

  /** What a key names in a place, it names as the first step of a path, and the other way around. */
  predicate Named(place: Place, key: string, slot: Slot) {
    var path, taken, nested := PathFrom(place, slot), SlotOf(place, key), NestedOf(place, key);
    if path != [] && Leads(path[0], key) then
      if |path| == 1 then taken == Some(slot)
      else
        && taken.None? && nested.Some?
        && path[1..] == (if place == Ntp then [Item] else PathFrom(nested.value, slot))
    else
      && taken != Some(slot)
      && (taken.None? && nested.Some? ==> PathFrom(nested.value, slot) == [] && (place == Ntp ==> slot != NtpServer))
  }

  lemma WifiNames(key: string, slot: Slot)
    ensures Named(Wifi, key, slot)
  {
    FirstLetters(key);
  }

  lemma Lwm2mNames(key: string, slot: Slot)
    ensures Named(Lwm2m, key, slot)
  {
    FirstLetters(key);
  }

  lemma NtpNames(key: string, slot: Slot)
    ensures Named(Ntp, key, slot)
  {
    FirstLetters(key);
  }

  lemma MqttNames(key: string, slot: Slot)
    ensures Named(Mqtt, key, slot)
  {
    FirstLetters(key);
  }

  lemma HttpNames(key: string, slot: Slot)
    ensures Named(Http, key, slot)
  {
    FirstLetters(key);
  }

  lemma ConfigNames(key: string, slot: Slot)
    ensures Named(Config, key, slot)
  {
    FirstLetters(key);
  }

  lemma PskNames(place: Place, key: string, slot: Slot)
    requires place in {Lwm2mPsk, MqttPsk}
    ensures Named(place, key, slot)
  {
    FirstLetters(key);
  }

  lemma KeyNames(place: Place, key: string, slot: Slot)
    requires OfKeys(place)
    ensures Named(place, key, slot)
  {
    hide Named;
    match place
    case Wifi => WifiNames(key, slot);
    case Lwm2m => Lwm2mNames(key, slot);
    case Ntp => NtpNames(key, slot);
    case Mqtt => MqttNames(key, slot);
    case Http => HttpNames(key, slot);
    case Config => ConfigNames(key, slot);
    case _ => PskNames(place, key, slot);
  }

  lemma NestedPlaces(place: Place, key: string)
    ensures NestedOf(place, key).Some? ==>
      if place == Ntp then NestedOf(place, key).value == NtpUrl else OfKeys(NestedOf(place, key).value)
  {
  }

  /** A member of a place adds to the slots at the end of the paths that begin with its key. */
  lemma ValueTexts(place: Place, m: Member, slot: Slot)
    requires OfKeys(place)
    ensures
      var path := PathFrom(place, slot);
      TextsOf(ValueWrites(place, m), slot) == if path != [] && Leads(path[0], m.key) then At(m.value, path[1..]) else []
    decreases m.value, 2
  {
    var path := PathFrom(place, slot);
    if place == Ntp {
      ListValueTexts(m, slot);
      assert [Key("url"), Item][1..] == [Item];
    } else {
      KeyNames(place, m.key, slot);
      NestedPlaces(place, m.key);
      assert |path| == 1 ==> path[1..] == [];
      hide SlotOf, NestedOf, PathFrom, Leads, ListWrites, PlaceWrites, AtMembers, AtItems;
      if SlotOf(place, m.key).None? && NestedOf(place, m.key).Some? {
        PlaceTexts(NestedOf(place, m.key).value, m.value, slot);
      }
    }
  }

  lemma ListValueTexts(m: Member, slot: Slot)
    ensures TextsOf(ValueWrites(Ntp, m), slot) == if slot == NtpServer && "url" <= m.key then At(m.value, [Item]) else []
  {
    assert [Item][1..] == [];
    if m.value.Arr? { ListTexts(m.value.items, slot); }
  }

  lemma PlaceTexts(place: Place, j: Json, slot: Slot)
    requires OfKeys(place)
    ensures TextsOf(PlaceWrites(place, j), slot) == if PathFrom(place, slot) != [] then At(j, PathFrom(place, slot)) else []
    decreases j, 1
  {
    if j.Obj? { MemberTexts(place, j.members, slot); }
    hide MemberWrites, AtMembers, AtItems;
  }

  lemma {:induction false} MemberTexts(place: Place, members: seq<Member>, slot: Slot)
    requires OfKeys(place)
    ensures
      var path := PathFrom(place, slot);
      TextsOf(MemberWrites(place, members), slot) == if path != [] then AtMembers(members, path) else []
    decreases members
  {
    hide PathFrom;
    if members != [] {
      ValueTexts(place, members[0], slot);
      MemberTexts(place, members[1..], slot);
      TextsThen(ValueWrites(place, members[0]), MemberWrites(place, members[1..]), slot);
    }
  }

  lemma SectionLetters(key: string)
    ensures
      SectionOf(key) ==
        if key == [] then None
        else if key[0] == 'w' then (if "wifi" <= key then Some(Wifi) else None)
        else if key[0] == 'l' then (if "lwm2m" <= key then Some(Lwm2m) else None)
        else if key[0] == 'n' then (if "ntp" <= key then Some(Ntp) else None)
        else if key[0] == 'm' then (if "mqtt" <= key then Some(Mqtt) else None)
        else if key[0] == 'h' then (if "http" <= key then Some(Http) else None)
        else if key[0] == 'c' then (if "config" <= key then Some(Config) else None)
        else None
  {
  }

  /** A key starts with a slot's section word exactly if it opens that section; others do not lead to the slot. */
  lemma SectionNames(key: string, slot: Slot)
    ensures
      var (word, place) := SectionWord(slot);
      && (word <= key <==> SectionOf(key) == Some(place))
      && PathFrom(place, slot) != []
      && (SectionOf(key).Some? ==>
            OfKeys(SectionOf(key).value) && (SectionOf(key).value != place ==> PathFrom(SectionOf(key).value, slot) == []))
  {
    SectionLetters(key);
    hide SectionOf;
  }

  lemma SectionTexts(m: Member, slot: Slot)
    ensures
      var (word, place) := SectionWord(slot);
      TextsOf(match SectionOf(m.key) { case None => [] case Some(p) => PlaceWrites(p, m.value) }, slot)
        == if word <= m.key then At(m.value, PathFrom(place, slot)) else []
  {
    SectionNames(m.key, slot);
    hide SectionWord, SectionOf, PathFrom, PlaceWrites, At;
    if SectionOf(m.key).Some? {
      PlaceTexts(SectionOf(m.key).value, m.value, slot);
    }
  }

  lemma {:induction false} DocumentTexts(members: seq<Member>, slot: Slot)
    ensures
      var (word, place) := SectionWord(slot);
      TextsOf(DocumentWrites(members), slot) == AtMembers(members, [Key(word)] + PathFrom(place, slot))
    decreases members
  {
    hide PathFrom, SectionWord;
    var (word, place) := SectionWord(slot);
    var path := [Key(word)] + PathFrom(place, slot);
    assert path[1..] == PathFrom(place, slot);
    if members != [] {
      SectionTexts(members[0], slot);
      DocumentTexts(members[1..], slot);
      TextsThen(match SectionOf(members[0].key) { case None => [] case Some(p) => PlaceWrites(p, members[0].value) },
                DocumentWrites(members[1..]), slot);
      hide PlaceWrites, SectionOf, At;
    }
  }

  /** The fifteen paths. */
  function PathOf(slot: Slot): seq<Step> {
    match slot
    case WifiSsid => [Key("wifi"), Key("ssid")]
    case WifiKey => [Key("wifi"), Key("key")]
    case Lwm2mUri => [Key("lwm2m"), Either("uri", "url")]
    case Lwm2mEndpoint => [Key("lwm2m"), Either("endpoint", "device")]
    case Lwm2mPskId => [Key("lwm2m"), Key("psk"), Key("id")]
    case Lwm2mPskKey => [Key("lwm2m"), Key("psk"), Key("key")]
    case NtpServer => [Key("ntp"), Key("url"), Item]
    case MqttUri => [Key("mqtt"), Either("uri", "url")]
    case MqttDevice => [Key("mqtt"), Key("device")]
    case MqttPskId => [Key("mqtt"), Key("psk"), Key("id")]
    case MqttPskKey => [Key("mqtt"), Key("psk"), Key("key")]
    case HttpUri => [Key("http"), Either("uri", "url")]
    case HttpSigUri => [Key("http"), Key("sig")]
    case HttpKey => [Key("http"), Key("key")]
    case ConfigUri => [Key("config"), Either("uri", "url")]
  }

  lemma PathSplit(slot: Slot)
    ensures PathOf(slot) == [Key(SectionWord(slot).0)] + PathFrom(SectionWord(slot).1, slot)
  {
  }

  lemma SlotTexts(members: seq<Member>, slot: Slot)
    ensures TextsOf(DocumentWrites(members), slot) == At(Obj(members), PathOf(slot))
  {
    hide SectionWord, PathFrom, PathOf, DocumentWrites, TextsOf, AtMembers;
    DocumentTexts(members, slot);
    PathSplit(slot);
  }

  /** The texts of a document that are meant for each buffer: fifteen paths, and nothing else. */
  lemma EverySlot(members: seq<Member>)
    ensures
      var ws, j := DocumentWrites(members), Obj(members);
      && TextsOf(ws, WifiSsid) == At(j, [Key("wifi"), Key("ssid")])
      && TextsOf(ws, WifiKey) == At(j, [Key("wifi"), Key("key")])
      && TextsOf(ws, Lwm2mUri) == At(j, [Key("lwm2m"), Either("uri", "url")])
      && TextsOf(ws, Lwm2mEndpoint) == At(j, [Key("lwm2m"), Either("endpoint", "device")])
      && TextsOf(ws, Lwm2mPskId) == At(j, [Key("lwm2m"), Key("psk"), Key("id")])
      && TextsOf(ws, Lwm2mPskKey) == At(j, [Key("lwm2m"), Key("psk"), Key("key")])
      && TextsOf(ws, NtpServer) == At(j, [Key("ntp"), Key("url"), Item])
      && TextsOf(ws, MqttUri) == At(j, [Key("mqtt"), Either("uri", "url")])
      && TextsOf(ws, MqttDevice) == At(j, [Key("mqtt"), Key("device")])
      && TextsOf(ws, MqttPskId) == At(j, [Key("mqtt"), Key("psk"), Key("id")])
      && TextsOf(ws, MqttPskKey) == At(j, [Key("mqtt"), Key("psk"), Key("key")])
      && TextsOf(ws, HttpUri) == At(j, [Key("http"), Either("uri", "url")])
      && TextsOf(ws, HttpSigUri) == At(j, [Key("http"), Key("sig")])
      && TextsOf(ws, HttpKey) == At(j, [Key("http"), Key("key")])
      && TextsOf(ws, ConfigUri) == At(j, [Key("config"), Either("uri", "url")])
  {
    hide DocumentWrites, TextsOf, At;
    SlotTexts(members, WifiSsid);
    SlotTexts(members, WifiKey);
    SlotTexts(members, Lwm2mUri);
    SlotTexts(members, Lwm2mEndpoint);
    SlotTexts(members, Lwm2mPskId);
    SlotTexts(members, Lwm2mPskKey);
    SlotTexts(members, NtpServer);
    SlotTexts(members, MqttUri);
    SlotTexts(members, MqttDevice);
    SlotTexts(members, MqttPskId);
    SlotTexts(members, MqttPskKey);
    SlotTexts(members, HttpUri);
    SlotTexts(members, HttpSigUri);
    SlotTexts(members, HttpKey);
    SlotTexts(members, ConfigUri);
  }

  // ---------------------------------------------------------------------------
  // What is in the buffers after a document was loaded
  // ---------------------------------------------------------------------------

  predicate SectionKey(key: string) {
    "wifi" <= key || "lwm2m" <= key || "ntp" <= key || "mqtt" <= key || "http" <= key || "config" <= key
  }

  /** No section is an array, and neither is a psk in one of the two sections that have it. */
  predicate ObjectsInPlace(members: seq<Member>) {
    forall i :: 0 <= i < |members| && SectionKey(members[i].key) ==>
      && !members[i].value.Arr?
      && ("lwm2m" <= members[i].key || "mqtt" <= members[i].key ==> PskInPlace(members[i].value))
  }

  predicate PskInPlace(j: Json) {
    j.Obj? ==> forall i :: 0 <= i < |j.members| && "psk" <= j.members[i].key ==> !j.members[i].value.Arr?
  }

  lemma NestedKeys(place: Place, key: string)
    requires OfKeys(place) && NestedOf(place, key).Some?
    ensures if place == Ntp then NestedOf(place, key).value == NtpUrl
      else place in {Lwm2m, Mqtt} && "psk" <= key && NestedOf(place, key).value in {Lwm2mPsk, MqttPsk}
  {
  }

  lemma {:induction false} PskShaped(place: Place, members: seq<Member>)
    requires place in {Lwm2mPsk, MqttPsk}
    ensures MembersShaped(place, members)
  {
    if members != [] { PskShaped(place, members[1..]); }
  }

  lemma {:induction false} MembersInPlace(place: Place, members: seq<Member>)
    requires OfKeys(place) && (place in {Lwm2m, Mqtt} ==> PskInPlace(Obj(members)))
    ensures MembersShaped(place, members)
    decreases members
  {
    if members != [] {
      assert forall i :: 0 <= i < |members| - 1 ==> members[1..][i] == members[i + 1];
      assert "psk" <= members[0].key && place in {Lwm2m, Mqtt} ==> !members[0].value.Arr?;
      MembersInPlace(place, members[1..]);
      if NestedOf(place, members[0].key).Some? {
        NestedKeys(place, members[0].key);
        if members[0].value.Obj? && place != Ntp {
          PskShaped(NestedOf(place, members[0].key).value, members[0].value.members);
        }
        assert NestedShaped(NestedOf(place, members[0].key).value, members[0].value);
      }
    }
  }

  lemma SectionKeys(key: string)
    ensures SectionOf(key).Some? <==> SectionKey(key)
    ensures SectionOf(key).Some? ==> OfKeys(SectionOf(key).value)
    ensures SectionOf(key) == Some(Lwm2m) ==> "lwm2m" <= key
    ensures SectionOf(key) == Some(Mqtt) ==> "mqtt" <= key
  {
  }

  lemma {:induction false} InPlaceShaped(members: seq<Member>)
    requires ObjectsInPlace(members)
    ensures WellShaped(members)
    decreases members
  {
    if members != [] {
      assert forall i :: 0 <= i < |members| - 1 ==> members[1..][i] == members[i + 1];
      InPlaceShaped(members[1..]);
      SectionKeys(members[0].key);
      hide SectionOf, SectionKey, PskInPlace;
      var section, value := SectionOf(members[0].key), members[0].value;
      if section.Some? && value.Obj? {
        assert Obj(value.members) == value;
        MembersInPlace(section.value, value.members);
      }
    }
  }

  lemma {:induction false} LastOfTexts(ws: seq<Write>, slot: Slot)
    ensures
      var texts := TextsOf(ws, slot);
      LastText(ws, slot) == if texts == [] then None else Some(texts[|texts| - 1])
    decreases |ws|
  {
    if ws != [] {
      var front, w := ws[..|ws| - 1], ws[|ws| - 1];
      assert ws == front + [w];
      LastOfTexts(front, slot);
      TextsThen(front, [w], slot);
    }
  }

  /** What a buffer with copyString holds: the last text, clipped and terminated, or what it held. */
  function Kept(before: string, texts: seq<string>, size: nat): string {
    if texts == [] then before else Stored(texts[|texts| - 1], size)
  }

  predicate Within(texts: seq<string>, n: nat) {
    forall i :: 0 <= i < |texts| ==> |texts[i]| <= n
  }

  /** The NTP buffer: each server copied over what was there, with no terminator behind it. */
  function Overlaid(before: string, texts: seq<string>): (r: string)
    requires Within(texts, |before|)
    ensures |r| == |before|
  {
    if texts == [] then before
    else
      var text := texts[|texts| - 1];
      Copied(Overlaid(before, texts[..|texts| - 1]), text, |text|)
  }

  lemma TextsMore(ws: seq<Write>, w: Write, slot: Slot)
    ensures TextsOf(ws + [w], slot) == TextsOf(ws, slot) + (if w.slot == slot then [w.text] else [])
  {
    TextsThen(ws, [w], slot);
    assert [w][1..] == [];
  }

  lemma WithinMore(texts: seq<string>, text: string, n: nat)
    ensures Within(texts + [text], n) <==> Within(texts, n) && |text| <= n
  {
    assert (texts + [text])[|texts|] == text;
    assert forall i :: 0 <= i < |texts| ==> (texts + [text])[i] == texts[i];
  }

  lemma AllFitMore(ws: seq<Write>, w: Write)
    ensures AllFit(ws + [w]) <==> AllFit(ws) && Fits(w)
  {
    assert (ws + [w])[|ws|] == w;
    assert forall i :: 0 <= i < |ws| ==> (ws + [w])[i] == ws[i];
  }

  lemma {:induction false} TextsFit(ws: seq<Write>)
    ensures AllFit(ws) <==> Within(TextsOf(ws, NtpServer), 64)
    decreases |ws|
  {
    if ws != [] {
      var front, w := ws[..|ws| - 1], ws[|ws| - 1];
      assert ws == front + [w];
      TextsFit(front);
      TextsMore(front, w, NtpServer);
      AllFitMore(front, w);
      WithinMore(TextsOf(front, NtpServer), w.text, 64);
      assert TextsOf(front, NtpServer) + [] == TextsOf(front, NtpServer);
      hide AllFit, Within, TextsOf;
    }
  }

  lemma {:induction false} ServersOverlaid(b: Buffers, ws: seq<Write>)
    requires Sized(b) && AllFit(ws)
    ensures Within(TextsOf(ws, NtpServer), |b[NtpServer]|)
    ensures ApplyAll(b, ws)[NtpServer] == Overlaid(b[NtpServer], TextsOf(ws, NtpServer))
    decreases |ws|
  {
    hide Copied, Stored, TextsOf;
    TextsFit(ws);
    if ws == [] {
      assert TextsOf(ws, NtpServer) == [] by { hide *; Nothing(); }
    } else {
      var front, w := ws[..|ws| - 1], ws[|ws| - 1];
      assert ws == front + [w];
      ServersOverlaid(b, front);
      TextsMore(front, w, NtpServer);
      AllFitMore(front, w);
      hide AllFit, Within;
      assert TextsOf(front, NtpServer) + [] == TextsOf(front, NtpServer);
      assert (TextsOf(front, NtpServer) + [w.text])[..|TextsOf(front, NtpServer)|] == TextsOf(front, NtpServer);
    }
  }

  lemma Nothing()
    ensures TextsOf([], NtpServer) == []
  {
  }

  /**
   Without misplaced arrays and with servers that fit, a document leaves in each buffer the last
   text on its path, cut to the buffer's size, or what was there; the pass stays in bounds.
   */
  lemma EveryBuffer(members: seq<Member>, b: Buffers)
    requires Sized(b) && ObjectsInPlace(members)
    requires Within(At(Obj(members), [Key("ntp"), Key("url"), Item]), 64)
    ensures !EndsInKey(members) && AllFit(DocumentReads(members, None)) && |b[NtpServer]| == 64
    ensures
      var after, j := Loaded(b, members), Obj(members);
      && after[WifiSsid] == Kept(b[WifiSsid], At(j, [Key("wifi"), Key("ssid")]), 32)
      && after[WifiKey] == Kept(b[WifiKey], At(j, [Key("wifi"), Key("key")]), 32)
      && after[Lwm2mUri] == Kept(b[Lwm2mUri], At(j, [Key("lwm2m"), Either("uri", "url")]), 128)
      && after[Lwm2mEndpoint] == Kept(b[Lwm2mEndpoint], At(j, [Key("lwm2m"), Either("endpoint", "device")]), 128)
      && after[Lwm2mPskId] == Kept(b[Lwm2mPskId], At(j, [Key("lwm2m"), Key("psk"), Key("id")]), 128)
      && after[Lwm2mPskKey] == Kept(b[Lwm2mPskKey], At(j, [Key("lwm2m"), Key("psk"), Key("key")]), 64)
      && after[NtpServer] == Overlaid(b[NtpServer], At(j, [Key("ntp"), Key("url"), Item]))
      && after[MqttUri] == Kept(b[MqttUri], At(j, [Key("mqtt"), Either("uri", "url")]), 128)
      && after[MqttDevice] == Kept(b[MqttDevice], At(j, [Key("mqtt"), Key("device")]), 128)
      && after[MqttPskId] == Kept(b[MqttPskId], At(j, [Key("mqtt"), Key("psk"), Key("id")]), 128)
      && after[MqttPskKey] == Kept(b[MqttPskKey], At(j, [Key("mqtt"), Key("psk"), Key("key")]), 64)
      && after[HttpUri] == Kept(b[HttpUri], At(j, [Key("http"), Either("uri", "url")]), 128)
      && after[HttpSigUri] == Kept(b[HttpSigUri], At(j, [Key("http"), Key("sig")]), 128)
      && after[HttpKey] == Kept(b[HttpKey], At(j, [Key("http"), Key("key")]), 256)
      && after[ConfigUri] == Kept(b[ConfigUri], At(j, [Key("config"), Either("uri", "url")]), 128)
  {
    hide DocumentWrites, DocumentReads, DocumentMisread, EndsInKey, At, AllFit, Loaded, Kept, Overlaid, Within;
    InPlaceShaped(members);
    ShapedDocument(members);
    hide ObjectsInPlace, WellShaped;
    ReadsFit(members);
    BufferKept(members, b, WifiSsid);
    BufferKept(members, b, WifiKey);
    BufferKept(members, b, Lwm2mUri);
    BufferKept(members, b, Lwm2mEndpoint);
    BufferKept(members, b, Lwm2mPskId);
    BufferKept(members, b, Lwm2mPskKey);
    BufferKept(members, b, NtpServer);
    BufferKept(members, b, MqttUri);
    BufferKept(members, b, MqttDevice);
    BufferKept(members, b, MqttPskId);
    BufferKept(members, b, MqttPskKey);
    BufferKept(members, b, HttpUri);
    BufferKept(members, b, HttpSigUri);
    BufferKept(members, b, HttpKey);
    BufferKept(members, b, ConfigUri);
  }

  lemma ReadsFit(members: seq<Member>)
    requires DocumentMisread(members, None) == [] && Within(At(Obj(members), PathOf(NtpServer)), 64)
    ensures AllFit(DocumentReads(members, None))
  {
    hide DocumentReads, DocumentWrites, DocumentMisread, At, Within, AllFit, PathOf;
    DocumentBeyond(members, None);
    SlotTexts(members, NtpServer);
    TextsFit(DocumentReads(members, None));
  }

  lemma BufferKept(members: seq<Member>, b: Buffers, slot: Slot)
    requires DocumentMisread(members, None) == []
    requires Sized(b) && AllFit(DocumentReads(members, None))
    ensures
      var texts := At(Obj(members), PathOf(slot));
      if slot == NtpServer then
        Within(texts, |b[slot]|) && Loaded(b, members)[slot] == Overlaid(b[slot], texts)
      else Loaded(b, members)[slot] == Kept(b[slot], texts, SizeOf(slot))
  {
    hide DocumentReads, DocumentWrites, DocumentMisread, TextsOf, LastText, ApplyAll, AllFit, At, PathOf, Within;
    DocumentBeyond(members, None);
    SlotTexts(members, slot);
    var ws := DocumentReads(members, None);
    if slot == NtpServer {
      ServersOverlaid(b, ws);
    } else {
      LastValueWins(b, ws, slot);
      LastOfTexts(ws, slot);
    }
  }
}
