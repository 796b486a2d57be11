/**
 csrc/src/config.c, the part that is about meaning: which configuration values a JSON
 document holds, and the one pass over its flat token array that finds them.
 */
module ConfigTree {

  datatype Option<+T> = None | Some(value: T)

  // ---------------------------------------------------------------------------
  // Documents and their tokens
  // ---------------------------------------------------------------------------

  datatype Json =
    | Str(text: string)
    | Prim(text: string)
    | Arr(items: seq<Json>)
    | Obj(members: seq<Member>)

  datatype Member = Member(key: string, value: Json)

  datatype Kind = OBJECT | ARRAY | STRING | PRIMITIVE

  /** A token as jsmn lays it out: the parent of a key is its object, of a value its key. */
  datatype Token = Token(kind: Kind, text: string, parent: int)

  /** The tokens of a value that starts at index `at`, in preorder. */
  function Flatten(j: Json, at: nat, parent: int): (r: seq<Token>)
    ensures |r| == Size(j)
    decreases j, 1
  {
    match j
    case Str(text) => [Token(STRING, text, parent)]
    case Prim(text) => [Token(PRIMITIVE, text, parent)]
    case Arr(items) => [Token(ARRAY, "", parent)] + FlattenItems(items, at + 1, at)
    case Obj(members) => [Token(OBJECT, "", parent)] + FlattenMembers(members, at + 1, at)
  }

  function FlattenItems(items: seq<Json>, at: nat, parent: int): (r: seq<Token>)
    ensures |r| == SizeItems(items)
    decreases items
  {
    if items == [] then []
    else Flatten(items[0], at, parent) + FlattenItems(items[1..], at + Size(items[0]), parent)
  }

  function FlattenMembers(members: seq<Member>, at: nat, parent: int): (r: seq<Token>)
    ensures |r| == SizeMembers(members)
    decreases members
  {
    if members == [] then []
    else
      [Token(STRING, members[0].key, parent)] + Flatten(members[0].value, at + 1, at)
      + FlattenMembers(members[1..], at + 1 + Size(members[0].value), parent)
  }

  function Size(j: Json): (n: nat)
    ensures n > 0
    decreases j, 1
  {
    match j
    case Str(_) => 1
    case Prim(_) => 1
    case Arr(items) => 1 + SizeItems(items)
    case Obj(members) => 1 + SizeMembers(members)
  }

  function SizeItems(items: seq<Json>): nat
    decreases items
  {
    if items == [] then 0 else Size(items[0]) + SizeItems(items[1..])
  }

  function SizeMembers(members: seq<Member>): nat
    decreases members
  {
    if members == [] then 0 else 1 + Size(members[0].value) + SizeMembers(members[1..])
  }

  // ---------------------------------------------------------------------------
  // Keywords and configuration values
  // ---------------------------------------------------------------------------

  /** Where a key may stand: in a section, in a nested PSK object, or around the NTP list. */
  datatype Place =
    | Wifi | Lwm2m | Ntp | Mqtt | Http | Config
    | Lwm2mPsk | MqttPsk | NtpUrl | NtpArray

  datatype Slot =
    | WifiSsid | WifiKey
    | Lwm2mUri | Lwm2mEndpoint | Lwm2mPskId | Lwm2mPskKey
    | NtpServer
    | MqttUri | MqttDevice | MqttPskId | MqttPskKey
    | HttpUri | HttpSigUri | HttpKey
    | ConfigUri

  /** The section a top-level key opens: the first keyword it starts with. */
  function SectionOf(key: string): Option<Place> {
    if "wifi" <= key then Some(Wifi)
    else if "lwm2m" <= key then Some(Lwm2m)
    else if "ntp" <= key then Some(Ntp)
    else if "mqtt" <= key then Some(Mqtt)
    else if "http" <= key then Some(Http)
    else if "config" <= key then Some(Config)
    else None
  }

  predicate IsUri(key: string) {
    "uri" <= key || "url" <= key
  }

  /** The configuration value a key in a place names. */
  function SlotOf(place: Place, key: string): Option<Slot> {
    match place
    case Wifi => if "ssid" <= key then Some(WifiSsid) else if "key" <= key then Some(WifiKey) else None
    case Lwm2m =>
      if IsUri(key) then Some(Lwm2mUri)
      else if "endpoint" <= key || "device" <= key then Some(Lwm2mEndpoint)
      else None
    case Mqtt => if IsUri(key) then Some(MqttUri) else if "device" <= key then Some(MqttDevice) else None
    case Lwm2mPsk => if "id" <= key then Some(Lwm2mPskId) else if "key" <= key then Some(Lwm2mPskKey) else None
    case MqttPsk => if "id" <= key then Some(MqttPskId) else if "key" <= key then Some(MqttPskKey) else None
    case Http =>
      if IsUri(key) then Some(HttpUri)
      else if "sig" <= key then Some(HttpSigUri)
      else if "key" <= key then Some(HttpKey)
      else None
    case Config => if IsUri(key) then Some(ConfigUri) else None
    case _ => None
  }

  /** The nested place a key in a place opens. */
  function NestedOf(place: Place, key: string): Option<Place> {
    match place
    case Lwm2m => if "psk" <= key then Some(Lwm2mPsk) else None
    case Mqtt => if "psk" <= key then Some(MqttPsk) else None
    case Ntp => if "url" <= key then Some(NtpUrl) else None
    case _ => None
  }

  /** One value found in the document. */
  datatype Write = Write(slot: Slot, text: string)

  // ---------------------------------------------------------------------------
  // What a document means: lookup in the tree, in document order
  // ---------------------------------------------------------------------------

  function DocumentWrites(members: seq<Member>): seq<Write>
    decreases members
  {
    if members == [] then [] else
    (match SectionOf(members[0].key)
     case None => []
     case Some(place) => PlaceWrites(place, members[0].value))
    + DocumentWrites(members[1..])
  }

  /** The values in an object that stands at a place. */
  function PlaceWrites(place: Place, j: Json): seq<Write>
    decreases j, 1
  {
    if j.Obj? then MemberWrites(place, j.members) else []
  }

  function MemberWrites(place: Place, members: seq<Member>): seq<Write>
    decreases members
  {
    if members == [] then [] else
    ValueWrites(place, members[0]) + MemberWrites(place, members[1..])
  }

  /** What one member of a place contributes: its own text, a nested object, or the NTP list. */
  function ValueWrites(place: Place, m: Member): seq<Write>
    decreases m.value, 2
  {
    var slot := SlotOf(place, m.key);
    if slot.Some? then (if m.value.Str? then [Write(slot.value, m.value.text)] else [])
    else match NestedOf(place, m.key)
      case None => []
      case Some(nested) =>
        if nested == NtpUrl then (if m.value.Arr? then ListWrites(m.value.items) else [])
        else PlaceWrites(nested, m.value)
  }

  function ListWrites(items: seq<Json>): seq<Write> {
    if items == [] then [] else
    (if items[0].Str? then [Write(NtpServer, items[0].text)] else []) + ListWrites(items[1..])
  }

  // ---------------------------------------------------------------------------
  // What the pass reads from a document, arrays included
  // ---------------------------------------------------------------------------

  /** The token behind another one, as far as the pass looks at it. */
  datatype Behind = End | Text(text: string) | NotText

  function Head(j: Json): Behind {
    if j.Str? then Text(j.text) else NotText
  }

  function BehindItem(rest: seq<Json>, behind: Behind): Behind {
    if rest == [] then behind else Head(rest[0])
  }

  function BehindMember(rest: seq<Member>, behind: Behind): Behind {
    if rest == [] then behind else Text(rest[0].key)
  }

  /** A string taken as a key at a place: the text behind it is its value. */
  function KeyReads(place: Place, key: string, behind: Behind): seq<Write> {
    var slot := SlotOf(place, key);
    if slot.Some? && behind.Text? then [Write(slot.value, behind.text)] else []
  }

  /** The nested place of keys that a key opens for the token behind it. */
  function Opens(place: Place, key: string): (n: Option<Place>)
    ensures n.Some? ==> n.value in {Lwm2mPsk, MqttPsk} && place in {Lwm2m, Mqtt}
  {
    var nested := NestedOf(place, key);
    if SlotOf(place, key).None? && nested != Some(NtpUrl) then nested else None
  }

  function OpensItem(place: Place, item: Json): Option<Place> {
    if item.Str? then Opens(place, item.text) else None
  }

  /** What is read from a value at a place, with `behind` the token that follows it. */
  function PlaceReads(place: Place, j: Json, behind: Behind): seq<Write>
    decreases j, 1
  {
    match j
    case Obj(members) => MemberReads(place, members, behind)
    case Arr(items) => ItemReads(place, items, None, behind)
    case _ => []
  }

  function MemberReads(place: Place, members: seq<Member>, behind: Behind): seq<Write>
    decreases members
  {
    if members == [] then [] else
    KeyReads(place, members[0].key, Head(members[0].value))
    + NestedReads(place, members[0], BehindMember(members[1..], behind))
    + MemberReads(place, members[1..], behind)
  }

  function NestedReads(place: Place, m: Member, behind: Behind): seq<Write>
    decreases m.value, 2
  {
    if SlotOf(place, m.key).None? && NestedOf(place, m.key) == Some(NtpUrl) then
      if m.value.Arr? then ListWrites(m.value.items) else []
    else
      var n := Opens(place, m.key);
      if n.None? then [] else PlaceReads(n.value, m.value, behind)
  }

  /**
   An array at a place: each string in it is taken as a key for the token behind it. When the
   string before an item opened a nested place, the item stands at that place.
   */
  function ItemReads(place: Place, items: seq<Json>, open: Option<Place>, behind: Behind): seq<Write>
    decreases items
  {
    if items == [] then [] else
    var next := BehindItem(items[1..], behind);
    (if items[0].Str? then KeyReads(place, items[0].text, next)
     else if open.Some? then PlaceReads(open.value, items[0], next)
     else [])
    + ItemReads(place, items[1..], OpensItem(place, items[0]), behind)
  }

  /** The nested place that an array leaves open for the token behind it. */
  function LastOpens(place: Place, items: seq<Json>, open: Option<Place>): Option<Place>
    decreases items
  {
    if items == [] then open else LastOpens(place, items[1..], OpensItem(place, items[0]))
  }

  function Leaves(place: Place, j: Json): Option<Place> {
    if j.Arr? then LastOpens(place, j.items, None) else None
  }

  function LeavesOpen(m: Member): Option<Place> {
    var section := SectionOf(m.key);
    if section.Some? then Leaves(section.value, m.value) else None
  }

  /** A string behind a top-level key for which an array left a place open is a key of that place. */
  function Spilled(open: Option<Place>, j: Json, behind: Behind): seq<Write> {
    if open.Some? && j.Str? then KeyReads(open.value, j.text, behind) else []
  }

  function DocumentReads(members: seq<Member>, open: Option<Place>): seq<Write>
    decreases members
  {
    if members == [] then [] else
    var next := BehindMember(members[1..], End);
    var section := SectionOf(members[0].key);
    Spilled(open, members[0].value, next)
    + (if section.Some? then PlaceReads(section.value, members[0].value, next) else [])
    + DocumentReads(members[1..], LeavesOpen(members[0]))
  }

  // ---------------------------------------------------------------------------
  // What of it lookup does not find
  // ---------------------------------------------------------------------------

  /** The part that arrays in the place of objects contribute. */
  function PlaceMisread(place: Place, j: Json, behind: Behind): seq<Write>
    decreases j, 1
  {
    match j
    case Obj(members) => MemberMisread(place, members, behind)
    case Arr(items) => ItemReads(place, items, None, behind)
    case _ => []
  }

  function MemberMisread(place: Place, members: seq<Member>, behind: Behind): seq<Write>
    decreases members
  {
    if members == [] then [] else
    var n := Opens(place, members[0].key);
    (if n.None? then [] else PlaceMisread(n.value, members[0].value, BehindMember(members[1..], behind)))
    + MemberMisread(place, members[1..], behind)
  }

  function DocumentMisread(members: seq<Member>, open: Option<Place>): seq<Write>
    decreases members
  {
    if members == [] then [] else
    var next := BehindMember(members[1..], End);
    var section := SectionOf(members[0].key);
    Spilled(open, members[0].value, next)
    + (if section.Some? then PlaceMisread(section.value, members[0].value, next) else [])
    + DocumentMisread(members[1..], LeavesOpen(members[0]))
  }

  // ---------------------------------------------------------------------------
  // Documents whose last token is taken as a key
  // ---------------------------------------------------------------------------

  predicate EndsAt(place: Place, j: Json)
    decreases j, 1
  {
    match j
    case Obj(members) => MembersEnd(place, members)
    case Arr(items) => ItemsEnd(place, items, None)
    case _ => false
  }

  predicate MembersEnd(place: Place, members: seq<Member>)
    decreases members
  {
    members != [] &&
    if members[1..] != [] then MembersEnd(place, members[1..]) else
    var n := Opens(place, members[0].key);
    n.Some? && EndsAt(n.value, members[0].value)
  }

  predicate ItemsEnd(place: Place, items: seq<Json>, open: Option<Place>)
    decreases items
  {
    items != [] &&
    if items[1..] != [] then ItemsEnd(place, items[1..], OpensItem(place, items[0]))
    else if items[0].Str? then place != Ntp
    else open.Some? && EndsAt(open.value, items[0])
  }

  predicate DocumentEnds(members: seq<Member>, open: Option<Place>)
    decreases members
  {
    members != [] &&
    if members[1..] != [] then DocumentEnds(members[1..], LeavesOpen(members[0]))
    else if members[0].value.Str? then open.Some?
    else SectionOf(members[0].key).Some? && EndsAt(SectionOf(members[0].key).value, members[0].value)
  }

  /** Down the last members and items: is the last token of the document one that is taken as a key? */
  predicate EndsInKey(members: seq<Member>) {
    DocumentEnds(members, None)
  }

  /** No array stands where the walk looks for an object of keys. */
  predicate WellShaped(members: seq<Member>)
    decreases members
  {
    members == [] ||
    ((SectionOf(members[0].key).Some? ==> PlaceShaped(SectionOf(members[0].key).value, members[0].value))
     && WellShaped(members[1..]))
  }

  predicate PlaceShaped(place: Place, j: Json)
    decreases j, 1
  {
    !j.Arr? && (j.Obj? ==> MembersShaped(place, j.members))
  }

  predicate MembersShaped(place: Place, members: seq<Member>)
    decreases members
  {
    members == [] ||
    ((SlotOf(place, members[0].key).None? && NestedOf(place, members[0].key).Some? ==>
        NestedShaped(NestedOf(place, members[0].key).value, members[0].value))
     && MembersShaped(place, members[1..]))
  }

  predicate NestedShaped(nested: Place, j: Json)
    decreases j, 2
  {
    nested == NtpUrl || PlaceShaped(nested, j)
  }

  // ---------------------------------------------------------------------------
  // The one pass over the tokens
  // ---------------------------------------------------------------------------

  /** The key indices the pass keeps, one for each place. */
  datatype Keys = Keys(
    wifi: int, lwm2m: int, ntp: int, mqtt: int, http: int, config: int,
    lwm2mPsk: int, mqttPsk: int, ntpUrl: int, ntpArray: int)
  {
    function Get(p: Place): int {
      match p
      case Wifi => wifi case Lwm2m => lwm2m case Ntp => ntp case Mqtt => mqtt case Http => http
      case Config => config case Lwm2mPsk => lwm2mPsk case MqttPsk => mqttPsk
      case NtpUrl => ntpUrl case NtpArray => ntpArray
    }

    function Set(p: Place, i: int): (k: Keys)
      ensures k.Get(p) == i && forall q :: q != p ==> k.Get(q) == Get(q)
    {
      match p
      case Wifi => this.(wifi := i) case Lwm2m => this.(lwm2m := i) case Ntp => this.(ntp := i)
      case Mqtt => this.(mqtt := i) case Http => this.(http := i) case Config => this.(config := i)
      case Lwm2mPsk => this.(lwm2mPsk := i) case MqttPsk => this.(mqttPsk := i)
      case NtpUrl => this.(ntpUrl := i) case NtpArray => this.(ntpArray := i)
    }
  }

  /** INT8_MIN, before any key was seen. */
  const UNSEEN: Keys := Keys(-128, -128, -128, -128, -128, -128, -128, -128, -128, -128)

  /** The token index whose children stand at a place. */
  function Watch(k: Keys, p: Place): int {
    if p == NtpUrl || p == NtpArray then k.Get(p) else k.Get(p) + 1
  }

  predicate Reacts(k: Keys, p: Place, t: Token) {
    Watch(k, p) == t.parent && t.kind == if p == NtpUrl then ARRAY else STRING
  }

  /** When the pass tests for a place. */
  function Turn(p: Place): nat {
    match p
    case Wifi => 0 case Lwm2m => 1 case Ntp => 2 case NtpUrl => 3 case NtpArray => 4
    case Mqtt => 5 case Lwm2mPsk => 6 case MqttPsk => 7 case Http => 8 case Config => 9
  }

  /** The place a token belongs to: of those that react, the first to be tested. */
  function FirstOf(k: Keys, t: Token): (r: Option<Place>)
    ensures r.Some? ==> Reacts(k, r.value, t) && forall p :: Reacts(k, p, t) ==> Turn(r.value) <= Turn(p)
    ensures r.None? ==> forall p :: !Reacts(k, p, t)
  {
    if Reacts(k, Wifi, t) then Some(Wifi)
    else if Reacts(k, Lwm2m, t) then Some(Lwm2m)
    else if Reacts(k, Ntp, t) then Some(Ntp)
    else if Reacts(k, NtpUrl, t) then Some(NtpUrl)
    else if Reacts(k, NtpArray, t) then Some(NtpArray)
    else if Reacts(k, Mqtt, t) then Some(Mqtt)
    else if Reacts(k, Lwm2mPsk, t) then Some(Lwm2mPsk)
    else if Reacts(k, MqttPsk, t) then Some(MqttPsk)
    else if Reacts(k, Http, t) then Some(Http)
    else if Reacts(k, Config, t) then Some(Config)
    else None
  }

  datatype Visit = Visit(keys: Keys, writes: seq<Write>)

  predicate TopLevelKey(t: Token) {
    t.parent == 0 && t.kind == STRING
  }

  /** What the pass does at token `i`. A key looks at the token behind it for its value. */
  function Step(k: Keys, tokens: seq<Token>, i: nat): Visit
    requires i < |tokens|
  {
    var t := tokens[i];
    if TopLevelKey(t) then
      var section := SectionOf(t.text);
      Visit(if section.Some? then k.Set(section.value, i) else k, [])
    else
      var p := FirstOf(k, t);
      if p.None? then Visit(k, [])
      else if p.value == NtpUrl then Visit(k.Set(NtpArray, i), [])
      else if p.value == NtpArray then Visit(k, [Write(NtpServer, t.text)])
      else KeyStep(k, p.value, tokens, i)
  }

  /** A key at a place: open a nested place, or take the text of the token behind it. */
  function KeyStep(k: Keys, p: Place, tokens: seq<Token>, i: nat): Visit
    requires i < |tokens|
  {
    var slot, nested := SlotOf(p, tokens[i].text), NestedOf(p, tokens[i].text);
    if slot.Some? then
      Visit(k, if i + 1 < |tokens| && tokens[i + 1].kind == STRING then [Write(slot.value, tokens[i + 1].text)] else [])
    else if nested.Some? then Visit(k.Set(nested.value, i), [])
    else Visit(k, [])
  }

  /** Does the pass look at the token behind token `i`? It does for every key in a section. */
  predicate LooksAhead(k: Keys, tokens: seq<Token>, i: nat)
    requires i < |tokens|
  {
    var t := tokens[i];
    var p := FirstOf(k, t);
    !TopLevelKey(t) && p.Some? && p.value !in {Ntp, NtpUrl, NtpArray}
  }

  /** The pass over tokens `start` up to `stop`. */
  function Walk(k: Keys, tokens: seq<Token>, start: nat, stop: nat): Visit
    requires start <= stop <= |tokens|
    decreases stop
  {
    if start == stop then Visit(k, []) else
    var v := Walk(k, tokens, start, stop - 1);
    var w := Step(v.keys, tokens, stop - 1);
    Visit(w.keys, v.writes + w.writes)
  }

  /** The pass never looks behind the last token. */
  predicate InBounds(k: Keys, tokens: seq<Token>, start: nat, stop: nat)
    requires start <= stop <= |tokens|
  {
    forall i :: start <= i < stop ==> LooksAhead(Walk(k, tokens, start, i).keys, tokens, i) ==> i + 1 < |tokens|
  }
}
