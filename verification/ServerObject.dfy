/** The LwM2M server object: what its operations do to the instances and answer. */
module ServerObject {
  import opened CStrings

  datatype Option<T> = None | Some(value: T)

  datatype Code =
    | Created201 | Deleted202 | Changed204 | Content205
    | BadRequest400 | NotFound404 | NotAllowed405 | NotAcceptable406 | ServerError500

  const SHORT_ID := 0
  const LIFETIME := 1
  const DISABLE := 4
  const STORING := 6
  const BINDING := 7
  const UPDATE := 8

  /**
   One resource of a request: whether it has several instances, and what the decoders of the
   LwM2M library make of it as a number, as a truth value, and as a string or opaque buffer.
   */
  datatype Data = Data(id: nat, multiple: bool, number: Option<int>, flag: Option<bool>, bytes: Option<string>)

  datatype Fields = Fields(shortId: nat, lifetime: nat, storing: bool, binding: string)

  /** The ranges of the C fields, and the NUL that always ends the binding. */
  predicate Sane(f: Fields) {
    f.shortId <= 0xFFFF && f.lifetime <= 0xFFFF_FFFF && |f.binding| == 4 && f.binding[3] == '\0'
  }

  /** A fresh instance, cleared by memset. */
  function Zero(): (f: Fields)
    ensures Sane(f) && f.shortId == 0
  {
    Fields(0, 0, false, Zeros(4))
  }

  // ---------------------------------------------------------------------------
  // Writing one instance
  // ---------------------------------------------------------------------------

  /** The answer to a number: anything that fits 32 bits is taken. */
  function NumberVerdict(n: Option<int>): Code {
    if n.None? then BadRequest400 else if 0 <= n.value <= 0xFFFF_FFFF then Changed204 else NotAcceptable406
  }

  /** The answer to one resource of a write; it never depends on the instance. */
  function Verdict(d: Data): Code {
    if d.multiple then NotFound404
    else if d.id == SHORT_ID then
      if NumberVerdict(d.number) == Changed204 && !(0 < d.number.value <= 0xFFFF) then NotAcceptable406
      else NumberVerdict(d.number)
    else if d.id == LIFETIME then NumberVerdict(d.number)
    else if d.id == STORING then if d.flag.Some? then Changed204 else BadRequest400
    else if d.id == BINDING then
      if d.bytes.Some? && 0 < |d.bytes.value| <= 3 then Changed204 else BadRequest400
    else if d.id == DISABLE || d.id == UPDATE then NotAllowed405
    else NotFound404
  }

  predicate AllTaken(ds: seq<Data>) {
    forall i :: 0 <= i < |ds| ==> Verdict(ds[i]) == Changed204
  }

  /** One accepted resource stored. A binding is copied over the old one with its own length. */
  function Store(f: Fields, d: Data): (r: Fields)
    requires Sane(f) && Verdict(d) == Changed204
    ensures Sane(r)
  {
    if d.id == SHORT_ID then f.(shortId := d.number.value)
    else if d.id == LIFETIME then f.(lifetime := d.number.value)
    else if d.id == STORING then f.(storing := d.flag.value)
    else f.(binding := Copied(f.binding, d.bytes.value, |d.bytes.value|))
  }

  /** The updates of a list of accepted resources, in order. */
  function Folded(f: Fields, ds: seq<Data>): (r: Fields)
    requires Sane(f) && AllTaken(ds)
    ensures Sane(r)
  {
    if ds == [] then f else Store(Folded(f, ds[..|ds| - 1]), ds[|ds| - 1])
  }

  /** How many resources at the front are accepted. */
  function Taken(ds: seq<Data>): (n: nat)
    ensures n <= |ds| && AllTaken(ds[..n])
    ensures n < |ds| ==> Verdict(ds[n]) != Changed204
  {
    if ds == [] || Verdict(ds[0]) != Changed204 then 0 else
    var n := 1 + Taken(ds[1..]);
    assert forall i :: 0 < i < n ==> ds[..n][i] == ds[1..][..n - 1][i - 1];
    n
  }

  /** The code of a write: the first refusal, if there is one. */
  function WriteCode(ds: seq<Data>): Code {
    if Taken(ds) == |ds| then Changed204 else Verdict(ds[Taken(ds)])
  }

  // ---------------------------------------------------------------------------
  // The operations on the instances
  // ---------------------------------------------------------------------------

  type Instances = map<nat, Fields>

  predicate AllSane(m: Instances) {
    forall id :: id in m ==> Sane(m[id])
  }

  datatype Outcome = Outcome(code: Code, instances: Instances)

  function Delete(m: Instances, id: nat): Outcome {
    if id !in m then Outcome(NotFound404, m) else Outcome(Deleted202, m - {id})
  }

  /** A write to the resources of an instance: the accepted front of the list is stored, the rest is not. */
  function Write(m: Instances, id: nat, ds: seq<Data>): Outcome
    requires AllSane(m)
  {
    if id !in m then Outcome(NotFound404, m)
    else Outcome(WriteCode(ds), m[id := Folded(m[id], ds[..Taken(ds)])])
  }

  /** Creation under a fresh id: all resources, or no instance. `room` tells whether memory is left. */
  function Create(m: Instances, id: nat, ds: seq<Data>, room: bool): Outcome {
    if !room then Outcome(ServerError500, m)
    else if WriteCode(ds) != Changed204 then Outcome(WriteCode(ds), m)
    else Outcome(Created201, m[id := Folded(Zero(), ds)])
  }

  /** Replacement deletes first, and a creation that then fails leaves the id without an instance. */
  function Replace(m: Instances, id: nat, ds: seq<Data>, room: bool): Outcome {
    if id !in m then Outcome(NotFound404, m)
    else if !room then Outcome(ServerError500, m - {id})
    else if WriteCode(ds) != Changed204 then Outcome(WriteCode(ds), m - {id})
    else Outcome(Changed204, m[id := Folded(Zero(), ds)])
  }

  // ---------------------------------------------------------------------------
  // What a write leaves, field by field
  // ---------------------------------------------------------------------------

  /** The last resource with an id, which is the one that counts. */
  function LastOf(ds: seq<Data>, id: nat): (r: Option<Data>)
    ensures r.Some? ==> r.value in ds && r.value.id == id
    ensures r.None? ==> forall d :: d in ds ==> d.id != id
  {
    if ds == [] then None
    else if ds[|ds| - 1].id == id then Some(ds[|ds| - 1])
    else LastOf(ds[..|ds| - 1], id)
  }

  /** The binding buffer under the bindings written to it, in order. */
  function Bindings(buffer: string, ds: seq<Data>): (r: string)
    requires |buffer| == 4 && AllTaken(ds)
    ensures |r| == 4
  {
    if ds == [] then buffer else
    var before := Bindings(buffer, ds[..|ds| - 1]);
    var d := ds[|ds| - 1];
    if d.id == BINDING then Copied(before, d.bytes.value, |d.bytes.value|) else before
  }

  /** Each field holds its last accepted value; the fields do not disturb each other. */
  lemma {:induction false} FieldByField(f: Fields, ds: seq<Data>)
    requires Sane(f) && AllTaken(ds)
    ensures
      var r := Folded(f, ds);
      && r.shortId == (if LastOf(ds, SHORT_ID).Some? then LastOf(ds, SHORT_ID).value.number.value else f.shortId)
      && r.lifetime == (if LastOf(ds, LIFETIME).Some? then LastOf(ds, LIFETIME).value.number.value else f.lifetime)
      && r.storing == (if LastOf(ds, STORING).Some? then LastOf(ds, STORING).value.flag.value else f.storing)
      && r.binding == Bindings(f.binding, ds)
    decreases |ds|
  {
    if ds != [] {
      FieldByField(f, ds[..|ds| - 1]);
    }
  }

  /** No write stores short id 0: it stays 0 only where none was ever written. */
  lemma ShortIdNotZero(f: Fields, ds: seq<Data>)
    requires Sane(f) && AllTaken(ds)
    ensures Folded(f, ds).shortId == 0 <==> f.shortId == 0 && LastOf(ds, SHORT_ID).None?
  {
    FieldByField(f, ds);
  }

  /**
   Reading the binding gives the text just written exactly when the buffer had a NUL right behind it.
   That the old binding ended no later is not enough: see HiddenTailMixes.
   */
  lemma BindingReadBack(f: Fields, d: Data)
    requires Sane(f) && d.id == BINDING && Verdict(d) == Changed204 && '\0' !in d.bytes.value
    ensures CString(Store(f, d).binding) == d.bytes.value <==> f.binding[|d.bytes.value|] == '\0'
  {
    var text := d.bytes.value;
    assert text[..|text|] == text;
    NoNul(text);
    var r := Store(f, d).binding;
    assert r == text + f.binding[|text|..];
    assert r[|text|] == f.binding[|text|];
    if f.binding[|text|] == '\0' {
      UpTo(text, r);
    }
  }

  /** A shorter binding over a longer one keeps the longer one's tail. */
  lemma ShorterBindingMixes()
    ensures
      var f := Zero().(binding := "UQS" + [ '\0' ]);
      var d := Data(BINDING, false, None, None, Some("S"));
      Sane(f) && Verdict(d) == Changed204 && CString(Store(f, d).binding) == "SQS"
  {
    var f := Zero().(binding := "UQS" + [ '\0' ]);
    var d := Data(BINDING, false, None, None, Some("S"));
    NoNul("S");
    assert "S"[..1] == "S";
    assert Store(f, d).binding == "SQS" + [ '\0' ];
    UpTo("SQS", "SQS" + [ '\0' ]);
  }

  function BindingData(text: string): (d: Data)
    requires 0 < |text| <= 3
    ensures Verdict(d) == Changed204
  {
    Data(BINDING, false, None, None, Some(text))
  }

  /** A binding with a NUL in it hides a tail: "UQS", then "U" and a NUL, reads "U"; "SS" after that reads "SSS". */
  lemma HiddenTailMixes()
    ensures
      var f1 := Store(Zero(), BindingData("UQS"));
      var f2 := Store(f1, BindingData(['U', '\0']));
      && CString(f2.binding) == "U"
      && CString(Store(f2, BindingData("SS")).binding) == "SSS"
  {
    hide CString;
    var f1 := Store(Zero(), BindingData("UQS"));
    NoNul("UQS");
    assert "UQS"[..3] == "UQS" && f1.binding == "UQS" + ['\0'];
    var u := ['U', '\0'];
    assert u[..2] == u;
    UpTo("U", u);
    var f2 := Store(f1, BindingData(u));
    assert f2.binding == ['U', '\0', 'S', '\0'];
    UpTo("U", f2.binding);
    NoNul("SS");
    assert "SS"[..2] == "SS";
    assert Store(f2, BindingData("SS")).binding == "SSS" + ['\0'];
    UpTo("SSS", "SSS" + ['\0']);
  }

  // ---------------------------------------------------------------------------
  // Whole requests
  // ---------------------------------------------------------------------------

  /** A write is complete exactly when every resource is acceptable, and then its code is 2.04. */
  lemma WriteCodeExact(ds: seq<Data>)
    ensures WriteCode(ds) == Changed204 <==> AllTaken(ds)
    ensures WriteCode(ds) != Changed204 ==>
      exists n :: 0 <= n < |ds| && AllTaken(ds[..n]) && Verdict(ds[n]) == WriteCode(ds)
    ensures WriteCode(ds) != Created201
  {
    assert ds[..|ds|] == ds;
    if Taken(ds) < |ds| {
      assert Verdict(ds[Taken(ds)]) != Changed204;
    }
  }

  /** Creation is all or nothing. */
  lemma CreateAllOrNothing(m: Instances, id: nat, ds: seq<Data>, room: bool)
    requires id !in m
    ensures
      var r := Create(m, id, ds, room);
      && (r.code == Created201 <==> room && AllTaken(ds))
      && (r.code == Created201 ==> r.instances.Keys == m.Keys + {id} && r.instances - {id} == m && r.instances[id] == Folded(Zero(), ds))
      && (r.code != Created201 ==> r.instances == m)
  {
    hide Folded, Verdict, Zero, Sane, WriteCode, AllTaken;
    WriteCodeExact(ds);
    if AllTaken(ds) {
      assert m[id := Folded(Zero(), ds)] - {id} == m;
    }
  }

  /** Replacement gives the instance the new data alone, whatever it held, or removes it. */
  lemma ReplaceForgets(m: Instances, other: Instances, id: nat, ds: seq<Data>, room: bool)
    requires id in m && id in other
    ensures
      var r := Replace(m, id, ds, room);
      && (r.code == Changed204 <==> room && AllTaken(ds))
      && (if r.code == Changed204 then id in r.instances && r.instances[id] == Folded(Zero(), ds) else id !in r.instances)
      && r.instances - {id} == m - {id}
      && r.code == Replace(other, id, ds, room).code
      && (r.code == Changed204 ==> r.instances[id] == Replace(other, id, ds, room).instances[id])
  {
    WriteCodeExact(ds);
  }

  /** Replacement is deletion and then creation, with 2.04 for 2.01. */
  lemma ReplaceIsDeleteCreate(m: Instances, id: nat, ds: seq<Data>, room: bool)
    requires id in m
    ensures
      var made := Create(Delete(m, id).instances, id, ds, room);
      Replace(m, id, ds, room) == made.(code := if made.code == Created201 then Changed204 else made.code)
  {
    hide Folded, Verdict, Zero, Sane, WriteCode, AllTaken;
    WriteCodeExact(ds);
    if AllTaken(ds) {
      assert m[id := Folded(Zero(), ds)] == (m - {id})[id := Folded(Zero(), ds)];
    }
  }

  // ---------------------------------------------------------------------------
  // Reading
  // ---------------------------------------------------------------------------

  datatype Answer = Number(n: int) | Flag(b: bool) | Text(t: string)

  datatype Query = Query(id: nat, multiple: bool)

  /** The resources of a read that names none. */
  const FULL: seq<Query> := [Query(SHORT_ID, false), Query(LIFETIME, false), Query(STORING, false), Query(BINDING, false)]

  function QueryCode(q: Query): Code {
    if q.multiple then NotFound404
    else if q.id in {SHORT_ID, LIFETIME, STORING, BINDING} then Content205
    else if q.id in {DISABLE, UPDATE} then NotAllowed405
    else NotFound404
  }

  function Value(f: Fields, q: Query): Answer
    requires QueryCode(q) == Content205
  {
    if q.id == SHORT_ID then Number(f.shortId)
    else if q.id == LIFETIME then Number(f.lifetime)
    else if q.id == STORING then Flag(f.storing)
    else Text(CString(f.binding))
  }

  /** How many queries at the front have an answer. */
  function Readable(qs: seq<Query>): (n: nat)
    ensures n <= |qs| && forall i :: 0 <= i < n ==> QueryCode(qs[i]) == Content205
    ensures n < |qs| ==> QueryCode(qs[n]) != Content205
  {
    if qs == [] || QueryCode(qs[0]) != Content205 then 0 else 1 + Readable(qs[1..])
  }

  function Values(f: Fields, qs: seq<Query>): (r: seq<Answer>)
    requires forall i :: 0 <= i < |qs| ==> QueryCode(qs[i]) == Content205
    ensures |r| == |qs|
  {
    seq(|qs|, i requires 0 <= i < |qs| => Value(f, qs[i]))
  }

  function ReadCode(qs: seq<Query>): Code {
    if Readable(qs) == |qs| then Content205 else QueryCode(qs[Readable(qs)])
  }

  lemma FullIsReadable()
    ensures Readable(FULL) == |FULL| == 4
  {
  }

  /** Reading the whole instance after a write that was accepted gives back what was written. */
  lemma ReadAfterWrite(m: Instances, id: nat, ds: seq<Data>)
    requires AllSane(m) && id in m && AllTaken(ds)
    ensures
      var r := Write(m, id, ds);
      && r.code == Changed204 && id in r.instances && ReadCode(FULL) == Content205
      && Values(r.instances[id], FULL) == [
        Number(if LastOf(ds, SHORT_ID).Some? then LastOf(ds, SHORT_ID).value.number.value else m[id].shortId),
        Number(if LastOf(ds, LIFETIME).Some? then LastOf(ds, LIFETIME).value.number.value else m[id].lifetime),
        Flag(if LastOf(ds, STORING).Some? then LastOf(ds, STORING).value.flag.value else m[id].storing),
        Text(CString(Bindings(m[id].binding, ds)))]
  {
    hide CString, Folded, Verdict, LastOf, Bindings, Taken, Sane;
    WriteCodeExact(ds);
    assert ds[..|ds|] == ds;
    FieldByField(m[id], ds);
    FullIsReadable();
  }

  /** A created or replaced instance reads as what it was given, and as zero, false and empty where it was not. */
  lemma ReadAfterCreate(m: Instances, id: nat, ds: seq<Data>)
    requires AllTaken(ds)
    ensures
      var r := Create(m, id, ds, true).instances;
      && id in r && (id in m ==> Replace(m, id, ds, true).instances[id] == r[id])
      && ReadCode(FULL) == Content205
      && Values(r[id], FULL) == [
        Number(if LastOf(ds, SHORT_ID).Some? then LastOf(ds, SHORT_ID).value.number.value else 0),
        Number(if LastOf(ds, LIFETIME).Some? then LastOf(ds, LIFETIME).value.number.value else 0),
        Flag(if LastOf(ds, STORING).Some? then LastOf(ds, STORING).value.flag.value else false),
        Text(CString(Bindings(['\0', '\0', '\0', '\0'], ds)))]
  {
    hide CString, Folded, Verdict, LastOf, Bindings, Taken, Sane;
    WriteCodeExact(ds);
    FieldByField(Zero(), ds);
    FullIsReadable();
    assert Zeros(4) == ['\0', '\0', '\0', '\0'];
  }

  // ---------------------------------------------------------------------------
  // Which values are taken, with the ids and ranges of the object definition
  // ---------------------------------------------------------------------------

  /** A resource that a write takes. */
  predicate Good(d: Data) {
    && !d.multiple
    && (|| (d.id == 0 && d.number.Some? && 1 <= d.number.value <= 65535)
        || (d.id == 1 && d.number.Some? && 0 <= d.number.value < 4294967296)
        || (d.id == 6 && d.flag.Some?)
        || (d.id == 7 && d.bytes.Some? && 1 <= |d.bytes.value| <= 3))
  }

  lemma TakenIsGood(d: Data)
    ensures Verdict(d) == Changed204 <==> Good(d)
  {
  }

  lemma SingleWrite(m: Instances, id: nat, d: Data)
    requires AllSane(m) && id in m
    ensures Write(m, id, [d]) ==
      if Verdict(d) == Changed204 then Outcome(Changed204, m[id := Store(m[id], d)]) else Outcome(Verdict(d), m)
  {
    hide Verdict, Store;
    assert [d][..1] == [d] && [d][..0] == [] && [d][1..] == [];
    assert Taken([d]) == if Verdict(d) == Changed204 then 1 else 0;
    assert Folded(m[id], []) == m[id] && m[id := m[id]] == m;
  }

  /** What an accepted resource changes: its own field and no other, in its own instance and no other. */
  ghost predicate SetTo(r: Outcome, m: Instances, id: nat, f: Fields) {
    r.code == Changed204 && r.instances == m[id := f]
  }

  /** The four answers of a read of the whole instance. */
  function WholeInstance(shortId: int, lifetime: int, storing: bool, binding: string): seq<Answer> {
    [Number(shortId), Number(lifetime), Flag(storing), Text(CString(binding))]
  }

  lemma WholeRead(f: Fields)
    ensures Values(f, FULL) == WholeInstance(f.shortId, f.lifetime, f.storing, f.binding)
  {
    FullIsReadable();
  }

  /** A number is taken and reads back exactly inside the range of its resource. */
  lemma NumbersTaken(m: Instances, id: nat, d: Data)
    requires AllSane(m) && id in m && !d.multiple && d.number.Some?
    ensures
      var r, n := Write(m, id, [d]), d.number.value;
      && (d.id == 1 ==>
            if 0 <= n < 4294967296 then
              && SetTo(r, m, id, m[id].(lifetime := n))
              && Values(r.instances[id], FULL) == WholeInstance(m[id].shortId, n, m[id].storing, m[id].binding)
            else r == Outcome(NotAcceptable406, m))
      && (d.id == 0 ==>
            if 1 <= n <= 65535 then
              && SetTo(r, m, id, m[id].(shortId := n))
              && Values(r.instances[id], FULL) == WholeInstance(n, m[id].lifetime, m[id].storing, m[id].binding)
            else r == Outcome(NotAcceptable406, m))
  {
    SingleWrite(m, id, d);
    FullIsReadable();
    WholeRead(Write(m, id, [d]).instances[id]);
    hide Write, CString, WholeInstance, Values;
  }

  /** A truth value is taken and reads back; a binding of one to three bytes is laid over the old one. */
  lemma FlagsAndBindingsTaken(m: Instances, id: nat, d: Data)
    requires AllSane(m) && id in m && !d.multiple
    ensures
      var r := Write(m, id, [d]);
      && (d.id == 6 && d.flag.Some? ==>
            && SetTo(r, m, id, m[id].(storing := d.flag.value))
            && Values(r.instances[id], FULL) == WholeInstance(m[id].shortId, m[id].lifetime, d.flag.value, m[id].binding))
      && (d.id == 7 && d.bytes.Some? ==>
            var t := d.bytes.value;
            if 1 <= |t| <= 3 then
              && r.code == Changed204
              && ('\0' !in t ==> SetTo(r, m, id, m[id].(binding := t + m[id].binding[|t|..])))
            else r == Outcome(BadRequest400, m))
  {
    SingleWrite(m, id, d);
    FullIsReadable();
    WholeRead(Write(m, id, [d]).instances[id]);
    if d.id == 7 && d.bytes.Some? && 1 <= |d.bytes.value| <= 3 && '\0' !in d.bytes.value {
      var t := d.bytes.value;
      NoNul(t);
      assert t[..|t|] == t && Zeros(0) == [];
      assert Store(m[id], d).binding == t + m[id].binding[|t|..];
    }
    hide Write, CString, WholeInstance, Values;
  }

  /** Everything else is refused, with nothing changed. */
  lemma OthersRefused(m: Instances, id: nat, d: Data)
    requires AllSane(m) && id in m
    ensures
      var r := Write(m, id, [d]);
      && (d.multiple ==> r == Outcome(NotFound404, m))
      && (!d.multiple ==>
            && (d.id in {0, 1} && d.number.None? ==> r == Outcome(BadRequest400, m))
            && (d.id == 6 && d.flag.None? ==> r == Outcome(BadRequest400, m))
            && (d.id == 7 && d.bytes.None? ==> r == Outcome(BadRequest400, m))
            && (d.id in {4, 8} ==> r == Outcome(NotAllowed405, m))
            && (d.id !in {0, 1, 4, 6, 7, 8} ==> r == Outcome(NotFound404, m)))
  {
    SingleWrite(m, id, d);
    hide Write;
  }

  lemma {:induction false} TakenUpTo(ds: seq<Data>, n: nat)
    requires n <= |ds| && (n < |ds| ==> !Good(ds[n])) && forall i :: 0 <= i < n ==> Good(ds[i])
    ensures Taken(ds) == n
  {
    hide Verdict, Good;
    if ds != [] {
      TakenIsGood(ds[0]);
      if n > 0 {
        assert forall i :: 0 <= i < n - 1 ==> ds[1..][i] == ds[i + 1];
        TakenUpTo(ds[1..], n - 1);
      }
    }
  }

  /** Lists of good resources are taken by every operation on the instance. */
  lemma GoodListsTaken(m: Instances, id: nat, ds: seq<Data>)
    requires AllSane(m) && forall i :: 0 <= i < |ds| ==> Good(ds[i])
    ensures id in m ==> Write(m, id, ds).code == Changed204 && Replace(m, id, ds, true).code == Changed204
    ensures Create(m, id, ds, true).code == Created201
  {
    TakenUpTo(ds, |ds|);
    hide Good, Verdict;
  }

  /**
   Any other list is answered, by every operation on the instance, as its first bad resource alone would
   be. A write keeps what the good ones before it brought; a replaced instance is gone.
   */
  lemma FirstBadDecides(m: Instances, id: nat, ds: seq<Data>, n: nat)
    requires AllSane(m) && id in m
    requires n < |ds| && !Good(ds[n]) && forall i :: 0 <= i < n ==> Good(ds[i])
    ensures
      var code := Write(m, id, [ds[n]]).code;
      && code != Changed204
      && Write(m, id, ds) == Outcome(code, Write(m, id, ds[..n]).instances)
      && Replace(m, id, ds, true) == Outcome(code, m - {id})
      && forall other :: Create(m, other, ds, true) == Outcome(code, m)
  {
    TakenUpTo(ds, n);
    TakenUpTo(ds[..n], n);
    assert ds[..n][..n] == ds[..n];
    SingleWrite(m, id, ds[n]);
    hide Good, Verdict;
  }

  /** Without memory for an instance nothing is created, and a replacement has deleted already. */
  lemma NoRoom(m: Instances, id: nat, ds: seq<Data>)
    ensures Create(m, id, ds, false) == Outcome(ServerError500, m)
    ensures id in m ==> Replace(m, id, ds, false) == Outcome(ServerError500, m - {id})
  {
  }

  /** What is not there is not found, and deletion takes away exactly one instance. */
  lemma AbsentInstance(m: Instances, id: nat, ds: seq<Data>, room: bool)
    requires AllSane(m)
    ensures id !in m ==> Write(m, id, ds) == Replace(m, id, ds, room) == Delete(m, id) == Outcome(NotFound404, m)
    ensures id in m ==> Delete(m, id) == Outcome(Deleted202, m - {id})
  {
  }

  lemma {:induction false} ReadableUpTo(qs: seq<Query>, n: nat)
    requires n <= |qs| && (n < |qs| ==> qs[n].multiple || qs[n].id !in {0, 1, 6, 7})
    requires forall i :: 0 <= i < n ==> !qs[i].multiple && qs[i].id in {0, 1, 6, 7}
    ensures Readable(qs) == n
  {
    if n > 0 {
      assert forall i :: 0 <= i < n - 1 ==> qs[1..][i] == qs[i + 1];
      ReadableUpTo(qs[1..], n - 1);
    }
  }

  /** A read is answered as a whole, or as its first resource that cannot be read is. */
  lemma ReadsAnswered(qs: seq<Query>, n: nat)
    requires n <= |qs| && (n < |qs| ==> qs[n].multiple || qs[n].id !in {0, 1, 6, 7})
    requires forall i :: 0 <= i < n ==> !qs[i].multiple && qs[i].id in {0, 1, 6, 7}
    ensures ReadCode(qs) ==
      if n == |qs| then Content205
      else if qs[n].multiple || qs[n].id !in {4, 8} then NotFound404
      else NotAllowed405
  {
    ReadableUpTo(qs, n);
  }

  /** The instance a server object starts with. */
  lemma StartsWith123()
    ensures Initial().Keys == {0}
    ensures Values(Initial()[0], FULL) == [Number(123), Number(900), Flag(false), Text("U")]
  {
    FullIsReadable();
    var f := Initial()[0];
    assert f.binding == "U" + ['\0', '\0', '\0'];
    UpTo("U", f.binding);
    hide CString;
  }

  // ---------------------------------------------------------------------------
  // Runs of requests
  // ---------------------------------------------------------------------------

  datatype Request =
    | WriteR(id: nat, ds: seq<Data>)
    | ReplaceR(id: nat, ds: seq<Data>, room: bool)
    | CreateR(id: nat, ds: seq<Data>, room: bool)
    | DeleteR(id: nat)

  function Serve(m: Instances, r: Request): Outcome
    requires AllSane(m)
  {
    match r
    case WriteR(id, ds) => Write(m, id, ds)
    case ReplaceR(id, ds, room) => Replace(m, id, ds, room)
    case CreateR(id, ds, room) => Create(m, id, ds, room)
    case DeleteR(id) => Delete(m, id)
  }

  /** The single instance of get_server_object. */
  function Initial(): (m: Instances)
    ensures AllSane(m)
  {
    map[0 := Fields(123, 15 * 60, false, "U" + Zeros(3))]
  }

  lemma ServeKeeps(m: Instances, r: Request)
    requires AllSane(m)
    ensures AllSane(Serve(m, r).instances)
    ensures forall id :: id != r.id ==> (id in Serve(m, r).instances <==> id in m)
    ensures forall id :: id != r.id && id in m ==> Serve(m, r).instances[id] == m[id]
  {
    if (r.ReplaceR? || r.CreateR?) && WriteCode(r.ds) == Changed204 {
      WriteCodeExact(r.ds);
    }
  }

  /** The instances after a run of requests. */
  function Run(m: Instances, rs: seq<Request>): (r: Instances)
    requires AllSane(m)
    ensures AllSane(r)
  {
    if rs == [] then m else
    ServeKeeps(Run(m, rs[..|rs| - 1]), rs[|rs| - 1]);
    Serve(Run(m, rs[..|rs| - 1]), rs[|rs| - 1]).instances
  }

  predicate Names(rs: seq<Request>, id: nat) {
    exists i :: 0 <= i < |rs| && rs[i].id == id
  }

  /** An instance no request of a run names is as it was. */
  lemma {:induction false} RunFrame(m: Instances, rs: seq<Request>, id: nat)
    requires AllSane(m) && !Names(rs, id)
    ensures id in Run(m, rs) <==> id in m
    ensures id in m ==> Run(m, rs)[id] == m[id]
    decreases |rs|
  {
    if rs != [] {
      var front := rs[..|rs| - 1];
      assert forall i :: 0 <= i < |front| ==> front[i] == rs[i];
      assert rs[|rs| - 1].id != id;
      RunFrame(m, front, id);
      ServeKeeps(Run(m, front), rs[|rs| - 1]);
    }
  }

  predicate AllNumbered(m: Instances) {
    forall id :: id in m ==> m[id].shortId != 0
  }

  /** Every request that builds an instance from nothing brings a short id. */
  predicate BringsShortIds(rs: seq<Request>) {
    forall i :: 0 <= i < |rs| && (rs[i].CreateR? || rs[i].ReplaceR?) ==> LastOf(rs[i].ds, SHORT_ID).Some?
  }

  /** An instance has short id 0 in a run only because some creation or replacement left it out. */
  lemma {:induction false} ShortIdsStay(m: Instances, rs: seq<Request>)
    requires AllSane(m) && AllNumbered(m) && BringsShortIds(rs)
    ensures AllNumbered(Run(m, rs))
    decreases |rs|
  {
    if rs != [] {
      var front, r := rs[..|rs| - 1], rs[|rs| - 1];
      assert forall i :: 0 <= i < |front| ==> front[i] == rs[i];
      ShortIdsStay(m, front);
      var before := Run(m, front);
      if r.WriteR? && r.id in before {
        ShortIdNotZero(before[r.id], r.ds[..Taken(r.ds)]);
      } else if r.ReplaceR? || r.CreateR? {
        WriteCodeExact(r.ds);
        if AllTaken(r.ds) {
          ShortIdNotZero(Zero(), r.ds);
        }
      }
    }
  }
}
