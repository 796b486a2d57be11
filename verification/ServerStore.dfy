/** The server object in its own form: instances written field by field, in a list keyed by id. */
module ServerStore {
  import opened CStrings
  import opened ServerObject

  /** prv_set_int_value: the number, if it fits 32 bits. */
  method TakeNumber(d: Data) returns (code: Code, value: nat)
    ensures code == NumberVerdict(d.number)
    ensures code == Changed204 ==> d.number == Some(value)
  {
    value := 0;
    if d.number.Some? {
      if d.number.value >= 0 && d.number.value <= 0xFFFF_FFFF {
        value := d.number.value;
        code := Changed204;
      } else {
        code := NotAcceptable406;
      }
    } else {
      code := BadRequest400;
    }
  }

  class Instance {
    var shortServerId: nat
    var lifetime: nat
    var storing: bool
    const binding: array<char>

    ghost function Now(): Fields
      reads this, binding
    {
      Fields(shortServerId, lifetime, storing, binding[..])
    }

    constructor ()
      ensures Now() == Zero() && Sane(Now()) && fresh(binding)
    {
      shortServerId, lifetime, storing := 0, 0, false;
      binding := new char[4](_ => '\0');
      new;
      assert binding[..] == Zeros(4);
    }

    /** One resource of a write that has a single instance: stored if it is acceptable, refused without a trace if not. */
    method Set(d: Data) returns (code: Code)
      requires Sane(Now()) && !d.multiple
      modifies this, binding
      ensures code == Verdict(d)
      ensures Now() == if code == Changed204 then Store(old(Now()), d) else old(Now())
    {
      hide CString;
      if d.id == SHORT_ID {
        var value;
        code, value := TakeNumber(d);
        if code == Changed204 {
          if 0 < value && value <= 0xFFFF {
            shortServerId := value;
          } else {
            code := NotAcceptable406;
          }
        }
      } else if d.id == LIFETIME {
        var value;
        code, value := TakeNumber(d);
        if code == Changed204 {
          lifetime := value;
        }
      } else if d.id == DISABLE {
        code := NotAllowed405;
      } else if d.id == STORING {
        if d.flag.Some? {
          storing := d.flag.value;
          code := Changed204;
        } else {
          code := BadRequest400;
        }
      } else if d.id == BINDING {
        if d.bytes.Some? && |d.bytes.value| > 0 && |d.bytes.value| <= 3 {
          var text := d.bytes.value;
          assert text[0..|text|] == text;
          StrNCpy(binding, text, 0, |text|);
          code := Changed204;
        } else {
          code := BadRequest400;
        }
      } else if d.id == UPDATE {
        code := NotAllowed405;
      } else {
        code := NotFound404;
      }
    }

    /** prv_get_value; a binding is read up to its NUL, which is inside the buffer. */
    method Get(q: Query) returns (code: Code, answer: Answer)
      requires Sane(Now()) && !q.multiple
      ensures code == QueryCode(q)
      ensures code == Content205 ==> answer == Value(Now(), q)
    {
      answer := Number(0);
      if q.id == SHORT_ID {
        return Content205, Number(shortServerId);
      } else if q.id == LIFETIME {
        return Content205, Number(lifetime);
      } else if q.id == DISABLE {
        return NotAllowed405, answer;
      } else if q.id == STORING {
        return Content205, Flag(storing);
      } else if q.id == BINDING {
        ghost var text := CString(binding[..]);
        assert forall k :: 0 <= k < |text| ==> text[k] == binding[k] && text[k] in text;
        var n := 0;
        while binding[n] != '\0'
          invariant n < 4 && n <= |text|
          decreases 4 - n
        {
          n := n + 1;
        }
        return Content205, Text(binding[..n]);
      } else if q.id == UPDATE {
        return NotAllowed405, answer;
      } else {
        return NotFound404, answer;
      }
    }

    /**
     The loop of prv_server_write. The `continue` on a resource with several instances skips the
     increment, but leaves the loop all the same, since its code is not 2.04.
     */
    method SetAll(ds: seq<Data>) returns (code: Code)
      requires Sane(Now()) && |ds| > 0
      modifies this, binding
      ensures code == WriteCode(ds)
      ensures Now() == Folded(old(Now()), ds[..Taken(ds)])
    {
      hide Verdict, Store;
      ghost var before := Now();
      var i := 0;
      var more := true;
      code := NotFound404;
      assert ds[..0] == [];
      while more
        invariant 0 <= i <= |ds|
        invariant more ==> i < |ds| && AllTaken(ds[..i]) && Now() == Folded(before, ds[..i])
        invariant !more ==> code == WriteCode(ds) && Now() == Folded(before, ds[..Taken(ds)])
        decreases if more then |ds| - i + 1 else 0
      {
        Judged(before, ds, i);
        if ds[i].multiple {
          code := NotFound404;
        } else {
          code := Set(ds[i]);
          i := i + 1;
        }
        more := i < |ds| && code == Changed204;
      }
    }
  }

  class Server {
    var instances: map<nat, Instance>

    /** The instances and their buffers, and those of instances taken out. */
    ghost var Repr: set<object>

    /** Different ids have different instances with buffers of their own. */
    ghost predicate Valid()
      reads this, Repr
    {
      && this !in Repr
      && (forall id :: id in instances ==>
            instances[id] in Repr && instances[id].binding in Repr && Sane(instances[id].Now()))
      && (forall i, j :: i in instances && j in instances && i != j ==>
            instances[i] != instances[j] && instances[i].binding != instances[j].binding)
    }

    ghost function Model(): (m: Instances)
      requires Valid()
      reads this, Repr
      ensures AllSane(m) && m.Keys == instances.Keys
    {
      map id | id in instances :: instances[id].Now()
    }

    /** get_server_object: one instance with fixed values. */
    constructor ()
      ensures Valid() && fresh(Repr) && Model() == Initial()
    {
      var first := new Instance();
      first.shortServerId, first.lifetime := 123, 15 * 60;
      first.binding[0] := 'U';
      instances := map[0 := first];
      Repr := {first, first.binding};
      new;
      assert first.binding[..] == "U" + Zeros(3);
    }

    method DeleteInstance(id: nat) returns (code: Code)
      requires Valid()
      modifies this
      ensures Valid() && Repr == old(Repr)
      ensures Outcome(code, Model()) == Delete(old(Model()), id)
    {
      if id !in instances {
        return NotFound404;
      }
      instances := instances - {id};
      return Deleted202;
    }

    /** A cleared instance under a fresh id. */
    method AddInstance(id: nat)
      requires Valid() && id !in instances
      modifies this
      ensures Valid() && fresh(Repr - old(Repr))
      ensures Model() == old(Model())[id := Zero()]
    {
      hide Zero, Sane, Instance.Now;
      ghost var before := Model();
      var instance := new Instance();
      instances := instances[id := instance];
      Repr := Repr + {instance, instance.binding};
      assert Model() == before[id := Zero()];
    }

    /** The resources of one instance; the others are not touched. */
    method SetInstance(id: nat, ds: seq<Data>) returns (code: Code)
      requires Valid() && id in instances && |ds| > 0
      modifies Repr
      ensures Valid() && Repr == old(Repr)
      ensures Outcome(code, Model()) == Write(old(Model()), id, ds)
    {
      hide Folded, Taken, WriteCode, Sane;
      ghost var before := Model();
      code := instances[id].SetAll(ds);
      assert forall other :: other in instances && other != id ==> instances[other].Now() == before[other];
      assert Model() == before[id := Folded(before[id], ds[..Taken(ds)])];
    }

    /** Creation adds the cleared instance first and takes it out again if its write fails. */
    method CreateInstance(id: nat, ds: seq<Data>, room: bool) returns (code: Code)
      requires Valid() && id !in instances && |ds| > 0
      modifies this, Repr
      ensures Valid() && fresh(Repr - old(Repr))
      ensures Outcome(code, Model()) == Create(old(Model()), id, ds, room)
      decreases false, 1
    {
      ghost var before := Model();
      if !room {
        return ServerError500;
      }
      hide *;
      AddInstance(id);
      code := WriteInstance(id, ds, false, room);
      CreateByRollback(before, id, ds);
      if code != Changed204 {
        var _ := DeleteInstance(id);
      } else {
        code := Created201;
      }
    }

    method WriteInstance(id: nat, ds: seq<Data>, replace: bool, room: bool) returns (code: Code)
      requires Valid() && |ds| > 0
      modifies this, Repr
      ensures Valid() && fresh(Repr - old(Repr))
      ensures Outcome(code, Model()) ==
        if replace then Replace(old(Model()), id, ds, room) else Write(old(Model()), id, ds)
      decreases replace, 0
    {
      hide Folded, Taken, WriteCode, Sane, Valid, AllTaken, Create, Model, AllSane;
      ghost var before := Model();
      if id !in instances {
        return NotFound404;
      }
      if replace {
        code := DeleteInstance(id);
        if code == Deleted202 {
          code := CreateInstance(id, ds, room);
          if code == Created201 {
            code := Changed204;
          }
        }
        ReplaceIsDeleteCreate(before, id, ds, room);
        return;
      }
      code := SetInstance(id, ds);
    }

    /** A read of the named resources, or of all of them when none is named. */
    method ReadInstance(id: nat, asked: seq<Query>, room: bool) returns (code: Code, answers: seq<Answer>)
      requires Valid()
      ensures id !in instances ==> code == NotFound404 && answers == []
      ensures id in instances && asked == [] && !room ==> code == ServerError500 && answers == []
      ensures id in instances && (asked != [] || room) ==>
        var qs := if asked == [] then FULL else asked;
        code == ReadCode(qs) && answers == Values(Model()[id], qs[..Readable(qs)])
    {
      answers := [];
      if id !in instances {
        return NotFound404, [];
      }
      if |asked| == 0 && !room {
        return ServerError500, [];
      }
      code, answers := ReadList(instances[id], if |asked| == 0 then FULL else asked);
    }

    /** The loop of prv_server_read. */
    method ReadList(target: Instance, qs: seq<Query>) returns (code: Code, answers: seq<Answer>)
      requires Sane(target.Now()) && |qs| > 0
      ensures code == ReadCode(qs) && answers == Values(target.Now(), qs[..Readable(qs)])
    {
      ghost var f := target.Now();
      hide *;
      NothingAsked(f, qs);
      answers := [];
      code := NotFound404;
      var i := 0;
      var more := true;
      while more
        invariant 0 <= i <= |qs|
        invariant more ==> i < |qs| && Readable(qs) >= i && answers == Values(f, qs[..i])
        invariant !more ==> code == ReadCode(qs) && answers == Values(f, qs[..Readable(qs)])
        decreases if more then |qs| - i + 1 else 0
      {
        Asked(f, qs, i);
        if qs[i].multiple {
          code := NotFound404;
        } else {
          var answer;
          code, answer := target.Get(qs[i]);
          if code == Content205 {
            answers := answers + [answer];
          }
        }
        i := i + 1;
        more := i < |qs| && code == Content205;
      }
    }
  }

  /** The order of prv_server_create: add, write, and take out again if the write fails. */
  lemma CreateByRollback(m: Instances, id: nat, ds: seq<Data>)
    requires AllSane(m) && id !in m
    ensures
      var w := Write(m[id := Zero()], id, ds);
      Create(m, id, ds, true) ==
        if w.code == Changed204 then Outcome(Created201, w.instances) else Outcome(w.code, Delete(w.instances, id).instances)
  {
    hide Folded, Verdict, Sane;
    WriteCodeExact(ds);
    if WriteCode(ds) == Changed204 {
      TakenWhole(ds);
    } else {
      assert m[id := Zero()][id := Folded(Zero(), ds[..Taken(ds)])] - {id} == m;
    }
  }

  lemma NothingAsked(f: Fields, qs: seq<Query>)
    ensures Readable(qs) >= 0 && Values(f, qs[..0]) == []
    ensures forall i :: 0 <= i <= Readable(qs) ==> forall k :: 0 <= k < i ==> QueryCode(qs[..i][k]) == Content205
  {
  }

  /** One more resource: refused, it ends the accepted front; accepted, it is stored. */
  lemma Judged(f: Fields, ds: seq<Data>, i: nat)
    requires Sane(f) && i < |ds| && AllTaken(ds[..i])
    ensures ds[i].multiple ==> Verdict(ds[i]) == NotFound404
    ensures Verdict(ds[i]) != Changed204 ==> Taken(ds) == i && WriteCode(ds) == Verdict(ds[i])
    ensures Verdict(ds[i]) == Changed204 ==>
      && AllTaken(ds[..i + 1]) && Folded(f, ds[..i + 1]) == Store(Folded(f, ds[..i]), ds[i])
      && (i + 1 == |ds| ==> Taken(ds) == |ds| && WriteCode(ds) == Changed204)
  {
    FrontTaken(ds, i);
    hide Store;
    assert ds[..i + 1][..i] == ds[..i];
    assert ds[..i + 1][i] == ds[i];
    assert forall k :: 0 <= k < i ==> ds[..i + 1][k] == ds[..i][k];
    if i + 1 == |ds| && Verdict(ds[i]) == Changed204 {
      assert ds[..i + 1] == ds;
      FrontTaken(ds, |ds|);
    }
  }

  lemma {:induction false} FrontTaken(ds: seq<Data>, i: nat)
    requires i <= |ds| && AllTaken(ds[..i])
    ensures Taken(ds) >= i && (i < |ds| && Verdict(ds[i]) != Changed204 ==> Taken(ds) == i)
  {
    hide Verdict;
    var n := Taken(ds);
    assert forall k :: 0 <= k < i ==> ds[..i][k] == ds[k];
    assert forall k :: 0 <= k < n ==> ds[..n][k] == ds[k];
  }

  lemma TakenWhole(ds: seq<Data>)
    requires AllTaken(ds)
    ensures Taken(ds) == |ds| && ds[..|ds|] == ds
  {
    WriteCodeExact(ds);
  }

  lemma Asked(f: Fields, qs: seq<Query>, i: nat)
    requires i < |qs| && Readable(qs) >= i
    ensures qs[i].multiple ==> QueryCode(qs[i]) == NotFound404
    ensures QueryCode(qs[i]) != Content205 ==> Readable(qs) == i && ReadCode(qs) == QueryCode(qs[i])
    ensures QueryCode(qs[i]) == Content205 ==>
      && Readable(qs) >= i + 1 && Values(f, qs[..i + 1]) == Values(f, qs[..i]) + [Value(f, qs[i])]
      && (i + 1 == |qs| ==> ReadCode(qs) == Content205)
  {
    assert qs[i].multiple ==> QueryCode(qs[i]) == NotFound404;
    if QueryCode(qs[i]) == Content205 {
      NextValue(f, qs, i);
    }
  }

  lemma NextValue(f: Fields, qs: seq<Query>, i: nat)
    requires i < |qs| && forall k :: 0 <= k <= i ==> QueryCode(qs[k]) == Content205
    ensures Values(f, qs[..i + 1]) == Values(f, qs[..i]) + [Value(f, qs[i])]
  {
    hide QueryCode, Value, Readable;
    var v, w := Values(f, qs[..i + 1]), Values(f, qs[..i]);
    forall k | 0 <= k <= i ensures v[k] == (w + [Value(f, qs[i])])[k] {
      assert v[k] == Value(f, qs[..i + 1][k]);
      assert k < i ==> w[k] == Value(f, qs[..i][k]);
    }
  }
}
