/** The client's list of server sessions, appended to by connects and unlinked from by closes. */
module Sessions {

  // ---------------------------------------------------------------------------
  // What a history of connects and closes leaves
  // ---------------------------------------------------------------------------

  datatype Op<T> = Connected(s: T) | Closed(s: T)

  function Without<T(==)>(l: seq<T>, x: T): (r: seq<T>)
    ensures x !in r && (forall i :: 0 <= i < |r| ==> r[i] in l)
    ensures forall i :: 0 <= i < |l| && l[i] != x ==> l[i] in r
  {
    if l == [] then []
    else if l[|l| - 1] == x then Without(l[..|l| - 1], x)
    else Without(l[..|l| - 1], x) + [l[|l| - 1]]
  }

  /** The sessions in the list, and the sessions given back to the allocator so far. */
  datatype Books<T> = Books(live: seq<T>, freed: seq<T>)

  function Step<T(==)>(b: Books<T>, op: Op<T>): Books<T> {
    match op
    case Connected(s) => Books(b.live + [s], b.freed)
    case Closed(s) => if s in b.live then Books(Without(b.live, s), b.freed + [s]) else b
  }

  function After<T(==)>(ops: seq<Op<T>>): Books<T> {
    if ops == [] then Books([], []) else Step(After(ops[..|ops| - 1]), ops[|ops| - 1])
  }

  /** The allocator hands out no session twice. */
  predicate Fresh<T(==)>(ops: seq<Op<T>>) {
    forall i, j :: 0 <= i < j < |ops| && ops[i].Connected? && ops[j].Connected? ==> ops[i].s != ops[j].s
  }

  /** The `i`-th event connected a session that no later event closed. */
  predicate StillOpen<T(==)>(ops: seq<Op<T>>, i: nat)
    requires i < |ops|
  {
    ops[i].Connected? && forall j :: i < j < |ops| ==> ops[j] != Closed(ops[i].s)
  }

  /** The sessions connected by the first `k` events and not closed since, in connect order. */
  function Open<T(==)>(ops: seq<Op<T>>, k: nat): (r: seq<T>)
    requires k <= |ops|
    ensures forall j :: 0 <= j < |r| ==> exists i :: 0 <= i < k && ops[i] == Connected(r[j])
  {
    if k == 0 then [] else
    Open(ops, k - 1) + (if StillOpen(ops, k - 1) then [ops[k - 1].s] else [])
  }

  /** One more connect changes nothing about the sessions before it. */
  lemma {:induction false} OpenConnect<T>(ops: seq<Op<T>>, k: nat)
    requires 0 < |ops| && k < |ops| && ops[|ops| - 1].Connected?
    ensures Open(ops, k) == Open(ops[..|ops| - 1], k)
    decreases k
  {
    if k > 0 {
      OpenConnect(ops, k - 1);
      assert StillOpen(ops, k - 1) <==> StillOpen(ops[..|ops| - 1], k - 1);
    }
  }

  lemma WithoutThen<T>(l: seq<T>, y: T, x: T)
    ensures Without(l + [y], x) == Without(l, x) + (if y == x then [] else [y])
  {
    var longer := l + [y];
    assert longer[..|longer| - 1] == l;
  }

  lemma OpenedThenClosed<T>(ops: seq<Op<T>>, i: nat)
    requires i + 1 < |ops| && ops[|ops| - 1].Closed?
    ensures StillOpen(ops, i) <==> StillOpen(ops[..|ops| - 1], i) && ops[i].s != ops[|ops| - 1].s
  {
    var n := |ops| - 1;
    assert forall j :: 0 <= j < n ==> ops[..n][j] == ops[j];
    assert StillOpen(ops, i) ==> ops[n] != Closed(ops[i].s);
  }

  /** One more close takes exactly the closed session out. */
  lemma {:induction false} OpenClose<T>(ops: seq<Op<T>>, k: nat)
    requires 0 < |ops| && k < |ops| && ops[|ops| - 1].Closed?
    ensures Open(ops, k) == Without(Open(ops[..|ops| - 1], k), ops[|ops| - 1].s)
    decreases k
  {
    hide StillOpen, Without;
    var front, x := ops[..|ops| - 1], ops[|ops| - 1].s;
    if k == 0 {
      NoneLeft(x);
    } else {
      OpenClose(ops, k - 1);
      OpenedThenClosed(ops, k - 1);
      assert front[k - 1] == ops[k - 1];
      assert Open(front, k - 1) + [] == Open(front, k - 1);
      WithoutThen(Open(front, k - 1), front[k - 1].s, x);
    }
  }

  lemma NoneLeft<T>(x: T)
    ensures Without([], x) == []
  {
  }

  lemma {:induction false} WithoutAbsent<T>(l: seq<T>, x: T)
    requires x !in l
    ensures Without(l, x) == l
    decreases |l|
  {
    if l != [] {
      WithoutAbsent(l[..|l| - 1], x);
    }
  }

  /** The list is exactly the sessions connected and not closed since, in connect order. */
  lemma {:induction false} ListIsOpenSessions<T>(ops: seq<Op<T>>)
    ensures After(ops).live == Open(ops, |ops|)
    decreases |ops|
  {
    if ops != [] {
      var n := |ops| - 1;
      ListIsOpenSessions(ops[..n]);
      if ops[n].Connected? {
        OpenConnect(ops, n);
      } else {
        OpenClose(ops, n);
        if ops[n].s !in After(ops[..n]).live {
          WithoutAbsent(After(ops[..n]).live, ops[n].s);
        }
      }
    }
  }

  function Connects<T>(ops: seq<Op<T>>): seq<T> {
    if ops == [] then [] else
    Connects(ops[..|ops| - 1]) + (if ops[|ops| - 1].Connected? then [ops[|ops| - 1].s] else [])
  }

  predicate Distinct<T(==)>(l: seq<T>) {
    forall i, j :: 0 <= i < j < |l| ==> l[i] != l[j]
  }

  lemma {:induction false} ConnectsAre<T>(ops: seq<Op<T>>, x: T)
    ensures x in Connects(ops) <==> exists i :: 0 <= i < |ops| && ops[i] == Connected(x)
    decreases |ops|
  {
    if ops != [] {
      var front := ops[..|ops| - 1];
      ConnectsAre(front, x);
      assert forall i :: 0 <= i < |front| ==> front[i] == ops[i];
      assert forall i :: 0 <= i < |ops| && ops[i] == Connected(x) ==> i == |front| || front[i] == Connected(x);
    }
  }

  lemma {:induction false} WithoutCount<T>(l: seq<T>, x: T, y: T)
    ensures multiset(Without(l, x))[y] == if x == y then 0 else multiset(l)[y]
    decreases |l|
  {
    if l != [] {
      var front, last := l[..|l| - 1], l[|l| - 1];
      assert l == front + [last];
      WithoutCount(front, x, y);
      WithoutThen(front, last, x);
    }
  }

  /** Every session ever connected is in the list once or was freed once, never both, and nothing else is in either. */
  lemma {:induction false} FreedOnce<T>(ops: seq<Op<T>>, x: T)
    requires Fresh(ops)
    ensures multiset(After(ops).live)[x] + multiset(After(ops).freed)[x] == multiset(Connects(ops))[x] <= 1
    decreases |ops|
  {
    hide Without;
    if ops != [] {
      var front, last := ops[..|ops| - 1], ops[|ops| - 1];
      assert forall i :: 0 <= i < |front| ==> front[i] == ops[i];
      FreedOnce(front, x);
      if last.Connected? {
        ConnectsAre(front, last.s);
      } else {
        WithoutCount(After(front).live, last.s, x);
      }
    }
  }

  // ---------------------------------------------------------------------------
  // The linked list
  // ---------------------------------------------------------------------------

  class Session {
    var next: Session?
    const parent: int

    constructor (parent: int)
      ensures this.parent == parent && next == null
    {
      this.parent := parent;
      next := null;
    }
  }

  /** `chain` is the acyclic list that `head` starts. */
  ghost predicate Listed(head: Session?, chain: seq<Session>)
    reads chain
  {
    && (chain == [] <==> head == null)
    && (chain != [] ==> head == chain[0] && chain[|chain| - 1].next == null)
    && (forall i :: 0 <= i < |chain| - 1 ==> chain[i].next == chain[i + 1])
    && Distinct(chain)
  }

  lemma EndOfChain(head: Session?, chain: seq<Session>, k: nat)
    requires Listed(head, chain) && k < |chain|
    ensures chain[k].next == null <==> k == |chain| - 1
    ensures k < |chain| - 1 ==> chain[k].next == chain[k + 1]
  {
    if k < |chain| - 1 { assert chain[k].next == chain[k + 1]; }
  }

  /** Take the session behind `parent` out of a list. */
  method UnlinkBehind(head: Session, parent: Session, target: Session, ghost chain: seq<Session>, ghost k: nat)
    requires Listed(head, chain) && k < |chain| - 1 && chain[k] == parent && chain[k + 1] == target
    modifies parent`next
    ensures Listed(head, chain[..k + 1] + chain[k + 2..])
  {
    EndOfChain(head, chain, k + 1);
    parent.next := target.next;
    ghost var shorter := chain[..k + 1] + chain[k + 2..];
    assert forall i :: 0 <= i < |shorter| ==> shorter[i] == if i <= k then chain[i] else chain[i + 1];
  }

  /** connection_create: a new session at the tail of a list; an empty list is the caller's to start. */
  method ConnectionCreate(connList: Session?, ctx: int, room: bool, ghost chain: seq<Session>)
    returns (newConn: Session?)
    requires Listed(connList, chain)
    modifies (set s | s in chain)`next
    ensures newConn != null <==> room
    ensures !room ==> Listed(connList, chain)
    ensures room ==> fresh(newConn) && newConn.parent == ctx
    ensures room ==> Listed(if connList == null then newConn else connList, chain + [newConn])
  {
    newConn := null;
    if room {
      newConn := new Session(ctx);
      if connList != null {
        var at := connList;
        ghost var k := 0;
        while at.next != null
          invariant k < |chain| && at == chain[k] && newConn.next == null && Listed(connList, chain)
          decreases |chain| - k
        {
          EndOfChain(connList, chain, k);
          at := at.next;
          k := k + 1;
        }
        EndOfChain(connList, chain, k);
        at.next := newConn;
        ghost var longer := chain + [newConn];
        assert forall i :: 0 <= i < |chain| ==> longer[i] == chain[i];
      }
    }
  }

  class Client {
    var connList: Session?
    const param: int
    ghost var chain: seq<Session>
    ghost var freed: seq<Session>

    ghost predicate Valid()
      reads this, chain
    {
      Listed(connList, chain)
    }

    ghost function Now(): Books<Session>
      reads this
    {
      Books(chain, freed)
    }

    constructor (param: int)
      ensures Valid() && Now() == Books([], [])
    {
      this.param := param;
      connList := null;
      chain, freed := [], [];
    }

    /** A server without a URI, a connection that fails and an allocator without room leave the list alone. */
    method ConnectServer(uri: bool, created: bool, room: bool) returns (session: Session?)
      requires Valid()
      modifies this, (set s | s in chain)`next
      ensures Valid()
      ensures session != null <==> uri && created && room
      ensures session == null ==> Now() == old(Now())
      ensures session != null ==>
        && fresh(session) && session.parent == param && Now() == Step(old(Now()), Connected(session))
    {
      if !uri {
        return null;
      }
      session := null;
      if created {
        session := ConnectionCreate(connList, param, room, chain);
      }
      if session != null {
        if connList == null {
          connList := session;
        }
        chain := chain + [session];
      }
    }

    method CloseConnection(target: Session)
      requires Valid()
      modifies this, (set s | s in chain)`next
      ensures Valid() && Now() == Step(old(Now()), Closed(target))
      ensures target !in old(chain) ==> unchanged(this) && forall s :: s in chain ==> s.next == old(s.next)
    {
      if target == connList {
        CloseFirst(target);
      } else {
        var parent, k := FindParent(target);
        if parent != null {
          CloseBehind(parent, target, k);
        }
      }
    }

    method CloseFirst(target: Session)
      requires Valid() && target == connList
      modifies this
      ensures Valid() && target in old(chain) && Now() == Step(old(Now()), Closed(target))
    {
      FirstOut(connList, chain);
      hide Without, Listed;
      connList := target.next;
      chain, freed := chain[1..], freed + [target];
    }

    method CloseBehind(parent: Session, target: Session, ghost k: nat)
      requires Valid() && k + 1 < |chain| && chain[k] == parent && chain[k + 1] == target
      modifies this`chain, this`freed, parent`next
      ensures Valid() && Now() == Step(old(Now()), Closed(target))
    {
      TakenOut(chain, k + 1);
      hide Without, Listed;
      UnlinkBehind(connList, parent, target, chain, k);
      chain, freed := chain[..k + 1] + chain[k + 2..], freed + [target];
    }

    /** The session before `target`, which is not the first. */
    method FindParent(target: Session) returns (parent: Session?, ghost k: nat)
      requires Valid() && target != connList
      ensures parent == null ==> target !in chain
      ensures parent != null ==> k + 1 < |chain| && chain[k] == parent && chain[k + 1] == target
    {
      hide Distinct;
      parent := connList;
      k := 0;
      while parent != null && parent.next != target
        invariant k <= |chain| && (if k < |chain| then parent == chain[k] else parent == null)
        invariant forall i :: 0 <= i <= k && i < |chain| ==> chain[i] != target
        decreases |chain| - k
      {
        EndOfChain(connList, chain, k);
        parent := parent.next;
        k := k + 1;
      }
      if parent != null {
        EndOfChain(connList, chain, k);
      }
    }
  }

  lemma FirstOut(head: Session?, chain: seq<Session>)
    requires Listed(head, chain) && chain != []
    ensures Listed(chain[0].next, chain[1..]) && Without(chain, chain[0]) == chain[1..]
  {
    hide Without;
    EndOfChain(head, chain, 0);
    TakenOut(chain, 0);
    assert chain[..0] + chain[1..] == chain[1..];
    assert forall i :: 0 <= i < |chain| - 1 ==> chain[1..][i] == chain[i + 1];
  }

  lemma {:induction false} TakenOut<T>(l: seq<T>, k: nat)
    requires Distinct(l) && k < |l|
    ensures Without(l, l[k]) == l[..k] + l[k + 1..]
    decreases |l|
  {
    var front, last := l[..|l| - 1], l[|l| - 1];
    assert Distinct(front) && last !in front;
    assert l == front + [last];
    WithoutThen(front, last, l[k]);
    hide Without, Distinct;
    if k == |l| - 1 {
      WithoutAbsent(front, l[k]);
    } else {
      TakenOut(front, k);
      SplitLast(l, k);
    }
  }

  lemma SplitLast<T>(l: seq<T>, k: nat)
    requires k + 1 < |l|
    ensures
      var front := l[..|l| - 1];
      l[..k] + l[k + 1..] == (front[..k] + front[k + 1..]) + [l[|l| - 1]]
  {
  }
}
