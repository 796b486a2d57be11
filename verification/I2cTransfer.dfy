/** The I2C transfers of the sensors: any number of tasks, one mutex, one interrupt, one result slot. */
module I2cTransfer {
  datatype Option<T> = None | Some(value: T)

  type Status = int

  const IN_PROGRESS: Status := 1
  const DONE: Status := 0
  const SW_FAULT: Status := -5

  /** Where a task stands in board_i2c0_transfer, with the transfer it started, if any, and `ret`. */
  datatype Task =
    | Outside
    | Asking
    | Holding
    | Listening
    | Waiting(transfer: nat)
    | Polling(transfer: nat)
    | Finishing(id: Option<nat>, ret: Status)
    | Cleared(id: Option<nat>, ret: Status)
    | Masked(id: Option<nat>, ret: Status)

  /** A call that returned: a call without a transfer timed out or was refused by the peripheral. */
  datatype Return = Return(task: nat, id: Option<nat>, ret: Status)

  /**
   `irqOn` and `pending` are the interrupt's two bits, `active` the transfer the peripheral works
   on, `last` its latest final status and `queue` the result slot. The rest is history: how many
   transfers were started, how each ended, what the calls returned, how many sends failed.
   */
  datatype State = State(
    tasks: seq<Task>, holder: Option<nat>, irqOn: bool, pending: bool,
    active: Option<nat>, last: Status, queue: seq<Status>,
    started: nat, outcomes: map<nat, Status>, replies: seq<Return>, lost: nat)

  /** One step: of task `i`, of the peripheral, or of the interrupt handler. */
  datatype Event =
    | Call(i: nat) | Take(i: nat) | TimeOut(i: nat) | EnableIrq(i: nat)
    | Init(i: nat, status: Status) | Poll(i: nat) | Receive(i: nat)
    | ClearPending(i: nat) | DisableIrq(i: nat) | Give(i: nat)
    | Signal | Handler(status: Status)

  predicate At(s: State, i: nat, t: Task) {
    i < |s.tasks| && s.tasks[i] == t
  }

  predicate Enabled(s: State, e: Event) {
    match e
    case Call(i) => At(s, i, Outside)
    case Take(i) => At(s, i, Asking) && s.holder.None?
    case TimeOut(i) => At(s, i, Asking) && s.holder.Some?
    case EnableIrq(i) => At(s, i, Holding)
    case Init(i, status) => At(s, i, Listening)
    case Poll(i) => i < |s.tasks| && s.tasks[i].Polling?
    case Receive(i) => i < |s.tasks| && s.tasks[i].Waiting? && s.queue != []
    case ClearPending(i) => i < |s.tasks| && s.tasks[i].Finishing?
    case DisableIrq(i) => i < |s.tasks| && s.tasks[i].Cleared?
    case Give(i) => i < |s.tasks| && s.tasks[i].Masked?
    case Signal => s.active.Some?
    case Handler(status) => s.irqOn && s.pending
  }

  function Moved(s: State, i: nat, t: Task): State
    requires i < |s.tasks|
  {
    s.(tasks := s.tasks[i := t])
  }

  /** xQueueSendFromISR: a full slot refuses the value. */
  function Sent(s: State, status: Status): State {
    if s.queue == [] then s.(queue := [status]) else s.(lost := s.lost + 1)
  }

  /**
   I2C_TransferInit starts a transfer: still running (positive), done at once (zero), or refused
   (negative). I2C_Transfer on an idle peripheral reports the latest final status again.
   */
  function Next(s: State, e: Event): State
    requires Enabled(s, e)
  {
    match e
    case Call(i) => Moved(s, i, Asking)
    case Take(i) => Moved(s, i, Holding).(holder := Some(i))
    case TimeOut(i) => Moved(s, i, Outside).(replies := s.replies + [Return(i, None, SW_FAULT)])
    case EnableIrq(i) => Moved(s, i, Listening).(irqOn := true)
    case Init(i, status) =>
      if status > 0 then Moved(s, i, Waiting(s.started)).(active := Some(s.started), started := s.started + 1)
      else if status == 0 then
        Moved(s, i, Polling(s.started)).(last := DONE, outcomes := s.outcomes[s.started := DONE], started := s.started + 1)
      else Moved(s, i, Finishing(None, status))
    case Poll(i) => Moved(s, i, Finishing(Some(s.tasks[i].transfer), s.last))
    case Receive(i) => Moved(s, i, Finishing(Some(s.tasks[i].transfer), s.queue[0])).(queue := s.queue[1..])
    case ClearPending(i) => Moved(s, i, Cleared(s.tasks[i].id, s.tasks[i].ret)).(pending := false)
    case DisableIrq(i) => Moved(s, i, Masked(s.tasks[i].id, s.tasks[i].ret)).(irqOn := false)
    case Give(i) =>
      Moved(s, i, Outside).(holder := None, replies := s.replies + [Return(i, s.tasks[i].id, s.tasks[i].ret)])
    case Signal => s.(pending := true)
    case Handler(status) =>
      var awake := s.(pending := false);
      if s.active.None? then Sent(awake, s.last)
      else if status == IN_PROGRESS then awake
      else Sent(awake.(active := None, last := status, outcomes := s.outcomes[s.active.value := status]), status)
  }

  /** `n` tasks before any call. */
  function Start(n: nat): State {
    State(seq(n, _ => Outside), None, false, false, None, DONE, [], 0, map[], [], 0)
  }

  predicate Possible(s: State, es: seq<Event>)
    decreases |es|
  {
    es == [] || (Enabled(s, es[0]) && Possible(Next(s, es[0]), es[1..]))
  }

  /** The state after a run of events, each enabled when its turn comes. */
  function After(s: State, es: seq<Event>): State
    requires Possible(s, es)
    decreases |es|
  {
    if es == [] then s else After(Next(s, es[0]), es[1..])
  }

  // ---------------------------------------------------------------------------
  // What every step keeps
  // ---------------------------------------------------------------------------

  predicate Inside(t: Task) {
    !t.Outside? && !t.Asking?
  }

  /** The transfer a task carries and has not returned from. */
  function Carried(t: Task): Option<nat> {
    match t
    case Waiting(id) => Some(id)
    case Polling(id) => Some(id)
    case Finishing(id, _) => id
    case Cleared(id, _) => id
    case Masked(id, _) => id
    case _ => None
  }

  /** A status that answers for a transfer. */
  predicate Answers(outcomes: map<nat, Status>, id: Option<nat>, ret: Status) {
    id.Some? ==> id.value in outcomes && outcomes[id.value] == ret
  }

  predicate Quiet(s: State) {
    s.queue == [] && s.active.None? && !s.pending
  }

  /** What holds of the shared state while the task inside is at `t`. */
  predicate InsideState(s: State, t: Task)
    requires Inside(t)
  {
    match t
    case Holding => !s.irqOn && Quiet(s)
    case Listening => s.irqOn && Quiet(s)
    case Waiting(id) =>
      && s.irqOn && id < s.started
      && (if s.active.Some? then s.active.value == id && s.queue == []
          else !s.pending && id in s.outcomes && s.queue == [s.outcomes[id]])
    case Polling(id) => s.irqOn && Quiet(s) && id < s.started && id in s.outcomes && s.outcomes[id] == s.last == DONE
    case Finishing(id, ret) => s.irqOn && Quiet(s) && Answers(s.outcomes, id, ret)
    case Cleared(id, ret) => s.irqOn && Quiet(s) && Answers(s.outcomes, id, ret)
    case Masked(id, ret) => !s.irqOn && Quiet(s) && Answers(s.outcomes, id, ret)
  }

  function HolderTask(s: State): Task {
    if s.holder.Some? && s.holder.value < |s.tasks| then s.tasks[s.holder.value] else Outside
  }

  /** The transfers that calls have returned from. */
  function Settled(replies: seq<Return>): set<nat> {
    set k | 0 <= k < |replies| && replies[k].id.Some? :: replies[k].id.value
  }

  predicate ReturnsOnce(replies: seq<Return>) {
    forall j, k :: 0 <= j < k < |replies| && replies[j].id.Some? ==> replies[j].id != replies[k].id
  }

  /**
   One task at most is inside, and it is the mutex holder; the interrupt is on only then; a free
   mutex finds slot and peripheral empty; no send was refused.
   */
  predicate Locked(s: State) {
    && (forall i :: 0 <= i < |s.tasks| ==> (Inside(s.tasks[i]) <==> s.holder == Some(i)))
    && (s.holder.Some? ==> s.holder.value < |s.tasks|)
    && (if s.holder.Some? then InsideState(s, s.tasks[s.holder.value]) else Quiet(s) && !s.irqOn)
    && s.lost == 0
  }

  /** Every transfer started has been returned from exactly once, with its own outcome, or is carried by the holder. */
  ghost predicate Accounted(replies: seq<Return>, outcomes: map<nat, Status>, started: nat, carried: Option<nat>) {
    && ReturnsOnce(replies)
    && (forall k :: 0 <= k < |replies| ==> Answers(outcomes, replies[k].id, replies[k].ret))
    && (forall id :: id in outcomes ==> id < started)
    && (forall id: nat :: id < started <==> id in Settled(replies) || carried == Some(id))
    && (carried.Some? ==> carried.value !in Settled(replies))
  }

  ghost predicate Inv(s: State) {
    Locked(s) && Accounted(s.replies, s.outcomes, s.started, Carried(HolderTask(s)))
  }

  lemma StartInv(n: nat)
    ensures Inv(Start(n))
  {
    assert Settled([]) == {};
  }

  lemma StepLocked(s: State, e: Event)
    requires Locked(s) && Enabled(s, e)
    ensures Locked(Next(s, e))
  {
    hide Locked, Next, Enabled;
    match e
    case Signal => InterruptLocked(s, e);
    case Handler(_) => InterruptLocked(s, e);
    case Call(_) => EntryLocked(s, e);
    case Take(_) => EntryLocked(s, e);
    case TimeOut(_) => EntryLocked(s, e);
    case _ => InsideLocked(s, e);
  }

  lemma InterruptLocked(s: State, e: Event)
    requires Locked(s) && Enabled(s, e) && (e.Signal? || e.Handler?)
    ensures Locked(Next(s, e))
  {
    hide Answers;
  }

  lemma EntryLocked(s: State, e: Event)
    requires Locked(s) && Enabled(s, e) && (e.Call? || e.Take? || e.TimeOut?)
    ensures Locked(Next(s, e))
  {
    hide Answers, Sent;
  }

  lemma InsideLocked(s: State, e: Event)
    requires Locked(s) && Enabled(s, e)
    requires !e.Signal? && !e.Handler? && !e.Call? && !e.Take? && !e.TimeOut?
    ensures Locked(Next(s, e))
  {
    hide Sent;
    assert s.holder == Some(e.i);
  }

  /** A step of a task that starts no transfer and returns from no call carries what it carried. */
  lemma StepCarries(s: State, e: Event)
    requires Locked(s) && Enabled(s, e) && !e.Init? && !e.Give?
    ensures Carried(HolderTask(Next(s, e))) == Carried(HolderTask(s))
  {
    hide Settled, ReturnsOnce, InsideState;
  }

  /** Every step keeps the invariant. */
  lemma StepKeeps(s: State, e: Event)
    requires Inv(s) && Enabled(s, e)
    ensures Inv(Next(s, e))
  {
    hide Accounted;
    StepLocked(s, e);
    var t := Next(s, e);
    match e
    case Init(i, status) =>
      assert s.holder == Some(i);
      Started(s.replies, s.outcomes, s.started, status);
    case Handler(status) =>
      StepCarries(s, e);
      Ended(s.replies, s.outcomes, s.started, Carried(HolderTask(s)), status);
    case Give(i) =>
      assert s.holder == Some(i);
      Replied(s.replies, s.outcomes, s.started, s.tasks[i].id, Return(i, s.tasks[i].id, s.tasks[i].ret));
    case TimeOut(i) =>
      StepCarries(s, e);
      Replied(s.replies, s.outcomes, s.started, Carried(HolderTask(s)), Return(i, None, SW_FAULT));
    case _ =>
      StepCarries(s, e);
  }

  lemma Started(replies: seq<Return>, outcomes: map<nat, Status>, started: nat, status: Status)
    requires Accounted(replies, outcomes, started, None)
    ensures Accounted(replies, outcomes, started + 1, Some(started))
    ensures Accounted(replies, outcomes[started := status], started + 1, Some(started))
  {
    forall k | 0 <= k < |replies| && replies[k].id.Some? ensures replies[k].id != Some(started) {
      assert Answers(outcomes, replies[k].id, replies[k].ret);
    }
    assert started !in Settled(replies);
  }

  lemma Ended(replies: seq<Return>, outcomes: map<nat, Status>, started: nat, carried: Option<nat>, status: Status)
    requires Accounted(replies, outcomes, started, carried)
    ensures carried.Some? ==> Accounted(replies, outcomes[carried.value := status], started, carried)
  {
    forall k | 0 <= k < |replies| && replies[k].id.Some? ensures replies[k].id != carried {
      assert replies[k].id.value in Settled(replies);
    }
  }

  lemma Replied(replies: seq<Return>, outcomes: map<nat, Status>, started: nat, carried: Option<nat>, r: Return)
    requires Accounted(replies, outcomes, started, carried) && Answers(outcomes, r.id, r.ret)
    requires r.id.None? || r.id == carried
    ensures Accounted(replies + [r], outcomes, started, if r.id.Some? then None else carried)
  {
    Settles(replies, r);
  }

  lemma Settles(replies: seq<Return>, r: Return)
    ensures Settled(replies + [r]) == Settled(replies) + (if r.id.Some? then {r.id.value} else {})
    ensures ReturnsOnce(replies) && (r.id.Some? ==> r.id.value !in Settled(replies)) ==> ReturnsOnce(replies + [r])
  {
    var all := replies + [r];
    assert forall k :: 0 <= k < |replies| ==> all[k] == replies[k];
    assert all[|replies|] == r;
    forall id | id in Settled(replies) ensures id in Settled(all) {
      var k :| 0 <= k < |replies| && replies[k].id == Some(id);
      assert all[k].id == Some(id);
    }
  }

  lemma {:induction false} RunKeeps(s: State, es: seq<Event>)
    requires Inv(s) && Possible(s, es)
    ensures Inv(After(s, es))
    decreases |es|
  {
    hide Locked, Accounted, Enabled;
    if es != [] {
      StepKeeps(s, es[0]);
      RunKeeps(Next(s, es[0]), es[1..]);
    }
  }

  // ---------------------------------------------------------------------------
  // Whole runs
  // ---------------------------------------------------------------------------

  /** However the tasks, the peripheral and the interrupt interleave. */
  lemma EveryInterleaving(n: nat, es: seq<Event>)
    requires Possible(Start(n), es)
    ensures
      var s := After(Start(n), es);
      && (forall i, j :: 0 <= i < |s.tasks| && 0 <= j < |s.tasks| && Inside(s.tasks[i]) && Inside(s.tasks[j]) ==> i == j)
      && (s.irqOn ==> s.holder.Some?)
      && (s.holder.None? ==> s.queue == [] && s.active.None? && !s.pending)
      && s.lost == 0
  {
    hide Settled, ReturnsOnce;
    StartInv(n);
    RunKeeps(Start(n), es);
  }

  /** A call that started a transfer returns how that transfer ended, and no other call does. */
  lemma OwnStatus(n: nat, es: seq<Event>, k: nat)
    requires Possible(Start(n), es)
    requires k < |After(Start(n), es).replies| && After(Start(n), es).replies[k].id.Some?
    ensures
      var s := After(Start(n), es);
      var id := s.replies[k].id.value;
      && id in s.outcomes && s.replies[k].ret == s.outcomes[id]
      && forall j :: 0 <= j < |s.replies| && s.replies[j].id == Some(id) ==> j == k
  {
    hide Locked, Settled, HolderTask;
    StartInv(n);
    RunKeeps(Start(n), es);
  }

  /** With no task inside, each transfer ever started has been answered by exactly one call. */
  lemma EveryTransferAnswered(n: nat, es: seq<Event>, id: nat)
    requires Possible(Start(n), es) && After(Start(n), es).holder.None?
    ensures
      var s := After(Start(n), es);
      id < s.started <==> exists k :: 0 <= k < |s.replies| && s.replies[k].id == Some(id)
  {
    hide Locked;
    StartInv(n);
    RunKeeps(Start(n), es);
    var s := After(Start(n), es);
    assert id < s.started <==> id in Settled(s.replies);
  }

  // ---------------------------------------------------------------------------
  // What a call returns, from the events alone
  // ---------------------------------------------------------------------------

  /** What I2C_TransferInit told the present call of task `i`. */
  function LastInit(es: seq<Event>, i: nat): Option<Status> {
    if es == [] then None
    else
      var e := es[|es| - 1];
      if e == Call(i) then None
      else if e.Init? && e.i == i then Some(e.status)
      else LastInit(es[..|es| - 1], i)
  }

  /** What the interrupt handler saw at the end of the transfer that task `i` started last. */
  function EndSeen(es: seq<Event>, i: nat): Option<Status> {
    if es == [] then None
    else
      var e := es[|es| - 1];
      if e.Init? && e.i == i then None
      else if e.Handler? && e.status != 1 then Some(e.status)
      else EndSeen(es[..|es| - 1], i)
  }

  /** What a call of task `i` that took the mutex has to return. */
  function Due(es: seq<Event>, i: nat): Option<Status> {
    match LastInit(es, i)
    case None => None
    case Some(status) => if status > 0 then EndSeen(es, i) else Some(status)
  }

  /** The calls that returned, in order: those without the mutex with -5, the others with what is due. */
  function Answered(es: seq<Event>): seq<(nat, Option<Status>)> {
    if es == [] then []
    else
      var front, e := es[..|es| - 1], es[|es| - 1];
      if e.TimeOut? then Answered(front) + [(e.i, Some(-5))]
      else if e.Give? then Answered(front) + [(e.i, Due(front, e.i))]
      else Answered(front)
  }

  /** How the place of task `i` and the slot go with the events so far. */
  predicate Agrees(s: State, es: seq<Event>, i: nat) {
    i < |s.tasks| ==>
      match s.tasks[i]
      case Waiting(_) =>
        && LastInit(es, i).Some? && LastInit(es, i).value > 0
        && EndSeen(es, i) == (if s.active.Some? || s.queue == [] then None else Some(s.queue[0]))
      case Polling(_) => LastInit(es, i) == Some(0)
      case Finishing(id, ret) => Due(es, i) == Some(ret) && (id.None? <==> LastInit(es, i).value < 0)
      case Cleared(id, ret) => Due(es, i) == Some(ret) && (id.None? <==> LastInit(es, i).value < 0)
      case Masked(id, ret) => Due(es, i) == Some(ret) && (id.None? <==> LastInit(es, i).value < 0)
      case _ => true
  }

  /** The replies so far are the answers the events ask for; one without a transfer is negative. */
  predicate Told(replies: seq<Return>, es: seq<Event>) {
    && |replies| == |Answered(es)|
    && forall k :: 0 <= k < |replies| ==>
      && Answered(es)[k] == (replies[k].task, Some(replies[k].ret))
      && (replies[k].id.None? ==> replies[k].ret < 0)
  }

  lemma StepAgrees(s: State, es: seq<Event>, e: Event, i: nat)
    requires Locked(s) && Enabled(s, e) && Agrees(s, es, i)
    ensures Agrees(Next(s, e), es + [e], i)
  {
    hide Answers;
    assert (es + [e])[..|es|] == es;
    if s.holder == Some(i) {
      assert e.Call? || e.TimeOut? ==> e.i != i;
    }
  }

  lemma StepTold(s: State, es: seq<Event>, e: Event)
    requires Enabled(s, e) && Told(s.replies, es)
    requires e.Give? ==> Agrees(s, es, e.i)
    ensures Told(Next(s, e).replies, es + [e])
  {
    hide LastInit, EndSeen;
    assert (es + [e])[..|es|] == es;
  }

  lemma {:induction false} RunThen(s: State, es: seq<Event>, e: Event)
    requires Possible(s, es + [e])
    ensures Possible(s, es) && Enabled(After(s, es), e)
    ensures After(s, es + [e]) == Next(After(s, es), e)
    decreases |es|
  {
    hide Enabled, Next;
    if es == [] {
      assert (es + [e])[1..] == [];
    } else {
      assert (es + [e])[0] == es[0] && (es + [e])[1..] == es[1..] + [e];
      RunThen(Next(s, es[0]), es[1..], e);
    }
  }

  /**
   Every call returns what its own events say: -5 if it timed out, the refusal if the peripheral
   refused it, 0 if the transfer was done at once, and the status the interrupt saw otherwise.
   A call that returns 0 or more had a transfer of its own.
   */
  lemma {:induction false} CallsReturn(n: nat, es: seq<Event>)
    requires Possible(Start(n), es)
    ensures
      var replies := After(Start(n), es).replies;
      && |replies| == |Answered(es)|
      && forall k :: 0 <= k < |replies| ==>
        && Answered(es)[k] == (replies[k].task, Some(replies[k].ret))
        && (replies[k].id.None? ==> replies[k].ret < 0)
    ensures Told(After(Start(n), es).replies, es)
    ensures forall i: nat :: Agrees(After(Start(n), es), es, i)
    decreases |es|
  {
    hide Enabled, Next, Locked, Accounted, Agrees, Answered;
    if es == [] {
      StartTold(n);
    } else {
      var front, e := es[..|es| - 1], es[|es| - 1];
      assert es == front + [e];
      RunThen(Start(n), front, e);
      CallsReturn(n, front);
      StartInv(n);
      RunKeeps(Start(n), front);
      var s := After(Start(n), front);
      StepTold(s, front, e);
      forall i: nat ensures Agrees(After(Start(n), es), es, i) {
        StepAgrees(s, front, e, i);
      }
    }
  }

  lemma StartTold(n: nat)
    ensures Told(Start(n).replies, []) && forall i: nat :: Agrees(Start(n), [], i)
  {
  }

  // ---------------------------------------------------------------------------
  // The task inside always gets out
  // ---------------------------------------------------------------------------

  /** The step that brings the task inside closer to its return, if the peripheral reports `status`. */
  function Onward(s: State, status: Status): Event
    requires s.holder.Some?
  {
    var i := s.holder.value;
    match HolderTask(s)
    case Holding => EnableIrq(i)
    case Listening => Init(i, status)
    case Waiting(id) => if s.queue != [] then Receive(i) else if s.pending then Handler(status) else Signal
    case Polling(id) => Poll(i)
    case Finishing(id, ret) => ClearPending(i)
    case Cleared(id, ret) => DisableIrq(i)
    case _ => Give(i)
  }

  /** How many such steps are left at most. */
  function StepsLeft(s: State): nat {
    match HolderTask(s)
    case Holding => 8
    case Listening => 7
    case Waiting(id) => if s.queue != [] then 4 else if s.pending then 5 else 6
    case Polling(id) => 4
    case Finishing(id, ret) => 3
    case Cleared(id, ret) => 2
    case Masked(id, ret) => 1
    case _ => 0
  }

  /** No wake-up is lost and nobody blocks the task inside: its next step is always enabled. */
  lemma AlwaysOnward(s: State, status: Status)
    requires Inv(s) && s.holder.Some? && status != IN_PROGRESS
    ensures Enabled(s, Onward(s, status))
    ensures StepsLeft(Next(s, Onward(s, status))) < StepsLeft(s)
    ensures Next(s, Onward(s, status)).holder.None? || Next(s, Onward(s, status)).holder == s.holder
  {
    hide Accounted;
    assert Inside(s.tasks[s.holder.value]);
  }

  /** The other tasks can neither delay the one inside nor change what it must do next. */
  lemma OthersOnlyWait(s: State, e: Event, status: Status)
    requires Inv(s) && Enabled(s, e) && s.holder.Some?
    requires !e.Signal? && !e.Handler? && s.holder != Some(e.i)
    ensures e.Call? || e.TimeOut?
    ensures Next(s, e).holder == s.holder && StepsLeft(Next(s, e)) == StepsLeft(s)
    ensures Onward(Next(s, e), status) == Onward(s, status)
  {
    hide Accounted;
  }

  /** The onward step answers the call exactly when it gives the mutex back. */
  lemma OnwardReplies(s: State, status: Status)
    requires Inv(s) && s.holder.Some? && status != IN_PROGRESS && Enabled(s, Onward(s, status))
    ensures
      var t := Next(s, Onward(s, status));
      if t.holder.None? then |t.replies| == |s.replies| + 1 && t.replies[|s.replies|].task == s.holder.value
      else t.replies == s.replies
  {
    hide Accounted;
    assert Inside(s.tasks[s.holder.value]);
  }

  /** The run that lets the task inside finish. */
  ghost function Finish(s: State, status: Status): (es: seq<Event>)
    requires Inv(s) && status != IN_PROGRESS
    decreases StepsLeft(s)
  {
    if s.holder.None? then [] else
    AlwaysOnward(s, status);
    StepKeeps(s, Onward(s, status));
    [Onward(s, status)] + Finish(Next(s, Onward(s, status)), status)
  }

  /** From every reachable state with a task inside, at most eight steps give the mutex back with that task's reply. */
  lemma {:induction false} MutexComesBack(s: State, status: Status)
    requires Inv(s) && s.holder.Some? && status != IN_PROGRESS
    ensures |Finish(s, status)| <= StepsLeft(s) <= 8
    ensures Possible(s, Finish(s, status))
    ensures
      var t := After(s, Finish(s, status));
      && t.holder.None?
      && |t.replies| == |s.replies| + 1 && t.replies[|s.replies|].task == s.holder.value
    decreases StepsLeft(s)
  {
    hide Inv, Next, Enabled, Onward;
    AlwaysOnward(s, status);
    OnwardReplies(s, status);
    StepKeeps(s, Onward(s, status));
    var t := Next(s, Onward(s, status));
    var es, rest := Finish(s, status), Finish(t, status);
    assert es[0] == Onward(s, status) && es[1..] == rest;
    if t.holder.None? {
      assert rest == [];
    } else {
      MutexComesBack(t, status);
    }
  }
}
