/** The WiFi task: an event loop over coalescing notification bits, fed by handlers that set a status and then post it. */
module WifiService {
  datatype Option<T> = None | Some(value: T)

  datatype Bit = PENDING | DISCONNECTED | CONNECTING | CONNECTED | IP_ACQUIRED | IPV4 | IPV6 | IP_RELEASED

  type Bits = set<Bit>

  datatype Connection = Initial | Disconnected | Connecting | Connected

  datatype Ip = NotAcquired | AcquiredV4 | AcquiredV6 | Released

  function ConnectionBits(c: Connection): Bits {
    match c
    case Initial => {PENDING}
    case Disconnected => {PENDING, DISCONNECTED}
    case Connecting => {PENDING, CONNECTING}
    case Connected => {PENDING, CONNECTED}
  }

  function IpBits(ip: Ip): Bits {
    match ip
    case NotAcquired => {PENDING}
    case AcquiredV4 => {PENDING, IP_ACQUIRED, IPV4}
    case AcquiredV6 => {PENDING, IP_ACQUIRED, IPV6}
    case Released => {PENDING, IP_RELEASED}
  }

  /** The bits as the 32-bit notification value has them. */
  function Mask(bits: Bits): nat {
    (if PENDING in bits then 1 else 0) + (if DISCONNECTED in bits then 2 else 0)
    + (if CONNECTING in bits then 4 else 0) + (if CONNECTED in bits then 8 else 0)
    + (if IP_ACQUIRED in bits then 16 else 0) + (if IPV4 in bits then 32 else 0)
    + (if IPV6 in bits then 64 else 0) + (if IP_RELEASED in bits then 128 else 0)
  }

  lemma MaskTellsBits(a: Bits, b: Bits)
    requires Mask(a) == Mask(b)
    ensures a == b
  {
    forall bit: Bit ensures bit in a <==> bit in b {
      match bit
      case PENDING => case DISCONNECTED => case CONNECTING => case CONNECTED =>
      case IP_ACQUIRED => case IPV4 => case IPV6 => case IP_RELEASED =>
    }
  }

  /** The values the two handlers and the task post. */
  lemma PostedValues()
    ensures Mask(ConnectionBits(Initial)) == 1 && Mask(ConnectionBits(Disconnected)) == 3
    ensures Mask(ConnectionBits(Connecting)) == 5 && Mask(ConnectionBits(Connected)) == 9
    ensures Mask(IpBits(NotAcquired)) == 1 && Mask(IpBits(AcquiredV4)) == 49
    ensures Mask(IpBits(AcquiredV6)) == 81 && Mask(IpBits(Released)) == 129
  {
  }

  /** Where the task stands: on its restart path, waiting, or in the middle of a batch of bits. */
  datatype Pc =
    | Restarting | SettingUp | Announcing
    | Waiting
    | Checking(batch: Bits) | Reposting(batch: Bits) | Dialling(batch: Bits) | Finishing(batch: Bits)

  /** An activation of a handler that has set its status and not yet posted it. */
  datatype Handler = Wlan | NetApp

  /** A batch of bits the task took, made of the posts `first` up to `last`. */
  datatype Batch = Batch(bits: Bits, first: nat, last: nat)

  /**
   `value` and `notified` are the task's notification. `online` tells whether the network clients were
   last resumed or suspended. The rest is history: all posts, how many the task has taken, its
   batches, its calls of sl_WlanConnect, and whether the next of them is due: from power-on, from a
   disconnect that was taken, or from a call that failed.
   */
  datatype State = State(
    pc: Pc, connection: Connection, ip: Ip, value: Bits, notified: bool, handlers: seq<Handler>, online: bool,
    posts: seq<Bits>, taken: nat, batches: seq<Batch>, connects: nat, owed: bool)

  datatype Event =
    | WlanEvent(change: Option<Connection>)
    | NetAppEvent(address: Option<Ip>)
    | Posting(k: nat)
    | TaskStep(connectFails: bool)

  const BOOT: State := State(Restarting, Initial, NotAcquired, {}, false, [], false, [], 0, [], 0, true)

  /** xTaskNotify with eSetBits. */
  function Post(s: State, bits: Bits): State {
    s.(value := s.value + bits, notified := true, posts := s.posts + [bits])
  }

  /** A WLAN event sets no state but these two, or none. */
  predicate Enabled(s: State, e: Event) {
    match e
    case WlanEvent(change) => change in {None, Some(Connected), Some(Disconnected)}
    case NetAppEvent(change) => change != Some(NotAcquired)
    case Posting(k) => k < |s.handlers|
    case TaskStep(_) => true
  }

  function Next(s: State, e: Event): State
    requires Enabled(s, e)
  {
    match e
    case WlanEvent(change) =>
      s.(connection := if change.Some? then change.value else s.connection, handlers := s.handlers + [Wlan])
    case NetAppEvent(change) =>
      s.(ip := if change.Some? then change.value else s.ip, handlers := s.handlers + [NetApp])
    case Posting(k) =>
      Post(s.(handlers := s.handlers[..k] + s.handlers[k + 1..]),
           if s.handlers[k] == Wlan then ConnectionBits(s.connection) else IpBits(s.ip))
    case TaskStep(connectFails) => Task(s, connectFails)
  }

  predicate HasAddress(batch: Bits) {
    IP_ACQUIRED in batch || IPV4 in batch || IPV6 in batch
  }

  /** One step of wifi_task. A wait without a notification times out and is tried again. */
  function Task(s: State, connectFails: bool): State {
    match s.pc
    case Restarting => s.(pc := SettingUp, connection := Disconnected)
    case SettingUp => s.(pc := Announcing, connection := Connecting)
    case Announcing => Post(s, ConnectionBits(Connecting)).(pc := Waiting)
    case Waiting => if s.notified then Take(s) else s
    case Checking(batch) =>
      if DISCONNECTED in batch then s.(pc := Reposting(batch), connection := Connecting, online := false)
      else s.(pc := Dialling(batch))
    case Reposting(batch) => Post(s, ConnectionBits(Connecting)).(pc := Dialling(batch))
    case Dialling(batch) =>
      if CONNECTING in batch then
        s.(connects := s.connects + 1, owed := connectFails, pc := if connectFails then Restarting else Finishing(batch))
      else s.(pc := Finishing(batch))
    case Finishing(batch) =>
      s.(pc := Waiting, online := s.online || HasAddress(batch))
  }

  /** xTaskNotifyWait hands over all bits and clears them. */
  function Take(s: State): State {
    s.(pc := Checking(s.value), value := {}, notified := false,
       taken := |s.posts|, batches := s.batches + [Batch(s.value, s.taken, |s.posts|)],
       owed := s.owed || DISCONNECTED in s.value)
  }

  predicate Possible(s: State, es: seq<Event>)
    decreases |es|
  {
    es == [] || (Enabled(s, es[0]) && Possible(Next(s, es[0]), es[1..]))
  }

  function After(s: State, es: seq<Event>): State
    requires Possible(s, es)
    decreases |es|
  {
    if es == [] then s else After(Next(s, es[0]), es[1..])
  }

  // ---------------------------------------------------------------------------
  // Every post is delivered once
  // ---------------------------------------------------------------------------

  function Union(posts: seq<Bits>): Bits {
    if posts == [] then {} else Union(posts[..|posts| - 1]) + posts[|posts| - 1]
  }

  lemma {:induction false} UnionHas(posts: seq<Bits>, b: Bit)
    ensures b in Union(posts) <==> exists i :: 0 <= i < |posts| && b in posts[i]
    decreases |posts|
  {
    if posts != [] {
      var front := posts[..|posts| - 1];
      UnionHas(front, b);
      assert forall i :: 0 <= i < |front| ==> front[i] == posts[i];
    }
  }

  /** The batches cut the posts up to `taken` into consecutive pieces; the notification holds the rest. */
  predicate Delivering(s: State) {
    && s.taken <= |s.posts|
    && (s.notified <==> s.taken < |s.posts|)
    && s.value == Union(s.posts[s.taken..])
    && (forall k :: 0 <= k < |s.batches| ==> Piece(s, k))
    && s.taken == (if s.batches == [] then 0 else s.batches[|s.batches| - 1].last)
  }

  predicate Piece(s: State, k: nat)
    requires k < |s.batches|
  {
    var b := s.batches[k];
    && b.first == (if k == 0 then 0 else s.batches[k - 1].last)
    && b.first < b.last <= |s.posts|
    && b.bits == Union(s.posts[b.first..b.last])
  }

  lemma PostDelivering(s: State, bits: Bits)
    requires Delivering(s)
    ensures Delivering(Post(s, bits))
  {
    hide Union;
    var t := Post(s, bits);
    UnionThen(s.posts[s.taken..], bits);
    assert t.posts[t.taken..] == s.posts[s.taken..] + [bits];
    forall k | 0 <= k < |t.batches| ensures Piece(t, k) {
      assert Piece(s, k);
      var b := t.batches[k];
      assert t.posts[b.first..b.last] == s.posts[b.first..b.last];
    }
  }

  lemma UnionThen(posts: seq<Bits>, bits: Bits)
    ensures Union(posts + [bits]) == Union(posts) + bits
  {
    var longer := posts + [bits];
    assert longer[..|longer| - 1] == posts;
  }

  lemma TakeDelivering(s: State)
    requires Delivering(s) && s.notified
    ensures Delivering(Take(s))
  {
    hide Union;
    var t := Take(s);
    NoPosts();
    assert t.posts[t.taken..] == [];
    assert s.posts[s.taken..] == t.posts[s.taken..|t.posts|];
    forall k | 0 <= k < |t.batches| ensures Piece(t, k) {
      if k < |s.batches| {
        assert Piece(s, k);
      }
    }
  }

  lemma NoPosts()
    ensures Union([]) == {}
  {
  }

  // ---------------------------------------------------------------------------
  // Every disconnect is answered
  // ---------------------------------------------------------------------------

  /** The task is on its way to posting the connecting bit. */
  predicate OnRestartPath(pc: Pc) {
    pc.Restarting? || pc.SettingUp? || pc.Announcing?
  }

  /** The task holds a batch that will make it post the connecting bit, or call sl_WlanConnect. */
  predicate InHand(pc: Pc) {
    match pc
    case Checking(batch) => DISCONNECTED in batch || CONNECTING in batch
    case Reposting(_) => true
    case Dialling(batch) => CONNECTING in batch
    case _ => false
  }

  /** A call that is due has its connecting bit pending, or it is about to be. */
  predicate Answering(s: State) {
    s.owed ==> (CONNECTING in s.value && s.notified) || InHand(s.pc) || OnRestartPath(s.pc)
  }

  predicate Inv(s: State) {
    Delivering(s) && Answering(s)
  }

  lemma BootInv()
    ensures Inv(BOOT)
  {
    assert BOOT.posts[0..] == [];
  }

  /** A step that neither posts nor takes leaves the delivery as it is. */
  lemma SameDelivery(s: State, t: State)
    requires Delivering(s)
    requires t.value == s.value && t.notified == s.notified && t.posts == s.posts && t.taken == s.taken && t.batches == s.batches
    ensures Delivering(t)
  {
    forall k | 0 <= k < |t.batches| ensures Piece(t, k) {
      assert Piece(s, k);
    }
  }

  lemma StepDelivers(s: State, e: Event)
    requires Delivering(s) && Enabled(s, e)
    ensures Delivering(Next(s, e))
  {
    hide Delivering, ConnectionBits, IpBits;
    var t := Next(s, e);
    match e
    case WlanEvent(_) => SameDelivery(s, t);
    case NetAppEvent(_) => SameDelivery(s, t);
    case Posting(k) =>
      var quiet := s.(handlers := s.handlers[..k] + s.handlers[k + 1..]);
      SameDelivery(s, quiet);
      PostDelivering(quiet, if s.handlers[k] == Wlan then ConnectionBits(s.connection) else IpBits(s.ip));
    case TaskStep(_) =>
      if s.pc.Waiting? && s.notified {
        TakeDelivering(s);
      } else if s.pc.Announcing? || s.pc.Reposting? {
        PostDelivering(s, ConnectionBits(Connecting));
        SameDelivery(Post(s, ConnectionBits(Connecting)), t);
      } else {
        SameDelivery(s, t);
      }
  }

  lemma StepAnswers(s: State, e: Event)
    requires Answering(s) && Enabled(s, e)
    ensures Answering(Next(s, e))
  {
    hide IpBits, HasAddress;
  }

  lemma StepKeeps(s: State, e: Event)
    requires Inv(s) && Enabled(s, e)
    ensures Inv(Next(s, e))
  {
    hide Delivering, Answering, Next, Enabled;
    StepDelivers(s, e);
    StepAnswers(s, e);
  }

  lemma {:induction false} RunKeeps(s: State, es: seq<Event>)
    requires Inv(s) && Possible(s, es)
    ensures Inv(After(s, es))
    decreases |es|
  {
    hide Inv, Enabled;
    if es != [] {
      StepKeeps(s, es[0]);
      RunKeeps(Next(s, es[0]), es[1..]);
    }
  }

  /** Each post is still pending as a whole, or every bit of it went into one batch, and into no other. */
  lemma EachPostOneBatch(es: seq<Event>, i: nat)
    requires Possible(BOOT, es) && i < |After(BOOT, es).posts|
    ensures
      var s := After(BOOT, es);
      if i >= s.taken then s.notified && s.posts[i] <= s.value
      else exists k :: 0 <= k < |s.batches| && Within(s, k, i) && forall j :: 0 <= j < |s.batches| && Within(s, j, i) ==> j == k
  {
    BootInv();
    RunKeeps(BOOT, es);
    var s := After(BOOT, es);
    if i >= s.taken {
      UnionHolds(s.posts, s.taken, |s.posts|, i);
      assert s.posts[s.taken..] == s.posts[s.taken..|s.posts|];
    } else {
      var k := FindPiece(s, i, |s.batches|);
      forall j | 0 <= j < |s.batches| && Within(s, j, i) ensures j == k {
        PiecesApart(s, j, k);
        PiecesApart(s, k, j);
      }
    }
  }

  /** Post `i` belongs to batch `k`, with all its bits. */
  predicate Within(s: State, k: nat, i: nat)
    requires k < |s.batches| && i < |s.posts|
  {
    s.batches[k].first <= i < s.batches[k].last && s.posts[i] <= s.batches[k].bits
  }

  lemma UnionHolds(posts: seq<Bits>, start: nat, stop: nat, i: nat)
    requires start <= i < stop <= |posts|
    ensures posts[i] <= Union(posts[start..stop])
  {
    forall b | b in posts[i] ensures b in Union(posts[start..stop]) {
      UnionHas(posts[start..stop], b);
      assert posts[start..stop][i - start] == posts[i];
    }
  }

  lemma {:induction false} FindPiece(s: State, i: nat, n: nat) returns (k: nat)
    requires Delivering(s) && n <= |s.batches| && i < (if n == 0 then 0 else s.batches[n - 1].last)
    ensures k < n && i < |s.posts| && Within(s, k, i)
    decreases n
  {
    hide Union;
    assert Piece(s, n - 1);
    if s.batches[n - 1].first <= i {
      k := n - 1;
      UnionHolds(s.posts, s.batches[k].first, s.batches[k].last, i);
    } else {
      k := FindPiece(s, i, n - 1);
    }
  }

  lemma {:induction false} PiecesApart(s: State, j: nat, k: nat)
    requires Delivering(s) && k < |s.batches|
    ensures j < k ==> s.batches[j].last <= s.batches[k].first
    decreases k
  {
    hide Union;
    if j < k {
      assert Piece(s, k) && Piece(s, k - 1);
      PiecesApart(s, j, k - 1);
    }
  }

  /** A batch holds no bit that was not posted since the batch before. */
  lemma BatchBitsWerePosted(es: seq<Event>, k: nat, b: Bit)
    requires Possible(BOOT, es) && k < |After(BOOT, es).batches|
    ensures
      var s := After(BOOT, es);
      var batch := s.batches[k];
      && batch.last <= |s.posts|
      && (b in batch.bits <==> exists i :: batch.first <= i < batch.last && b in s.posts[i])
  {
    BootInv();
    RunKeeps(BOOT, es);
    var s := After(BOOT, es);
    assert Piece(s, k);
    var batch := s.batches[k];
    var piece := s.posts[batch.first..batch.last];
    UnionHas(piece, b);
    assert forall i :: 0 <= i < |piece| ==> piece[i] == s.posts[batch.first + i];
    assert forall i :: batch.first <= i < batch.last ==> s.posts[i] == piece[i - batch.first];
  }

  /** Between batches, a call that is due has the connecting bit pending, or the task restarts. */
  lemma EveryDisconnectAnswered(es: seq<Event>)
    requires Possible(BOOT, es)
    ensures
      var s := After(BOOT, es);
      && (s.owed && s.pc.Waiting? ==> s.notified && CONNECTING in s.value)
      && (s.owed && s.pc.Finishing? ==> s.notified && CONNECTING in s.value)
  {
    BootInv();
    RunKeeps(BOOT, es);
  }

  /** At most how many steps of its own the task needs to call sl_WlanConnect while it owes that call. */
  function Distance(pc: Pc): nat {
    match pc
    case Restarting => 7
    case SettingUp => 6
    case Announcing => 5
    case Waiting => 4
    case Checking(batch) => if CONNECTING in batch then 3 else 8
    case Reposting(batch) => if CONNECTING in batch then 2 else 7
    case Dialling(batch) => if CONNECTING in batch then 1 else 6
    case Finishing(_) => 5
  }

  /** Every own step brings an owing task closer to the call, or is the call; no other step pushes it back. */
  lemma Closer(s: State, e: Event)
    requires Inv(s) && Enabled(s, e) && s.owed
    ensures
      var t := Next(s, e);
      if !e.TaskStep? then t.owed && t.connects == s.connects && Distance(t.pc) == Distance(s.pc)
      else if t.connects > s.connects then t.owed == e.connectFails
      else t.owed && t.connects == s.connects && Distance(t.pc) < Distance(s.pc)
  {
    hide Delivering, Union;
  }

  function OwnSteps(es: seq<Event>): nat {
    if es == [] then 0 else (if es[0].TaskStep? then 1 else 0) + OwnSteps(es[1..])
  }

  lemma NeverFewer(s: State, es: seq<Event>)
    requires Possible(s, es)
    ensures After(s, es).connects >= s.connects
    decreases |es|
  {
    if es != [] {
      NeverFewer(Next(s, es[0]), es[1..]);
    }
  }

  /**
   Whatever else happens in between, power-on, a disconnect and a failed call are followed by a call of
   sl_WlanConnect within eight own steps.
   */
  lemma {:induction false} ReconnectsSoon(s: State, es: seq<Event>)
    requires Inv(s) && Possible(s, es) && s.owed && OwnSteps(es) >= Distance(s.pc)
    ensures Distance(s.pc) <= 8 && After(s, es).connects > s.connects
    decreases |es|
  {
    hide Inv, Next, Enabled;
    if es != [] {
      StepKeeps(s, es[0]);
      Closer(s, es[0]);
      var t := Next(s, es[0]);
      if t.connects > s.connects {
        NeverFewer(t, es[1..]);
      } else {
        ReconnectsSoon(t, es[1..]);
      }
    }
  }

  // ---------------------------------------------------------------------------
  // What a handler posts
  // ---------------------------------------------------------------------------

  /** The last state written to wifi_status.connection in a run, if any. */
  function LastWrite(s: State, es: seq<Event>): Option<Connection>
    requires Possible(s, es)
    decreases |es|
  {
    if es == [] then None else
    var later := LastWrite(Next(s, es[0]), es[1..]);
    if later.Some? then later else
    match es[0]
    case WlanEvent(change) => change
    case TaskStep(_) =>
      if s.pc.Restarting? then Some(Disconnected)
      else if s.pc.SettingUp? || (s.pc.Checking? && DISCONNECTED in s.pc.batch) then Some(Connecting)
      else None
    case _ => None
  }

  lemma {:induction false} LastWriteStays(s: State, es: seq<Event>)
    requires Possible(s, es)
    ensures After(s, es).connection == if LastWrite(s, es).Some? then LastWrite(s, es).value else s.connection
    decreases |es|
  {
    if es != [] {
      LastWriteStays(Next(s, es[0]), es[1..]);
    }
  }

  /** A handler posts the state it set exactly when nobody wrote another one before it came to post. */
  lemma HandlerPostsItsState(s: State, c: Connection, es: seq<Event>, k: nat)
    requires c in {Connected, Disconnected} && Possible(Next(s, WlanEvent(Some(c))), es)
    requires k < |After(Next(s, WlanEvent(Some(c))), es).handlers| && After(Next(s, WlanEvent(Some(c))), es).handlers[k] == Wlan
    ensures
      var raised := Next(s, WlanEvent(Some(c)));
      var before := After(raised, es);
      var after := Next(before, Posting(k));
      && |after.posts| == |before.posts| + 1
      && (after.posts[|before.posts|] == ConnectionBits(c) <==> LastWrite(raised, es) in {None, Some(c)})
  {
    hide LastWrite;
    LastWriteStays(Next(s, WlanEvent(Some(c))), es);
    var d := After(Next(s, WlanEvent(Some(c))), es).connection;
    assert ConnectionBits(d) == ConnectionBits(c) <==> d == c by {
      BitsTell(d, c);
    }
  }

  lemma BitsTell(c: Connection, d: Connection)
    ensures ConnectionBits(c) == ConnectionBits(d) ==> c == d
  {
    assert CONNECTED in ConnectionBits(c) <==> c == Connected;
    assert CONNECTING in ConnectionBits(c) <==> c == Connecting;
    assert DISCONNECTED in ConnectionBits(c) <==> c == Disconnected;
    assert CONNECTED in ConnectionBits(d) <==> d == Connected;
    assert CONNECTING in ConnectionBits(d) <==> d == Connecting;
    assert DISCONNECTED in ConnectionBits(d) <==> d == Disconnected;
  }

  /** The last address state that an event of a run brings, if any. */
  function LastAddress(es: seq<Event>): Option<Ip> {
    if es == [] then None else
    var later := LastAddress(es[1..]);
    if later.Some? then later else if es[0].NetAppEvent? then es[0].address else None
  }

  lemma {:induction false} LastAddressStays(s: State, es: seq<Event>)
    requires Possible(s, es)
    ensures After(s, es).ip == if LastAddress(es).Some? then LastAddress(es).value else s.ip
    decreases |es|
  {
    if es != [] {
      LastAddressStays(Next(s, es[0]), es[1..]);
    }
  }

  /** The same for addresses, which only these handlers write; the values are as in PostedValues. */
  lemma HandlerPostsItsAddress(s: State, ip: Ip, es: seq<Event>, k: nat)
    requires ip != NotAcquired && Possible(Next(s, NetAppEvent(Some(ip))), es)
    requires k < |After(Next(s, NetAppEvent(Some(ip))), es).handlers|
    requires After(Next(s, NetAppEvent(Some(ip))), es).handlers[k] == NetApp
    ensures
      var before := After(Next(s, NetAppEvent(Some(ip))), es);
      var after := Next(before, Posting(k));
      && |after.posts| == |before.posts| + 1
      && (after.posts[|before.posts|] == IpBits(ip) <==> LastAddress(es) in {None, Some(ip)})
  {
    hide LastAddress, IpBits;
    var raised := Next(s, NetAppEvent(Some(ip)));
    LastAddressStays(raised, es);
    AddressesTell(After(raised, es).ip, ip);
  }

  lemma AddressesTell(a: Ip, b: Ip)
    ensures IpBits(a) == IpBits(b) ==> a == b
  {
    PostedValues();
  }

  lemma {:induction false} RunThen(s: State, es: seq<Event>, more: seq<Event>)
    requires Possible(s, es)
    ensures Possible(s, es + more) <==> Possible(After(s, es), more)
    ensures Possible(s, es + more) ==> After(s, es + more) == After(After(s, es), more)
    decreases |es|
  {
    hide Enabled, Next;
    if es == [] {
      assert es + more == more;
    } else {
      RunThen(Next(s, es[0]), es[1..], more);
      assert (es + more)[1..] == es[1..] + more;
    }
  }

  lemma Unroll(s: State, e: Event, es: seq<Event>)
    ensures Possible(s, [e] + es) <==> Enabled(s, e) && Possible(Next(s, e), es)
    ensures Possible(s, [e] + es) ==> After(s, [e] + es) == After(Next(s, e), es)
  {
    assert ([e] + es)[1..] == es;
  }

  lemma NoEvents(s: State)
    ensures Possible(s, []) && After(s, []) == s
  {
  }

  /** Three events in a row. */
  lemma ThreeEvents(s: State, e1: Event, e2: Event, e3: Event)
    requires Enabled(s, e1) && Enabled(Next(s, e1), e2) && Enabled(Next(Next(s, e1), e2), e3)
    ensures Possible(s, [e1, e2, e3]) && After(s, [e1, e2, e3]) == Next(Next(Next(s, e1), e2), e3)
  {
    hide Enabled, Next, Possible, After;
    var s1, s2 := Next(s, e1), Next(Next(s, e1), e2);
    var s3 := Next(s2, e3);
    NoEvents(s3);
    Unroll(s2, e3, []);
    Unroll(s1, e2, [e3] + []);
    Unroll(s, e1, [e2] + ([e3] + []));
    assert [e1] + ([e2] + ([e3] + [])) == [e1, e2, e3];
  }

  /** The task waits and nothing is in flight. */
  predicate Idle(s: State) {
    s.pc == Waiting && s.handlers == [] && !s.notified && s.value == {} && forall i :: 0 <= i < |s.posts| ==> CONNECTED !in s.posts[i]
  }

  const OWN := TaskStep(false)

  /** From power-on through the first connect to the first wait. */
  const TO_IDLE: seq<Event> := [OWN, OWN, OWN] + ([OWN, OWN, OWN] + [OWN])

  lemma BootToIdle()
    ensures Possible(BOOT, TO_IDLE) && Idle(After(BOOT, TO_IDLE))
  {
    ThreeEvents(BOOT, OWN, OWN, OWN);
    var s3 := After(BOOT, [OWN, OWN, OWN]);
    assert s3.pc == Waiting && s3.notified && s3.value == {PENDING, CONNECTING} && s3.posts == [{PENDING, CONNECTING}];
    assert s3.handlers == [];
    DialsAndWaits(s3);
    var s7 := After(s3, [OWN, OWN, OWN] + [OWN]);
    hide Possible, After, Next;
    RunThen(BOOT, [OWN, OWN, OWN], [OWN, OWN, OWN] + [OWN]);
  }

  lemma DialsAndWaits(s: State)
    requires s.pc == Waiting && s.notified && s.value == {PENDING, CONNECTING} && s.handlers == []
    ensures
      var es := [OWN, OWN, OWN] + [OWN];
      && Possible(s, es)
      && var t := After(s, es);
      t.pc == Waiting && t.handlers == [] && !t.notified && t.value == {} && t.posts == s.posts
  {
    ThreeEvents(s, OWN, OWN, OWN);
    var t := Next(Next(Next(s, OWN), OWN), OWN);
    assert t.pc == Finishing({PENDING, CONNECTING});
    NoEvents(Next(t, OWN));
    Unroll(t, OWN, []);
    assert [OWN] + [] == [OWN];
    hide Possible, After, Next;
    RunThen(s, [OWN, OWN, OWN], [OWN]);
  }

  /** An idle task takes a disconnect. */
  lemma TakesDisconnect(s: State)
    requires Idle(s)
    ensures
      var es := [WlanEvent(Some(Disconnected)), Posting(0), OWN];
      && Possible(s, es)
      && After(s, es).pc == Checking({PENDING, DISCONNECTED}) && After(s, es).handlers == []
      && After(s, es).posts == s.posts + [{PENDING, DISCONNECTED}]
  {
    var s1 := Next(s, WlanEvent(Some(Disconnected)));
    assert s1.handlers == [Wlan];
    var s2 := Next(s1, Posting(0));
    assert s2.handlers == [] && s2.value == {PENDING, DISCONNECTED};
    ThreeEvents(s, WlanEvent(Some(Disconnected)), Posting(0), OWN);
  }

  /** The access point connects while the task answers the disconnect. */
  lemma ConnectsMeanwhile(s: State)
    requires s.pc == Checking({PENDING, DISCONNECTED}) && s.handlers == []
    ensures
      var es := [WlanEvent(Some(Connected)), OWN, Posting(0)];
      && Possible(s, es)
      && After(s, es).connection == Connecting && After(s, es).posts == s.posts + [{PENDING, CONNECTING}]
  {
    var s1 := Next(s, WlanEvent(Some(Connected)));
    assert s1.handlers == [Wlan];
    var s2 := Next(s1, OWN);
    ThreeEvents(s, WlanEvent(Some(Connected)), OWN, Posting(0));
  }

  /** A run from power-on in which the access point connects and its handler posts, but no connected bit is ever posted. */
  lemma ConnectedEventLost()
    ensures
      var es := TO_IDLE + ([WlanEvent(Some(Disconnected)), Posting(0), OWN] + [WlanEvent(Some(Connected)), OWN, Posting(0)]);
      && Possible(BOOT, es)
      && var s := After(BOOT, es);
      s.connection == Connecting && forall i :: 0 <= i < |s.posts| ==> CONNECTED !in s.posts[i]
  {
    BootToIdle();
    var s := After(BOOT, TO_IDLE);
    TakesDisconnect(s);
    var down, up := [WlanEvent(Some(Disconnected)), Posting(0), OWN], [WlanEvent(Some(Connected)), OWN, Posting(0)];
    ConnectsMeanwhile(After(s, down));
    hide Possible, After, Next;
    RunThen(s, down, up);
    RunThen(BOOT, TO_IDLE, down + up);
  }

  // ---------------------------------------------------------------------------
  // What a batch does to the network clients
  // ---------------------------------------------------------------------------

  /** The task's own steps on one batch that it finishes. */
  function Finished(s: State): State
    requires s.pc.Checking?
  {
    var t := Task(s, false);
    var u := if t.pc.Reposting? then Task(t, false) else t;
    Task(Task(u, false), false)
  }

  /**
   The clients are resumed by an address in the batch, whatever order the posts came in: a disconnect
   posted behind the address leaves them running.
   */
  lemma BatchDecidesOnline(s: State)
    requires s.pc.Checking?
    ensures
      var t := Finished(s);
      && t.pc == Waiting
      && (t.online <==> s.pc.batch * {IP_ACQUIRED, IPV4, IPV6} != {} || (s.online && DISCONNECTED !in s.pc.batch))
      && t.connects == s.connects + (if CONNECTING in s.pc.batch then 1 else 0)
      && t.connection == if DISCONNECTED in s.pc.batch then Connecting else s.connection
  {
    hide ConnectionBits;
    var batch := s.pc.batch;
    AddressBits(batch);
    hide HasAddress;
    var t := Task(s, false);
    var u := if t.pc.Reposting? then Task(t, false) else t;
    assert u.pc == Dialling(batch) && u.connects == s.connects && (u.online <==> s.online && DISCONNECTED !in batch);
    var v := Task(u, false);
    assert v.pc == Finishing(batch) && v.online == u.online;
  }

  lemma AddressBits(batch: Bits)
    ensures HasAddress(batch) <==> batch * {IP_ACQUIRED, IPV4, IPV6} != {}
  {
    var both := batch * {IP_ACQUIRED, IPV4, IPV6};
    assert IP_ACQUIRED in batch ==> IP_ACQUIRED in both;
    assert IPV4 in batch ==> IPV4 in both;
    assert IPV6 in batch ==> IPV6 in both;
  }

  /** The notification after an address and then a disconnect were posted to an idle task. */
  lemma AddressThenDisconnect(s: State)
    requires Idle(s)
    ensures
      var s1 := Next(s, NetAppEvent(Some(AcquiredV4)));
      && Enabled(s1, Posting(0))
      && var s3 := Next(Next(s1, Posting(0)), WlanEvent(Some(Disconnected)));
      && Enabled(s3, Posting(0))
      && var s5 := Next(Next(s3, Posting(0)), TaskStep(false));
      s5.pc.Checking? && s5.pc.batch == IpBits(AcquiredV4) + ConnectionBits(Disconnected)
  {
    var s1 := Next(s, NetAppEvent(Some(AcquiredV4)));
    assert s1.handlers == [NetApp];
    var s2 := Next(s1, Posting(0));
    assert s2.handlers == [] && s2.value == IpBits(AcquiredV4);
    var s3 := Next(s2, WlanEvent(Some(Disconnected)));
    assert s3.handlers == [Wlan];
    var s4 := Next(s3, Posting(0));
    assert s4.value == IpBits(AcquiredV4) + ConnectionBits(Disconnected);
  }

  const ADDRESS_DOWN: seq<Event> :=
    [NetAppEvent(Some(AcquiredV4)), Posting(0), WlanEvent(Some(Disconnected))] + ([Posting(0)] + ([OWN] + []))

  lemma IdleOrderLost(s: State)
    requires Idle(s)
    ensures
      && Possible(s, ADDRESS_DOWN)
      && After(s, ADDRESS_DOWN).pc.Checking? && DISCONNECTED in After(s, ADDRESS_DOWN).pc.batch
      && Finished(After(s, ADDRESS_DOWN)).online && Finished(After(s, ADDRESS_DOWN)).connection == Connecting
  {
    AddressThenDisconnect(s);
    var s1 := Next(s, NetAppEvent(Some(AcquiredV4)));
    var s2 := Next(s1, Posting(0));
    var s3 := Next(s2, WlanEvent(Some(Disconnected)));
    var s4 := Next(s3, Posting(0));
    var s5 := Next(s4, OWN);
    ThreeEvents(s, NetAppEvent(Some(AcquiredV4)), Posting(0), WlanEvent(Some(Disconnected)));
    BatchDecidesOnline(s5);
    hide Possible, After, Next, Finished;
    NoEvents(s5);
    Unroll(s4, OWN, []);
    Unroll(s3, Posting(0), [OWN] + []);
    RunThen(s, [NetAppEvent(Some(AcquiredV4)), Posting(0), WlanEvent(Some(Disconnected))], [Posting(0)] + ([OWN] + []));
  }

  const FOUR: seq<Event> := [OWN, OWN, OWN] + ([OWN] + [])

  lemma FinishedByOwnSteps(s: State)
    requires s.pc.Checking? && DISCONNECTED in s.pc.batch
    ensures Possible(s, FOUR) && After(s, FOUR) == Finished(s)
  {
    ThreeEvents(s, OWN, OWN, OWN);
    var t := Next(Next(Next(s, OWN), OWN), OWN);
    assert Finished(s) == Next(t, OWN);
    hide Possible, After, Next, Finished;
    NoEvents(Next(t, OWN));
    Unroll(t, OWN, []);
    RunThen(s, [OWN, OWN, OWN], [OWN] + []);
  }

  /**
   A run from power-on in which an address and then a disconnect are taken in one batch: once the task
   has finished the batch, the clients run on without a connection.
   */
  lemma OrderInBatchLost()
    ensures
      var es := TO_IDLE + (ADDRESS_DOWN + FOUR);
      && Possible(BOOT, es)
      && After(BOOT, es).pc == Waiting && After(BOOT, es).online && After(BOOT, es).connection == Connecting
  {
    BootToIdle();
    var s := After(BOOT, TO_IDLE);
    IdleOrderLost(s);
    FinishedByOwnSteps(After(s, ADDRESS_DOWN));
    BatchDecidesOnline(After(s, ADDRESS_DOWN));
    hide Possible, After, Next, Finished;
    RunThen(s, ADDRESS_DOWN, FOUR);
    RunThen(BOOT, TO_IDLE, ADDRESS_DOWN + FOUR);
  }
}
