/**
 * The client side of a connection (`conn.go`): calls dispatch requests, one
 * receiving goroutine hands answers to them, and when the connection breaks an
 * error is broadcast to whoever is still waiting. One action is one step of one
 * goroutine between two lock or channel operations.
 */
module ClientConn {
  datatype Dispatch = Idle | Registered(id: nat) | SendFailed(id: nat) | Deleted(id: nat)

  datatype Receiver = Receiving | Delivering(id: nat) | Failed | Closing | Broadcasting | Stopped

  datatype State = State(
    limit: seq<nat>,        // per call: `maxConcurrentRequests`; its channel has one place more
    disp: seq<Dispatch>,    // per call: what `dispatchRequest` is doing
    inFlight: seq<nat>,     // per call: its own count of requests under way
    queued: seq<nat>,       // per call: results waiting in its channel
    consumed: seq<nat>,     // per call: results it has taken
    call: seq<nat>,         // per request: the call it belongs to
    inflight: set<nat>,     // the connection's map of outstanding requests
    written: set<nat>,      // requests sent without error
    connClosed: bool,
    recv: Receiver,
    pending: set<nat>,      // listeners the broadcast has still to tell
    delivered: set<nat>,    // requests whose answer went to their channel,
    reported: set<nat>,     // whose failed send did,
    told: set<nat>)         // and to whom the disconnect was broadcast

  datatype Action =
    | NewCall(limit: nat) | Register(c: nat) | SendOk(c: nat) | SendFail(c: nat) | FailDelete(c: nat) | FailReport(c: nat)
    | Consume(c: nat) | UserClose
    | RecvAnswer(id: nat) | RecvFail | Deliver | CloseConn | Snapshot | Tell(id: nat) | Stop

  const INIT := State([], [], [], [], [], [], {}, {}, false, Receiving, {}, {}, {}, {})

  /** What a goroutine is ready to do, room in the channel aside. */
  predicate Wants(s: State, a: Action)
    requires Shape(s)
  {
    match a
    case NewCall(limit) => limit > 0
    case Register(c) => c < |s.disp| && s.disp[c].Idle? && s.inFlight[c] < s.limit[c]
    case SendOk(c) => c < |s.disp| && s.disp[c].Registered? && !s.connClosed
    case SendFail(c) => c < |s.disp| && s.disp[c].Registered?
    case FailDelete(c) => c < |s.disp| && s.disp[c].SendFailed?
    case FailReport(c) => c < |s.disp| && s.disp[c].Deleted?
    case Consume(c) => c < |s.disp| && s.disp[c].Idle? && s.inFlight[c] > 0 && s.queued[c] > 0
    case UserClose => true
    case RecvAnswer(id) => s.recv.Receiving? && id in s.written
    case RecvFail => s.recv.Receiving?
    case Deliver => s.recv.Delivering?
    case CloseConn => s.recv.Failed?
    case Snapshot => s.recv.Closing?
    case Tell(id) => s.recv.Broadcasting? && id in s.pending
    case Stop => s.recv.Broadcasting? && s.pending == {}
  }

  /** The call to whose channel the action sends a result, if it sends one. */
  function Target(s: State, a: Action): (c: int)
    requires Shape(s)
    ensures -1 <= c < |s.disp|
  {
    if a.FailReport? && a.c < |s.disp| then a.c
    else if a.Deliver? && s.recv.Delivering? && s.recv.id < |s.call| then s.call[s.recv.id]
    else if a.Tell? && a.id < |s.call| then s.call[a.id]
    else -1
  }

  /** Sending on a channel waits while the channel is full. */
  predicate Enabled(s: State, a: Action)
    requires Shape(s)
  {
    Wants(s, a) && (var c := Target(s, a); c >= 0 ==> s.queued[c] < s.limit[c] + 1)
  }

  function Push(queued: seq<nat>, c: int): (r: seq<nat>)
    ensures |r| == |queued|
  {
    if 0 <= c < |queued| then queued[c := queued[c] + 1] else queued
  }

  function Apply(s: State, a: Action): (r: State)
    requires Shape(s) && Wants(s, a)
    ensures Shape(r)
  {
    match a
    case NewCall(limit) =>
      s.(limit := s.limit + [limit], disp := s.disp + [Idle], inFlight := s.inFlight + [0], queued := s.queued + [0],
         consumed := s.consumed + [0])
    case Register(c) =>
      s.(disp := s.disp[c := Registered(|s.call|)], inFlight := s.inFlight[c := s.inFlight[c] + 1],
         call := s.call + [c], inflight := s.inflight + {|s.call|})
    case SendOk(c) => s.(disp := s.disp[c := Idle], written := s.written + {s.disp[c].id})
    case SendFail(c) => s.(disp := s.disp[c := SendFailed(s.disp[c].id)])
    case FailDelete(c) => s.(disp := s.disp[c := Deleted(s.disp[c].id)], inflight := s.inflight - {s.disp[c].id})
    case FailReport(c) =>
      s.(disp := s.disp[c := Idle], reported := s.reported + {s.disp[c].id}, queued := Push(s.queued, Target(s, a)))
    case Consume(c) =>
      s.(inFlight := s.inFlight[c := s.inFlight[c] - 1], queued := s.queued[c := s.queued[c] - 1],
         consumed := s.consumed[c := s.consumed[c] + 1])
    case UserClose => s.(connClosed := true)
    case RecvAnswer(id) =>
      if id in s.inflight then s.(inflight := s.inflight - {id}, recv := Delivering(id)) else s.(recv := Failed)
    case RecvFail => s.(recv := Failed)
    case Deliver => s.(recv := Receiving, delivered := s.delivered + {s.recv.id}, queued := Push(s.queued, Target(s, a)))
    case CloseConn => s.(recv := Closing, connClosed := true)
    case Snapshot => s.(recv := Broadcasting, pending := s.inflight)
    case Tell(id) => s.(pending := s.pending - {id}, told := s.told + {id}, queued := Push(s.queued, Target(s, a)))
    case Stop => s.(recv := Stopped)
  }

  predicate Run(s: State, acts: seq<Action>, t: State)
    requires Shape(s)
    decreases acts
  {
    if acts == [] then s == t else Enabled(s, acts[0]) && Run(Apply(s, acts[0]), acts[1..], t)
  }

  predicate Shape(s: State) {
    && |s.limit| == |s.disp| == |s.inFlight| == |s.queued| == |s.consumed|
    && forall i :: 0 <= i < |s.call| ==> s.call[i] < |s.disp|
  }

  // ---- what every step keeps ----

  /** A request being dispatched is its call's latest, has no result yet, and stays registered until its send failed. */
  ghost predicate Holding(disp: seq<Dispatch>, call: seq<nat>, inflight: set<nat>, written: set<nat>, delivered: set<nat>,
                          reported: set<nat>) {
    forall c :: 0 <= c < |disp| && !disp[c].Idle? ==>
      var id := disp[c].id;
      && id < |call| && call[id] == c && Latest(call, id)
      && id !in written && id !in delivered && id !in reported && (id in inflight <==> !disp[c].Deleted?)
  }

  predicate Latest(call: seq<nat>, id: nat) {
    id < |call| && forall j :: 0 <= j < |call| && call[j] == call[id] ==> j <= id
  }

  ghost predicate Below(ids: set<nat>, n: nat) {
    forall i :: i in ids ==> i < n
  }

  /** No request is answered twice, or both answered and told, or told twice; a failed send is never answered. */
  ghost predicate Apart(n: nat, inflight: set<nat>, written: set<nat>, delivered: set<nat>, reported: set<nat>, told: set<nat>,
                        pending: set<nat>) {
    && Below(inflight, n) && Below(written, n) && Below(told, n) && Below(pending, n) && Below(reported, n)
    && delivered <= written && written !! reported
    && delivered !! told && delivered !! pending && told !! pending
    && delivered !! inflight && reported !! inflight
  }

  predicate Snapped(recv: Receiver) {
    recv.Broadcasting? || recv.Stopped?
  }

  ghost predicate ReceiverOk(recv: Receiver, connClosed: bool, inflight: set<nat>, written: set<nat>, delivered: set<nat>,
                             pending: set<nat>, told: set<nat>) {
    && (recv.Delivering? ==> recv.id in written && recv.id !in inflight && recv.id !in delivered)
    && (recv.Closing? || Snapped(recv) ==> connClosed)
    && (!Snapped(recv) ==> pending == {} && told == {})
    && (recv.Stopped? ==> pending == {})
  }

  predicate HeldBy(disp: seq<Dispatch>, call: seq<nat>, id: nat) {
    id < |call| && call[id] < |disp| && !disp[call[id]].Idle? && disp[call[id]].id == id
  }

  predicate Resulted(id: nat, delivered: set<nat>, reported: set<nat>, told: set<nat>) {
    id in delivered || id in reported || id in told
  }

  /** Every request has a result, or somebody is bound to give it one. */
  ghost predicate Promised(disp: seq<Dispatch>, call: seq<nat>, inflight: set<nat>, recv: Receiver, pending: set<nat>,
                           delivered: set<nat>, reported: set<nat>, told: set<nat>) {
    forall id: nat :: id < |call| ==>
      || Resulted(id, delivered, reported, told) || id in pending || recv == Delivering(id) || HeldBy(disp, call, id)
      || (!Snapped(recv) && id in inflight)
  }

  predicate SameCall(call: seq<nat>, id: nat, j: nat) {
    id < |call| && j < |call| && call[j] == call[id]
  }

  /** Among the requests the broadcast listed, only its call's last one can also fail to be sent. */
  ghost predicate LastOnly(disp: seq<Dispatch>, call: seq<nat>, listed: set<nat>, reported: set<nat>) {
    forall id, j ::
      id in listed && j in listed && SameCall(call, id, j) && (id in reported || HeldBy(disp, call, id)) ==> j <= id
  }

  function Of(call: seq<nat>, c: nat): set<nat> {
    set i: nat | i < |call| && call[i] == c
  }

  ghost predicate Counts(limit: seq<nat>, inFlight: seq<nat>, queued: seq<nat>, consumed: seq<nat>, call: seq<nat>,
                         delivered: set<nat>, reported: set<nat>, told: set<nat>)
    requires |limit| == |inFlight| == |queued| == |consumed|
  {
    forall c :: 0 <= c < |limit| ==>
      && inFlight[c] <= limit[c]
      && inFlight[c] + consumed[c] == |Of(call, c)|
      && queued[c] + consumed[c] == |delivered * Of(call, c)| + |reported * Of(call, c)| + |told * Of(call, c)|
  }

  ghost predicate Inv(s: State) {
    && Shape(s)
    && Holding(s.disp, s.call, s.inflight, s.written, s.delivered, s.reported)
    && Apart(|s.call|, s.inflight, s.written, s.delivered, s.reported, s.told, s.pending)
    && ReceiverOk(s.recv, s.connClosed, s.inflight, s.written, s.delivered, s.pending, s.told)
    && Promised(s.disp, s.call, s.inflight, s.recv, s.pending, s.delivered, s.reported, s.told)
    && LastOnly(s.disp, s.call, s.told + s.pending, s.reported)
    && Counts(s.limit, s.inFlight, s.queued, s.consumed, s.call, s.delivered, s.reported, s.told)
  }

  // ---- counting results, call by call ----

  lemma InterAdd(ids: set<nat>, id: nat, call: seq<nat>, x: nat)
    requires id < |call| && id !in ids
    ensures |(ids + {id}) * Of(call, x)| == |ids * Of(call, x)| + (if call[id] == x then 1 else 0)
  {
    if call[id] == x {
      assert (ids + {id}) * Of(call, x) == ids * Of(call, x) + {id};
    } else {
      assert (ids + {id}) * Of(call, x) == ids * Of(call, x);
    }
  }

  lemma OfGrows(call: seq<nat>, c: nat, x: nat)
    ensures Of(call + [c], x) == if x == c then Of(call, x) + {|call|} else Of(call, x)
  {
  }

  lemma InterSame(ids: set<nat>, call: seq<nat>, c: nat, x: nat)
    requires Below(ids, |call|)
    ensures ids * Of(call + [c], x) == ids * Of(call, x)
  {
    OfGrows(call, c, x);
  }

  lemma CountsDelivered(limit: seq<nat>, inFlight: seq<nat>, queued: seq<nat>, consumed: seq<nat>, call: seq<nat>,
                        delivered: set<nat>, reported: set<nat>, told: set<nat>, id: nat)
    requires |limit| == |inFlight| == |queued| == |consumed|
    requires Counts(limit, inFlight, queued, consumed, call, delivered, reported, told)
    requires id < |call| && call[id] < |limit| && id !in delivered
    ensures Counts(limit, inFlight, Push(queued, call[id]), consumed, call, delivered + {id}, reported, told)
  {
    forall x: nat | x < |limit| ensures |(delivered + {id}) * Of(call, x)| == |delivered * Of(call, x)| + (if call[id] == x then 1 else 0) {
      InterAdd(delivered, id, call, x);
    }
  }

  lemma CountsReported(limit: seq<nat>, inFlight: seq<nat>, queued: seq<nat>, consumed: seq<nat>, call: seq<nat>,
                       delivered: set<nat>, reported: set<nat>, told: set<nat>, id: nat)
    requires |limit| == |inFlight| == |queued| == |consumed|
    requires Counts(limit, inFlight, queued, consumed, call, delivered, reported, told)
    requires id < |call| && call[id] < |limit| && id !in reported
    ensures Counts(limit, inFlight, Push(queued, call[id]), consumed, call, delivered, reported + {id}, told)
  {
    forall x: nat | x < |limit| ensures |(reported + {id}) * Of(call, x)| == |reported * Of(call, x)| + (if call[id] == x then 1 else 0) {
      InterAdd(reported, id, call, x);
    }
  }

  lemma CountsTold(limit: seq<nat>, inFlight: seq<nat>, queued: seq<nat>, consumed: seq<nat>, call: seq<nat>,
                   delivered: set<nat>, reported: set<nat>, told: set<nat>, id: nat)
    requires |limit| == |inFlight| == |queued| == |consumed|
    requires Counts(limit, inFlight, queued, consumed, call, delivered, reported, told)
    requires id < |call| && call[id] < |limit| && id !in told
    ensures Counts(limit, inFlight, Push(queued, call[id]), consumed, call, delivered, reported, told + {id})
  {
    forall x: nat | x < |limit| ensures |(told + {id}) * Of(call, x)| == |told * Of(call, x)| + (if call[id] == x then 1 else 0) {
      InterAdd(told, id, call, x);
    }
  }

  lemma CountsRegister(limit: seq<nat>, inFlight: seq<nat>, queued: seq<nat>, consumed: seq<nat>, call: seq<nat>,
                       delivered: set<nat>, reported: set<nat>, told: set<nat>, c: nat)
    requires |limit| == |inFlight| == |queued| == |consumed|
    requires Counts(limit, inFlight, queued, consumed, call, delivered, reported, told)
    requires c < |limit| && inFlight[c] < limit[c]
    requires Below(delivered, |call|) && Below(reported, |call|) && Below(told, |call|)
    ensures Counts(limit, inFlight[c := inFlight[c] + 1], queued, consumed, call + [c], delivered, reported, told)
  {
    forall x: nat | x < |limit|
      ensures Of(call + [c], x) == if x == c then Of(call, x) + {|call|} else Of(call, x)
      ensures delivered * Of(call + [c], x) == delivered * Of(call, x)
      ensures reported * Of(call + [c], x) == reported * Of(call, x)
      ensures told * Of(call + [c], x) == told * Of(call, x)
    {
      OfGrows(call, c, x);
      InterSame(delivered, call, c, x);
      InterSame(reported, call, c, x);
      InterSame(told, call, c, x);
    }
  }

  lemma CountsNew(limit: seq<nat>, inFlight: seq<nat>, queued: seq<nat>, consumed: seq<nat>, call: seq<nat>,
                  delivered: set<nat>, reported: set<nat>, told: set<nat>, x: nat)
    requires |limit| == |inFlight| == |queued| == |consumed|
    requires Counts(limit, inFlight, queued, consumed, call, delivered, reported, told)
    requires forall i :: 0 <= i < |call| ==> call[i] < |limit|
    ensures Counts(limit + [x], inFlight + [0], queued + [0], consumed + [0], call, delivered, reported, told)
  {
    assert Of(call, |limit|) == {};
  }

  // ---- step by step ----

  lemma NewCallInv(s: State, x: nat)
    requires Inv(s) && Wants(s, NewCall(x))
    ensures Inv(Apply(s, NewCall(x)))
  {
    hide Apart, ReceiverOk, Counts;
    CountsNew(s.limit, s.inFlight, s.queued, s.consumed, s.call, s.delivered, s.reported, s.told, x);
  }

  lemma RegisterInv(s: State, x: nat)
    requires Inv(s) && Wants(s, Register(x))
    ensures Inv(Apply(s, Register(x)))
  {
    hide Counts;
    CountsRegister(s.limit, s.inFlight, s.queued, s.consumed, s.call, s.delivered, s.reported, s.told, x);
  }

  lemma SendOkInv(s: State, x: nat)
    requires Inv(s) && Wants(s, SendOk(x))
    ensures Inv(Apply(s, SendOk(x)))
  {
    hide Counts;
  }

  lemma SendFailInv(s: State, x: nat)
    requires Inv(s) && Wants(s, SendFail(x))
    ensures Inv(Apply(s, SendFail(x)))
  {
    hide Counts;
  }

  lemma FailDeleteInv(s: State, x: nat)
    requires Inv(s) && Wants(s, FailDelete(x))
    ensures Inv(Apply(s, FailDelete(x)))
  {
    hide Counts;
  }

  lemma FailReportInv(s: State, x: nat)
    requires Inv(s) && Wants(s, FailReport(x))
    ensures Inv(Apply(s, FailReport(x)))
  {
    hide Counts;
    CountsReported(s.limit, s.inFlight, s.queued, s.consumed, s.call, s.delivered, s.reported, s.told, s.disp[x].id);
  }

  lemma ConsumeInv(s: State, x: nat)
    requires Inv(s) && Wants(s, Consume(x))
    ensures Inv(Apply(s, Consume(x)))
  {
    hide Apart, ReceiverOk, LastOnly;
  }

  lemma UserCloseInv(s: State)
    requires Inv(s) && Wants(s, UserClose)
    ensures Inv(Apply(s, UserClose))
  {
    hide Counts;
  }

  lemma RecvAnswerInv(s: State, x: nat)
    requires Inv(s) && Wants(s, RecvAnswer(x))
    ensures Inv(Apply(s, RecvAnswer(x)))
  {
    hide Counts;
  }

  lemma RecvFailInv(s: State)
    requires Inv(s) && Wants(s, RecvFail)
    ensures Inv(Apply(s, RecvFail))
  {
    hide Counts;
  }

  lemma DeliverInv(s: State)
    requires Inv(s) && Wants(s, Deliver)
    ensures Inv(Apply(s, Deliver))
  {
    hide Counts;
    CountsDelivered(s.limit, s.inFlight, s.queued, s.consumed, s.call, s.delivered, s.reported, s.told, s.recv.id);
  }

  lemma CloseConnInv(s: State)
    requires Inv(s) && Wants(s, CloseConn)
    ensures Inv(Apply(s, CloseConn))
  {
    hide Counts;
  }

  lemma SnapshotInv(s: State)
    requires Inv(s) && Wants(s, Snapshot)
    ensures Inv(Apply(s, Snapshot))
  {
    hide Counts;
  }

  lemma TellInv(s: State, x: nat)
    requires Inv(s) && Wants(s, Tell(x))
    ensures Inv(Apply(s, Tell(x)))
  {
    hide Counts;
    CountsTold(s.limit, s.inFlight, s.queued, s.consumed, s.call, s.delivered, s.reported, s.told, x);
  }

  lemma StopInv(s: State)
    requires Inv(s) && Wants(s, Stop)
    ensures Inv(Apply(s, Stop))
  {
    hide Counts;
  }

  lemma Step(s: State, a: Action)
    requires Inv(s) && Wants(s, a)
    ensures Inv(Apply(s, a))
  {
    hide Inv, Wants, Apply;
    match a {
      case NewCall(x) => NewCallInv(s, x);
      case Register(x) => RegisterInv(s, x);
      case SendOk(x) => SendOkInv(s, x);
      case SendFail(x) => SendFailInv(s, x);
      case FailDelete(x) => FailDeleteInv(s, x);
      case FailReport(x) => FailReportInv(s, x);
      case Consume(x) => ConsumeInv(s, x);
      case UserClose => UserCloseInv(s);
      case RecvAnswer(x) => RecvAnswerInv(s, x);
      case RecvFail => RecvFailInv(s);
      case Deliver => DeliverInv(s);
      case CloseConn => CloseConnInv(s);
      case Snapshot => SnapshotInv(s);
      case Tell(x) => TellInv(s, x);
      case Stop => StopInv(s);
    }
  }

  lemma {:induction false} RunInv(s: State, acts: seq<Action>, t: State)
    requires Inv(s) && Run(s, acts, t)
    ensures Inv(t)
    decreases acts
  {
    if acts != [] {
      Step(s, acts[0]);
      RunInv(Apply(s, acts[0]), acts[1..], t);
    }
  }

  lemma InitInv()
    ensures Inv(INIT)
  {
  }

  // ---- what follows ----

  /** How many results a request has been sent. */
  function Results(t: State, id: nat): nat {
    (if id in t.delivered then 1 else 0) + (if id in t.reported then 1 else 0) + (if id in t.told then 1 else 0)
  }

  /** Once the receiver has stopped, every request whose dispatch has returned has been sent a result. */
  lemma EveryRequestAnswered(acts: seq<Action>, t: State, id: nat)
    requires Run(INIT, acts, t) && t.recv.Stopped? && id < |t.call|
    requires t.call[id] < |t.disp| ==> t.disp[t.call[id]].Idle?
    ensures Results(t, id) >= 1
  {
    hide Run;
    InitInv();
    RunInv(INIT, acts, t);
    hide Counts, LastOnly, Holding;
    assert Promised(t.disp, t.call, t.inflight, t.recv, t.pending, t.delivered, t.reported, t.told);
  }

  /** No request is ever sent more than two results, and of any one call only one request is sent two. */
  lemma AtMostOneTwice(acts: seq<Action>, t: State, a: nat, b: nat)
    requires Run(INIT, acts, t) && a < |t.call| && b < |t.call| && t.call[a] == t.call[b]
    ensures Results(t, a) <= 2
    ensures Results(t, a) == 2 && Results(t, b) == 2 ==> a == b
  {
    InitInv();
    RunInv(INIT, acts, t);
    TwiceIsLast(t, a, b);
    TwiceIsLast(t, b, a);
  }

  lemma TwiceIsLast(t: State, a: nat, b: nat)
    requires Inv(t) && a < |t.call| && b < |t.call| && t.call[a] == t.call[b]
    ensures Results(t, a) <= 2
    ensures Results(t, a) == 2 && Results(t, b) == 2 ==> b <= a
  {
    hide Counts, Promised, Holding, ReceiverOk;
    if Results(t, a) == 2 && Results(t, b) == 2 {
      assert a in t.told + t.pending && b in t.told + t.pending;
    }
  }

  lemma SubsetSize(a: set<nat>, b: set<nat>)
    requires a <= b
    ensures |a| <= |b|
  {
    assert b == a + (b - a);
  }

  lemma AtMostOne(s: set<nat>)
    requires forall a, b :: a in s && b in s ==> a == b
    ensures |s| <= 1
  {
    if s != {} {
      var a :| a in s;
      assert s == {a};
    }
  }

  /** A call is never sent more than one result beyond its requests. */
  lemma ResultsBound(t: State, c: nat)
    requires Inv(t)
    ensures |t.delivered * Of(t.call, c)| + |t.reported * Of(t.call, c)| + |t.told * Of(t.call, c)| <= |Of(t.call, c)| + 1
  {
    hide Counts, Promised, Holding, ReceiverOk, LastOnly;
    var all := Of(t.call, c);
    var d, r, b := t.delivered * all, t.reported * all, t.told * all;
    forall x, y | x in r * b && y in r * b ensures x == y {
      TwiceIsLast(t, x, y);
      TwiceIsLast(t, y, x);
    }
    AtMostOne(r * b);
    assert |r| + |b| == |r + b| + |r * b|;
    assert d !! (r + b);
    assert |d + (r + b)| == |d| + |r + b|;
    SubsetSize(d + (r + b), all);
  }

  lemma QueueBound(t: State, c: nat)
    requires Shape(t) && Inv(t) && c < |t.limit|
    ensures t.queued[c] <= t.limit[c] + 1
  {
    hide Holding, Apart, ReceiverOk, Promised, LastOnly;
    ResultsBound(t, c);
  }

  /** The channel of a call, of capacity one above its limit, always has room: no sender ever waits on it. */
  lemma NeverBlocks(acts: seq<Action>, t: State, a: Action)
    requires Run(INIT, acts, t) && Shape(t) && Wants(t, a)
    ensures Enabled(t, a)
  {
    InitInv();
    RunInv(INIT, acts, t);
    NeverBlocksInv(t, a);
  }

  lemma PushesOne(t: State, a: Action)
    requires Shape(t) && Wants(t, a)
    ensures Target(t, a) >= 0 ==> Apply(t, a).queued == Push(t.queued, Target(t, a)) && Apply(t, a).limit == t.limit
  {
  }

  lemma NeverBlocksInv(t: State, a: Action)
    requires Shape(t) && Inv(t) && Wants(t, a)
    ensures Enabled(t, a)
  {
    hide Inv;
    var c := Target(t, a);
    if c >= 0 {
      Step(t, a);
      QueueBound(Apply(t, a), c);
      PushesOne(t, a);
    }
  }

  predicate ByReceiver(a: Action) {
    a.CloseConn? || a.Snapshot? || a.Tell? || a.Stop?
  }

  lemma StepBack(s: State, a: Action, rest: seq<Action>, t: State)
    requires Shape(s) && Inv(s) && Wants(s, a) && Run(Apply(s, a), rest, t)
    ensures Run(s, [a] + rest, t)
  {
    hide Inv, Wants, Apply;
    NeverBlocksInv(s, a);
    assert ([a] + rest)[1..] == rest;
  }

  lemma {:induction false} BroadcastCompletes(s: State) returns (acts: seq<Action>, t: State)
    requires Shape(s) && Inv(s) && s.recv.Broadcasting?
    ensures Run(s, acts, t) && t.recv.Stopped? && forall i :: 0 <= i < |acts| ==> ByReceiver(acts[i])
    decreases |s.pending|
  {
    hide Inv, Run, Enabled;
    if s.pending == {} {
      acts, t := [Stop], Apply(s, Stop);
      EmptyRun(t);
      StepBack(s, Stop, [], t);
      assert [Stop] + [] == [Stop];
    } else {
      var id :| id in s.pending;
      Step(s, Tell(id));
      var rest;
      rest, t := BroadcastCompletes(Apply(s, Tell(id)));
      StepBack(s, Tell(id), rest, t);
      acts := [Tell(id)] + rest;
    }
  }

  lemma EmptyRun(s: State)
    requires Shape(s)
    ensures Run(s, [], s)
  {
  }

  /** Whatever the calls do, a receiver whose connection broke gets through its broadcast by its own steps alone. */
  lemma BrokenReceiverStops(acts: seq<Action>, t: State) returns (more: seq<Action>, u: State)
    requires Run(INIT, acts, t) && Shape(t) && t.recv.Failed?
    ensures Run(t, more, u) && u.recv.Stopped? && forall i :: 0 <= i < |more| ==> ByReceiver(more[i])
  {
    hide Inv, Run, Enabled;
    InitInv();
    RunInv(INIT, acts, t);
    Step(t, CloseConn);
    var t1 := Apply(t, CloseConn);
    Step(t1, Snapshot);
    var rest;
    rest, u := BroadcastCompletes(Apply(t1, Snapshot));
    StepBack(t1, Snapshot, rest, u);
    StepBack(t, CloseConn, [Snapshot] + rest, u);
    more := [CloseConn] + ([Snapshot] + rest);
  }

  // ---- what has happened, told from the actions ----

  /** Something that can happen to a request or to the connection. */
  datatype Event =
    | Written(id: nat)      // its send succeeded
    | SendBroke(id: nat)    // its send failed
    | Answered(id: nat)     // an answer to it came while it was outstanding
    | Listed(id: nat)       // the broadcast found it outstanding
    | Broken                // receiving failed, or an answer came to something not outstanding
    | Closed                // either side closed the connection

  predicate Now(s: State, a: Action, e: Event)
    requires Shape(s)
  {
    match e
    case Written(id) => a.SendOk? && a.c < |s.disp| && s.disp[a.c] == Registered(id)
    case SendBroke(id) => a.SendFail? && a.c < |s.disp| && s.disp[a.c] == Registered(id)
    case Answered(id) => a == RecvAnswer(id) && id in s.inflight
    case Listed(id) => a.Snapshot? && id in s.inflight
    case Broken => a.RecvFail? || (a.RecvAnswer? && a.id !in s.inflight)
    case Closed => a.UserClose? || a.CloseConn?
  }

  predicate Ever(s: State, acts: seq<Action>, e: Event)
    requires Shape(s)
    decreases acts
  {
    acts != [] && Wants(s, acts[0]) && (Now(s, acts[0], e) || Ever(Apply(s, acts[0]), acts[1..], e))
  }

  /** How the state shows it. */
  predicate Shows(t: State, e: Event) {
    match e
    case Written(id) => id in t.written
    case SendBroke(id) =>
      || id in t.reported
      || (id < |t.call| && t.call[id] < |t.disp|
          && (t.disp[t.call[id]] == SendFailed(id) || t.disp[t.call[id]] == Deleted(id)))
    case Answered(id) => id in t.delivered || t.recv == Delivering(id)
    case Listed(id) => id in t.told || id in t.pending
    case Broken => t.recv.Failed? || t.recv.Closing? || t.recv.Broadcasting? || t.recv.Stopped?
    case Closed => t.connClosed
  }

  lemma ShowsStep(s: State, a: Action, e: Event)
    requires Shape(s) && Inv(s) && Wants(s, a)
    ensures Shows(Apply(s, a), e) <==> Shows(s, e) || Now(s, a, e)
  {
    hide Promised, LastOnly, Counts;
    if e.SendBroke? {
      BrokeStep(s, a, e.id);
    }
  }

  lemma BrokeStep(s: State, a: Action, id: nat)
    requires Shape(s) && Inv(s) && Wants(s, a)
    ensures Shows(Apply(s, a), SendBroke(id)) <==> Shows(s, SendBroke(id)) || Now(s, a, SendBroke(id))
  {
    hide Promised, LastOnly, Counts;
    if a.SendFail? && s.disp[a.c] == Registered(id) {
      assert s.call[id] == a.c;
    }
  }

  lemma {:induction false} ShowsRun(s: State, acts: seq<Action>, t: State, e: Event)
    requires Shape(s) && Inv(s) && Run(s, acts, t)
    ensures Shows(t, e) <==> Shows(s, e) || Ever(s, acts, e)
    decreases acts
  {
    if acts != [] {
      hide Inv, Wants, Apply, Shows, Now;
      ShowsStep(s, acts[0], e);
      Step(s, acts[0]);
      ShowsRun(Apply(s, acts[0]), acts[1..], t, e);
    }
  }

  /**
   * The state shows exactly what has happened: a request has been delivered, or is about to be, if and only if its
   * answer came while it was outstanding; it is told of the disconnect if and only if the broadcast found it
   * outstanding; and the receiver gives up if and only if receiving failed or an answer came that nobody waits for.
   */
  lemma Recorded(acts: seq<Action>, t: State, e: Event)
    requires Run(INIT, acts, t)
    ensures Shows(t, e) <==> Ever(INIT, acts, e)
  {
    InitInv();
    ShowsRun(INIT, acts, t, e);
  }

  /** The limits of the calls made, the calls of the requests made, and how many results a call has taken. */
  function Limits(acts: seq<Action>): seq<nat> {
    if acts == [] then []
    else Limits(acts[..|acts| - 1]) + (var a := acts[|acts| - 1]; if a.NewCall? then [a.limit] else [])
  }

  function Calls(acts: seq<Action>): seq<nat> {
    if acts == [] then []
    else Calls(acts[..|acts| - 1]) + (var a := acts[|acts| - 1]; if a.Register? then [a.c] else [])
  }

  function Taken(acts: seq<Action>, c: nat): nat {
    if acts == [] then 0 else Taken(acts[..|acts| - 1], c) + (if acts[|acts| - 1] == Consume(c) then 1 else 0)
  }

  lemma TallyStep(s: State, a: Action, c: nat)
    requires Shape(s) && Wants(s, a)
    ensures var t := Apply(s, a);
      && t.limit == s.limit + (if a.NewCall? then [a.limit] else [])
      && t.call == s.call + (if a.Register? then [a.c] else [])
      && (c < |s.consumed| ==> t.consumed[c] == s.consumed[c] + (if a == Consume(c) then 1 else 0))
      && (|s.consumed| <= c < |t.consumed| ==> t.consumed[c] == 0) && (c >= |s.consumed| ==> a != Consume(c))
  {
  }

  lemma TallyNext(before: seq<Action>, a: Action, c: nat)
    ensures Limits(before + [a]) == Limits(before) + (if a.NewCall? then [a.limit] else [])
    ensures Calls(before + [a]) == Calls(before) + (if a.Register? then [a.c] else [])
    ensures Taken(before + [a], c) == Taken(before, c) + (if a == Consume(c) then 1 else 0)
  {
    assert (before + [a])[..|before|] == before;
  }

  lemma {:induction false} TallyRun(s: State, acts: seq<Action>, t: State, before: seq<Action>, c: nat)
    requires Shape(s) && Run(s, acts, t) && s.limit == Limits(before) && s.call == Calls(before)
    requires if c < |s.consumed| then s.consumed[c] == Taken(before, c) else Taken(before, c) == 0
    ensures Shape(t) && t.limit == Limits(before + acts) && t.call == Calls(before + acts)
    ensures if c < |t.consumed| then t.consumed[c] == Taken(before + acts, c) else Taken(before + acts, c) == 0
    decreases acts
  {
    if acts == [] {
      assert before + acts == before;
    } else {
      hide Wants, Apply, Limits, Calls, Taken;
      TallyStep(s, acts[0], c);
      var sofar := before + [acts[0]];
      TallyNext(before, acts[0], c);
      TallyRun(Apply(s, acts[0]), acts[1..], t, sofar, c);
      assert sofar + acts[1..] == before + acts;
    }
  }

  /** Calls, requests and results taken are those of the actions, in their order. */
  lemma Tallied(acts: seq<Action>, t: State, c: nat)
    requires Run(INIT, acts, t)
    ensures Shape(t) && t.limit == Limits(acts) && t.call == Calls(acts)
    ensures if c < |t.consumed| then t.consumed[c] == Taken(acts, c) else Taken(acts, c) == 0
  {
    assert [] + acts == acts;
    TallyRun(INIT, acts, t, [], c);
  }

  /** What the connection does for one request when nothing fails. */
  function Exchange(c: nat, id: nat): seq<Action> {
    [Register(c), SendOk(c), RecvAnswer(id), Deliver, Consume(c)]
  }

  /** While receiving works, a call with room can make a request, have it answered and take the result, and all is as before. */
  lemma RequestIsServed(acts: seq<Action>, s: State, c: nat) returns (t: State)
    requires Run(INIT, acts, s) && Shape(s) && s.recv.Receiving? && !s.connClosed
    requires c < |s.disp| && s.disp[c].Idle? && s.inFlight[c] < s.limit[c]
    ensures Run(s, Exchange(c, |s.call|), t) && t.call == s.call + [c] && t.delivered == s.delivered + {|s.call|}
    ensures t.recv.Receiving? && t.inflight == s.inflight && t.queued == s.queued && t.inFlight == s.inFlight
  {
    hide Run, Inv;
    InitInv();
    RunInv(INIT, acts, s);
    var id := |s.call|;
    IdIsNew(s);
    var s1 := Apply(s, Register(c));
    Step(s, Register(c));
    var s2 := Apply(s1, SendOk(c));
    Step(s1, SendOk(c));
    var s3 := Apply(s2, RecvAnswer(id));
    Step(s2, RecvAnswer(id));
    var s4 := Apply(s3, Deliver);
    Step(s3, Deliver);
    t := Apply(s4, Consume(c));
    Step(s4, Consume(c));
    EmptyRun(t);
    StepBack(s4, Consume(c), [], t);
    StepBack(s3, Deliver, [Consume(c)] + [], t);
    StepBack(s2, RecvAnswer(id), [Deliver] + ([Consume(c)] + []), t);
    StepBack(s1, SendOk(c), [RecvAnswer(id)] + ([Deliver] + ([Consume(c)] + [])), t);
    StepBack(s, Register(c), [SendOk(c)] + ([RecvAnswer(id)] + ([Deliver] + ([Consume(c)] + []))), t);
    assert [Register(c)] + ([SendOk(c)] + ([RecvAnswer(id)] + ([Deliver] + ([Consume(c)] + [])))) == Exchange(c, id);
  }

  lemma IdIsNew(s: State)
    requires Shape(s) && Inv(s)
    ensures |s.call| !in s.inflight && |s.call| !in s.written
  {
    hide Holding, ReceiverOk, Promised, LastOnly, Counts;
  }

  /** An answer to an outstanding request reaches the call that made it, and the receiver goes on. */
  lemma AnswerArrives(acts: seq<Action>, s: State, id: nat) returns (t: State)
    requires Run(INIT, acts, s) && Shape(s) && s.recv.Receiving? && id in s.inflight && id in s.written
    ensures Run(s, [RecvAnswer(id), Deliver], t) && id in t.delivered && t.recv.Receiving?
    ensures id < |s.call| && t.queued == Push(s.queued, s.call[id]) && t.inflight == s.inflight - {id}
  {
    hide Run, Inv;
    InitInv();
    RunInv(INIT, acts, s);
    var s1 := Apply(s, RecvAnswer(id));
    Step(s, RecvAnswer(id));
    t := Apply(s1, Deliver);
    Step(s1, Deliver);
    EmptyRun(t);
    StepBack(s1, Deliver, [], t);
    StepBack(s, RecvAnswer(id), [Deliver] + [], t);
    assert [RecvAnswer(id)] + ([Deliver] + []) == [RecvAnswer(id), Deliver];
    IdIsKnown(s, id);
  }

  lemma IdIsKnown(s: State, id: nat)
    requires Shape(s) && Inv(s) && id in s.inflight
    ensures id < |s.call|
  {
    hide Holding, ReceiverOk, Promised, LastOnly, Counts;
  }
}
