/**
 * The acknowledgement window of `block_write_stream.go`: one goroutine queues
 * each packet and then writes it, another takes packets off the queue and reads
 * their acks; after a failure it only empties the queue. One action is one step
 * of one of the two; the acks are whatever the datanodes send.
 */
module AckPipeline {
  /** Capacity of the packet queue. */
  const MAX_PACKETS_IN_QUEUE := 5
  const HEARTBEAT := -1

  datatype Ack = Ack(seqno: int, statuses: seq<bool>) {
    predicate Success() {
      forall i :: 0 <= i < |statuses| ==> statuses[i]
    }
  }

  datatype Writer = Idle | Writing | Returned(ok: bool)

  datatype Acker = Popping | Awaiting(seqno: nat) | Draining | Done

  datatype State = State(
    writer: Writer,
    finishing: bool,        // inside the first call of `finish`
    lastQueued: bool,       // the empty last packet is queued
    closed: bool,           // the queue is closed
    queued: nat,            // packets queued so far: those numbered 1..queued
    handed: nat,            // packets whose write was attempted: 1..handed
    queue: seq<nat>,
    acker: Acker,
    acked: nat,             // packets acknowledged
    failed: bool,           // `ackError` is set
    log: seq<Ack>)          // every ack read

  datatype Action =
    | Queue | QueueLast | WriteOk | WriteFail | StartFinish | CloseQueue | Return
    | Pop | PopClosed | ReadAck(ack: Ack) | ReadError | Drain | DrainEnd

  const INIT := State(Idle, false, false, false, 0, 0, [], Popping, 0, false, [])

  predicate ByWriter(a: Action) {
    a.Queue? || a.QueueLast? || a.WriteOk? || a.WriteFail? || a.StartFinish? || a.CloseQueue? || a.Return?
  }

  predicate Enabled(s: State, a: Action) {
    match a
    case Queue => s.writer.Idle? && !s.lastQueued && |s.queue| < MAX_PACKETS_IN_QUEUE
    case QueueLast => s.writer.Idle? && s.finishing && !s.lastQueued && |s.queue| < MAX_PACKETS_IN_QUEUE
    case WriteOk => s.writer.Writing?
    case WriteFail => s.writer.Writing?
    case StartFinish => s.writer.Idle? && !s.finishing
    case CloseQueue => s.writer.Idle? && s.lastQueued && !s.closed
    case Return => s.writer.Idle? && s.closed && s.acker.Done?
    case Pop => s.acker.Popping? && s.queue != []
    case PopClosed => s.acker.Popping? && s.queue == [] && s.closed
    case ReadAck(_) => s.acker.Awaiting?
    case ReadError => s.acker.Awaiting?
    case Drain => s.acker.Draining? && s.queue != []
    case DrainEnd => s.acker.Draining? && s.queue == [] && s.closed
  }

  function Apply(s: State, a: Action): State
    requires Enabled(s, a)
  {
    match a
    case Queue => s.(writer := Writing, queued := s.queued + 1, queue := s.queue + [s.queued + 1])
    case QueueLast => s.(writer := Writing, queued := s.queued + 1, queue := s.queue + [s.queued + 1], lastQueued := true)
    case WriteOk => s.(writer := Idle, handed := s.handed + 1)
    case WriteFail => s.(writer := if s.finishing then Returned(false) else Idle, handed := s.handed + 1)
    case StartFinish => s.(finishing := true)
    case CloseQueue => s.(closed := true)
    case Return => s.(writer := Returned(!s.failed))
    case Pop => s.(queue := s.queue[1..], acker := Awaiting(s.queue[0]))
    case PopClosed => s.(acker := Done)
    case ReadAck(ack) =>
      var t := s.(log := s.log + [ack]);
      if !ack.Success() then t.(acker := Draining, failed := true)
      else if ack.seqno == HEARTBEAT then t
      else if ack.seqno != s.acker.seqno then t.(acker := Draining, failed := true)
      else t.(acker := Popping, acked := s.acked + 1)
    case ReadError => s.(acker := Draining, failed := true)
    case Drain => s.(queue := s.queue[1..])
    case DrainEnd => s.(acker := Done)
  }

  predicate Run(s: State, acts: seq<Action>, t: State)
    decreases acts
  {
    if acts == [] then s == t else Enabled(s, acts[0]) && Run(Apply(s, acts[0]), acts[1..], t)
  }

  /** The acks that are not heartbeats. */
  function Acks(log: seq<Ack>): seq<int> {
    if log == [] then []
    else Acks(log[..|log| - 1]) + (if log[|log| - 1].seqno == HEARTBEAT then [] else [log[|log| - 1].seqno])
  }

  ghost predicate Counting(s: seq<int>, n: nat) {
    |s| == n && forall i :: 0 <= i < n ==> s[i] == i + 1
  }

  ghost predicate AllSuccess(log: seq<Ack>) {
    forall i :: 0 <= i < |log| ==> log[i].Success()
  }

  /** The queue holds the latest packets, in order. */
  ghost predicate Tail(queue: seq<nat>, queued: nat) {
    |queue| <= queued && |queue| <= MAX_PACKETS_IN_QUEUE && forall i :: 0 <= i < |queue| ==> queue[i] == queued - |queue| + i + 1
  }

  ghost predicate Inv(s: State) {
    && Tail(s.queue, s.queued)
    && s.handed == (if s.writer.Writing? then s.queued - 1 else s.queued)
    && (s.lastQueued ==> s.finishing) && (s.closed ==> s.lastQueued)
    && (s.acker.Popping? ==> !s.failed && s.acked + |s.queue| == s.queued)
    && (s.acker.Awaiting? ==> !s.failed && s.acked + 1 + |s.queue| == s.queued && s.acker.seqno == s.acked + 1)
    && (s.acker.Draining? ==> s.failed)
    && (s.acker.Done? ==> s.closed && s.queue == [] && (s.failed || s.acked == s.queued))
    && (!s.failed ==> AllSuccess(s.log) && Counting(Acks(s.log), s.acked))
    && (s.writer == Returned(true) ==> s.acker.Done? && !s.failed && s.lastQueued)
  }

  lemma AcksAppend(log: seq<Ack>, a: Ack)
    ensures Acks(log + [a]) == Acks(log) + (if a.seqno == HEARTBEAT then [] else [a.seqno])
  {
    assert (log + [a])[..|log|] == log;
  }

  lemma Step(s: State, a: Action)
    requires Inv(s) && Enabled(s, a)
    ensures Inv(Apply(s, a))
  {
    hide Counting, AllSuccess, Acks;
    if a.ReadAck? {
      StepAck(s, a.ack);
    }
  }

  lemma LogGrows(log: seq<Ack>, ack: Ack, acked: nat, acked': nat)
    requires AllSuccess(log) && Counting(Acks(log), acked) && ack.Success()
    requires if ack.seqno == HEARTBEAT then acked' == acked else ack.seqno == acked' == acked + 1
    ensures AllSuccess(log + [ack]) && Counting(Acks(log + [ack]), acked')
  {
    AcksAppend(log, ack);
  }

  lemma StepAck(s: State, ack: Ack)
    requires Inv(s) && Enabled(s, ReadAck(ack))
    ensures Inv(Apply(s, ReadAck(ack)))
  {
    hide Tail, AllSuccess, Counting, Acks, Ack.Success;
    var t := Apply(s, ReadAck(ack));
    if !t.failed {
      LogGrows(s.log, ack, s.acked, t.acked);
    }
  }

  lemma {:induction false} RunInv(s: State, acts: seq<Action>, t: State)
    requires Inv(s) && Run(s, acts, t)
    ensures Inv(t)
    decreases acts
  {
    if acts != [] {
      Step(s, acts[0]);
      RunInv(Apply(s, acts[0]), acts[1..], t);
    }
  }

  /**
   * The first call of `finish` returns nil only when every packet, the empty last one included, has been
   * acknowledged in order, all statuses being SUCCESS, whatever heartbeats came in between.
   */
  lemma NilMeansAcknowledged(acts: seq<Action>, t: State)
    requires Run(INIT, acts, t) && t.writer == Returned(true)
    ensures t.lastQueued && AllSuccess(t.log) && Counting(Acks(t.log), t.queued)
  {
    RunInv(INIT, acts, t);
  }

  /** Until an ack fails, at most six packets are written and not acknowledged. */
  lemma WindowIsBounded(acts: seq<Action>, t: State)
    requires Run(INIT, acts, t) && !t.failed
    ensures t.acked <= t.queued && t.handed - t.acked <= MAX_PACKETS_IN_QUEUE + 1
  {
    RunInv(INIT, acts, t);
  }

  predicate WriterWaits(t: State) {
    t.writer.Idle? && ((!t.lastQueued && |t.queue| == MAX_PACKETS_IN_QUEUE) || (t.closed && !t.acker.Done?))
  }

  /**
   * The two goroutines never wait for each other. When the writer waits for room in the queue or for the acks
   * to be done, the ack loop can move, or else it waits for the ack of a packet whose write was attempted.
   */
  lemma WriterWaitsForAcks(acts: seq<Action>, t: State)
    requires Run(INIT, acts, t) && WriterWaits(t)
    ensures (t.acker.Awaiting? && t.acker.seqno <= t.handed) || exists a :: !ByWriter(a) && Enabled(t, a)
  {
    RunInv(INIT, acts, t);
    if t.acker.Popping? {
      var a := if t.queue != [] then Pop else PopClosed;
      assert !ByWriter(a) && Enabled(t, a);
    } else if t.acker.Draining? {
      var a := if t.queue != [] then Drain else DrainEnd;
      assert !ByWriter(a) && Enabled(t, a);
    }
  }

  /** When the ack loop waits for a packet, nothing holds the writer up. */
  lemma AckerWaitsForPackets(acts: seq<Action>, t: State)
    requires Run(INIT, acts, t) && (t.acker.Popping? || t.acker.Draining?) && t.queue == [] && !t.closed
    ensures !WriterWaits(t) && (!t.writer.Returned? ==> exists a :: ByWriter(a) && Enabled(t, a))
  {
    RunInv(INIT, acts, t);
    if t.writer.Writing? {
      assert ByWriter(WriteOk) && Enabled(t, WriteOk);
    } else if t.writer.Idle? {
      var a := if t.lastQueued then CloseQueue else Queue;
      assert ByWriter(a) && Enabled(t, a);
    }
  }

  /** After a failure the ack loop never makes the writer wait for the network. */
  lemma FailureDrains(acts: seq<Action>, t: State)
    requires Run(INIT, acts, t) && t.failed && WriterWaits(t)
    ensures Enabled(t, Drain) || Enabled(t, DrainEnd)
  {
    RunInv(INIT, acts, t);
  }

  // ---- told from the actions ----

  /** The acks read, in order. */
  function AcksRead(acts: seq<Action>): seq<Ack> {
    if acts == [] then [] else (if acts[0].ReadAck? then [acts[0].ack] else []) + AcksRead(acts[1..])
  }

  /** A packet's write failed after `finish` was called. */
  predicate FinishFails(acts: seq<Action>, finishing: bool)
    decreases acts
  {
    acts != [] && ((finishing && acts[0].WriteFail?) || FinishFails(acts[1..], finishing || acts[0].StartFinish?))
  }

  /** Every status is SUCCESS, and but for heartbeats the packets are acknowledged one after the other. */
  ghost predicate InOrder(log: seq<Ack>) {
    AllSuccess(log) && Counting(Acks(log), |Acks(log)|)
  }

  /** What the ack loop and the writer have come to, told from the acks and the failures. */
  ghost predicate Explained(s: State, broke: bool, wrote: bool) {
    && (s.failed <==> broke || !InOrder(s.log))
    && (wrote ==> s.writer == Returned(false))
    && (s.writer.Returned? && !wrote ==> s.acker.Done? && (s.writer.ok <==> !s.failed))
  }

  lemma OutOfOrder(log: seq<Ack>, ack: Ack, acked: nat)
    requires Counting(Acks(log), acked) && (!ack.Success() || (ack.seqno != HEARTBEAT && ack.seqno != acked + 1))
    ensures !InOrder(log + [ack])
  {
    AcksAppend(log, ack);
    assert (log + [ack])[|log|] == ack;
    if ack.Success() {
      var all := Acks(log + [ack]);
      assert all[|all| - 1] == ack.seqno && |all| == acked + 1;
    }
  }

  lemma ExplainedStep(s: State, a: Action, broke: bool, wrote: bool)
    requires Inv(s) && Enabled(s, a) && Explained(s, broke, wrote)
    ensures Explained(Apply(s, a), broke || a.ReadError?, wrote || (s.finishing && a.WriteFail?))
  {
    hide InOrder, AllSuccess, Counting, Acks, Tail, Ack.Success;
    if a.ReadAck? {
      StepAck(s, a.ack);
      var t := Apply(s, a);
      if t.failed {
        OutOfOrder(s.log, a.ack, s.acked);
      } else {
        NowInOrder(t.log, t.acked);
      }
    }
  }

  lemma NowInOrder(log: seq<Ack>, acked: nat)
    requires AllSuccess(log) && Counting(Acks(log), acked)
    ensures InOrder(log)
  {
  }

  predicate AnyReadError(acts: seq<Action>) {
    acts != [] && (acts[0].ReadError? || AnyReadError(acts[1..]))
  }

  lemma {:induction false} ExplainedRun(s: State, acts: seq<Action>, t: State, broke: bool, wrote: bool)
    requires Inv(s) && Run(s, acts, t) && Explained(s, broke, wrote)
    ensures Explained(t, broke || AnyReadError(acts), wrote || FinishFails(acts, s.finishing))
    ensures t.log == s.log + AcksRead(acts)
    decreases acts
  {
    if acts != [] {
      hide Inv, Explained;
      var a, u := acts[0], Apply(s, acts[0]);
      Step(s, a);
      ExplainedStep(s, a, broke, wrote);
      Trace(s, a);
      ExplainedRun(u, acts[1..], t, broke || a.ReadError?, wrote || (s.finishing && a.WriteFail?));
    }
  }

  lemma Trace(s: State, a: Action)
    requires Enabled(s, a)
    ensures Apply(s, a).log == s.log + (if a.ReadAck? then [a.ack] else [])
    ensures Apply(s, a).finishing == (s.finishing || a.StartFinish?)
  {
  }

  lemma InitExplained()
    ensures Inv(INIT) && Explained(INIT, false, false)
  {
  }

  /** The ack loop fails if and only if an ack could not be read, reported a failure, or was not the next one's. */
  lemma FailedIff(acts: seq<Action>, t: State)
    requires Run(INIT, acts, t)
    ensures t.log == AcksRead(acts)
    ensures t.failed <==> AnyReadError(acts) || !InOrder(AcksRead(acts))
  {
    InitExplained();
    ExplainedRun(INIT, acts, t, false, false);
    assert [] + AcksRead(acts) == AcksRead(acts);
  }

  /**
   * And `finish`, once it returns, returns nil if and only if none of its writes failed, every ack could be read, none
   * reported a failure, and they came for one packet after the other, heartbeats anywhere.
   */
  lemma FinishReturnsNilIff(acts: seq<Action>, t: State)
    requires Run(INIT, acts, t) && t.writer.Returned?
    ensures t.writer.ok <==> !FinishFails(acts, false) && !AnyReadError(acts) && InOrder(AcksRead(acts))
  {
    InitExplained();
    ExplainedRun(INIT, acts, t, false, false);
    assert [] + AcksRead(acts) == AcksRead(acts);
  }

  /** Acks with every status SUCCESS for the packets after the first `acked`, heartbeats before any of them. */
  predicate Orderly(log: seq<Ack>, acked: nat) {
    log != [] ==>
      && log[0].Success()
      && if log[0].seqno == HEARTBEAT then log[1..] != [] && Orderly(log[1..], acked)
         else log[0].seqno == acked + 1 && Orderly(log[1..], acked + 1)
  }

  function Packets(log: seq<Ack>): nat {
    if log == [] then 0 else (if log[0].seqno == HEARTBEAT then 0 else 1) + Packets(log[1..])
  }

  predicate Serving(s: State, rest: seq<Ack>) {
    && s.writer.Idle? && s.queue == [] && !s.closed && !s.failed && s.finishing == s.lastQueued
    && (s.acker.Popping? || (s.acker.Awaiting? && s.acker.seqno == s.acked + 1 && rest != []))
    && (s.acker.Popping? ==> (s.lastQueued <==> rest == []))
    && (s.acker.Awaiting? ==> (s.lastQueued <==> Packets(rest) == 1))
    && s.queued == s.acked + (if s.acker.Awaiting? then 1 else 0)
    && Orderly(rest, s.acked)
  }

  lemma {:induction false} Serves(s: State, rest: seq<Ack>) returns (acts: seq<Action>, t: State)
    requires Serving(s, rest)
    ensures Run(s, acts, t) && t.writer == Returned(true) && t.log == s.log + rest
    ensures t.queued == s.acked + Packets(rest)
    decreases |rest|, if s.acker.Popping? then 1 else 0
  {
    if rest == [] {
      acts := [CloseQueue, PopClosed, Return];
      var s1 := Apply(s, CloseQueue);
      var s2 := Apply(s1, PopClosed);
      t := Apply(s2, Return);
      assert acts[1..] == [PopClosed, Return] && acts[1..][1..] == [Return] && [Return][1..] == [];
      assert Run(s2, [Return], t);
      assert Run(s1, [PopClosed, Return], t);
    } else if s.acker.Popping? {
      var s1, first := SendOne(s, Packets(rest) == 1);
      PacketsLeft(rest, s.acked);
      var more;
      more, t := Serves(s1, rest);
      acts := first + more;
      RunOn(s, first, s1, more, t);
    } else {
      var s1 := Apply(s, ReadAck(rest[0]));
      PacketsLeft(rest[1..], s1.acked);
      var more;
      more, t := Serves(s1, rest[1..]);
      acts := [ReadAck(rest[0])] + more;
      assert acts[1..] == more;
      assert s.log + rest == s1.log + rest[1..];
    }
  }

  lemma PacketsLeft(log: seq<Ack>, acked: nat)
    requires Orderly(log, acked)
    ensures Packets(log) == 0 <==> log == []
  {
    if log != [] && log[0].seqno == HEARTBEAT {
      PacketsLeft(log[1..], acked);
    }
  }

  /** One more packet, the last one or not, is queued, written and taken up by the ack loop. */
  lemma SendOne(s: State, last: bool) returns (t: State, acts: seq<Action>)
    requires s.writer.Idle? && s.queue == [] && s.acker.Popping? && !s.lastQueued && !s.finishing
    ensures Run(s, acts, t)
    ensures
      t == s.(finishing := last, lastQueued := last, queued := s.queued + 1, handed := s.handed + 1,
              acker := Awaiting(s.queued + 1))
  {
    var s0 := if last then s.(finishing := true) else s;
    var q := if last then QueueLast else Queue;
    var s1 := Apply(s0, q);
    var s2 := Apply(s1, WriteOk);
    t := Apply(s2, Pop);
    assert Run(t, [], t);
    assert [Pop][1..] == [] && [WriteOk, Pop][1..] == [Pop] && [q, WriteOk, Pop][1..] == [WriteOk, Pop];
    assert Run(s2, [Pop], t);
    assert Run(s1, [WriteOk, Pop], t);
    assert Run(s0, [q, WriteOk, Pop], t);
    acts := [q, WriteOk, Pop];
    if last {
      acts := [StartFinish] + [q, WriteOk, Pop];
      assert acts[1..] == [q, WriteOk, Pop];
    }
  }

  lemma {:induction false} RunOn(s: State, first: seq<Action>, t: State, more: seq<Action>, u: State)
    requires Run(s, first, t) && Run(t, more, u)
    ensures Run(s, first + more, u)
    decreases first
  {
    if first == [] {
      assert first + more == more;
    } else {
      assert (first + more)[1..] == first[1..] + more;
      RunOn(Apply(s, first[0]), first[1..], t, more, u);
    }
  }

  /** For every orderly sequence of acks there is such a `finish`: a block of as many packets, all of it acknowledged. */
  lemma NilIsReached(log: seq<Ack>) returns (acts: seq<Action>, t: State)
    requires log != [] && Orderly(log, 0)
    ensures Run(INIT, acts, t) && t.writer == Returned(true) && t.log == log && t.queued == Packets(log)
  {
    PacketsLeft(log, 0);
    acts, t := Serves(INIT, log);
    assert [] + log == log;
  }
}
