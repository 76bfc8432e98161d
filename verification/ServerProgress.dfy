/**
 * Progress of the request pipeline: each step of the server's own goroutines,
 * but for a worker taking one more page, brings the requests nearer to their
 * responses, so that before shutdown every schedule answers all of them.
 */
module ServerProgress {
  import opened PacketOrder
  import opened ServerPipeline

  /** A step of the server's own that it cannot take for ever. */
  predicate Steady(a: Action) {
    Internal(a) && !a.WorkPage?
  }

  /** Such a step that does not belong to the shutdown. */
  predicate Productive(a: Action) {
    Steady(a) && !a.DispQuit? && !a.DispEnd? && !a.CtlStop?
  }

  // ---- the measure ----

  function RecvWeight(r: Receiver): nat {
    if r.Holding? then 17 else 0
  }

  function DispWeight(d: Dispatcher): nat {
    match d
    case Idle => 2
    case Taken(_) => 17
    case Counted(_) => 16
    case Announced(_) => 11
    case Draining => 1
    case Ended => 0
  }

  function WorkerWeight(k: Worker): nat {
    match k
    case Free => 0
    case Busy(_) => 7
    case Ready(_) => 6
    case Handed(_) => 1
  }

  function CtlWeight(c: Controller): nat {
    match c
    case Selecting => 1
    case Flushing => 3
    case Written => 2
    case Stopped => 0
  }

  function WorkersWeight(workers: seq<Worker>): nat {
    if workers == [] then 0 else WorkerWeight(workers[0]) + WorkersWeight(workers[1..])
  }

  lemma {:induction false} WorkersUpdate(workers: seq<Worker>, w: nat, k: Worker)
    requires w < |workers|
    ensures WorkersWeight(workers[w := k]) + WorkerWeight(workers[w]) == WorkersWeight(workers) + WorkerWeight(k)
    decreases |workers|
  {
    if w > 0 {
      WorkersUpdate(workers[1..], w - 1, k);
      assert workers[w := k][1..] == workers[1..][w - 1 := k];
    } else {
      assert workers[w := k][1..] == workers[1..];
    }
  }

  /** How many steps the server can still take on its own, at most. */
  function Measure(s: State): nat {
    RecvWeight(s.recv) + 16 * |s.pktChan| + DispWeight(s.disp) + 4 * |s.requests| + 8 * |s.rwChan|
    + WorkersWeight(s.workers) + 4 * |s.responses| + CtlWeight(s.ctl) + |s.incoming| + |s.outgoing|
  }

  lemma {:induction false} SortLength(s: seq<Item>)
    ensures |Sort(s)| == |s|
    decreases |s|
  {
    if s != [] {
      SortLength(s[..|s| - 1]);
      InsertContents(Sort(s[..|s| - 1]), s[|s| - 1]);
    }
  }

  /** Every step of the server's own, but for a worker's further page, is one step fewer to take. */
  lemma MeasureFalls(s: State, a: Action)
    requires |s.workers| == WORKERS + 1 && Enabled(s, a) && Steady(a)
    ensures Measure(Apply(s, a)) < Measure(s)
  {
    hide WorkersWeight, Sort;
    match a {
      case DispCmd => WorkersUpdate(s.workers, WORKERS, Busy(s.disp.p));
      case WorkTake(w) => WorkersUpdate(s.workers, w, Busy(s.rwChan[0]));
      case WorkDone(w) => WorkersUpdate(s.workers, w, Ready(s.workers[w].p));
      case WorkReply(w) => WorkersUpdate(s.workers, w, Handed(s.workers[w].p));
      case WorkFree(w) => WorkersUpdate(s.workers, w, Free);
      case CtlRequest => SortLength(s.incoming + [s.requests[0]]);
      case CtlResponse => SortLength(s.outgoing + [s.responses[0]]);
      case _ =>
    }
  }

  // ---- before shutdown ----

  /** The dispatcher stops taking requests only when there will be none. */
  predicate Shut(s: State) {
    s.disp.Draining? || s.disp.Ended? ==> s.recv.Quit? && s.pktChan == []
  }

  lemma StepShut(s: State, a: Action)
    requires |s.workers| == WORKERS + 1 && Shut(s) && Enabled(s, a)
    ensures Shut(Apply(s, a))
  {
  }

  lemma {:induction false} RunShut(s: State, acts: seq<Action>, t: State)
    requires |s.workers| == WORKERS + 1 && Shut(s) && Run(s, acts, t)
    ensures Shut(t) && |t.workers| == WORKERS + 1
    decreases acts
  {
    if acts != [] {
      hide Apply, Enabled, Shut;
      StepShut(s, acts[0]);
      RunShut(Apply(s, acts[0]), acts[1..], t);
    }
  }

  lemma FrontProduces(t: State) returns (a: Action)
    requires Inv(t) && Shut(t) && Drained(t) && t.working == 0 && t.dispatched < |t.received| && !t.disp.Ended?
    ensures Productive(a) && Enabled(t, a)
  {
    hide Numbered, QueuedFrom, Contiguous, SentInOrder, Holds, WorkersHold, Counts, BusyReason, ClosesWait, HeadsOk,
         PagesKept, Ascending;
    assert t.received[t.dispatched..] == DispHead(t.disp) + t.pktChan + RecvTail(t.recv);
    if t.disp.Taken? {
      a := DispCount;
    } else if t.pktChan != [] {
      a := DispTake;
    } else {
      a := RecvPush;
    }
  }

  /** While a request is unanswered and the server is not shut down, some step leads on. */
  lemma SomethingProduces(t: State) returns (a: Action)
    requires |t.workers| == WORKERS + 1 && Inv(t) && Shut(t)
    requires |t.sent| < |t.received| && !t.disp.Ended? && !t.ctl.Stopped?
    ensures Productive(a) && Enabled(t, a)
  {
    hide Inv, Shut;
    if !t.ctl.Selecting? || t.requests != [] || t.responses != [] {
      a := ControllerMoves(t);
    } else if w :| 0 <= w <= WORKERS && !t.workers[w].Free? {
      var k := t.workers[w];
      a := if k.Busy? then WorkDone(w) else if k.Ready? then WorkReply(w) else WorkFree(w);
    } else if t.rwChan != [] {
      a := WorkTake(0);
    } else if t.disp.Counted? {
      a := DispAnnounce;
    } else if t.disp.Announced? {
      a := if t.disp.p.IsRw() then DispRw else DispCmd;
    } else {
      assert Drained(t);
      NothingStuckInv(t);
      NoWorkLeft(t);
      a := FrontProduces(t);
    }
  }

  lemma ProductiveKeeps(s: State, a: Action)
    requires |s.workers| == WORKERS + 1 && Enabled(s, a) && Productive(a)
    ensures var t := Apply(s, a);
      && t.received == s.received
      && (!s.disp.Ended? ==> !t.disp.Ended?) && (!s.ctl.Stopped? ==> !t.ctl.Stopped?)
      && (s.recv.Waiting? || s.recv.Holding? ==> t.recv.Waiting? || t.recv.Holding?)
  {
  }

  predicate AllProductive(acts: seq<Action>) {
    forall i :: 0 <= i < |acts| ==> Productive(acts[i])
  }

  predicate AllSteady(acts: seq<Action>) {
    forall i :: 0 <= i < |acts| ==> Steady(acts[i])
  }

  lemma {:induction false} FinishesInv(s: State) returns (acts: seq<Action>, t: State)
    requires |s.workers| == WORKERS + 1 && Inv(s) && Shut(s) && !s.disp.Ended? && !s.ctl.Stopped?
    ensures Run(s, acts, t) && AllProductive(acts) && t.received == s.received && |t.sent| == |t.received|
    ensures |t.workers| == WORKERS + 1 && Inv(t) && Shut(t) && !t.disp.Ended? && !t.ctl.Stopped?
    ensures s.recv.Waiting? || s.recv.Holding? ==> t.recv.Waiting? || t.recv.Holding?
    decreases Measure(s)
  {
    hide Inv, Apply, Enabled, Shut, Measure, Productive;
    if |s.sent| < |s.received| {
      var a := SomethingProduces(s);
      var next := Apply(s, a);
      Step(s, a);
      StepShut(s, a);
      ProductiveKeeps(s, a);
      ProductiveIsSteady(a);
      MeasureFalls(s, a);
      var rest;
      rest, t := FinishesInv(next);
      acts := [a] + rest;
      assert acts[1..] == rest;
    } else {
      SentAtMost(s);
      acts, t := [], s;
    }
  }

  lemma ProductiveIsSteady(a: Action)
    requires Productive(a)
    ensures Steady(a)
  {
  }

  lemma SentAtMost(s: State)
    requires Inv(s)
    ensures |s.sent| <= |s.received|
  {
    hide Numbered, Queue, QueuedFrom, Contiguous, DispHolds, Holds, WorkersHold, Counts, BusyReason, ClosesWait,
         HeadsOk, PagesKept, Ascending;
  }

  /** From every state reached before shutdown the server can, with nothing more from outside, answer every request. */
  lemma Finishes(before: seq<Action>, s: State) returns (acts: seq<Action>, t: State)
    requires Run(INIT, before, s) && !s.disp.Ended? && !s.ctl.Stopped?
    ensures |s.workers| == WORKERS + 1
    ensures Run(s, acts, t) && AllProductive(acts) && t.received == s.received && |t.sent| == |t.received|
  {
    hide Inv, Shut, Run;
    InitInv();
    RunInv(INIT, before, s);
    assert Shut(INIT) by {
      InitShut();
    }
    RunShut(INIT, before, s);
    acts, t := FinishesInv(s);
  }

  lemma InitShut()
    ensures Shut(INIT)
  {
  }

  lemma {:induction false} SteadyIsShort(s: State, acts: seq<Action>, t: State)
    requires |s.workers| == WORKERS + 1 && Run(s, acts, t) && AllSteady(acts)
    ensures |acts| + Measure(t) <= Measure(s)
    decreases acts
  {
    if acts != [] {
      hide Measure, Enabled, Apply, Steady;
      assert Steady(acts[0]);
      MeasureFalls(s, acts[0]);
      SteadyIsShort(Apply(s, acts[0]), acts[1..], t);
    }
  }

  /**
   * And it cannot help doing so: whatever is scheduled, its own steps other than further pages come to an end, and
   * when none is possible any more, before shutdown, every request has been answered.
   */
  lemma EveryScheduleAnswers(before: seq<Action>, s: State, acts: seq<Action>, t: State)
    requires Run(INIT, before, s) && |s.workers| == WORKERS + 1 && Run(s, acts, t) && AllSteady(acts)
    ensures |acts| <= Measure(s) && |t.workers| == WORKERS + 1
    ensures !t.disp.Ended? && !t.ctl.Stopped? && (forall a :: Steady(a) ==> !Enabled(t, a)) ==> |t.sent| == |t.received|
  {
    hide Inv, Shut, Run, Enabled, Steady, Productive, Measure;
    InitInv();
    InitShut();
    RunInv(INIT, before, s);
    RunInv(s, acts, t);
    RunShut(INIT, before, s);
    RunShut(s, acts, t);
    SteadyIsShort(s, acts, t);
    SentAtMost(t);
    if !t.disp.Ended? && !t.ctl.Stopped? && |t.sent| < |t.received| {
      var a := SomethingProduces(t);
      ProductiveIsSteady(a);
    }
  }

  // ---- whatever the client asks for, there is a run that serves it ----

  /** A request as the client sends it. */
  datatype Asked = Asked(id: nat, kind: Kind)

  predicate Got(received: seq<Packet>, asked: seq<Asked>) {
    |received| == |asked| && forall i :: 0 <= i < |asked| ==> received[i].id == asked[i].id && received[i].kind == asked[i].kind
  }

  /** The server has taken in and answered just these requests, and is ready for the next. */
  ghost predicate Served(asked: seq<Asked>, t: State) {
    && |t.workers| == WORKERS + 1 && Inv(t) && Shut(t)
    && Got(t.received, asked) && |t.sent| == |t.received| && t.recv.Waiting? && !t.ctl.Stopped?
  }

  lemma HeldIsUnsent(t: State)
    requires Inv(t) && t.recv.Holding?
    ensures |t.sent| < |t.received|
  {
    hide Numbered, Contiguous, DispHolds, Holds, WorkersHold, Counts, BusyReason, ClosesWait, HeadsOk, PagesKept, Ascending;
    assert |t.received[t.dispatched..]| > 0;
    assert t.stage[t.dispatched].Queued?;
  }

  /** The receiver takes in one more request. */
  lemma TakeIn(s: State, q: Asked) returns (t: State)
    requires |s.workers| == WORKERS + 1 && Inv(s) && Shut(s) && s.recv.Waiting? && !s.ctl.Stopped?
    ensures Enabled(s, RecvPage) && Enabled(Apply(s, RecvPage), RecvPacket(q.id, q.kind))
    ensures t == Apply(Apply(s, RecvPage), RecvPacket(q.id, q.kind))
    ensures Inv(t) && Shut(t) && t.recv.Holding? && !t.disp.Ended? && !t.ctl.Stopped?
    ensures |t.received| == |s.received| + 1 && t.received[..|s.received|] == s.received
    ensures t.received[|s.received|].id == q.id && t.received[|s.received|].kind == q.kind
  {
    hide Inv;
    var u := Apply(s, RecvPage);
    Step(s, RecvPage);
    t := Apply(u, RecvPacket(q.id, q.kind));
    Step(u, RecvPacket(q.id, q.kind));
    assert t.received == s.received + [Packet(|s.received| + 1, q.id, q.kind, u.recv.page)];
  }

  lemma {:induction false} ServesInv(asked: seq<Asked>) returns (acts: seq<Action>, t: State)
    ensures Run(INIT, acts, t) && Served(asked, t)
    decreases |asked|
  {
    hide Inv, Shut, Run, Apply, Enabled;
    if asked == [] {
      InitInv();
      InitShut();
      InitRun();
      acts, t := [], INIT;
    } else {
      var n := |asked| - 1;
      var before, s := ServesInv(asked[..n]);
      var u := TakeIn(s, asked[n]);
      var rest;
      rest, t := FinishesInv(u);
      if t.recv.Holding? {
        HeldIsUnsent(t);
      }
      TwoSteps(s, RecvPage, RecvPacket(asked[n].id, asked[n].kind), rest, t);
      acts := before + ([RecvPage, RecvPacket(asked[n].id, asked[n].kind)] + rest);
      RunThen(INIT, before, s, [RecvPage, RecvPacket(asked[n].id, asked[n].kind)] + rest, t);
      forall i | 0 <= i < |asked| ensures t.received[i].id == asked[i].id && t.received[i].kind == asked[i].kind {
        assert i < n ==> asked[..n][i] == asked[i];
      }
    }
  }

  lemma InitRun()
    ensures Run(INIT, [], INIT)
  {
  }

  /** Whatever requests the client sends, some run takes in exactly these and writes a response to each, in order. */
  lemma ServesAll(asked: seq<Asked>) returns (acts: seq<Action>, t: State)
    ensures Run(INIT, acts, t) && |t.received| == |asked| && |t.sent| == |asked|
    ensures forall i :: 0 <= i < |asked| ==> t.received[i].kind == asked[i].kind && t.sent[i] == Item(i + 1, asked[i].id)
  {
    hide Inv, Shut, Run;
    acts, t := ServesInv(asked);
    SentAreFirst(t);
  }

  // ---- reads and writes run at the same time ----

  /** Nothing is on its way in, and the first `n` workers are each at work on one of the `n` requests. */
  predicate AtWork(s: State, n: nat) {
    && |s.workers| == WORKERS + 1 && n <= WORKERS && |s.received| == n
    && s.recv.Waiting? && s.pktChan == [] && s.disp.Idle? && |s.requests| == n && s.rwChan == []
    && (forall w :: 0 <= w < n ==> s.workers[w].Busy? && s.workers[w].p.oid == w + 1)
    && (forall w :: n <= w < WORKERS ==> s.workers[w].Free?)
  }

  /** The same, with a request in the dispatcher's channel. */
  predicate Arrived(s: State, n: nat, kind: Kind) {
    && |s.pktChan| == 1 && s.pktChan[0].oid == n + 1 && s.pktChan[0].kind == kind && |s.received| == n + 1
    && AtWork(s.(pktChan := [], received := s.received[..n]), n)
  }

  /** And with the dispatcher about to hand it to the workers. */
  predicate Handing(s: State, n: nat) {
    && s.disp.Announced? && s.disp.p.oid == n + 1 && s.disp.p.IsRw() && |s.received| == n + 1 && |s.requests| == n + 1
    && AtWork(s.(disp := Idle, received := s.received[..n], requests := s.requests[..n]), n)
  }

  lemma ThreeSteps(s: State, a: Action, b: Action, c: Action)
    requires |s.workers| == WORKERS + 1 && Enabled(s, a) && Enabled(Apply(s, a), b) && Enabled(Apply(Apply(s, a), b), c)
    ensures Run(s, [a, b, c], Apply(Apply(Apply(s, a), b), c))
  {
    hide Apply, Enabled;
    LastStep(Apply(Apply(s, a), b), c);
    TwoSteps(s, a, b, [c], Apply(Apply(Apply(s, a), b), c));
    assert [a, b] + [c] == [a, b, c];
  }

  lemma Arrives(s: State, n: nat, id: nat, kind: Kind) returns (t: State)
    requires AtWork(s, n)
    ensures Run(s, [RecvPage, RecvPacket(id, kind), RecvPush], t) && Arrived(t, n, kind)
  {
    ThreeSteps(s, RecvPage, RecvPacket(id, kind), RecvPush);
    t := Apply(Apply(Apply(s, RecvPage), RecvPacket(id, kind)), RecvPush);
    assert t.received[..n] == s.received;
  }

  lemma GetsReady(s: State, n: nat, kind: Kind) returns (t: State)
    requires Arrived(s, n, kind) && n < WORKERS && (kind.Read? || kind.Write?) && |s.workers| == WORKERS + 1
    ensures Run(s, [DispTake, DispCount, DispAnnounce], t) && Handing(t, n)
  {
    ThreeSteps(s, DispTake, DispCount, DispAnnounce);
    t := Apply(Apply(Apply(s, DispTake), DispCount), DispAnnounce);
    assert t.requests[..n] == s.requests;
  }

  lemma GoesToWork(s: State, n: nat) returns (t: State)
    requires Handing(s, n) && n < WORKERS && |s.workers| == WORKERS + 1
    ensures Run(s, [DispRw, WorkTake(n)], t) && AtWork(t, n + 1)
  {
    var u := Apply(s, DispRw);
    t := Apply(u, WorkTake(n));
    LastStep(u, WorkTake(n));
    TwoSteps(s, DispRw, WorkTake(n), [], t);
    assert [DispRw, WorkTake(n)] + [] == [DispRw, WorkTake(n)];
  }

  /** Any reads and writes, as many as there are workers for them, are at some time all being worked on together. */
  lemma {:induction false} RunTogether(asked: seq<Asked>) returns (acts: seq<Action>, t: State)
    requires |asked| <= WORKERS && forall i :: 0 <= i < |asked| ==> asked[i].kind.Read? || asked[i].kind.Write?
    ensures Run(INIT, acts, t) && AtWork(t, |asked|)
    decreases |asked|
  {
    if asked == [] {
      InitRun();
      acts, t := [], INIT;
    } else {
      hide Run, Apply, Enabled, AtWork, Arrived, Handing;
      var n := |asked| - 1;
      var q := asked[n];
      var before, s := RunTogether(asked[..n]);
      AtWorkWorkers(s, n);
      var u := Arrives(s, n, q.id, q.kind);
      WorkersStay(s, [RecvPage, RecvPacket(q.id, q.kind), RecvPush], u);
      var v := GetsReady(u, n, q.kind);
      WorkersStay(u, [DispTake, DispCount, DispAnnounce], v);
      t := GoesToWork(v, n);
      RunThen(u, [DispTake, DispCount, DispAnnounce], v, [DispRw, WorkTake(n)], t);
      var more := [DispTake, DispCount, DispAnnounce] + [DispRw, WorkTake(n)];
      RunThen(s, [RecvPage, RecvPacket(q.id, q.kind), RecvPush], u, more, t);
      more := [RecvPage, RecvPacket(q.id, q.kind), RecvPush] + more;
      RunThen(INIT, before, s, more, t);
      acts := before + more;
    }
  }

  lemma AtWorkWorkers(s: State, n: nat)
    requires AtWork(s, n)
    ensures |s.workers| == WORKERS + 1
  {
  }

  lemma {:induction false} WorkersStay(s: State, acts: seq<Action>, t: State)
    requires |s.workers| == WORKERS + 1 && Run(s, acts, t)
    ensures |t.workers| == WORKERS + 1
    decreases acts
  {
    if acts != [] {
      hide Apply, Enabled;
      WorkersStay(Apply(s, acts[0]), acts[1..], t);
    }
  }
}
