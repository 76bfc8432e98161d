/**
 * The request pipeline of the SFTP server as one state machine: the receiver,
 * the dispatcher, eight read/write workers, one command worker and the
 * controller of `packet-manager.go` and `request-server.go`, joined by
 * channels, the `working` counter and the page allocator. Each action is one
 * step of one goroutine.
 */
module ServerPipeline {
  import opened PacketOrder
  import Alloc = Allocation

  /** Capacity of every buffered channel, and the number of read/write workers. */
  const WORKERS := 8

  datatype Kind = Read | Write | Close | Other

  /** A request: its number, its id, and the page it was read into, which it goes on using. */
  datatype Packet = Packet(oid: nat, id: nat, kind: Kind, page: Alloc.Page) {
    function ToItem(): Item {
      Item(oid, id)
    }

    predicate IsRw() {
      kind.Read? || kind.Write?
    }
  }

  datatype Receiver = Waiting | Paged(page: Alloc.Page) | Holding(p: Packet) | Quit

  datatype Dispatcher = Idle | Taken(p: Packet) | Counted(p: Packet) | Announced(p: Packet) | Draining | Ended

  datatype Worker = Free | Busy(p: Packet) | Ready(p: Packet) | Handed(p: Packet)

  datatype Controller = Selecting | Flushing | Written | Stopped

  /** Where a request has got to. Kept for the proof; the goroutines never look at it. */
  datatype Stage = Queued | AtDispatcher | InRw | AtWorker(w: nat) | InResponses | InOutgoing | Sent

  datatype State = State(
    received: seq<Packet>,       // every request numbered so far
    stage: seq<Stage>,           // and where each of them is
    recv: Receiver,
    pktChan: seq<Packet>,
    disp: Dispatcher,
    dispatched: nat,             // requests counted into `working` so far
    working: nat,
    busy: set<nat>,              // the order ids `working` counts
    requests: seq<Item>,
    rwChan: seq<Packet>,
    workers: seq<Worker>,        // the last one is the command worker
    responses: seq<Item>,
    ctl: Controller,
    incoming: seq<Item>,
    outgoing: seq<Item>,
    sent: seq<Item>,
    pages: Alloc.Pages,
    given: map<nat, seq<Alloc.Page>>,  // every page ever handed out for an order id
    hands: map<nat, seq<Alloc.Page>>,  // per worker: the pages it is using
    carried: map<nat, seq<Alloc.Page>>)  // per response, by order id: the pages its data is in

  datatype Action =
    | RecvPage | RecvPacket(id: nat, kind: Kind) | RecvPush | RecvQuit
    | DispTake | DispCount | DispAnnounce | DispRw | DispCmd | DispQuit | DispEnd
    | WorkTake(w: nat) | WorkPage(w: nat) | WorkDone(w: nat) | WorkReply(w: nat) | WorkFree(w: nat)
    | CtlRequest | CtlResponse | CtlSend | CtlRelease | CtlBreak | CtlStop

  const INIT := State([], [], Waiting, [], Idle, 0, 0, {}, [], [], seq(WORKERS + 1, _ => Free), [], Selecting, [], [], [],
                      Alloc.Pages([], map[], []), map[], map[], map[])

  predicate HeadsMatch(incoming: seq<Item>, outgoing: seq<Item>) {
    incoming != [] && outgoing != [] && incoming[0].oid == outgoing[0].oid
  }

  predicate Enabled(s: State, a: Action)
    requires |s.workers| == WORKERS + 1
  {
    match a
    case RecvPage => s.recv.Waiting?
    case RecvPacket(_, _) => s.recv.Paged?
    case RecvPush => s.recv.Holding? && |s.pktChan| < WORKERS
    case RecvQuit => s.recv.Paged?
    case DispTake => s.disp.Idle? && s.pktChan != []
    case DispCount => s.disp.Taken? && (s.disp.p.kind.Close? ==> s.working == 0)
    case DispAnnounce => s.disp.Counted? && |s.requests| < WORKERS
    case DispRw => s.disp.Announced? && s.disp.p.IsRw() && |s.rwChan| < WORKERS
    case DispCmd => s.disp.Announced? && !s.disp.p.IsRw() && s.workers[WORKERS].Free?
    case DispQuit => s.disp.Idle? && s.pktChan == [] && s.recv.Quit?
    case DispEnd => s.disp.Draining? && s.working == 0
    case WorkTake(w) => w < WORKERS && s.workers[w].Free? && s.rwChan != []
    case WorkPage(w) => w <= WORKERS && s.workers[w].Busy? && s.workers[w].p.kind.Read?
    case WorkDone(w) => w <= WORKERS && s.workers[w].Busy?
    case WorkReply(w) => w <= WORKERS && s.workers[w].Ready? && |s.responses| < WORKERS
    case WorkFree(w) => w <= WORKERS && s.workers[w].Handed?
    case CtlRequest => s.ctl.Selecting? && s.requests != []
    case CtlResponse => s.ctl.Selecting? && s.responses != []
    case CtlSend => s.ctl.Flushing? && HeadsMatch(s.incoming, s.outgoing)
    case CtlRelease => s.ctl.Written? && s.incoming != [] && s.outgoing != []
    case CtlBreak => s.ctl.Flushing? && !HeadsMatch(s.incoming, s.outgoing)
    case CtlStop => s.ctl.Selecting? && s.disp.Ended?
  }

  /** Move one request to another stage. */
  function Move(stage: seq<Stage>, oid: nat, to: Stage): (r: seq<Stage>)
    ensures |r| == |stage|
  {
    if 0 < oid <= |stage| then stage[oid - 1 := to] else stage
  }

  function TakePage(s: State, oid: nat): State {
    s.(pages := Alloc.Get(s.pages, oid), given := s.given[oid := Alloc.Of(s.given, oid) + [Alloc.Next(s.pages)]])
  }

  function Apply(s: State, a: Action): (r: State)
    requires |s.workers| == WORKERS + 1 && Enabled(s, a)
    ensures |r.workers| == WORKERS + 1
  {
    match a
    case RecvPage => TakePage(s, |s.received| + 1).(recv := Paged(Alloc.Next(s.pages)))
    case RecvPacket(id, kind) =>
      var p := Packet(|s.received| + 1, id, kind, s.recv.page);
      s.(received := s.received + [p], stage := s.stage + [Queued], recv := Holding(p))
    case RecvPush => s.(pktChan := s.pktChan + [s.recv.p], recv := Waiting)
    case RecvQuit => s.(recv := Quit)
    case DispTake => s.(pktChan := s.pktChan[1..], disp := Taken(s.pktChan[0]))
    case DispCount =>
      s.(disp := Counted(s.disp.p), dispatched := s.dispatched + 1, working := s.working + 1,
         busy := s.busy + {s.disp.p.oid}, stage := Move(s.stage, s.disp.p.oid, AtDispatcher))
    case DispAnnounce => s.(disp := Announced(s.disp.p), requests := s.requests + [s.disp.p.ToItem()])
    case DispRw => s.(disp := Idle, rwChan := s.rwChan + [s.disp.p], stage := Move(s.stage, s.disp.p.oid, InRw))
    case DispCmd =>
      s.(disp := Idle, workers := s.workers[WORKERS := Busy(s.disp.p)],
         stage := Move(s.stage, s.disp.p.oid, AtWorker(WORKERS)), hands := s.hands[WORKERS := []])
    case DispQuit => s.(disp := Draining)
    case DispEnd => s.(disp := Ended)
    case WorkTake(w) =>
      s.(rwChan := s.rwChan[1..], workers := s.workers[w := Busy(s.rwChan[0])],
         stage := Move(s.stage, s.rwChan[0].oid, AtWorker(w)), hands := s.hands[w := []])
    case WorkPage(w) =>
      TakePage(s, s.workers[w].p.oid).(hands := s.hands[w := Alloc.Of(s.hands, w) + [Alloc.Next(s.pages)]])
    case WorkDone(w) => s.(workers := s.workers[w := Ready(s.workers[w].p)])
    case WorkReply(w) =>
      var p := s.workers[w].p;
      s.(responses := s.responses + [p.ToItem()], workers := s.workers[w := Handed(p)],
         stage := Move(s.stage, p.oid, InResponses), carried := s.carried[p.oid := Alloc.Of(s.hands, w)])
    case WorkFree(w) =>
      s.(workers := s.workers[w := Free], working := if s.working > 0 then s.working - 1 else 0,
         busy := s.busy - {s.workers[w].p.oid})
    case CtlRequest => s.(requests := s.requests[1..], incoming := Sort(s.incoming + [s.requests[0]]), ctl := Flushing)
    case CtlResponse =>
      s.(responses := s.responses[1..], outgoing := Sort(s.outgoing + [s.responses[0]]), ctl := Flushing,
         stage := Move(s.stage, s.responses[0].oid, InOutgoing))
    case CtlSend => s.(sent := s.sent + [s.outgoing[0]], ctl := Written, stage := Move(s.stage, s.outgoing[0].oid, Sent))
    case CtlRelease =>
      s.(pages := Alloc.Release(s.pages, s.incoming[0].oid), incoming := s.incoming[1..], outgoing := s.outgoing[1..],
         ctl := Flushing)
    case CtlBreak => s.(ctl := Selecting)
    case CtlStop => s.(ctl := Stopped)
  }

  /** `t` is what `acts` leads to from `s`, every action being possible when it is taken. */
  predicate Run(s: State, acts: seq<Action>, t: State)
    requires |s.workers| == WORKERS + 1
    decreases acts
  {
    if acts == [] then s == t else Enabled(s, acts[0]) && Run(Apply(s, acts[0]), acts[1..], t)
  }

  // ---- what every step keeps ----

  ghost predicate Numbered(received: seq<Packet>) {
    forall i :: 0 <= i < |received| ==> received[i].oid == i + 1
  }

  function DispHead(d: Dispatcher): seq<Packet> {
    if d.Taken? then [d.p] else []
  }

  function RecvTail(r: Receiver): seq<Packet> {
    if r.Holding? then [r.p] else []
  }

  /** The requests not yet counted are, in order, at the dispatcher, in its channel and at the receiver. */
  ghost predicate Queue(received: seq<Packet>, dispatched: nat, disp: Dispatcher, pktChan: seq<Packet>, recv: Receiver) {
    dispatched <= |received| && received[dispatched..] == DispHead(disp) + pktChan + RecvTail(recv)
  }

  ghost predicate QueuedFrom(stage: seq<Stage>, dispatched: nat) {
    forall i :: 0 <= i < |stage| ==> (stage[i].Queued? <==> i >= dispatched)
  }

  /** Requests already popped by the controller. */
  function Popped(sent: seq<Item>, ctl: Controller): int {
    if ctl.Written? then |sent| - 1 else |sent|
  }

  function AnnouncedCount(dispatched: nat, disp: Dispatcher): int {
    if disp.Counted? then dispatched - 1 else dispatched
  }

  /** The announced requests not yet popped are, in order, in `incoming` and in `requests`. */
  ghost predicate Contiguous(received: seq<Packet>, from: int, incoming: seq<Item>, requests: seq<Item>, to: int) {
    && 0 <= from && from + |incoming| + |requests| == to <= |received|
    && (forall i :: 0 <= i < |incoming| ==> incoming[i] == received[from + i].ToItem())
    && (forall i :: 0 <= i < |requests| ==> requests[i] == received[from + |incoming| + i].ToItem())
  }

  ghost predicate SentInOrder(received: seq<Packet>, stage: seq<Stage>, sent: seq<Item>) {
    && |sent| <= |received|
    && (forall i :: 0 <= i < |sent| ==> sent[i] == received[i].ToItem())
    && (forall i :: 0 <= i < |stage| ==> (stage[i].Sent? <==> i < |sent|))
  }

  ghost predicate DispHolds(received: seq<Packet>, stage: seq<Stage>, dispatched: nat, disp: Dispatcher) {
    && (disp.Counted? || disp.Announced? ==>
          0 < dispatched <= |stage| && dispatched <= |received| && disp.p == received[dispatched - 1] && stage[dispatched - 1].AtDispatcher?)
    && (forall i :: 0 <= i < |stage| && stage[i].AtDispatcher? ==> (disp.Counted? || disp.Announced?) && i == dispatched - 1)
  }

  /** The requests in stage `v` are exactly these, each once. */
  ghost predicate Holds(oids: seq<nat>, stage: seq<Stage>, v: Stage) {
    && (forall i :: 0 <= i < |oids| ==> 0 < oids[i] <= |stage| && stage[oids[i] - 1] == v)
    && (forall i, j :: 0 <= i < j < |oids| ==> oids[i] != oids[j])
    && (forall o :: 0 <= o < |stage| && stage[o] == v ==> o + 1 in oids)
  }

  function PacketOids(ps: seq<Packet>): (r: seq<nat>)
    ensures |r| == |ps| && forall i :: 0 <= i < |ps| ==> r[i] == ps[i].oid
  {
    seq(|ps|, i requires 0 <= i < |ps| => ps[i].oid)
  }

  predicate Genuine(received: seq<Packet>, p: Packet) {
    0 < p.oid <= |received| && received[p.oid - 1] == p
  }

  predicate GenuineItem(received: seq<Packet>, x: Item) {
    0 < x.oid <= |received| && received[x.oid - 1].id == x.id
  }

  predicate Answered(v: Stage) {
    v.InResponses? || v.InOutgoing? || v.Sent?
  }

  predicate InWork(v: Stage) {
    v.AtDispatcher? || v.InRw? || v.AtWorker?
  }

  /** What worker `w` holds is a request at that worker, or one it has just answered. */
  predicate WorkerOk(received: seq<Packet>, stage: seq<Stage>, k: Worker, w: nat) {
    !k.Free? ==>
      && Genuine(received, k.p) && k.p.oid <= |stage|
      && if k.Handed? then Answered(stage[k.p.oid - 1]) else stage[k.p.oid - 1] == AtWorker(w)
  }

  predicate WorksOn(workers: seq<Worker>, w: nat, oid: nat) {
    w < |workers| && (workers[w].Busy? || workers[w].Ready?) && workers[w].p.oid == oid
  }

  ghost predicate WorkersHold(received: seq<Packet>, stage: seq<Stage>, workers: seq<Worker>) {
    && |workers| == WORKERS + 1
    && (forall w :: 0 <= w < |workers| ==> WorkerOk(received, stage, workers[w], w))
    && (forall w, x :: 0 <= w < x < |workers| && !workers[w].Free? && !workers[x].Free? ==> workers[w].p.oid != workers[x].p.oid)
    && (forall o :: 0 <= o < |stage| && stage[o].AtWorker? ==> WorksOn(workers, stage[o].w, o + 1))
  }

  ghost predicate Counts(stage: seq<Stage>, workers: seq<Worker>, working: nat, busy: set<nat>, dispatched: nat) {
    && working == |busy|
    && (forall o :: o in busy ==> 0 < o <= dispatched)
    && (forall o :: 0 <= o < |stage| && InWork(stage[o]) ==> o + 1 in busy)
    && (forall w :: 0 <= w < |workers| && workers[w].Handed? ==> workers[w].p.oid in busy)
  }

  predicate HandedBy(workers: seq<Worker>, w: int, oid: nat) {
    0 <= w < |workers| && workers[w].Handed? && workers[w].p.oid == oid
  }

  /** Whatever is counted is being worked on, or its worker is about to say so. */
  ghost predicate BusyReason(stage: seq<Stage>, workers: seq<Worker>, busy: set<nat>) {
    forall o :: o in busy ==> 0 < o <= |stage| && (InWork(stage[o - 1]) || exists w :: HandedBy(workers, w, o))
  }

  /** A CLOSE that has passed the dispatcher finds every earlier request answered. */
  ghost predicate ClosesWait(received: seq<Packet>, stage: seq<Stage>) {
    forall c, o :: 0 <= o < c < |stage| && c < |received| && received[c].kind.Close? && !stage[c].Queued? ==> Answered(stage[o])
  }

  /** Whether the head of `outgoing` has been written but not yet popped. */
  function Unsent(outgoing: seq<Item>, ctl: Controller): seq<Item> {
    if ctl.Written? && outgoing != [] then outgoing[1..] else outgoing
  }

  ghost predicate HeadsOk(incoming: seq<Item>, outgoing: seq<Item>, sent: seq<Item>, ctl: Controller) {
    && (ctl.Selecting? || ctl.Stopped? ==> !HeadsMatch(incoming, outgoing))
    && (ctl.Written? ==> HeadsMatch(incoming, outgoing) && outgoing[0].oid == |sent|)
  }

  /** Pages are only held for requests not yet popped, and are all the pages ever given to them. */
  ghost predicate PagesKept(pages: Alloc.Pages, given: map<nat, seq<Alloc.Page>>, from: int, count: nat) {
    && (forall o :: o in pages.used ==> from < o <= count + 1)
    && (forall o :: o in given ==> 0 < o <= count + 1)
    && (forall o: nat :: o > from ==> Alloc.Of(pages.used, o) == Alloc.Of(given, o))
  }

  ghost predicate Inv(s: State) {
    && Numbered(s.received) && |s.stage| == |s.received| && |s.workers| == WORKERS + 1
    && Queue(s.received, s.dispatched, s.disp, s.pktChan, s.recv)
    && QueuedFrom(s.stage, s.dispatched)
    && Contiguous(s.received, Popped(s.sent, s.ctl), s.incoming, s.requests, AnnouncedCount(s.dispatched, s.disp))
    && SentInOrder(s.received, s.stage, s.sent)
    && DispHolds(s.received, s.stage, s.dispatched, s.disp)
    && Holds(PacketOids(s.rwChan), s.stage, InRw)
    && (forall i :: 0 <= i < |s.rwChan| ==> Genuine(s.received, s.rwChan[i]))
    && WorkersHold(s.received, s.stage, s.workers)
    && Holds(Oids(s.responses), s.stage, InResponses)
    && (forall i :: 0 <= i < |s.responses| ==> GenuineItem(s.received, s.responses[i]))
    && Holds(Oids(Unsent(s.outgoing, s.ctl)), s.stage, InOutgoing)
    && (forall i :: 0 <= i < |s.outgoing| ==> GenuineItem(s.received, s.outgoing[i]))
    && Ascending(s.outgoing)
    && Counts(s.stage, s.workers, s.working, s.busy, s.dispatched)
    && BusyReason(s.stage, s.workers, s.busy)
    && ClosesWait(s.received, s.stage)
    && HeadsOk(s.incoming, s.outgoing, s.sent, s.ctl)
    && Alloc.Valid(s.pages)
    && PagesKept(s.pages, s.given, Popped(s.sent, s.ctl), |s.received|)
  }

  // ---- moving one request to another stage, predicate by predicate ----

  lemma HoldsPush(oids: seq<nat>, stage: seq<Stage>, v: Stage, oid: nat, oids': seq<nat>)
    requires Holds(oids, stage, v) && 0 < oid <= |stage| && stage[oid - 1] != v
    requires |oids'| == |oids| + 1 && forall x :: x in oids' <==> x in oids || x == oid
    requires forall i, j :: 0 <= i < j < |oids'| ==> oids'[i] != oids'[j]
    ensures Holds(oids', Move(stage, oid, v), v)
  {
    var stage' := Move(stage, oid, v);
    forall i | 0 <= i < |oids'| ensures 0 < oids'[i] <= |stage'| && stage'[oids'[i] - 1] == v {
      assert oids'[i] in oids';
    }
  }

  lemma HoldsAppend(oids: seq<nat>, stage: seq<Stage>, v: Stage, oid: nat, oids': seq<nat>)
    requires Holds(oids, stage, v) && 0 < oid <= |stage| && stage[oid - 1] != v
    requires oids' == oids + [oid]
    ensures Holds(oids', Move(stage, oid, v), v)
  {
    HoldsPush(oids, stage, v, oid, oids');
  }

  lemma HoldsPop(oids: seq<nat>, stage: seq<Stage>, v: Stage, oid: nat, to: Stage, oids': seq<nat>)
    requires Holds(oids, stage, v) && oids != [] && oids[0] == oid && to != v && oids' == oids[1..]
    ensures Holds(oids', Move(stage, oid, to), v)
  {
    var stage' := Move(stage, oid, to);
    forall i | 0 <= i < |oids'| ensures 0 < oids'[i] <= |stage'| && stage'[oids'[i] - 1] == v {
      assert oids'[i] == oids[i + 1] && oids[0] != oids[i + 1];
    }
    forall i, j | 0 <= i < j < |oids'| ensures oids'[i] != oids'[j] {
      assert oids'[i] == oids[i + 1] && oids'[j] == oids[j + 1];
    }
    forall o | 0 <= o < |stage'| && stage'[o] == v ensures o + 1 in oids' {
      var i :| 0 <= i < |oids| && oids[i] == o + 1;
      assert i > 0 && oids'[i - 1] == o + 1;
    }
  }

  lemma HoldsFrame(oids: seq<nat>, stage: seq<Stage>, v: Stage, oid: nat, to: Stage)
    requires Holds(oids, stage, v) && 0 < oid <= |stage| && stage[oid - 1] != v && to != v
    ensures Holds(oids, Move(stage, oid, to), v)
  {
  }

  lemma HoldsGrow(oids: seq<nat>, stage: seq<Stage>, v: Stage)
    requires Holds(oids, stage, v) && !v.Queued?
    ensures Holds(oids, stage + [Queued], v)
  {
  }

  lemma SentFrame(received: seq<Packet>, stage: seq<Stage>, sent: seq<Item>, oid: nat, to: Stage)
    requires SentInOrder(received, stage, sent) && 0 < oid <= |stage| && !stage[oid - 1].Sent? && !to.Sent?
    ensures SentInOrder(received, Move(stage, oid, to), sent)
  {
  }

  lemma DispFrame(received: seq<Packet>, stage: seq<Stage>, dispatched: nat, disp: Dispatcher, oid: nat, to: Stage)
    requires DispHolds(received, stage, dispatched, disp) && 0 < oid <= |stage|
    requires !stage[oid - 1].AtDispatcher? && !to.AtDispatcher?
    ensures DispHolds(received, Move(stage, oid, to), dispatched, disp)
  {
  }

  lemma WorkersFrame(received: seq<Packet>, stage: seq<Stage>, workers: seq<Worker>, oid: nat, to: Stage)
    requires WorkersHold(received, stage, workers) && 0 < oid <= |stage|
    requires !stage[oid - 1].AtWorker? && !to.AtWorker? && (Answered(stage[oid - 1]) ==> Answered(to))
    ensures WorkersHold(received, Move(stage, oid, to), workers)
  {
    var stage' := Move(stage, oid, to);
    forall w | 0 <= w < |workers| ensures WorkerOk(received, stage', workers[w], w) {
      assert WorkerOk(received, stage, workers[w], w);
    }
  }

  lemma CountsFrame(stage: seq<Stage>, workers: seq<Worker>, working: nat, busy: set<nat>, dispatched: nat, oid: nat, to: Stage)
    requires Counts(stage, workers, working, busy, dispatched) && 0 < oid <= |stage| && (InWork(to) ==> InWork(stage[oid - 1]))
    ensures Counts(Move(stage, oid, to), workers, working, busy, dispatched)
  {
  }

  lemma BusyFrame(stage: seq<Stage>, workers: seq<Worker>, busy: set<nat>, oid: nat, to: Stage)
    requires BusyReason(stage, workers, busy) && 0 < oid <= |stage| && (InWork(stage[oid - 1]) ==> InWork(to))
    ensures BusyReason(Move(stage, oid, to), workers, busy)
  {
  }

  lemma BusyWorkers(stage: seq<Stage>, workers: seq<Worker>, busy: set<nat>, w: nat, v: Worker)
    requires BusyReason(stage, workers, busy) && w < |workers| && !workers[w].Handed?
    ensures BusyReason(stage, workers[w := v], busy)
  {
    var workers' := workers[w := v];
    forall o | o in busy && !InWork(stage[o - 1]) ensures exists x :: HandedBy(workers', x, o) {
      var x :| HandedBy(workers, x, o);
      assert HandedBy(workers', x, o);
    }
  }

  lemma ClosesFrame(received: seq<Packet>, stage: seq<Stage>, oid: nat, to: Stage)
    requires ClosesWait(received, stage) && 0 < oid <= |stage| && |received| == |stage|
    requires !stage[oid - 1].Queued? && (Answered(stage[oid - 1]) ==> Answered(to))
    ensures ClosesWait(received, Move(stage, oid, to))
  {
  }

  lemma QueuedFrame(stage: seq<Stage>, dispatched: nat, oid: nat, to: Stage)
    requires QueuedFrom(stage, dispatched) && 0 < oid <= |stage| && !stage[oid - 1].Queued? && !to.Queued?
    ensures QueuedFrom(Move(stage, oid, to), dispatched)
  {
  }

  // ---- the receiver ----

  lemma PagesGive(pages: Alloc.Pages, given: map<nat, seq<Alloc.Page>>, from: int, count: nat, oid: nat)
    requires PagesKept(pages, given, from, count) && from < oid <= count + 1 && oid > 0
    ensures PagesKept(Alloc.Get(pages, oid), given[oid := Alloc.Of(given, oid) + [Alloc.Next(pages)]], from, count)
  {
    var used', given' := Alloc.Get(pages, oid).used, given[oid := Alloc.Of(given, oid) + [Alloc.Next(pages)]];
    forall o: nat | o > from ensures Alloc.Of(used', o) == Alloc.Of(given', o) {
      assert Alloc.Of(pages.used, o) == Alloc.Of(given, o);
    }
  }

  lemma FromBound(received: seq<Packet>, from: int, incoming: seq<Item>, requests: seq<Item>, to: int)
    requires Contiguous(received, from, incoming, requests, to)
    ensures 0 <= from <= |received|
  {
  }

  lemma RecvPageInv(s: State)
    requires Inv(s) && Enabled(s, RecvPage)
    ensures Inv(Apply(s, RecvPage))
  {
    hide Numbered, Queue, QueuedFrom, Contiguous, SentInOrder, DispHolds, Holds, WorkersHold, Counts, BusyReason,
         ClosesWait, HeadsOk, PagesKept, Ascending;
    hide Alloc.Valid, Alloc.Get, Alloc.Release;
    var from := Popped(s.sent, s.ctl);
    FromBound(s.received, from, s.incoming, s.requests, AnnouncedCount(s.dispatched, s.disp));
    Alloc.GetValid(s.pages, |s.received| + 1);
    PagesGive(s.pages, s.given, from, |s.received|, |s.received| + 1);
    QueueTail(s.received, s.dispatched, s.disp, s.pktChan, s.recv, Paged(Alloc.Next(s.pages)));
  }

  lemma QueueTail(received: seq<Packet>, dispatched: nat, disp: Dispatcher, pktChan: seq<Packet>, recv: Receiver, recv': Receiver)
    requires Queue(received, dispatched, disp, pktChan, recv) && RecvTail(recv) == RecvTail(recv')
    ensures Queue(received, dispatched, disp, pktChan, recv')
  {
  }

  lemma QueueGrow(received: seq<Packet>, dispatched: nat, disp: Dispatcher, pktChan: seq<Packet>, recv: Receiver, p: Packet)
    requires Queue(received, dispatched, disp, pktChan, recv) && !recv.Holding?
    ensures Queue(received + [p], dispatched, disp, pktChan, Holding(p))
  {
    assert (received + [p])[dispatched..] == received[dispatched..] + [p];
  }

  lemma ContiguousGrow(received: seq<Packet>, from: int, incoming: seq<Item>, requests: seq<Item>, to: int, p: Packet)
    requires Contiguous(received, from, incoming, requests, to)
    ensures Contiguous(received + [p], from, incoming, requests, to)
  {
  }

  lemma SentGrow(received: seq<Packet>, stage: seq<Stage>, sent: seq<Item>, p: Packet)
    requires SentInOrder(received, stage, sent) && |stage| == |received|
    ensures SentInOrder(received + [p], stage + [Queued], sent)
  {
  }

  lemma DispGrow(received: seq<Packet>, stage: seq<Stage>, dispatched: nat, disp: Dispatcher, p: Packet)
    requires DispHolds(received, stage, dispatched, disp)
    ensures DispHolds(received + [p], stage + [Queued], dispatched, disp)
  {
  }

  lemma WorkersGrow(received: seq<Packet>, stage: seq<Stage>, workers: seq<Worker>, p: Packet)
    requires WorkersHold(received, stage, workers) && |stage| == |received|
    ensures WorkersHold(received + [p], stage + [Queued], workers)
  {
    var received', stage' := received + [p], stage + [Queued];
    forall w | 0 <= w < |workers| ensures WorkerOk(received', stage', workers[w], w) {
      assert WorkerOk(received, stage, workers[w], w);
    }
  }

  lemma CountsGrow(stage: seq<Stage>, workers: seq<Worker>, working: nat, busy: set<nat>, dispatched: nat)
    requires Counts(stage, workers, working, busy, dispatched)
    ensures Counts(stage + [Queued], workers, working, busy, dispatched)
  {
  }

  lemma BusyGrow(stage: seq<Stage>, workers: seq<Worker>, busy: set<nat>)
    requires BusyReason(stage, workers, busy)
    ensures BusyReason(stage + [Queued], workers, busy)
  {
  }

  lemma ClosesGrow(received: seq<Packet>, stage: seq<Stage>, p: Packet)
    requires ClosesWait(received, stage) && |stage| == |received|
    ensures ClosesWait(received + [p], stage + [Queued])
  {
  }

  lemma NumberedGrow(received: seq<Packet>, p: Packet)
    requires Numbered(received) && p.oid == |received| + 1
    ensures Numbered(received + [p])
  {
  }

  lemma QueuedGrow(stage: seq<Stage>, dispatched: nat)
    requires QueuedFrom(stage, dispatched) && dispatched <= |stage|
    ensures QueuedFrom(stage + [Queued], dispatched)
  {
  }

  lemma PagesGrow(pages: Alloc.Pages, given: map<nat, seq<Alloc.Page>>, from: int, count: nat, count': nat)
    requires PagesKept(pages, given, from, count) && count <= count'
    ensures PagesKept(pages, given, from, count')
  {
  }

  lemma GenuineGrow(received: seq<Packet>, rwChan: seq<Packet>, responses: seq<Item>, outgoing: seq<Item>, p: Packet)
    requires forall i :: 0 <= i < |rwChan| ==> Genuine(received, rwChan[i])
    requires forall i :: 0 <= i < |responses| ==> GenuineItem(received, responses[i])
    requires forall i :: 0 <= i < |outgoing| ==> GenuineItem(received, outgoing[i])
    ensures forall i :: 0 <= i < |rwChan| ==> Genuine(received + [p], rwChan[i])
    ensures forall i :: 0 <= i < |responses| ==> GenuineItem(received + [p], responses[i])
    ensures forall i :: 0 <= i < |outgoing| ==> GenuineItem(received + [p], outgoing[i])
  {
  }

  lemma RecvPacketInv(s: State, id: nat, kind: Kind)
    requires Inv(s) && Enabled(s, RecvPacket(id, kind))
    ensures Inv(Apply(s, RecvPacket(id, kind)))
  {
    hide Numbered, Queue, QueuedFrom, Contiguous, SentInOrder, DispHolds, Holds, WorkersHold, Counts, BusyReason,
         ClosesWait, HeadsOk, PagesKept, Ascending;
    hide Alloc.Valid, Alloc.Get, Alloc.Release, Genuine, GenuineItem;
    var p := Packet(|s.received| + 1, id, kind, s.recv.page);
    GenuineGrow(s.received, s.rwChan, s.responses, s.outgoing, p);
    var s' := Apply(s, RecvPacket(id, kind));
    NumberedGrow(s.received, p);
    QueueGrow(s.received, s.dispatched, s.disp, s.pktChan, s.recv, p);
    QueueBound(s.received, s.dispatched, s.disp, s.pktChan, s.recv);
    QueuedGrow(s.stage, s.dispatched);
    ContiguousGrow(s.received, Popped(s.sent, s.ctl), s.incoming, s.requests, AnnouncedCount(s.dispatched, s.disp), p);
    SentGrow(s.received, s.stage, s.sent, p);
    DispGrow(s.received, s.stage, s.dispatched, s.disp, p);
    HoldsGrow(PacketOids(s.rwChan), s.stage, InRw);
    HoldsGrow(Oids(s.responses), s.stage, InResponses);
    HoldsGrow(Oids(Unsent(s.outgoing, s.ctl)), s.stage, InOutgoing);
    WorkersGrow(s.received, s.stage, s.workers, p);
    CountsGrow(s.stage, s.workers, s.working, s.busy, s.dispatched);
    BusyGrow(s.stage, s.workers, s.busy);
    ClosesGrow(s.received, s.stage, p);
    PagesGrow(s.pages, s.given, Popped(s.sent, s.ctl), |s.received|, |s'.received|);
  }

  lemma QueueBound(received: seq<Packet>, dispatched: nat, disp: Dispatcher, pktChan: seq<Packet>, recv: Receiver)
    requires Queue(received, dispatched, disp, pktChan, recv)
    ensures dispatched <= |received|
    ensures disp.Taken? ==> dispatched < |received| && received[dispatched] == disp.p
  {
    if disp.Taken? {
      assert received[dispatched..][0] == disp.p;
    }
  }

  lemma RecvPushInv(s: State)
    requires Inv(s) && Enabled(s, RecvPush)
    ensures Inv(Apply(s, RecvPush))
  {
    hide Numbered, Queue, QueuedFrom, Contiguous, SentInOrder, DispHolds, Holds, WorkersHold, Counts, BusyReason,
         ClosesWait, HeadsOk, PagesKept, Ascending;
    hide Alloc.Valid, Alloc.Get, Alloc.Release;
    QueuePush(s.received, s.dispatched, s.disp, s.pktChan, s.recv);
  }

  lemma QueuePush(received: seq<Packet>, dispatched: nat, disp: Dispatcher, pktChan: seq<Packet>, recv: Receiver)
    requires Queue(received, dispatched, disp, pktChan, recv) && recv.Holding?
    ensures Queue(received, dispatched, disp, pktChan + [recv.p], Waiting)
  {
    assert DispHead(disp) + (pktChan + [recv.p]) + [] == DispHead(disp) + pktChan + [recv.p];
  }

  lemma RecvQuitInv(s: State)
    requires Inv(s) && Enabled(s, RecvQuit)
    ensures Inv(Apply(s, RecvQuit))
  {
    hide Numbered, Queue, QueuedFrom, Contiguous, SentInOrder, DispHolds, Holds, WorkersHold, Counts, BusyReason,
         ClosesWait, HeadsOk, PagesKept, Ascending;
    hide Alloc.Valid, Alloc.Get, Alloc.Release;
    QueueTail(s.received, s.dispatched, s.disp, s.pktChan, s.recv, Quit);
  }

  // ---- the dispatcher ----

  lemma QueueTake(received: seq<Packet>, dispatched: nat, disp: Dispatcher, pktChan: seq<Packet>, recv: Receiver)
    requires Queue(received, dispatched, disp, pktChan, recv) && disp.Idle? && pktChan != []
    ensures Queue(received, dispatched, Taken(pktChan[0]), pktChan[1..], recv)
  {
    assert [pktChan[0]] + pktChan[1..] == pktChan;
  }

  lemma DispChange(received: seq<Packet>, stage: seq<Stage>, dispatched: nat, disp: Dispatcher, disp': Dispatcher)
    requires DispHolds(received, stage, dispatched, disp)
    requires !disp.Counted? && !disp.Announced? && !disp'.Counted? && !disp'.Announced?
    ensures DispHolds(received, stage, dispatched, disp')
  {
  }

  lemma DispTakeInv(s: State)
    requires Inv(s) && Enabled(s, DispTake)
    ensures Inv(Apply(s, DispTake))
  {
    hide Numbered, Queue, QueuedFrom, Contiguous, SentInOrder, DispHolds, Holds, WorkersHold, Counts, BusyReason,
         ClosesWait, HeadsOk, PagesKept, Ascending;
    hide Alloc.Valid, Alloc.Get, Alloc.Release;
    QueueTake(s.received, s.dispatched, s.disp, s.pktChan, s.recv);
    DispChange(s.received, s.stage, s.dispatched, s.disp, Taken(s.pktChan[0]));
  }

  lemma QueueIdle(received: seq<Packet>, dispatched: nat, disp: Dispatcher, pktChan: seq<Packet>, recv: Receiver, disp': Dispatcher)
    requires Queue(received, dispatched, disp, pktChan, recv) && !disp.Taken? && !disp'.Taken?
    ensures Queue(received, dispatched, disp', pktChan, recv)
  {
  }

  lemma DispQuitInv(s: State)
    requires Inv(s) && Enabled(s, DispQuit)
    ensures Inv(Apply(s, DispQuit))
  {
    hide Numbered, Queue, QueuedFrom, Contiguous, SentInOrder, DispHolds, Holds, WorkersHold, Counts, BusyReason,
         ClosesWait, HeadsOk, PagesKept, Ascending;
    hide Alloc.Valid, Alloc.Get, Alloc.Release;
    QueueIdle(s.received, s.dispatched, s.disp, s.pktChan, s.recv, Draining);
    DispChange(s.received, s.stage, s.dispatched, s.disp, Draining);
  }

  lemma DispEndInv(s: State)
    requires Inv(s) && Enabled(s, DispEnd)
    ensures Inv(Apply(s, DispEnd))
  {
    hide Numbered, Queue, QueuedFrom, Contiguous, SentInOrder, DispHolds, Holds, WorkersHold, Counts, BusyReason,
         ClosesWait, HeadsOk, PagesKept, Ascending;
    hide Alloc.Valid, Alloc.Get, Alloc.Release;
    QueueIdle(s.received, s.dispatched, s.disp, s.pktChan, s.recv, Ended);
    DispChange(s.received, s.stage, s.dispatched, s.disp, Ended);
  }

  lemma QueueCount(received: seq<Packet>, dispatched: nat, disp: Dispatcher, pktChan: seq<Packet>, recv: Receiver, dispatched': nat)
    requires Queue(received, dispatched, disp, pktChan, recv) && disp.Taken? && dispatched' == dispatched + 1
    ensures dispatched' <= |received| && received[dispatched] == disp.p
    ensures Queue(received, dispatched', Counted(disp.p), pktChan, recv)
  {
    assert received[dispatched..][0] == disp.p;
    assert received[dispatched..][1..] == received[dispatched'..];
    assert DispHead(disp) + pktChan + RecvTail(recv) == [disp.p] + (pktChan + RecvTail(recv));
  }

  lemma QueuedCount(stage: seq<Stage>, dispatched: nat, oid: nat)
    requires QueuedFrom(stage, dispatched) && oid == dispatched + 1 <= |stage|
    ensures QueuedFrom(Move(stage, oid, AtDispatcher), oid)
    ensures stage[oid - 1].Queued?
  {
  }

  lemma DispCountHolds(received: seq<Packet>, stage: seq<Stage>, dispatched: nat, disp: Dispatcher, oid: nat)
    requires DispHolds(received, stage, dispatched, disp) && disp.Taken?
    requires oid == dispatched + 1 <= |stage| && |stage| == |received| && received[dispatched] == disp.p
    ensures DispHolds(received, Move(stage, oid, AtDispatcher), oid, Counted(disp.p))
  {
  }

  lemma CountsCount(stage: seq<Stage>, workers: seq<Worker>, working: nat, busy: set<nat>, dispatched: nat, oid: nat, working': nat)
    requires Counts(stage, workers, working, busy, dispatched) && oid == dispatched + 1 <= |stage| && working' == working + 1
    ensures Counts(Move(stage, oid, AtDispatcher), workers, working', busy + {oid}, oid)
  {
    assert oid !in busy;
  }

  lemma BusyCount(stage: seq<Stage>, workers: seq<Worker>, busy: set<nat>, oid: nat)
    requires BusyReason(stage, workers, busy) && 0 < oid <= |stage|
    ensures BusyReason(Move(stage, oid, AtDispatcher), workers, busy + {oid})
  {
  }

  /** A CLOSE is let through only when nothing is being worked on. */
  lemma ClosesCount(received: seq<Packet>, stage: seq<Stage>, workers: seq<Worker>, working: nat, busy: set<nat>, dispatched: nat, oid: nat)
    requires ClosesWait(received, stage) && Counts(stage, workers, working, busy, dispatched) && QueuedFrom(stage, dispatched)
    requires oid == dispatched + 1 <= |stage| && |stage| == |received|
    requires received[dispatched].kind.Close? ==> working == 0
    ensures ClosesWait(received, Move(stage, oid, AtDispatcher))
  {
    if received[dispatched].kind.Close? {
      assert busy == {};
      assert forall o :: 0 <= o < dispatched ==> !InWork(stage[o]) && Answered(stage[o]);
    }
  }

  lemma DispCountInv(s: State)
    requires Inv(s) && Enabled(s, DispCount)
    ensures Inv(Apply(s, DispCount))
  {
    hide Numbered, Queue, QueuedFrom, Contiguous, SentInOrder, DispHolds, Holds, WorkersHold, Counts, BusyReason,
         ClosesWait, HeadsOk, PagesKept, Ascending;
    hide Alloc.Valid, Alloc.Get, Alloc.Release;
    var oid := s.disp.p.oid;
    var s' := Apply(s, DispCount);
    QueueCount(s.received, s.dispatched, s.disp, s.pktChan, s.recv, s'.dispatched);
    NumberedAt(s.received, s.dispatched);
    QueuedCount(s.stage, s.dispatched, oid);
    DispCountHolds(s.received, s.stage, s.dispatched, s.disp, oid);
    HoldsFrame(PacketOids(s.rwChan), s.stage, InRw, oid, AtDispatcher);
    HoldsFrame(Oids(s.responses), s.stage, InResponses, oid, AtDispatcher);
    HoldsFrame(Oids(Unsent(s.outgoing, s.ctl)), s.stage, InOutgoing, oid, AtDispatcher);
    SentFrame(s.received, s.stage, s.sent, oid, AtDispatcher);
    WorkersFrame(s.received, s.stage, s.workers, oid, AtDispatcher);
    CountsCount(s.stage, s.workers, s.working, s.busy, s.dispatched, oid, s'.working);
    BusyCount(s.stage, s.workers, s.busy, oid);
    ClosesCount(s.received, s.stage, s.workers, s.working, s.busy, s.dispatched, oid);
  }

  lemma NumberedAt(received: seq<Packet>, i: nat)
    requires Numbered(received) && i < |received|
    ensures received[i].oid == i + 1
  {
  }

  lemma ContiguousAnnounce(received: seq<Packet>, from: int, incoming: seq<Item>, requests: seq<Item>, to: int, x: Item, to': int)
    requires Contiguous(received, from, incoming, requests, to) && to' == to + 1 <= |received| && x == received[to].ToItem()
    ensures Contiguous(received, from, incoming, requests + [x], to')
  {
  }

  lemma DispFacts(received: seq<Packet>, stage: seq<Stage>, dispatched: nat, disp: Dispatcher)
    requires DispHolds(received, stage, dispatched, disp) && (disp.Counted? || disp.Announced?)
    ensures 0 < dispatched <= |stage| && dispatched <= |received| && disp.p == received[dispatched - 1]
    ensures stage[dispatched - 1].AtDispatcher?
    ensures disp.Counted? ==> DispHolds(received, stage, dispatched, Announced(disp.p))
  {
  }

  lemma DispAnnounceInv(s: State)
    requires Inv(s) && Enabled(s, DispAnnounce)
    ensures Inv(Apply(s, DispAnnounce))
  {
    hide Numbered, Queue, QueuedFrom, Contiguous, SentInOrder, DispHolds, Holds, WorkersHold, Counts, BusyReason,
         ClosesWait, HeadsOk, PagesKept, Ascending;
    hide Alloc.Valid, Alloc.Get, Alloc.Release;
    DispFacts(s.received, s.stage, s.dispatched, s.disp);
    QueueIdle(s.received, s.dispatched, s.disp, s.pktChan, s.recv, Announced(s.disp.p));
    ContiguousAnnounce(s.received, Popped(s.sent, s.ctl), s.incoming, s.requests, AnnouncedCount(s.dispatched, s.disp),
                       s.disp.p.ToItem(), s.dispatched);
  }

  lemma DispLeaves(received: seq<Packet>, stage: seq<Stage>, dispatched: nat, disp: Dispatcher, oid: nat, to: Stage)
    requires DispHolds(received, stage, dispatched, disp) && disp.Announced? && oid == dispatched && !to.AtDispatcher?
    ensures DispHolds(received, Move(stage, oid, to), dispatched, Idle)
  {
  }

  lemma PacketOidsPush(ps: seq<Packet>, p: Packet)
    ensures PacketOids(ps + [p]) == PacketOids(ps) + [p.oid]
  {
  }

  /** The effect on all other predicates of a request leaving the dispatcher for stage `to`. */
  lemma DispLeavesRest(s: State, oid: nat, to: Stage)
    requires Inv(s) && s.disp.Announced? && oid == s.dispatched && (to == InRw || to == AtWorker(WORKERS))
    ensures Queue(s.received, s.dispatched, Idle, s.pktChan, s.recv)
    ensures DispHolds(s.received, Move(s.stage, oid, to), s.dispatched, Idle)
    ensures QueuedFrom(Move(s.stage, oid, to), s.dispatched)
    ensures SentInOrder(s.received, Move(s.stage, oid, to), s.sent)
    ensures Holds(Oids(s.responses), Move(s.stage, oid, to), InResponses)
    ensures Holds(Oids(Unsent(s.outgoing, s.ctl)), Move(s.stage, oid, to), InOutgoing)
    ensures Counts(Move(s.stage, oid, to), s.workers, s.working, s.busy, s.dispatched)
    ensures BusyReason(Move(s.stage, oid, to), s.workers, s.busy)
    ensures ClosesWait(s.received, Move(s.stage, oid, to))
    ensures oid <= |s.stage| && s.stage[oid - 1].AtDispatcher? && s.disp.p.oid == oid && Genuine(s.received, s.disp.p)
  {
    hide Numbered, Queue, QueuedFrom, Contiguous, SentInOrder, DispHolds, Holds, WorkersHold, Counts, BusyReason,
         ClosesWait, HeadsOk, PagesKept, Ascending;
    hide Alloc.Valid, Alloc.Get, Alloc.Release;
    DispFacts(s.received, s.stage, s.dispatched, s.disp);
    NumberedAt(s.received, s.dispatched - 1);
    QueueIdle(s.received, s.dispatched, s.disp, s.pktChan, s.recv, Idle);
    DispLeaves(s.received, s.stage, s.dispatched, s.disp, oid, to);
    QueuedFrame(s.stage, s.dispatched, oid, to);
    SentFrame(s.received, s.stage, s.sent, oid, to);
    HoldsFrame(Oids(s.responses), s.stage, InResponses, oid, to);
    HoldsFrame(Oids(Unsent(s.outgoing, s.ctl)), s.stage, InOutgoing, oid, to);
    CountsFrame(s.stage, s.workers, s.working, s.busy, s.dispatched, oid, to);
    BusyFrame(s.stage, s.workers, s.busy, oid, to);
    ClosesFrame(s.received, s.stage, oid, to);
  }

  lemma DispRwInv(s: State)
    requires Inv(s) && Enabled(s, DispRw)
    ensures Inv(Apply(s, DispRw))
  {
    hide Numbered, Queue, QueuedFrom, Contiguous, SentInOrder, DispHolds, Holds, WorkersHold, Counts, BusyReason,
         ClosesWait, HeadsOk, PagesKept, Ascending;
    hide Alloc.Valid, Alloc.Get, Alloc.Release;
    var oid := s.dispatched;
    DispLeavesRest(s, oid, InRw);
    PacketOidsPush(s.rwChan, s.disp.p);
    HoldsAppend(PacketOids(s.rwChan), s.stage, InRw, oid, PacketOids(s.rwChan + [s.disp.p]));
    WorkersFrame(s.received, s.stage, s.workers, oid, InRw);
  }

  lemma WorkersTake(received: seq<Packet>, stage: seq<Stage>, workers: seq<Worker>, w: nat, p: Packet)
    requires WorkersHold(received, stage, workers) && w < |workers| && workers[w].Free?
    requires Genuine(received, p) && p.oid <= |stage| && !stage[p.oid - 1].AtWorker? && !Answered(stage[p.oid - 1])
    ensures WorkersHold(received, Move(stage, p.oid, AtWorker(w)), workers[w := Busy(p)])
  {
    var stage', workers' := Move(stage, p.oid, AtWorker(w)), workers[w := Busy(p)];
    forall x | 0 <= x < |workers| ensures WorkerOk(received, stage', workers'[x], x) && (workers[x].Free? || workers[x].p.oid != p.oid) {
      assert WorkerOk(received, stage, workers[x], x);
    }
    forall o | 0 <= o < |stage'| && stage'[o].AtWorker? ensures WorksOn(workers', stage'[o].w, o + 1) {
      if o != p.oid - 1 {
        assert WorksOn(workers, stage[o].w, o + 1);
      }
    }
  }

  lemma CountsTake(stage: seq<Stage>, workers: seq<Worker>, working: nat, busy: set<nat>, dispatched: nat, w: nat, v: Worker)
    requires Counts(stage, workers, working, busy, dispatched) && w < |workers| && !v.Handed?
    ensures Counts(stage, workers[w := v], working, busy, dispatched)
  {
  }

  lemma DispCmdInv(s: State)
    requires Inv(s) && Enabled(s, DispCmd)
    ensures Inv(Apply(s, DispCmd))
  {
    hide Numbered, Queue, QueuedFrom, Contiguous, SentInOrder, DispHolds, Holds, WorkersHold, Counts, BusyReason,
         ClosesWait, HeadsOk, PagesKept, Ascending;
    hide Alloc.Valid, Alloc.Get, Alloc.Release;
    var oid := s.dispatched;
    DispLeavesRest(s, oid, AtWorker(WORKERS));
    HoldsFrame(PacketOids(s.rwChan), s.stage, InRw, oid, AtWorker(WORKERS));
    WorkersTake(s.received, s.stage, s.workers, WORKERS, s.disp.p);
    CountsTake(Move(s.stage, oid, AtWorker(WORKERS)), s.workers, s.working, s.busy, s.dispatched, WORKERS, Busy(s.disp.p));
    BusyWorkers(Move(s.stage, oid, AtWorker(WORKERS)), s.workers, s.busy, WORKERS, Busy(s.disp.p));
  }

  // ---- the workers ----

  lemma HoldsHead(oids: seq<nat>, stage: seq<Stage>, v: Stage)
    requires Holds(oids, stage, v) && oids != []
    ensures 0 < oids[0] <= |stage| && stage[oids[0] - 1] == v
  {
  }

  lemma PacketOidsPop(ps: seq<Packet>)
    requires ps != []
    ensures PacketOids(ps)[0] == ps[0].oid && PacketOids(ps[1..]) == PacketOids(ps)[1..]
  {
  }

  lemma WorkTakeInv(s: State, w: nat)
    requires Inv(s) && Enabled(s, WorkTake(w))
    ensures Inv(Apply(s, WorkTake(w)))
  {
    hide Numbered, Queue, QueuedFrom, Contiguous, SentInOrder, DispHolds, Holds, WorkersHold, Counts, BusyReason,
         ClosesWait, HeadsOk, PagesKept, Ascending;
    hide Alloc.Valid, Alloc.Get, Alloc.Release;
    var p := s.rwChan[0];
    var oid, to := p.oid, AtWorker(w);
    PacketOidsPop(s.rwChan);
    HoldsHead(PacketOids(s.rwChan), s.stage, InRw);
    HoldsPop(PacketOids(s.rwChan), s.stage, InRw, oid, to, PacketOids(s.rwChan[1..]));
    QueuedFrame(s.stage, s.dispatched, oid, to);
    SentFrame(s.received, s.stage, s.sent, oid, to);
    DispFrame(s.received, s.stage, s.dispatched, s.disp, oid, to);
    HoldsFrame(Oids(s.responses), s.stage, InResponses, oid, to);
    HoldsFrame(Oids(Unsent(s.outgoing, s.ctl)), s.stage, InOutgoing, oid, to);
    WorkersTake(s.received, s.stage, s.workers, w, p);
    CountsFrame(s.stage, s.workers, s.working, s.busy, s.dispatched, oid, to);
    BusyFrame(s.stage, s.workers, s.busy, oid, to);
    CountsTake(Move(s.stage, oid, to), s.workers, s.working, s.busy, s.dispatched, w, Busy(p));
    BusyWorkers(Move(s.stage, oid, to), s.workers, s.busy, w, Busy(p));
    ClosesFrame(s.received, s.stage, oid, to);
  }

  lemma WorkerFacts(received: seq<Packet>, stage: seq<Stage>, workers: seq<Worker>, w: nat)
    requires WorkersHold(received, stage, workers) && w < |workers| && !workers[w].Free?
    ensures Genuine(received, workers[w].p) && 0 < workers[w].p.oid <= |stage|
    ensures workers[w].Busy? || workers[w].Ready? ==> stage[workers[w].p.oid - 1] == AtWorker(w)
    ensures workers[w].Handed? ==> Answered(stage[workers[w].p.oid - 1])
  {
    assert WorkerOk(received, stage, workers[w], w);
  }

  lemma UnsentOid(received: seq<Packet>, stage: seq<Stage>, sent: seq<Item>, oid: nat)
    requires SentInOrder(received, stage, sent) && 0 < oid <= |stage| && !stage[oid - 1].Sent?
    ensures oid > |sent|
  {
  }

  lemma WorkPageInv(s: State, w: nat)
    requires Inv(s) && Enabled(s, WorkPage(w))
    ensures Inv(Apply(s, WorkPage(w)))
  {
    hide Numbered, Queue, QueuedFrom, Contiguous, SentInOrder, DispHolds, Holds, WorkersHold, Counts, BusyReason,
         ClosesWait, HeadsOk, PagesKept, Ascending;
    hide Alloc.Valid, Alloc.Get, Alloc.Release;
    var oid := s.workers[w].p.oid;
    WorkerFacts(s.received, s.stage, s.workers, w);
    UnsentOid(s.received, s.stage, s.sent, oid);
    Alloc.GetValid(s.pages, oid);
    PagesGive(s.pages, s.given, Popped(s.sent, s.ctl), |s.received|, oid);
  }

  lemma WorkersDone(received: seq<Packet>, stage: seq<Stage>, workers: seq<Worker>, w: nat)
    requires WorkersHold(received, stage, workers) && w < |workers| && workers[w].Busy?
    ensures WorkersHold(received, stage, workers[w := Ready(workers[w].p)])
  {
    var workers' := workers[w := Ready(workers[w].p)];
    forall x | 0 <= x < |workers| ensures WorkerOk(received, stage, workers'[x], x) {
      assert WorkerOk(received, stage, workers[x], x);
    }
    forall o | 0 <= o < |stage| && stage[o].AtWorker? ensures WorksOn(workers', stage[o].w, o + 1) {
      assert WorksOn(workers, stage[o].w, o + 1);
    }
  }

  lemma WorkDoneInv(s: State, w: nat)
    requires Inv(s) && Enabled(s, WorkDone(w))
    ensures Inv(Apply(s, WorkDone(w)))
  {
    hide Numbered, Queue, QueuedFrom, Contiguous, SentInOrder, DispHolds, Holds, WorkersHold, Counts, BusyReason,
         ClosesWait, HeadsOk, PagesKept, Ascending;
    hide Alloc.Valid, Alloc.Get, Alloc.Release;
    WorkersDone(s.received, s.stage, s.workers, w);
    CountsTake(s.stage, s.workers, s.working, s.busy, s.dispatched, w, Ready(s.workers[w].p));
    BusyWorkers(s.stage, s.workers, s.busy, w, Ready(s.workers[w].p));
  }

  lemma WorkersReply(received: seq<Packet>, stage: seq<Stage>, workers: seq<Worker>, w: nat)
    requires WorkersHold(received, stage, workers) && w < |workers| && workers[w].Ready?
    ensures WorkersHold(received, Move(stage, workers[w].p.oid, InResponses), workers[w := Handed(workers[w].p)])
  {
    var p := workers[w].p;
    var stage', workers' := Move(stage, p.oid, InResponses), workers[w := Handed(p)];
    assert WorkerOk(received, stage, workers[w], w);
    forall x | 0 <= x < |workers| ensures WorkerOk(received, stage', workers'[x], x) {
      assert WorkerOk(received, stage, workers[x], x);
    }
    forall o | 0 <= o < |stage'| && stage'[o].AtWorker? ensures WorksOn(workers', stage'[o].w, o + 1) {
      assert WorksOn(workers, stage[o].w, o + 1);
    }
  }

  lemma CountsReply(stage: seq<Stage>, workers: seq<Worker>, working: nat, busy: set<nat>, dispatched: nat, w: nat)
    requires Counts(stage, workers, working, busy, dispatched) && w < |workers| && workers[w].Ready?
    requires 0 < workers[w].p.oid <= |stage| && stage[workers[w].p.oid - 1] == AtWorker(w)
    ensures Counts(Move(stage, workers[w].p.oid, InResponses), workers[w := Handed(workers[w].p)], working, busy, dispatched)
  {
  }

  lemma BusyReply(stage: seq<Stage>, workers: seq<Worker>, busy: set<nat>, w: nat)
    requires BusyReason(stage, workers, busy) && w < |workers| && workers[w].Ready? && 0 < workers[w].p.oid <= |stage|
    ensures BusyReason(Move(stage, workers[w].p.oid, InResponses), workers[w := Handed(workers[w].p)], busy)
  {
    var p := workers[w].p;
    BusyWorkers(stage, workers, busy, w, Handed(p));
    assert HandedBy(workers[w := Handed(p)], w, p.oid);
  }

  lemma BusyFree(stage: seq<Stage>, workers: seq<Worker>, busy: set<nat>, w: nat)
    requires BusyReason(stage, workers, busy) && w < |workers| && workers[w].Handed?
    ensures BusyReason(stage, workers[w := Free], busy - {workers[w].p.oid})
  {
    var workers' := workers[w := Free];
    forall o | o in busy - {workers[w].p.oid} && !InWork(stage[o - 1]) ensures exists x :: HandedBy(workers', x, o) {
      var x :| HandedBy(workers, x, o);
      assert HandedBy(workers', x, o);
    }
  }

  lemma OidsPush(s: seq<Item>, x: Item)
    ensures Oids(s + [x]) == Oids(s) + [x.oid]
  {
  }

  lemma WorkReplyInv(s: State, w: nat)
    requires Inv(s) && Enabled(s, WorkReply(w))
    ensures Inv(Apply(s, WorkReply(w)))
  {
    hide Numbered, Queue, QueuedFrom, Contiguous, SentInOrder, DispHolds, Holds, WorkersHold, Counts, BusyReason,
         ClosesWait, HeadsOk, PagesKept, Ascending;
    hide Alloc.Valid, Alloc.Get, Alloc.Release;
    var p := s.workers[w].p;
    var oid, to := p.oid, InResponses;
    WorkerFacts(s.received, s.stage, s.workers, w);
    QueuedFrame(s.stage, s.dispatched, oid, to);
    SentFrame(s.received, s.stage, s.sent, oid, to);
    DispFrame(s.received, s.stage, s.dispatched, s.disp, oid, to);
    HoldsFrame(PacketOids(s.rwChan), s.stage, InRw, oid, to);
    OidsPush(s.responses, p.ToItem());
    HoldsAppend(Oids(s.responses), s.stage, InResponses, oid, Oids(s.responses + [p.ToItem()]));
    HoldsFrame(Oids(Unsent(s.outgoing, s.ctl)), s.stage, InOutgoing, oid, to);
    WorkersReply(s.received, s.stage, s.workers, w);
    CountsReply(s.stage, s.workers, s.working, s.busy, s.dispatched, w);
    BusyReply(s.stage, s.workers, s.busy, w);
    ClosesFrame(s.received, s.stage, oid, to);
  }

  lemma WorkersFree(received: seq<Packet>, stage: seq<Stage>, workers: seq<Worker>, w: nat)
    requires WorkersHold(received, stage, workers) && w < |workers| && workers[w].Handed?
    ensures WorkersHold(received, stage, workers[w := Free])
  {
    var workers' := workers[w := Free];
    forall x | 0 <= x < |workers| ensures WorkerOk(received, stage, workers'[x], x) {
      assert WorkerOk(received, stage, workers[x], x);
    }
    forall o | 0 <= o < |stage| && stage[o].AtWorker? ensures WorksOn(workers', stage[o].w, o + 1) {
      assert WorksOn(workers, stage[o].w, o + 1);
    }
  }

  lemma CountsFree(received: seq<Packet>, stage: seq<Stage>, workers: seq<Worker>, working: nat, busy: set<nat>, dispatched: nat,
                   w: nat, working': nat)
    requires Counts(stage, workers, working, busy, dispatched) && WorkersHold(received, stage, workers)
    requires w < |workers| && workers[w].Handed? && working' == if working > 0 then working - 1 else 0
    ensures Counts(stage, workers[w := Free], working', busy - {workers[w].p.oid}, dispatched)
  {
    assert workers[w].p.oid in busy;
  }

  lemma WorkFreeInv(s: State, w: nat)
    requires Inv(s) && Enabled(s, WorkFree(w))
    ensures Inv(Apply(s, WorkFree(w)))
  {
    hide Numbered, Queue, QueuedFrom, Contiguous, SentInOrder, DispHolds, Holds, WorkersHold, Counts, BusyReason,
         ClosesWait, HeadsOk, PagesKept, Ascending;
    hide Alloc.Valid, Alloc.Get, Alloc.Release;
    WorkersFree(s.received, s.stage, s.workers, w);
    CountsFree(s.received, s.stage, s.workers, s.working, s.busy, s.dispatched, w, Apply(s, WorkFree(w)).working);
    BusyFree(s.stage, s.workers, s.busy, w);
  }

  // ---- the controller ----

  lemma ContiguousSorted(received: seq<Packet>, from: int, incoming: seq<Item>, requests: seq<Item>, to: int)
    requires Contiguous(received, from, incoming, requests, to) && Numbered(received) && requests != []
    ensures Sort(incoming + [requests[0]]) == incoming + [requests[0]]
    ensures Contiguous(received, from, incoming + [requests[0]], requests[1..], to)
  {
    hide Sort;
    var s := incoming + [requests[0]];
    forall i | 0 <= i < |s| ensures s[i] == received[from + i].ToItem() && s[i].oid == from + i + 1 {
    }
    SortOfAscending(s);
  }

  lemma CtlRequestInv(s: State)
    requires Inv(s) && Enabled(s, CtlRequest)
    ensures Inv(Apply(s, CtlRequest))
  {
    hide Numbered, Queue, QueuedFrom, Contiguous, SentInOrder, DispHolds, Holds, WorkersHold, Counts, BusyReason,
         ClosesWait, HeadsOk, PagesKept, Ascending;
    hide Alloc.Valid, Alloc.Get, Alloc.Release;
    hide Sort;
    ContiguousSorted(s.received, Popped(s.sent, s.ctl), s.incoming, s.requests, AnnouncedCount(s.dispatched, s.disp));
    HeadsFlushing(Apply(s, CtlRequest).incoming, s.outgoing, s.sent);
  }

  lemma HeadsFlushing(incoming: seq<Item>, outgoing: seq<Item>, sent: seq<Item>)
    ensures HeadsOk(incoming, outgoing, sent, Flushing)
  {
  }

  lemma OidsPop(s: seq<Item>)
    requires s != []
    ensures Oids(s)[0] == s[0].oid && Oids(s[1..]) == Oids(s)[1..]
  {
  }

  /** The new response goes to its place in `outgoing`. */
  lemma OutgoingInsert(received: seq<Packet>, stage: seq<Stage>, outgoing: seq<Item>, x: Item, outgoing': seq<Item>)
    requires Holds(Oids(outgoing), stage, InOutgoing) && Ascending(outgoing)
    requires 0 < x.oid <= |stage| && !stage[x.oid - 1].InOutgoing?
    requires outgoing' == Sort(outgoing + [x])
    ensures Ascending(outgoing') && Holds(Oids(outgoing'), Move(stage, x.oid, InOutgoing), InOutgoing)
    ensures forall y :: y in outgoing' <==> y in outgoing || y == x
  {
    hide Insert, Sort;
    SortAppended(outgoing, x);
    NotAmong(stage, outgoing, x);
    InsertAscending(outgoing, x);
    InsertContents(outgoing, x);
    OidsSame(outgoing, x, outgoing');
    hide Holds, Ascending;
    OidsDistinct(outgoing');
    HoldsPush(Oids(outgoing), stage, InOutgoing, x.oid, Oids(outgoing'));
  }

  lemma NotAmong(stage: seq<Stage>, outgoing: seq<Item>, x: Item)
    requires Holds(Oids(outgoing), stage, InOutgoing) && 0 < x.oid <= |stage| && !stage[x.oid - 1].InOutgoing?
    ensures forall i :: 0 <= i < |outgoing| ==> outgoing[i].oid != x.oid
  {
    forall i | 0 <= i < |outgoing| ensures outgoing[i].oid != x.oid {
      assert Oids(outgoing)[i] == outgoing[i].oid;
    }
  }

  lemma OidsDistinct(s: seq<Item>)
    requires Ascending(s)
    ensures forall i, j :: 0 <= i < j < |Oids(s)| ==> Oids(s)[i] != Oids(s)[j]
  {
  }

  lemma OidsSame(s: seq<Item>, x: Item, t: seq<Item>)
    requires forall y :: y in t <==> y in s || y == x
    ensures forall o :: o in Oids(t) <==> o in Oids(s) || o == x.oid
  {
    forall o | o in Oids(t) ensures o in Oids(s) || o == x.oid {
      var i :| 0 <= i < |t| && Oids(t)[i] == o;
      assert t[i] in t;
      if t[i] != x {
        var j :| 0 <= j < |s| && s[j] == t[i];
        assert Oids(s)[j] == o;
      }
    }
    forall o | o in Oids(s) || o == x.oid ensures o in Oids(t) {
      var y: Item;
      if o == x.oid {
        y := x;
      } else {
        var i :| 0 <= i < |s| && Oids(s)[i] == o;
        y := s[i];
      }
      assert y in t;
      var j :| 0 <= j < |t| && t[j] == y;
      assert Oids(t)[j] == o;
    }
  }

  lemma CtlResponseInv(s: State)
    requires Inv(s) && Enabled(s, CtlResponse)
    ensures Inv(Apply(s, CtlResponse))
  {
    hide Numbered, Queue, QueuedFrom, Contiguous, SentInOrder, DispHolds, Holds, WorkersHold, Counts, BusyReason,
         ClosesWait, HeadsOk, PagesKept, Ascending;
    hide Alloc.Valid, Alloc.Get, Alloc.Release;
    hide Sort;
    var x := s.responses[0];
    var oid, to := x.oid, InOutgoing;
    var s' := Apply(s, CtlResponse);
    OidsPop(s.responses);
    HoldsHead(Oids(s.responses), s.stage, InResponses);
    HoldsPop(Oids(s.responses), s.stage, InResponses, oid, to, Oids(s.responses[1..]));
    QueuedFrame(s.stage, s.dispatched, oid, to);
    SentFrame(s.received, s.stage, s.sent, oid, to);
    DispFrame(s.received, s.stage, s.dispatched, s.disp, oid, to);
    HoldsFrame(PacketOids(s.rwChan), s.stage, InRw, oid, to);
    WorkersFrame(s.received, s.stage, s.workers, oid, to);
    CountsFrame(s.stage, s.workers, s.working, s.busy, s.dispatched, oid, to);
    BusyFrame(s.stage, s.workers, s.busy, oid, to);
    ClosesFrame(s.received, s.stage, oid, to);
    OutgoingInsert(s.received, s.stage, s.outgoing, x, s'.outgoing);
    HeadsFlushing(s.incoming, s'.outgoing, s.sent);
    GenuineAll(s.received, s.outgoing, x, s'.outgoing);
  }

  lemma GenuineAll(received: seq<Packet>, s: seq<Item>, x: Item, t: seq<Item>)
    requires (forall i :: 0 <= i < |s| ==> GenuineItem(received, s[i])) && GenuineItem(received, x)
    requires forall y :: y in t <==> y in s || y == x
    ensures forall i :: 0 <= i < |t| ==> GenuineItem(received, t[i])
  {
    forall i | 0 <= i < |t| ensures GenuineItem(received, t[i]) {
      assert t[i] in t;
    }
  }

  /** The oldest announced request is the next one to be answered. */
  lemma HeadIsNext(received: seq<Packet>, from: int, incoming: seq<Item>, requests: seq<Item>, to: int)
    requires Contiguous(received, from, incoming, requests, to) && Numbered(received) && incoming != []
    ensures 0 <= from < |received| && incoming[0] == received[from].ToItem() && incoming[0].oid == from + 1
  {
  }

  lemma SentAppend(received: seq<Packet>, stage: seq<Stage>, sent: seq<Item>, x: Item, sent': seq<Item>)
    requires SentInOrder(received, stage, sent) && |stage| == |received| && |sent| < |received|
    requires x == received[|sent|].ToItem() && x.oid == |sent| + 1 && sent' == sent + [x]
    ensures SentInOrder(received, Move(stage, x.oid, Sent), sent')
  {
  }

  lemma HeadsWritten(incoming: seq<Item>, outgoing: seq<Item>, sent: seq<Item>)
    requires HeadsMatch(incoming, outgoing) && outgoing[0].oid == |sent|
    ensures HeadsOk(incoming, outgoing, sent, Written)
  {
  }

  lemma CtlSendInv(s: State)
    requires Inv(s) && Enabled(s, CtlSend)
    ensures Inv(Apply(s, CtlSend))
  {
    hide Numbered, Queue, QueuedFrom, Contiguous, SentInOrder, DispHolds, Holds, WorkersHold, Counts, BusyReason,
         ClosesWait, HeadsOk, PagesKept, Ascending;
    hide Alloc.Valid, Alloc.Get, Alloc.Release;
    var x := s.outgoing[0];
    var oid := x.oid;
    var s' := Apply(s, CtlSend);
    HeadIsNext(s.received, Popped(s.sent, s.ctl), s.incoming, s.requests, AnnouncedCount(s.dispatched, s.disp));
    assert GenuineItem(s.received, x);
    SentAppend(s.received, s.stage, s.sent, x, s'.sent);
    OidsPop(s.outgoing);
    HoldsHead(Oids(s.outgoing), s.stage, InOutgoing);
    HoldsPop(Oids(s.outgoing), s.stage, InOutgoing, oid, Stage.Sent, Oids(s.outgoing[1..]));
    QueuedFrame(s.stage, s.dispatched, oid, Stage.Sent);
    DispFrame(s.received, s.stage, s.dispatched, s.disp, oid, Stage.Sent);
    HoldsFrame(PacketOids(s.rwChan), s.stage, InRw, oid, Stage.Sent);
    HoldsFrame(Oids(s.responses), s.stage, InResponses, oid, Stage.Sent);
    WorkersFrame(s.received, s.stage, s.workers, oid, Stage.Sent);
    CountsFrame(s.stage, s.workers, s.working, s.busy, s.dispatched, oid, Stage.Sent);
    BusyFrame(s.stage, s.workers, s.busy, oid, Stage.Sent);
    ClosesFrame(s.received, s.stage, oid, Stage.Sent);
    HeadsWritten(s.incoming, s.outgoing, s'.sent);
  }

  lemma ContiguousPop(received: seq<Packet>, from: int, incoming: seq<Item>, requests: seq<Item>, to: int, from': int)
    requires Contiguous(received, from, incoming, requests, to) && incoming != [] && from' == from + 1
    ensures Contiguous(received, from', incoming[1..], requests, to)
  {
  }

  lemma PagesRelease(pages: Alloc.Pages, given: map<nat, seq<Alloc.Page>>, from: int, count: nat, oid: nat, from': int)
    requires PagesKept(pages, given, from, count) && from' == from + 1 == oid
    ensures PagesKept(Alloc.Release(pages, oid), given, from', count)
  {
    var used' := Alloc.Release(pages, oid).used;
    forall o: nat | o > from' ensures Alloc.Of(used', o) == Alloc.Of(given, o) {
      assert Alloc.Of(pages.used, o) == Alloc.Of(given, o);
    }
  }

  lemma AscendingTail(s: seq<Item>)
    requires Ascending(s) && s != []
    ensures Ascending(s[1..])
  {
  }

  lemma CtlReleaseInv(s: State)
    requires Inv(s) && Enabled(s, CtlRelease)
    ensures Inv(Apply(s, CtlRelease))
  {
    hide Numbered, Queue, QueuedFrom, Contiguous, SentInOrder, DispHolds, Holds, WorkersHold, Counts, BusyReason,
         ClosesWait, HeadsOk, PagesKept, Ascending;
    hide Alloc.Valid, Alloc.Get, Alloc.Release;
    var from := Popped(s.sent, s.ctl);
    HeadIsNext(s.received, from, s.incoming, s.requests, AnnouncedCount(s.dispatched, s.disp));
    ContiguousPop(s.received, from, s.incoming, s.requests, AnnouncedCount(s.dispatched, s.disp), |s.sent|);
    Alloc.ReleaseValid(s.pages, s.incoming[0].oid);
    PagesRelease(s.pages, s.given, from, |s.received|, s.incoming[0].oid, |s.sent|);
    AscendingTail(s.outgoing);
    HeadsFlushing(s.incoming[1..], s.outgoing[1..], s.sent);
  }

  lemma CtlBreakInv(s: State)
    requires Inv(s) && Enabled(s, CtlBreak)
    ensures Inv(Apply(s, CtlBreak))
  {
    hide Numbered, Queue, QueuedFrom, Contiguous, SentInOrder, DispHolds, Holds, WorkersHold, Counts, BusyReason,
         ClosesWait, PagesKept, Ascending;
    hide Alloc.Valid;
  }

  lemma CtlStopInv(s: State)
    requires Inv(s) && Enabled(s, CtlStop)
    ensures Inv(Apply(s, CtlStop))
  {
    hide Numbered, Queue, QueuedFrom, Contiguous, SentInOrder, DispHolds, Holds, WorkersHold, Counts, BusyReason,
         ClosesWait, PagesKept, Ascending;
    hide Alloc.Valid;
  }

  // ---- every run ----

  lemma Step(s: State, a: Action)
    requires Inv(s) && Enabled(s, a)
    ensures Inv(Apply(s, a))
  {
    hide Inv, Apply, Enabled;
    match a {
      case RecvPage => RecvPageInv(s);
      case RecvPacket(id, kind) => RecvPacketInv(s, id, kind);
      case RecvPush => RecvPushInv(s);
      case RecvQuit => RecvQuitInv(s);
      case DispTake => DispTakeInv(s);
      case DispCount => DispCountInv(s);
      case DispAnnounce => DispAnnounceInv(s);
      case DispRw => DispRwInv(s);
      case DispCmd => DispCmdInv(s);
      case DispQuit => DispQuitInv(s);
      case DispEnd => DispEndInv(s);
      case WorkTake(w) => WorkTakeInv(s, w);
      case WorkPage(w) => WorkPageInv(s, w);
      case WorkDone(w) => WorkDoneInv(s, w);
      case WorkReply(w) => WorkReplyInv(s, w);
      case WorkFree(w) => WorkFreeInv(s, w);
      case CtlRequest => CtlRequestInv(s);
      case CtlResponse => CtlResponseInv(s);
      case CtlSend => CtlSendInv(s);
      case CtlRelease => CtlReleaseInv(s);
      case CtlBreak => CtlBreakInv(s);
      case CtlStop => CtlStopInv(s);
    }
  }

  lemma InitWorkers()
    ensures |INIT.workers| == WORKERS + 1 && WorkersHold([], [], INIT.workers) && Counts([], INIT.workers, 0, {}, 0)
  {
    assert forall w :: 0 <= w < |INIT.workers| ==> INIT.workers[w].Free?;
  }

  lemma InitPages()
    ensures Alloc.Valid(Alloc.Pages([], map[], [])) && PagesKept(Alloc.Pages([], map[], []), map[], 0, 0)
  {
    assert Alloc.InUse(map[]) == {};
  }

  lemma InitInv()
    ensures Inv(INIT)
  {
    hide WorkersHold, Counts, PagesKept, Alloc.Valid;
    InitWorkers();
    InitPages();
  }

  lemma {:induction false} RunInv(s: State, acts: seq<Action>, t: State)
    requires |s.workers| == WORKERS + 1 && Inv(s) && Run(s, acts, t)
    ensures |t.workers| == WORKERS + 1 && Inv(t)
    decreases acts
  {
    hide Inv, Apply, Enabled;
    if acts != [] {
      Step(s, acts[0]);
      RunInv(Apply(s, acts[0]), acts[1..], t);
    }
  }

  lemma SentAreFirst(t: State)
    requires |t.workers| == WORKERS + 1 && Inv(t)
    ensures |t.sent| <= |t.received|
    ensures forall i :: 0 <= i < |t.sent| ==> t.sent[i] == Item(i + 1, t.received[i].id) && t.received[i].oid == i + 1
  {
    hide Queue, QueuedFrom, Contiguous, DispHolds, Holds, WorkersHold, Counts, BusyReason, ClosesWait, HeadsOk,
         PagesKept, Ascending;
    hide Alloc.Valid;
    assert forall i :: 0 <= i < |t.sent| ==> t.sent[i] == t.received[i].ToItem();
  }

  /** In every reachable state the responses written are those of the first requests, in order, each once. */
  lemma ResponsesInOrder(acts: seq<Action>, t: State)
    requires Run(INIT, acts, t)
    ensures |t.sent| <= |t.received|
    ensures forall i :: 0 <= i < |t.sent| ==> t.sent[i] == Item(i + 1, t.received[i].id) && t.received[i].oid == i + 1
  {
    hide Inv, Apply, Enabled;
    InitInv();
    RunInv(INIT, acts, t);
    SentAreFirst(t);
  }

  /** No packet is in a channel to the controller or being worked on. */
  predicate Drained(t: State)
    requires |t.workers| == WORKERS + 1
  {
    && t.requests == [] && t.responses == [] && t.rwChan == []
    && !t.disp.Counted? && !t.disp.Announced?
    && (forall w :: 0 <= w <= WORKERS ==> !t.workers[w].Busy? && !t.workers[w].Ready?)
    && (t.ctl.Selecting? || t.ctl.Stopped?)
  }

  lemma {:induction false} StageWhenDrained(t: State, o: nat)
    requires Inv(t) && Drained(t) && |t.sent| <= o < t.dispatched
    ensures o < |t.stage| && t.stage[o].InOutgoing?
  {
    hide Contiguous, Counts, ClosesWait, PagesKept, Ascending, Numbered;
    assert PacketOids(t.rwChan) == [] && Oids(t.responses) == [];
  }

  lemma OutgoingFacts(received: seq<Packet>, stage: seq<Stage>, sent: seq<Item>, dispatched: nat, outgoing: seq<Item>)
    requires Holds(Oids(outgoing), stage, InOutgoing) && SentInOrder(received, stage, sent) && QueuedFrom(stage, dispatched)
    requires Ascending(outgoing)
    ensures forall i :: 0 <= i < |outgoing| ==> |sent| < outgoing[i].oid <= dispatched
    ensures |sent| < |stage| && stage[|sent|].InOutgoing? ==> outgoing != [] && outgoing[0].oid == |sent| + 1
  {
    forall i | 0 <= i < |outgoing| ensures |sent| < outgoing[i].oid <= dispatched {
      assert Oids(outgoing)[i] == outgoing[i].oid;
    }
    if |sent| < |stage| && stage[|sent|].InOutgoing? {
      var i :| 0 <= i < |outgoing| && Oids(outgoing)[i] == |sent| + 1;
    }
  }

  lemma NothingStuckInv(t: State)
    requires Inv(t) && Drained(t)
    ensures t.incoming == [] && t.outgoing == [] && |t.sent| == t.dispatched
  {
    hide Queue, DispHolds, Holds, WorkersHold, Counts, BusyReason, ClosesWait, PagesKept, Ascending, QueuedFrom,
         SentInOrder;
    OutgoingFacts(t.received, t.stage, t.sent, t.dispatched, t.outgoing);
    if |t.sent| < t.dispatched {
      StageWhenDrained(t, |t.sent|);
    }
  }

  /** When everything is drained, nothing is stuck in the controller: every announced request was answered. */
  lemma NothingStuck(acts: seq<Action>, t: State)
    requires Run(INIT, acts, t) && |t.workers| == WORKERS + 1 && Drained(t)
    ensures t.incoming == [] && t.outgoing == [] && |t.sent| == t.dispatched
  {
    hide Inv, Drained;
    InitInv();
    RunInv(INIT, acts, t);
    NothingStuckInv(t);
  }

  /** A step of the server's own, which waits for nothing from outside. */
  predicate Internal(a: Action) {
    !a.RecvPage? && !a.RecvPacket? && !a.RecvQuit?
  }

  lemma NoWorkLeft(t: State)
    requires Inv(t) && Drained(t) && forall w :: 0 <= w <= WORKERS ==> t.workers[w].Free?
    ensures t.working == 0
  {
    hide Numbered, Queue, QueuedFrom, Contiguous, SentInOrder, ClosesWait, HeadsOk, PagesKept, Ascending, Alloc.Valid;
    assert PacketOids(t.rwChan) == [];
    assert t.busy == {};
  }

  /** What the dispatcher or the receiver can do next when everything after them is idle. */
  lemma FrontMoves(t: State) returns (a: Action)
    requires Inv(t) && Drained(t) && t.working == 0 && t.dispatched < |t.received| && !t.disp.Ended?
    ensures Internal(a) && Enabled(t, a)
  {
    hide Numbered, QueuedFrom, Contiguous, SentInOrder, Holds, WorkersHold, Counts, BusyReason, ClosesWait, HeadsOk,
         PagesKept, Ascending;
    hide Alloc.Valid;
    if t.disp.Taken? {
      a := DispCount;
    } else if t.disp.Draining? {
      a := DispEnd;
    } else if t.pktChan != [] {
      a := DispTake;
    } else {
      assert t.received[t.dispatched..] == RecvTail(t.recv);
      a := RecvPush;
    }
  }

  lemma ControllerMoves(t: State) returns (a: Action)
    requires Inv(t) && !t.ctl.Stopped? && !(t.ctl.Selecting? && t.requests == [] && t.responses == [])
    ensures Internal(a) && Enabled(t, a)
    ensures a.CtlRequest? || a.CtlResponse? || a.CtlSend? || a.CtlRelease? || a.CtlBreak?
  {
    hide Numbered, Queue, QueuedFrom, Contiguous, SentInOrder, DispHolds, Holds, WorkersHold, Counts, BusyReason,
         ClosesWait, PagesKept, Ascending;
    hide Alloc.Valid;
    if t.ctl.Flushing? {
      a := if HeadsMatch(t.incoming, t.outgoing) then CtlSend else CtlBreak;
    } else if t.ctl.Written? {
      a := CtlRelease;
    } else {
      a := if t.requests != [] then CtlRequest else CtlResponse;
    }
  }

  lemma NoDeadlockInv(t: State) returns (a: Action)
    requires |t.workers| == WORKERS + 1 && Inv(t) && |t.sent| < |t.received| && !t.disp.Ended? && !t.ctl.Stopped?
    ensures Internal(a) && Enabled(t, a)
  {
    hide Inv;
    if !t.ctl.Selecting? || t.requests != [] || t.responses != [] {
      a := ControllerMoves(t);
    } else if w :| 0 <= w <= WORKERS && !t.workers[w].Free? {
      var k := t.workers[w];
      a := if k.Busy? then WorkDone(w) else if k.Ready? then WorkReply(w) else WorkFree(w);
    } else if t.rwChan != [] {
      a := WorkTake(0);
    } else if t.disp.Counted? {
      a := DispAnnounce;
    } else if t.disp.Announced? {
      a := if t.disp.p.IsRw() then DispRw else DispCmd;
    } else {
      assert Drained(t);
      NothingStuckInv(t);
      NoWorkLeft(t);
      a := FrontMoves(t);
    }
  }

  /**
   * While some received request has not been answered and the server has not shut down, some
   * goroutine can take a step: the full channels, the CLOSE barrier and the one command worker
   * never wait for each other in a circle.
   */
  lemma NoDeadlock(acts: seq<Action>, t: State)
    requires Run(INIT, acts, t) && |t.workers| == WORKERS + 1
    requires |t.sent| < |t.received| && !t.disp.Ended? && !t.ctl.Stopped?
    ensures exists a :: Internal(a) && Enabled(t, a)
  {
    hide Inv;
    InitInv();
    RunInv(INIT, acts, t);
    var a := NoDeadlockInv(t);
  }

  /** The controller's loop over `n` matching heads. */
  function FlushActs(n: nat): seq<Action> {
    if n == 0 then [CtlBreak] else [CtlSend, CtlRelease] + FlushActs(n - 1)
  }

  /**
   * The loop of `maybeSendPackets` is a run of the pipeline: it sends the whole run of responses whose
   * order ids match the oldest announced requests, pops both lists by as many, and goes back to waiting.
   */
  lemma {:induction false} FlushIsARun(s: State) returns (t: State)
    requires |s.workers| == WORKERS + 1 && s.ctl.Flushing?
    ensures Run(s, FlushActs(Matching(s.incoming, s.outgoing)), t)
    ensures var n := Matching(s.incoming, s.outgoing);
      t.ctl.Selecting? && t.sent == s.sent + s.outgoing[..n] && t.incoming == s.incoming[n..] && t.outgoing == s.outgoing[n..]
    decreases |s.incoming|
  {
    hide Apply, Enabled, Run, Matching;
    var n := Matching(s.incoming, s.outgoing);
    MatchingStep(s.incoming, s.outgoing);
    if n == 0 {
      t := FlushEnd(s);
      LastStep(s, CtlBreak);
    } else {
      var s1, s2 := FlushOne(s);
      t := FlushIsARun(s2);
      TwoSteps(s, CtlSend, CtlRelease, FlushActs(n - 1), t);
      HeadAndRest(s.outgoing, n);
    }
  }

  lemma HeadAndRest(s: seq<Item>, n: nat)
    requires 0 < n <= |s|
    ensures s[..n] == [s[0]] + s[1..][..n - 1]
  {
    forall i | 0 <= i < n ensures s[..n][i] == ([s[0]] + s[1..][..n - 1])[i] {
    }
  }

  lemma LastStep(s: State, a: Action)
    requires |s.workers| == WORKERS + 1 && Enabled(s, a)
    ensures Run(s, [a], Apply(s, a))
  {
    hide Apply, Enabled;
    assert [a][1..] == [];
    assert Run(Apply(s, a), [], Apply(s, a));
  }

  lemma TwoSteps(s: State, a: Action, b: Action, rest: seq<Action>, t: State)
    requires |s.workers| == WORKERS + 1 && Enabled(s, a) && Enabled(Apply(s, a), b) && Run(Apply(Apply(s, a), b), rest, t)
    ensures Run(s, [a, b] + rest, t)
  {
    hide Apply, Enabled;
    var acts := [a, b] + rest;
    assert acts[1..][1..] == rest;
    assert Run(Apply(s, a), acts[1..], t);
  }

  lemma {:induction false} RunThen(s: State, acts: seq<Action>, t: State, more: seq<Action>, u: State)
    requires |s.workers| == WORKERS + 1 && Run(s, acts, t) && |t.workers| == WORKERS + 1 && Run(t, more, u)
    ensures Run(s, acts + more, u)
    decreases acts
  {
    hide Enabled, Apply;
    if acts == [] {
      assert acts + more == more;
    } else {
      RunThen(Apply(s, acts[0]), acts[1..], t, more, u);
      assert (acts + more)[1..] == acts[1..] + more;
    }
  }

  lemma FlushEnd(s: State) returns (t: State)
    requires |s.workers| == WORKERS + 1 && s.ctl.Flushing? && !HeadsMatch(s.incoming, s.outgoing)
    ensures Enabled(s, CtlBreak) && t == Apply(s, CtlBreak) && t == s.(ctl := Selecting)
  {
    t := Apply(s, CtlBreak);
  }

  lemma FlushOne(s: State) returns (s1: State, s2: State)
    requires |s.workers| == WORKERS + 1 && s.ctl.Flushing? && HeadsMatch(s.incoming, s.outgoing)
    ensures Enabled(s, CtlSend) && s1 == Apply(s, CtlSend)
    ensures Enabled(s1, CtlRelease) && s2 == Apply(s1, CtlRelease) && s2.ctl.Flushing?
    ensures s2.sent == s.sent + [s.outgoing[0]] && s2.incoming == s.incoming[1..] && s2.outgoing == s.outgoing[1..]
  {
    s1 := Apply(s, CtlSend);
    s2 := Apply(s1, CtlRelease);
  }

  /** When a CLOSE is being executed, every request received before it has handed in its response. */
  lemma CloseWaits(acts: seq<Action>, t: State, w: nat, o: nat)
    requires Run(INIT, acts, t) && w < |t.workers| && t.workers[w].Busy? && t.workers[w].p.kind.Close?
    requires 1 <= o < t.workers[w].p.oid
    ensures o <= |t.stage| && Answered(t.stage[o - 1])
    ensures o <= |t.sent| || o in Oids(t.responses) || o in Oids(t.outgoing)
  {
    InitInv();
    RunInv(INIT, acts, t);
    CloseWaitsInv(t, w, o);
  }

  lemma CloseWaitsInv(t: State, w: nat, o: nat)
    requires Inv(t) && w < |t.workers| && t.workers[w].Busy? && t.workers[w].p.kind.Close?
    requires 1 <= o < t.workers[w].p.oid
    ensures o <= |t.stage| && Answered(t.stage[o - 1])
    ensures o <= |t.sent| || o in Oids(t.responses) || o in Oids(t.outgoing)
  {
    hide Queue, Contiguous, DispHolds, Counts, BusyReason, PagesKept, Ascending, HeadsOk;
    WorkerFacts(t.received, t.stage, t.workers, w);
    assert Answered(t.stage[o - 1]);
    if t.stage[o - 1].InOutgoing? {
      var u := Unsent(t.outgoing, t.ctl);
      assert o in Oids(u);
      var i :| 0 <= i < |u| && Oids(u)[i] == o;
      var j := if u == t.outgoing then i else i + 1;
      assert Oids(t.outgoing)[j] == o;
    }
  }

  /**
   * Until a request's response is written, every page given to it is still recorded as its own,
   * is not on the free list and belongs to no other request.
   */
  lemma PagesAreSafe(acts: seq<Action>, t: State, oid: nat, page: Alloc.Page)
    requires Run(INIT, acts, t) && oid > |t.sent| && page in Alloc.Of(t.given, oid)
    ensures page in Alloc.Of(t.pages.used, oid) && page !in t.pages.available
    ensures forall o :: o in t.pages.used && o != oid ==> page !in t.pages.used[o]
  {
    InitInv();
    RunInv(INIT, acts, t);
    PagesAreSafeInv(t, oid, page);
  }

  lemma PagesAreSafeInv(t: State, oid: nat, page: Alloc.Page)
    requires Inv(t) && oid > |t.sent| && page in Alloc.Of(t.given, oid)
    ensures page in Alloc.Of(t.pages.used, oid) && page !in t.pages.available
    ensures forall o :: o in t.pages.used && o != oid ==> page !in t.pages.used[o]
  {
    hide Numbered, Queue, QueuedFrom, Contiguous, SentInOrder, DispHolds, Holds, WorkersHold, Counts, BusyReason,
         ClosesWait, HeadsOk, Ascending;
    assert Alloc.Of(t.pages.used, oid) == Alloc.Of(t.given, oid);
    Alloc.Exclusive(t.pages, oid, page);
  }

  /** No page is ever lost: those in use and those free are all the pages created. */
  lemma PagesAreConserved(acts: seq<Action>, t: State)
    requires Run(INIT, acts, t)
    ensures |t.pages.available| + |Alloc.InUse(t.pages.used)| == |t.pages.owner|
  {
    InitInv();
    RunInv(INIT, acts, t);
  }
}
