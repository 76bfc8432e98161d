/**
 * Who is using which page of the server's allocator: the receiver the page it
 * reads into, a request the page it was read into, a worker the pages it reads
 * file data into, a response the pages its data is in. Every one of them stays
 * that request's own until its response has been written.
 */
module ServerPages {
  import opened PacketOrder
  import opened ServerPipeline
  import Alloc = Allocation

  type Page = Alloc.Page

  /** The pages a request has taken besides the one it was read into, by where it has got to. */
  function InHand(v: Stage, oid: nat, hands: map<nat, seq<Page>>, carried: map<nat, seq<Page>>): seq<Page> {
    if v.AtWorker? then Alloc.Of(hands, v.w) else if Answered(v) then Alloc.Of(carried, oid) else []
  }

  /** What was given to a request is what is used for it: the page it came in, then those in hand. */
  ghost predicate Held(received: seq<Packet>, stage: seq<Stage>, given: map<nat, seq<Page>>, hands: map<nat, seq<Page>>,
                       carried: map<nat, seq<Page>>)
  {
    forall i :: 0 <= i < |stage| && i < |received| ==>
      Alloc.Of(given, i + 1) == [received[i].page] + InHand(stage[i], i + 1, hands, carried)
  }

  /** The next request has been given the page the receiver reads into, and no other. */
  predicate RecvHeld(recv: Receiver, given: map<nat, seq<Page>>, next: nat) {
    match recv
    case Paged(page) => Alloc.Of(given, next) == [page]
    case Quit => true
    case _ => Alloc.Of(given, next) == []
  }

  ghost predicate Custody(s: State) {
    && Held(s.received, s.stage, s.given, s.hands, s.carried)
    && RecvHeld(s.recv, s.given, |s.received| + 1)
  }

  // ---- every step keeps it ----

  /** A request moves on with the pages it had, and nobody else's hands change. */
  lemma HeldMove(received: seq<Packet>, stage: seq<Stage>, given: map<nat, seq<Page>>, hands: map<nat, seq<Page>>,
                 carried: map<nat, seq<Page>>, oid: nat, to: Stage, hands': map<nat, seq<Page>>, carried': map<nat, seq<Page>>)
    requires Held(received, stage, given, hands, carried) && 0 < oid <= |stage| == |received|
    requires InHand(to, oid, hands', carried') == InHand(stage[oid - 1], oid, hands, carried)
    requires forall i :: 0 <= i < |stage| && i != oid - 1 ==>
               InHand(stage[i], i + 1, hands', carried') == InHand(stage[i], i + 1, hands, carried)
    ensures Held(received, Move(stage, oid, to), given, hands', carried')
  {
    hide InHand;
    var stage' := Move(stage, oid, to);
    forall i | 0 <= i < |stage'| && i < |received|
      ensures Alloc.Of(given, i + 1) == [received[i].page] + InHand(stage'[i], i + 1, hands', carried')
    {
      assert Alloc.Of(given, i + 1) == [received[i].page] + InHand(stage[i], i + 1, hands, carried);
    }
  }

  /** Only worker `w`'s hands change, and no request but `oid` is at worker `w`. */
  lemma OthersKeep(stage: seq<Stage>, hands: map<nat, seq<Page>>, carried: map<nat, seq<Page>>, w: nat, oid: nat, v: seq<Page>)
    requires forall i :: 0 <= i < |stage| && stage[i] == AtWorker(w) ==> i + 1 == oid
    ensures forall i :: 0 <= i < |stage| && i != oid - 1 ==>
              InHand(stage[i], i + 1, hands[w := v], carried) == InHand(stage[i], i + 1, hands, carried)
  {
  }

  lemma NothingYet(v: Stage, oid: nat, hands: map<nat, seq<Page>>, carried: map<nat, seq<Page>>)
    requires v.Queued? || v.AtDispatcher? || v.InRw?
    ensures InHand(v, oid, hands, carried) == []
  {
  }

  lemma HeldGrow(received: seq<Packet>, stage: seq<Stage>, given: map<nat, seq<Page>>, hands: map<nat, seq<Page>>,
                 carried: map<nat, seq<Page>>, p: Packet)
    requires Held(received, stage, given, hands, carried) && |stage| == |received|
    requires Alloc.Of(given, |received| + 1) == [p.page]
    ensures Held(received + [p], stage + [Queued], given, hands, carried)
  {
    hide InHand;
    NothingYet(Queued, |received| + 1, hands, carried);
  }

  /** A page given to an order id no request has yet. */
  lemma HeldGive(received: seq<Packet>, stage: seq<Stage>, given: map<nat, seq<Page>>, hands: map<nat, seq<Page>>,
                 carried: map<nat, seq<Page>>, oid: nat, pages: seq<Page>)
    requires Held(received, stage, given, hands, carried) && oid > |received|
    ensures Held(received, stage, given[oid := pages], hands, carried)
  {
    hide InHand;
  }

  lemma RecvSteps(s: State, a: Action)
    requires Inv(s) && Custody(s) && Enabled(s, a) && (a.RecvPage? || a.RecvPacket? || a.RecvPush? || a.RecvQuit?)
    ensures Custody(Apply(s, a))
  {
    hide Queue, QueuedFrom, Contiguous, SentInOrder, DispHolds, Holds, WorkersHold, Counts, BusyReason, ClosesWait, HeadsOk,
         Ascending, Held, Numbered;
    assert PagesKept(s.pages, s.given, Popped(s.sent, s.ctl), |s.received|);
    match a {
      case RecvPage =>
        HeldGive(s.received, s.stage, s.given, s.hands, s.carried, |s.received| + 1,
                 Alloc.Of(s.given, |s.received| + 1) + [Alloc.Next(s.pages)]);
      case RecvPacket(id, kind) =>
        HeldGrow(s.received, s.stage, s.given, s.hands, s.carried, Packet(|s.received| + 1, id, kind, s.recv.page));
        assert |s.received| + 2 !in s.given;
      case _ =>
    }
  }

  lemma DispSteps(s: State, a: Action)
    requires Inv(s) && Custody(s) && Enabled(s, a) && (a.DispCount? || a.DispRw? || a.DispCmd?)
    ensures Custody(Apply(s, a))
  {
    hide Queue, QueuedFrom, Contiguous, SentInOrder, Holds, WorkersHold, Counts, BusyReason, ClosesWait, HeadsOk,
         Ascending, Held, Numbered, PagesKept, InHand, DispHolds;
    match a {
      case DispCount =>
        QueueHead(s);
        NothingYet(Queued, s.disp.p.oid, s.hands, s.carried);
        NothingYet(AtDispatcher, s.disp.p.oid, s.hands, s.carried);
        HeldMove(s.received, s.stage, s.given, s.hands, s.carried, s.disp.p.oid, AtDispatcher, s.hands, s.carried);
      case DispRw =>
        AtDisp(s);
        NothingYet(AtDispatcher, s.disp.p.oid, s.hands, s.carried);
        NothingYet(InRw, s.disp.p.oid, s.hands, s.carried);
        HeldMove(s.received, s.stage, s.given, s.hands, s.carried, s.disp.p.oid, InRw, s.hands, s.carried);
      case DispCmd =>
        AtDisp(s);
        TakenUp(s, WORKERS, s.disp.p.oid);
      case _ =>
    }
  }

  /** The request the dispatcher has just taken from its channel is the first one still queued. */
  lemma QueueHead(s: State)
    requires Inv(s) && s.disp.Taken?
    ensures 0 < s.disp.p.oid <= |s.stage| && s.stage[s.disp.p.oid - 1].Queued?
  {
    hide Contiguous, SentInOrder, Holds, WorkersHold, Counts, BusyReason, ClosesWait, HeadsOk, Ascending, PagesKept, DispHolds;
    assert s.received[s.dispatched..][0] == s.disp.p;
  }

  lemma AtDisp(s: State)
    requires Inv(s) && s.disp.Announced?
    ensures 0 < s.disp.p.oid <= |s.stage| && s.stage[s.disp.p.oid - 1].AtDispatcher?
  {
    hide Queue, QueuedFrom, Contiguous, SentInOrder, Holds, WorkersHold, Counts, BusyReason, ClosesWait, HeadsOk, Ascending,
         PagesKept;
    assert DispHolds(s.received, s.stage, s.dispatched, s.disp);
  }

  lemma OnlyAt(s: State, w: nat)
    requires Inv(s) && w <= WORKERS
    ensures s.workers[w].Free? || s.workers[w].Handed? ==> forall i :: 0 <= i < |s.stage| ==> s.stage[i] != AtWorker(w)
    ensures s.workers[w].Busy? || s.workers[w].Ready? ==>
              && 0 < s.workers[w].p.oid <= |s.stage| && s.stage[s.workers[w].p.oid - 1] == AtWorker(w)
              && s.received[s.workers[w].p.oid - 1] == s.workers[w].p
              && forall i :: 0 <= i < |s.stage| && s.stage[i] == AtWorker(w) ==> i + 1 == s.workers[w].p.oid
  {
    hide Queue, QueuedFrom, Contiguous, SentInOrder, Holds, Counts, BusyReason, ClosesWait, HeadsOk, Ascending,
         PagesKept, DispHolds, Numbered;
    assert WorkersHold(s.received, s.stage, s.workers);
    assert WorkerOk(s.received, s.stage, s.workers[w], w);
  }

  /** A worker starts on a request with empty hands. */
  lemma TakenUp(s: State, w: nat, oid: nat)
    requires Inv(s) && Custody(s) && w <= WORKERS && s.workers[w].Free? && 0 < oid <= |s.stage|
    requires s.stage[oid - 1].AtDispatcher? || s.stage[oid - 1].InRw?
    ensures Held(s.received, Move(s.stage, oid, AtWorker(w)), s.given, s.hands[w := []], s.carried)
  {
    hide Queue, QueuedFrom, Contiguous, SentInOrder, Holds, WorkersHold, Counts, BusyReason, ClosesWait, HeadsOk,
         Ascending, Held, Numbered, PagesKept, DispHolds;
    OnlyAt(s, w);
    OthersKeep(s.stage, s.hands, s.carried, w, oid, []);
    HeldMove(s.received, s.stage, s.given, s.hands, s.carried, oid, AtWorker(w), s.hands[w := []], s.carried);
  }

  lemma RwHead(s: State)
    requires Inv(s) && s.rwChan != []
    ensures 0 < s.rwChan[0].oid <= |s.stage| && s.stage[s.rwChan[0].oid - 1].InRw?
  {
    hide Queue, QueuedFrom, Contiguous, SentInOrder, WorkersHold, Counts, BusyReason, ClosesWait, HeadsOk, Ascending,
         PagesKept, DispHolds, Numbered;
    assert Holds(PacketOids(s.rwChan), s.stage, InRw);
  }

  lemma AtHand(w: nat, oid: nat, hands: map<nat, seq<Page>>, carried: map<nat, seq<Page>>)
    ensures InHand(AtWorker(w), oid, hands, carried) == Alloc.Of(hands, w)
  {
  }

  lemma HeldAt(received: seq<Packet>, stage: seq<Stage>, given: map<nat, seq<Page>>, hands: map<nat, seq<Page>>,
               carried: map<nat, seq<Page>>, i: nat)
    requires Held(received, stage, given, hands, carried) && i < |stage| && i < |received|
    ensures Alloc.Of(given, i + 1) == [received[i].page] + InHand(stage[i], i + 1, hands, carried)
  {
  }

  lemma HeldAll(received: seq<Packet>, stage: seq<Stage>, given: map<nat, seq<Page>>, hands: map<nat, seq<Page>>,
                carried: map<nat, seq<Page>>)
    requires forall i :: 0 <= i < |stage| && i < |received| ==>
               Alloc.Of(given, i + 1) == [received[i].page] + InHand(stage[i], i + 1, hands, carried)
    ensures Held(received, stage, given, hands, carried)
  {
  }

  /** A worker takes one more page, for the request it is at. */
  lemma HeldMore(received: seq<Packet>, stage: seq<Stage>, given: map<nat, seq<Page>>, hands: map<nat, seq<Page>>,
                 carried: map<nat, seq<Page>>, oid: nat, w: nat, page: Page)
    requires Held(received, stage, given, hands, carried) && 0 < oid <= |stage| == |received| && stage[oid - 1] == AtWorker(w)
    requires forall i :: 0 <= i < |stage| && stage[i] == AtWorker(w) ==> i + 1 == oid
    ensures Held(received, stage, given[oid := Alloc.Of(given, oid) + [page]], hands[w := Alloc.Of(hands, w) + [page]], carried)
  {
    hide InHand, Held;
    var given', hand := given[oid := Alloc.Of(given, oid) + [page]], Alloc.Of(hands, w) + [page];
    OthersKeep(stage, hands, carried, w, oid, hand);
    AtHand(w, oid, hands, carried);
    AtHand(w, oid, hands[w := hand], carried);
    forall i | 0 <= i < |stage|
      ensures Alloc.Of(given', i + 1) == [received[i].page] + InHand(stage[i], i + 1, hands[w := hand], carried)
    {
      HeldAt(received, stage, given, hands, carried, i);
      if i == oid - 1 {
        assert [received[i].page] + (Alloc.Of(hands, w) + [page]) == ([received[i].page] + Alloc.Of(hands, w)) + [page];
      }
    }
    HeldAll(received, stage, given', hands[w := hand], carried);
  }

  lemma HeldPage(s: State, w: nat)
    requires Inv(s) && Custody(s) && Enabled(s, WorkPage(w))
    ensures Custody(Apply(s, WorkPage(w)))
  {
    hide Queue, QueuedFrom, Contiguous, SentInOrder, Holds, WorkersHold, Counts, BusyReason, ClosesWait, HeadsOk,
         Ascending, Numbered, PagesKept, DispHolds, Held, InHand;
    OnlyAt(s, w);
    HeldMore(s.received, s.stage, s.given, s.hands, s.carried, s.workers[w].p.oid, w, Alloc.Next(s.pages));
  }

  /** A worker hands over its response, with the pages the data is in. */
  lemma HeldReply(s: State, w: nat)
    requires Inv(s) && Custody(s) && Enabled(s, WorkReply(w))
    ensures Custody(Apply(s, WorkReply(w)))
  {
    hide Queue, QueuedFrom, Contiguous, SentInOrder, Holds, WorkersHold, Counts, BusyReason, ClosesWait, HeadsOk,
         Ascending, Held, Numbered, PagesKept, DispHolds;
    OnlyAt(s, w);
    var oid := s.workers[w].p.oid;
    HeldMove(s.received, s.stage, s.given, s.hands, s.carried, oid, InResponses, s.hands,
             s.carried[oid := Alloc.Of(s.hands, w)]);
  }

  lemma WorkSteps(s: State, a: Action)
    requires Inv(s) && Custody(s) && Enabled(s, a)
    requires a.WorkTake? || a.WorkPage? || a.WorkDone? || a.WorkReply? || a.WorkFree?
    ensures Custody(Apply(s, a))
  {
    hide Queue, QueuedFrom, Contiguous, SentInOrder, Holds, WorkersHold, Counts, BusyReason, ClosesWait, HeadsOk,
         Ascending, Held, Numbered, PagesKept, DispHolds;
    match a {
      case WorkTake(w) =>
        RwHead(s);
        TakenUp(s, w, s.rwChan[0].oid);
      case WorkPage(w) => HeldPage(s, w);
      case WorkReply(w) => HeldReply(s, w);
      case _ =>
    }
  }

  lemma ResponseHead(s: State)
    requires Inv(s) && s.responses != []
    ensures 0 < s.responses[0].oid <= |s.stage| && s.stage[s.responses[0].oid - 1].InResponses?
  {
    hide Queue, QueuedFrom, Contiguous, SentInOrder, WorkersHold, Counts, BusyReason, ClosesWait, HeadsOk, Ascending,
         PagesKept, DispHolds, Numbered;
    assert Holds(Oids(s.responses), s.stage, InResponses);
  }

  lemma OutgoingHead(s: State)
    requires Inv(s) && s.outgoing != [] && !s.ctl.Written?
    ensures 0 < s.outgoing[0].oid <= |s.stage| && s.stage[s.outgoing[0].oid - 1].InOutgoing?
  {
    hide Queue, QueuedFrom, Contiguous, SentInOrder, WorkersHold, Counts, BusyReason, ClosesWait, HeadsOk, Ascending,
         PagesKept, DispHolds, Numbered;
    assert Holds(Oids(s.outgoing), s.stage, InOutgoing);
  }

  lemma CtlSteps(s: State, a: Action)
    requires Inv(s) && Custody(s) && Enabled(s, a)
    requires a.CtlResponse? || a.CtlSend?
    ensures Custody(Apply(s, a))
  {
    hide Queue, QueuedFrom, Contiguous, SentInOrder, Holds, WorkersHold, Counts, BusyReason, ClosesWait, HeadsOk,
         Ascending, Held, Numbered, PagesKept, DispHolds, Sort;
    if a.CtlResponse? {
      ResponseHead(s);
      HeldMove(s.received, s.stage, s.given, s.hands, s.carried, s.responses[0].oid, InOutgoing, s.hands, s.carried);
    } else {
      OutgoingHead(s);
      HeldMove(s.received, s.stage, s.given, s.hands, s.carried, s.outgoing[0].oid, Sent, s.hands, s.carried);
    }
  }

  /** The steps that neither give a page nor move a request. */
  predicate Elsewhere(a: Action) {
    a.DispTake? || a.DispAnnounce? || a.DispQuit? || a.DispEnd? || a.CtlRequest? || a.CtlRelease? || a.CtlBreak? || a.CtlStop?
  }

  lemma OtherSteps(s: State, a: Action)
    requires Inv(s) && Custody(s) && Enabled(s, a) && Elsewhere(a)
    ensures Custody(Apply(s, a))
  {
    hide Inv, Held, RecvHeld, Sort;
  }

  /** Every step of every goroutine leaves each page with whoever uses it. */
  lemma CustodyStep(s: State, a: Action)
    requires Inv(s) && Custody(s) && Enabled(s, a)
    ensures Custody(Apply(s, a))
  {
    hide Inv, Custody, Apply, Enabled;
    match a {
      case RecvPage | RecvPacket(_, _) | RecvPush | RecvQuit => RecvSteps(s, a);
      case DispCount | DispRw | DispCmd => DispSteps(s, a);
      case WorkTake(_) | WorkPage(_) | WorkDone(_) | WorkReply(_) | WorkFree(_) => WorkSteps(s, a);
      case CtlResponse | CtlSend => CtlSteps(s, a);
      case _ => OtherSteps(s, a);
    }
  }

  lemma {:induction false} CustodyRun(s: State, acts: seq<Action>, t: State)
    requires |s.workers| == WORKERS + 1 && Inv(s) && Custody(s) && Run(s, acts, t)
    ensures |t.workers| == WORKERS + 1 && Inv(t) && Custody(t)
    decreases acts
  {
    if acts != [] {
      hide Inv, Custody, Apply, Enabled;
      Step(s, acts[0]);
      CustodyStep(s, acts[0]);
      CustodyRun(Apply(s, acts[0]), acts[1..], t);
    }
  }

  lemma Reached(acts: seq<Action>, t: State)
    requires Run(INIT, acts, t)
    ensures |t.workers| == WORKERS + 1 && Inv(t) && Custody(t)
  {
    InitInv();
    hide Inv;
    CustodyRun(INIT, acts, t);
  }

  // ---- what holds of every run ----

  /** `page` is request `oid`'s own: recorded for it, not free and no other request's. */
  ghost predicate Own(pages: Alloc.Pages, oid: nat, page: Page) {
    && page in Alloc.Of(pages.used, oid) && page !in pages.available
    && forall o :: o in pages.used && o != oid ==> page !in pages.used[o]
  }

  lemma GivenIsOwn(t: State, oid: nat, page: Page)
    requires Inv(t) && oid > |t.sent| && page in Alloc.Of(t.given, oid)
    ensures Own(t.pages, oid, page)
  {
    hide Inv;
    PagesAreSafeInv(t, oid, page);
  }

  /** What is used for a request: the page it was read into and those taken for it since. */
  predicate Uses(t: State, i: nat, page: Page)
    requires i < |t.received| && i < |t.stage|
  {
    page == t.received[i].page || page in InHand(t.stage[i], i + 1, t.hands, t.carried)
  }

  lemma UsesIsOwn(t: State, i: nat, page: Page)
    requires Inv(t) && Custody(t) && |t.sent| <= i < |t.received| && i < |t.stage| && Uses(t, i, page)
    ensures Own(t.pages, i + 1, page)
  {
    hide Inv, Own, InHand;
    assert Alloc.Of(t.given, i + 1) == [t.received[i].page] + InHand(t.stage[i], i + 1, t.hands, t.carried);
    GivenIsOwn(t, i + 1, page);
  }

  /**
   * Until its response is written, every page used for a request, wherever the request has got to,
   * is its own.
   */
  lemma RequestPagesAreOwn(acts: seq<Action>, t: State, i: nat, page: Page)
    requires Run(INIT, acts, t) && |t.sent| <= i < |t.received| && i < |t.stage| && Uses(t, i, page)
    ensures Own(t.pages, i + 1, page)
  {
    hide Inv, Own, Uses, Run, Apply, Enabled;
    Reached(acts, t);
    UsesIsOwn(t, i, page);
  }

  /** At a worker at work on a request, the page the request came in or one of those in its hands. */
  predicate WorksWith(t: State, w: nat, page: Page)
  {
    && w < |t.workers| && (t.workers[w].Busy? || t.workers[w].Ready?)
    && (page == t.workers[w].p.page || page in Alloc.Of(t.hands, w))
  }

  lemma AtWorkIsUnsent(t: State, w: nat)
    requires Inv(t) && w <= WORKERS && (t.workers[w].Busy? || t.workers[w].Ready?)
    ensures |t.sent| < t.workers[w].p.oid <= |t.stage| == |t.received|
    ensures t.stage[t.workers[w].p.oid - 1] == AtWorker(w) && t.received[t.workers[w].p.oid - 1] == t.workers[w].p
  {
    hide Queue, QueuedFrom, Contiguous, Holds, WorkersHold, Counts, BusyReason, ClosesWait, HeadsOk, Ascending, PagesKept,
         DispHolds, Numbered;
    OnlyAt(t, w);
    UnsentOid(t.received, t.stage, t.sent, t.workers[w].p.oid);
  }

  /** Every page a worker is working with is its request's own. */
  lemma WorkerPagesAreOwn(acts: seq<Action>, t: State, w: nat, page: Page)
    requires Run(INIT, acts, t) && WorksWith(t, w, page)
    ensures Own(t.pages, t.workers[w].p.oid, page) && t.workers[w].p.oid > |t.sent|
  {
    hide Inv, Own, Custody, Run, Apply, Enabled;
    Reached(acts, t);
    WorkerPagesInv(t, w, page);
  }

  lemma WorkerPagesInv(t: State, w: nat, page: Page)
    requires Inv(t) && Custody(t) && |t.workers| == WORKERS + 1 && WorksWith(t, w, page)
    ensures Own(t.pages, t.workers[w].p.oid, page) && t.workers[w].p.oid > |t.sent|
  {
    hide Inv, Own, Custody;
    AtWorkIsUnsent(t, w);
    UsesIsOwn(t, t.workers[w].p.oid - 1, page);
  }

  lemma TwoWorkers(t: State, w: nat, x: nat)
    requires Inv(t) && w < x <= WORKERS && !t.workers[w].Free? && !t.workers[x].Free?
    ensures t.workers[w].p.oid != t.workers[x].p.oid
  {
    hide Queue, QueuedFrom, Contiguous, Holds, Counts, BusyReason, ClosesWait, HeadsOk, Ascending, PagesKept,
         DispHolds, Numbered, SentInOrder, WorkerOk;
    assert WorkersHold(t.received, t.stage, t.workers);
  }

  /** No two workers ever work with the same page. */
  lemma WorkersAreApart(acts: seq<Action>, t: State, w: nat, x: nat, page: Page)
    requires Run(INIT, acts, t) && w < x && WorksWith(t, w, page)
    ensures !WorksWith(t, x, page)
  {
    hide Inv, Custody, Run, Apply, Enabled;
    Reached(acts, t);
    if WorksWith(t, x, page) {
      WorkerPagesInv(t, w, page);
      WorkerPagesInv(t, x, page);
      TwoWorkers(t, w, x);
      assert false;
    }
  }

  /** The page the next request is being read into is its own already. */
  lemma ReceiverPageIsOwn(acts: seq<Action>, t: State)
    requires Run(INIT, acts, t) && t.recv.Paged?
    ensures Own(t.pages, |t.received| + 1, t.recv.page)
  {
    hide Own, Run, Apply, Enabled, Inv, Held;
    Reached(acts, t);
    SentAreFirst(t);
    GivenIsOwn(t, |t.received| + 1, t.recv.page);
  }

  lemma AmongHeld(s: seq<Item>, stage: seq<Stage>, v: Stage, x: Item)
    requires Holds(Oids(s), stage, v) && x in s
    ensures 0 < x.oid <= |stage| && stage[x.oid - 1] == v
  {
    var i :| 0 <= i < |s| && s[i] == x;
    assert Oids(s)[i] == x.oid;
  }

  lemma ResponseIsUnsent(t: State, x: Item)
    requires Inv(t) && (x in t.responses || x in Unsent(t.outgoing, t.ctl))
    ensures |t.sent| < x.oid <= |t.stage| == |t.received|
    ensures t.stage[x.oid - 1].InResponses? || t.stage[x.oid - 1].InOutgoing?
  {
    hide Queue, QueuedFrom, Contiguous, WorkersHold, Counts, BusyReason, ClosesWait, HeadsOk, Ascending, PagesKept,
         DispHolds, Numbered, Holds, Unsent, Oids, GenuineItem, SentInOrder;
    if x in t.responses {
      AmongHeld(t.responses, t.stage, InResponses, x);
    } else {
      AmongHeld(Unsent(t.outgoing, t.ctl), t.stage, InOutgoing, x);
    }
    UnsentOid(t.received, t.stage, t.sent, x.oid);
  }

  /** Every page the data of a response not yet written is in is that request's own. */
  lemma ResponsePagesAreOwn(acts: seq<Action>, t: State, x: Item, page: Page)
    requires Run(INIT, acts, t) && (x in t.responses || x in Unsent(t.outgoing, t.ctl)) && page in Alloc.Of(t.carried, x.oid)
    ensures Own(t.pages, x.oid, page)
  {
    hide Inv, Own, Custody, Unsent, Run, Apply, Enabled;
    Reached(acts, t);
    ResponseIsUnsent(t, x);
    UsesIsOwn(t, x.oid - 1, page);
  }

  /** A worker reading file data can always have one more page, and nobody was using it. */
  lemma PageIsFresh(acts: seq<Action>, t: State, w: nat)
    requires Run(INIT, acts, t) && w < |t.workers| == WORKERS + 1 && t.workers[w].Busy? && t.workers[w].p.kind.Read?
    ensures Enabled(t, WorkPage(w))
    ensures var u, page := Apply(t, WorkPage(w)), Alloc.Next(t.pages);
            && Alloc.Of(u.hands, w) == Alloc.Of(t.hands, w) + [page]
            && (forall o :: o in t.pages.used ==> page !in t.pages.used[o])
            && Own(u.pages, t.workers[w].p.oid, page)
  {
    hide Inv, Own, Custody, Run, WorksWith;
    Reached(acts, t);
    OneMorePage(t, w);
    LastStep(t, WorkPage(w));
    RunThen(INIT, acts, t, [WorkPage(w)], Apply(t, WorkPage(w)));
    hide Apply, Enabled;
    WorkerPagesAreOwn(acts + [WorkPage(w)], Apply(t, WorkPage(w)), w, Alloc.Next(t.pages));
  }

  lemma OneMorePage(t: State, w: nat)
    requires Inv(t) && w <= WORKERS && t.workers[w].Busy? && t.workers[w].p.kind.Read?
    ensures Enabled(t, WorkPage(w))
    ensures var u := Apply(t, WorkPage(w));
            && Alloc.Of(u.hands, w) == Alloc.Of(t.hands, w) + [Alloc.Next(t.pages)]
            && (forall o :: o in t.pages.used ==> Alloc.Next(t.pages) !in t.pages.used[o])
            && u.workers == t.workers && WorksWith(u, w, Alloc.Next(t.pages))
  {
    hide Numbered, Queue, QueuedFrom, Contiguous, SentInOrder, DispHolds, Holds, WorkersHold, Counts, BusyReason,
         ClosesWait, HeadsOk, Ascending, PagesKept;
    AtWorkIsUnsent(t, w);
    Alloc.GetValid(t.pages, t.workers[w].p.oid);
  }

  /** Once a response has been written and its request popped, nothing is held for it any more. */
  lemma PagesGoBack(acts: seq<Action>, t: State, oid: nat)
    requires Run(INIT, acts, t) && oid <= Popped(t.sent, t.ctl)
    ensures Alloc.Of(t.pages.used, oid) == []
  {
    Reached(acts, t);
    hide Numbered, Queue, QueuedFrom, Contiguous, SentInOrder, DispHolds, Holds, WorkersHold, Counts, BusyReason,
         ClosesWait, HeadsOk, Ascending;
    assert PagesKept(t.pages, t.given, Popped(t.sent, t.ctl), |t.received|);
  }
}
