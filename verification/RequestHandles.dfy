/**
 * Handles of the request server (`request-server.go`, `request.go`): OPEN and
 * OPENDIR register a request under a new handle before the handler is asked,
 * a failed open takes it back, CLOSE removes it and closes what the handler
 * gave out, and the end of `Serve` closes whatever is left. All of this happens
 * on the one command worker, one packet after another.
 */
module RequestHandles {
  import opened Bytes
  import opened Decimal
  import opened Options

  /** A reader or writer given out by a handler: is it an `io.Closer`, and does its `Close` fail? */
  datatype Grant = Grant(closable: bool, closeFails: bool)

  datatype Flags = Flags(read: bool, write: bool, append: bool, creat: bool, trunc: bool) {
    predicate Writes() {
      write || append || creat || trunc
    }
  }

  datatype Reply = Handle(handle: Data) | Status(ok: bool)

  /** What the handler answers when it is asked for a reader, a writer or a lister. */
  datatype Answer = Refused | Given(grant: Grant)

  datatype Event =
    | OpenFile(flags: Flags, hasOpenFile: bool, answer: Answer)
    | OpenDir(accepted: bool)
    | CloseHandle(handle: Data)

  /** Grants are known by their place in the log of everything the handlers gave out. */
  datatype Files = Files(writerAt: Option<nat>, writerReaderAt: Option<nat>, readerAt: Option<nat>)

  const NOTHING := Files(None, None, None)

  predicate CanClose(granted: seq<Grant>, g: nat) {
    g < |granted| && granted[g].closable
  }

  function ToClose(granted: seq<Grant>, f: Option<nat>): seq<nat> {
    if f.Some? && CanClose(granted, f.value) then [f.value] else []
  }

  /** What `Request.close` closes, in its order. */
  function AllToClose(granted: seq<Grant>, f: Files): (r: seq<nat>)
    ensures forall g :: g in r ==> CanClose(granted, g)
  {
    ToClose(granted, f.writerAt) + ToClose(granted, f.writerReaderAt) + ToClose(granted, f.readerAt)
  }

  type Open = map<Data, Files>

  /** The open request under this handle was given this one thing and nothing else. */
  predicate Holds(f: Files, g: nat) {
    f == Files(Some(g), None, None) || f == Files(None, Some(g), None) || f == Files(None, None, Some(g))
  }

  predicate HoldsAt(view: Open, h: Data, g: nat) {
    h in view && Holds(view[h], g)
  }

  ghost predicate Handles(view: Open, issued: seq<Data>, handleCount: nat) {
    && |issued| == handleCount
    && (forall i :: 0 <= i < |issued| ==> issued[i] == Digits(i + 1))
    && (forall h :: h in view ==> h in issued)
  }

  /** An open request holds at most one grant; no grant is held twice, or held and closed. */
  ghost predicate Holdings(view: Open, granted: seq<Grant>, closed: seq<nat>) {
    && (forall h :: h in view && view[h] != NOTHING ==> exists g: nat :: HoldsAt(view, h, g))
    && (forall h, g: nat :: HoldsAt(view, h, g) ==> g < |granted| && g !in closed)
    && (forall h, k, g: nat :: HoldsAt(view, h, g) && HoldsAt(view, k, g) ==> h == k)
  }

  /** Every closable grant has been closed once or is still held by an open request. */
  ghost predicate Accounted(view: Open, granted: seq<Grant>, closed: seq<nat>) {
    && (forall i :: 0 <= i < |closed| ==> CanClose(granted, closed[i]))
    && (forall i, j :: 0 <= i < j < |closed| ==> closed[i] != closed[j])
    && (forall g: nat :: CanClose(granted, g) ==> g in closed || exists h :: HoldsAt(view, h, g))
  }

  ghost predicate Inv(view: Open, issued: seq<Data>, handleCount: nat, granted: seq<Grant>, closed: seq<nat>) {
    Handles(view, issued, handleCount) && Holdings(view, granted, closed) && Accounted(view, granted, closed)
  }

  lemma NewHandleIsNew(view: Open, issued: seq<Data>, handleCount: nat, granted: seq<Grant>, closed: seq<nat>)
    requires Inv(view, issued, handleCount, granted, closed)
    ensures Digits(handleCount + 1) !in issued && Digits(handleCount + 1) !in view
  {
    var h := Digits(handleCount + 1);
    if h in issued {
      var i :| 0 <= i < |issued| && issued[i] == h;
      DigitsInjective(i + 1, handleCount + 1);
    }
  }

  lemma RegisterInv(view: Open, issued: seq<Data>, handleCount: nat, granted: seq<Grant>, closed: seq<nat>, h: Data)
    requires Inv(view, issued, handleCount, granted, closed) && h == Digits(handleCount + 1) && h !in view
    ensures Inv(view[h := NOTHING], issued + [h], handleCount + 1, granted, closed)
  {
    var view' := view[h := NOTHING];
    assert forall k, g: nat :: HoldsAt(view', k, g) <==> HoldsAt(view, k, g);
    forall k | k in view' && view'[k] != NOTHING ensures exists g: nat :: HoldsAt(view', k, g) {
      var g: nat :| HoldsAt(view, k, g);
      assert HoldsAt(view', k, g);
    }
    forall g: nat | CanClose(granted, g) && g !in closed ensures exists k :: HoldsAt(view', k, g) {
      var k :| HoldsAt(view, k, g);
      assert HoldsAt(view', k, g);
    }
  }

  /** The handler's answer goes into the request registered last. */
  lemma GrantInv(view: Open, issued: seq<Data>, handleCount: nat, granted: seq<Grant>, closed: seq<nat>, h: Data, f: Files,
                 x: Grant)
    requires Inv(view, issued, handleCount, granted, closed) && h in view && view[h] == NOTHING && Holds(f, |granted|)
    ensures Inv(view[h := f], issued, handleCount, granted + [x], closed)
  {
    var view', granted' := view[h := f], granted + [x];
    var n := |granted|;
    assert HoldsAt(view', h, n);
    forall k, g: nat | HoldsAt(view', k, g) ensures (k == h && g == n) || (HoldsAt(view, k, g) && g < n) {
    }
    forall k | k in view' && view'[k] != NOTHING ensures exists g: nat :: HoldsAt(view', k, g) {
      if k != h {
        var g: nat :| HoldsAt(view, k, g);
        assert HoldsAt(view', k, g);
      }
    }
    forall g: nat | CanClose(granted', g) && g !in closed ensures exists k :: HoldsAt(view', k, g) {
      if g < n {
        assert CanClose(granted, g);
        var k :| HoldsAt(view, k, g);
        assert HoldsAt(view', k, g);
      }
    }
    forall i | 0 <= i < |closed| ensures CanClose(granted', closed[i]) {
      assert CanClose(granted, closed[i]);
    }
  }

  lemma NoneToClose(granted: seq<Grant>)
    ensures AllToClose(granted, NOTHING) == []
  {
  }

  lemma OneToClose(granted: seq<Grant>, f: Files, g: nat)
    requires Holds(f, g)
    ensures AllToClose(granted, f) == if CanClose(granted, g) then [g] else []
  {
  }

  lemma CloseInv(view: Open, issued: seq<Data>, handleCount: nat, granted: seq<Grant>, closed: seq<nat>, h: Data)
    requires Inv(view, issued, handleCount, granted, closed) && h in view
    ensures Inv(view - {h}, issued, handleCount, granted, closed + AllToClose(granted, view[h]))
  {
    hide AllToClose;
    var view', closed' := view - {h}, closed + AllToClose(granted, view[h]);
    assert forall k, g: nat :: HoldsAt(view', k, g) ==> HoldsAt(view, k, g);
    forall k | k in view' && view'[k] != NOTHING ensures exists g: nat :: HoldsAt(view', k, g) {
      var g: nat :| HoldsAt(view, k, g);
      assert HoldsAt(view', k, g);
    }
    if view[h] == NOTHING {
      NoneToClose(granted);
    } else {
      var g: nat :| HoldsAt(view, h, g);
      assert HoldsAt(view, h, g);
      OneToClose(granted, view[h], g);
    }
    forall g: nat | CanClose(granted, g) && g !in closed' ensures exists k :: HoldsAt(view', k, g) {
      var k :| HoldsAt(view, k, g);
      assert HoldsAt(view', k, g);
    }
  }

  class Request {
    var handle: Data
    var files: Files
    var isList: bool

    constructor ()
      ensures files == NOTHING
    {
      handle, files, isList := [], NOTHING, false;
    }
  }

  class RequestServer {
    var openRequests: map<Data, Request>
    var handleCount: nat
    /** Everything handed out, in order, and every call of `Close` on it, in order. */
    var granted: seq<Grant>
    var closed: seq<nat>
    /** Every handle ever issued. */
    ghost var issued: seq<Data>

    ghost function View(): Open
      reads this, openRequests.Values
    {
      map h | h in openRequests :: openRequests[h].files
    }

    ghost predicate Valid()
      reads this, openRequests.Values
    {
      && (forall h :: h in openRequests ==> openRequests[h].handle == h)
      && Inv(View(), issued, handleCount, granted, closed)
    }

    constructor ()
      ensures Valid() && openRequests == map[] && granted == [] && closed == [] && issued == []
    {
      openRequests, handleCount, granted, closed, issued := map[], 0, [], [], [];
      new;
      assert View() == map[];
    }

    /** The new handle is unlike every handle ever issued. */
    method NextRequest(r: Request) returns (handle: Data)
      requires Valid() && r !in openRequests.Values && r.files == NOTHING
      modifies this`openRequests, this`handleCount, this`issued, r`handle
      ensures Valid() && handle !in old(issued) && issued == old(issued) + [handle]
      ensures handle !in old(openRequests) && openRequests == old(openRequests)[handle := r]
      ensures View() == old(View())[handle := NOTHING]
    {
      hide Inv;
      NewHandleIsNew(View(), issued, handleCount, granted, closed);
      RegisterInv(View(), issued, handleCount, granted, closed, Digits(handleCount + 1));
      handleCount := handleCount + 1;
      handle := Digits(handleCount);
      r.handle := handle;
      openRequests := openRequests[handle := r];
      issued := issued + [handle];
      assert View() == old(View())[handle := NOTHING];
    }

    /** `Request.close`: the writer, then the reader-writer, then the reader; the first error is reported. */
    method CloseFiles(r: Request) returns (ok: bool)
      modifies this`closed, r`files
      ensures closed == old(closed) + AllToClose(granted, old(r.files))
      ensures ok <==> forall g :: g in AllToClose(granted, old(r.files)) ==> !granted[g].closeFails
    {
      var wr, rw, rd := r.files.writerAt, r.files.writerReaderAt, r.files.readerAt;
      ok := true;
      if wr.Some? && CanClose(granted, wr.value) {
        closed := closed + [wr.value];
        ok := !granted[wr.value].closeFails;
      }
      if rw.Some? && CanClose(granted, rw.value) {
        closed := closed + [rw.value];
        if ok {
          ok := !granted[rw.value].closeFails;
          r.files := r.files.(writerReaderAt := None);
        }
      }
      if rd.Some? && CanClose(granted, rd.value) {
        closed := closed + [rd.value];
        if ok {
          ok := !granted[rd.value].closeFails;
        }
      }
    }

    method CloseRequest(handle: Data) returns (ok: bool)
      requires Valid()
      modifies this`openRequests, this`closed, openRequests.Values`files
      ensures Valid() && openRequests == old(openRequests) - {handle} && View() == old(View()) - {handle}
      ensures handle !in old(openRequests) ==> !ok && closed == old(closed)
      ensures handle in old(openRequests) ==> closed == old(closed) + AllToClose(granted, old(View())[handle])
      ensures handle in old(openRequests) ==>
        (ok <==> forall g :: g in AllToClose(granted, old(View())[handle]) ==> !granted[g].closeFails)
    {
      hide Inv;
      ok := false;
      if handle in openRequests {
        CloseInv(View(), issued, handleCount, granted, closed, handle);
        var r := openRequests[handle];
        openRequests := openRequests - {handle};
        ok := CloseFiles(r);
      }
      assert View() == old(View()) - {handle};
    }

    /** Record what the handler gave out for a registered request. */
    method Keep(handle: Data, grant: Grant, files: Files)
      requires Valid() && handle in openRequests && View()[handle] == NOTHING && Holds(files, |granted|)
      modifies this`granted, openRequests.Values`files
      ensures Valid() && granted == old(granted) + [grant] && View() == old(View())[handle := files]
    {
      hide Inv;
      GrantInv(View(), issued, handleCount, granted, closed, handle, files, grant);
      openRequests[handle].files := files;
      granted := granted + [grant];
      assert View() == old(View())[handle := files];
    }

    /** A new request, registered under a new handle. */
    method Register() returns (handle: Data)
      requires Valid()
      modifies this`openRequests, this`handleCount, this`issued
      ensures Valid() && handle !in old(issued) && issued == old(issued) + [handle]
      ensures handle !in old(View()) && View() == old(View())[handle := NOTHING]
      ensures handle in openRequests && fresh(openRequests.Values - old(openRequests.Values))
    {
      hide Inv;
      var r := new Request();
      handle := NextRequest(r);
      assert openRequests.Values <= old(openRequests.Values) + {r};
    }

    /** A failed open takes its request back, and closes nothing. */
    method Withdraw(handle: Data)
      requires Valid() && handle in openRequests && View()[handle] == NOTHING
      modifies this`openRequests, this`closed, openRequests.Values`files
      ensures Valid() && View() == old(View()) - {handle} && closed == old(closed)
      ensures openRequests.Values <= old(openRequests.Values)
    {
      hide Inv;
      var _ := CloseRequest(handle);
      NoneToClose(granted);
    }

    /**
     * OPEN. It succeeds when the flags ask for something and the handler agrees, and then the request is
     * open under a handle never used before, holding just what it was given; otherwise nothing is left of it.
     */
    method OpenFile(flags: Flags, hasOpenFile: bool, answer: Answer) returns (reply: Reply)
      requires Valid()
      modifies this, openRequests.Values`files
      ensures Valid() && closed == old(closed) && granted == old(granted) + Granted(Event.OpenFile(flags, hasOpenFile, answer))
      ensures reply.Handle? <==> Granted(Event.OpenFile(flags, hasOpenFile, answer)) != []
      ensures reply.Handle? ==> View() == old(View())[reply.handle := Slot(flags, hasOpenFile, |old(granted)|)]
      ensures reply.Status? ==> !reply.ok && View() == old(View())
      ensures Issues(old(issued), issued, reply) && fresh(openRequests.Values - old(openRequests.Values))
    {
      hide Inv, View;
      var h := Register();
      if flags.Writes() && answer.Given? {
        var f := if flags.read && hasOpenFile then Files(None, Some(|granted|), None) else Files(Some(|granted|), None, None);
        Keep(h, answer.grant, f);
        reply := Reply.Handle(h);
      } else if !flags.Writes() && flags.read && answer.Given? {
        Keep(h, answer.grant, Files(None, None, Some(|granted|)));
        reply := Reply.Handle(h);
      } else {
        Withdraw(h);
        reply := Status(false);
        assert old(View())[h := NOTHING] - {h} == old(View());
      }
    }

    method OpenDir(accepted: bool) returns (reply: Reply)
      requires Valid()
      modifies this, openRequests.Values`files
      ensures Valid() && closed == old(closed) && granted == old(granted) && (reply.Handle? <==> accepted)
      ensures View() == if reply.Handle? then old(View())[reply.handle := NOTHING] else old(View())
      ensures reply.Status? ==> !reply.ok
      ensures Issues(old(issued), issued, reply) && fresh(openRequests.Values - old(openRequests.Values))
    {
      hide Inv, View;
      var h := Register();
      if accepted {
        reply := Reply.Handle(h);
      } else {
        Withdraw(h);
        reply := Status(false);
        assert old(View())[h := NOTHING] - {h} == old(View());
      }
    }

    method Handle(e: Event) returns (reply: Reply)
      requires Valid()
      modifies this, openRequests.Values`files
      ensures Valid() && granted == old(granted) + Granted(e)
      ensures View() == After(old(View()), e, reply, |old(granted)|)
      ensures e.CloseHandle? && e.handle in old(View()) ==> closed == old(closed) + AllToClose(granted, old(View())[e.handle])
      ensures !e.CloseHandle? || e.handle !in old(View()) ==> closed == old(closed)
      ensures reply.Handle? <==> Opens(e)
      ensures !e.CloseHandle? && !Opens(e) ==> reply == Status(false)
      ensures e.CloseHandle? ==> reply == Status(e.handle in old(View()) && CloseWell(Kept(old(granted), old(View())[e.handle])))
      ensures Issues(old(issued), issued, reply) && fresh(openRequests.Values - old(openRequests.Values))
    {
      hide Inv, View;
      match e {
        case OpenFile(flags, has, answer) => reply := OpenFile(flags, has, answer);
        case OpenDir(accepted) => reply := OpenDir(accepted);
        case CloseHandle(h) =>
          ViewKeys();
          if h in View() {
            ClosesAll(granted, View()[h]);
          }
          var ok := CloseRequest(h);
          reply := Status(ok);
          assert granted == old(granted);
      }
    }

    lemma ViewKeys()
      ensures forall h :: h in View() <==> h in openRequests
    {
    }

    /** The end of `Serve`: whatever is still open is removed and closed, in any order. */
    method CloseAll()
      requires Valid()
      modifies this`openRequests, this`closed, openRequests.Values`files
      ensures Valid() && openRequests == map[]
      ensures forall g: nat :: CanClose(granted, g) <==> g in closed
      ensures forall i, j :: 0 <= i < j < |closed| ==> closed[i] != closed[j]
    {
      while openRequests != map[]
        invariant Valid() && openRequests.Values <= old(openRequests.Values)
        decreases |openRequests|
      {
        hide Inv;
        var h :| h in openRequests;
        var _ := CloseRequest(h);
        assert h !in openRequests;
      }
      assert View() == map[];
      EverythingClosed(issued, handleCount, granted, closed);
    }

    /**
     * A whole session: any sequence of OPEN, OPENDIR and CLOSE packets, and then the end of `Serve`. Every reply is
     * the one its packet and the packets before it call for, no two handles given out are the same, and everything
     * closable that the handlers gave out is closed exactly once.
     */
    method Serve(events: seq<Event>) returns (replies: seq<Reply>)
      requires Valid() && openRequests == map[] && granted == [] && closed == [] && issued == []
      modifies this
      ensures openRequests == map[] && granted == AllGranted(events) && |replies| == |events|
      ensures forall g: nat :: CanClose(granted, g) <==> g in closed
      ensures forall i, j :: 0 <= i < j < |closed| ==> closed[i] != closed[j]
      ensures forall i, j :: 0 <= i < j < |replies| && replies[i].Handle? && replies[j].Handle? ==>
        replies[i].handle != replies[j].handle
      ensures forall i :: 0 <= i < |events| ==> IsDue(events, replies, i)
    {
      hide Inv, View, Granted, AllGranted, Tracks, IsDue, After, Kept, CloseWell;
      replies := [];
      GrantedNone();
      assert events[..0] == [];
      ViewKeys();
      TracksNone(View(), granted, events, replies);
      for i := 0 to |events|
        invariant Valid() && |replies| == i && granted == AllGranted(events[..i])
        invariant forall k :: 0 <= k < i && replies[k].Handle? ==> replies[k].handle in issued
        invariant forall j, k :: 0 <= j < k < i && replies[j].Handle? && replies[k].Handle? ==> replies[j].handle != replies[k].handle
        invariant fresh(openRequests.Values) && Tracks(View(), granted, events, replies, i)
        invariant forall k :: 0 <= k < i ==> IsDue(events, replies, k)
      {
        ghost var view, had, before := View(), granted, replies;
        ViewInLog(view, issued, handleCount, granted, closed);
        var reply := Handle(events[i]);
        replies := replies + [reply];
        GrantedNext(events, i);
        TracksNext(view, had, events, before, i, reply);
        DueNext(view, had, events, before, i, reply);
      }
      assert events[..|events|] == events;
      CloseAll();
    }
  }

  // ---- what the replies of a session should be ----

  /** The packet opens something and is given a handle. */
  predicate Opens(e: Event) {
    (e.OpenDir? && e.accepted) || Granted(e) != []
  }

  /** The packet, among the first `n`, that opened what is now open under `h`. */
  function OpenSince(events: seq<Event>, replies: seq<Reply>, n: nat, h: Data): (r: Option<nat>)
    requires n <= |events| && n <= |replies|
    ensures r.Some? ==> r.value < n
  {
    if n == 0 then None
    else if replies[n - 1] == Reply.Handle(h) then Some(n - 1)
    else if events[n - 1] == CloseHandle(h) then None
    else OpenSince(events, replies, n - 1, h)
  }

  predicate CloseWell(given: seq<Grant>) {
    forall i :: 0 <= i < |given| ==> !(given[i].closable && given[i].closeFails)
  }

  /**
   * Packet `i` got the reply that it and the packets before it call for: a handle for what opens something, failure for
   * an open that does not; and for a CLOSE, success exactly when its handle is open and what was given out for it closes.
   */
  predicate IsDue(events: seq<Event>, replies: seq<Reply>, i: nat)
    requires i < |events| && i < |replies|
  {
    match events[i]
    case CloseHandle(h) =>
      var opener := OpenSince(events, replies, i, h);
      replies[i] == Status(opener.Some? && CloseWell(Granted(events[opener.value])))
    case e => if Opens(e) then replies[i].Handle? else replies[i] == Status(false)
  }

  function Given(granted: seq<Grant>, f: Option<nat>): seq<Grant> {
    if f.Some? && f.value < |granted| then [granted[f.value]] else []
  }

  /** What was given out for an open request. */
  function Kept(granted: seq<Grant>, f: Files): seq<Grant> {
    Given(granted, f.writerAt) + Given(granted, f.writerReaderAt) + Given(granted, f.readerAt)
  }

  lemma ClosesAll(granted: seq<Grant>, f: Files)
    ensures CloseWell(Kept(granted, f)) <==> forall g :: g in AllToClose(granted, f) ==> !granted[g].closeFails
  {
    var k := Kept(granted, f);
    if CloseWell(k) {
      forall g | g in AllToClose(granted, f) ensures !granted[g].closeFails {
        assert granted[g] in k;
      }
    }
    if forall g :: g in AllToClose(granted, f) ==> !granted[g].closeFails {
      forall i | 0 <= i < |k| ensures !(k[i].closable && k[i].closeFails) {
        if k[i].closable && k[i].closeFails {
          ClosesOne(granted, f, k[i]);
        }
      }
    }
  }

  lemma ClosesOne(granted: seq<Grant>, f: Files, x: Grant)
    requires x in Given(granted, f.writerAt) || x in Given(granted, f.writerReaderAt) || x in Given(granted, f.readerAt)
    requires x.closable && x.closeFails
    ensures exists g: nat :: g in AllToClose(granted, f) && granted[g].closeFails
  {
    var o := if x in Given(granted, f.writerAt) then f.writerAt
             else if x in Given(granted, f.writerReaderAt) then f.writerReaderAt else f.readerAt;
    assert o.value in ToClose(granted, o);
    assert o.value in AllToClose(granted, f);
  }

  /** The open requests after one packet. */
  function After(view: Open, e: Event, reply: Reply, g: nat): Open {
    match e
    case CloseHandle(h) => view - {h}
    case OpenFile(flags, has, _) => if reply.Handle? then view[reply.handle := Slot(flags, has, g)] else view
    case OpenDir(_) => if reply.Handle? then view[reply.handle := NOTHING] else view
  }

  /** `h` is open if the packets left it open, and with what was given out for it. */
  predicate TracksAt(view: Open, granted: seq<Grant>, events: seq<Event>, opener: Option<nat>, h: Data)
    requires opener.Some? ==> opener.value < |events|
  {
    (h in view <==> opener.Some?) && (h in view ==> Kept(granted, view[h]) == Granted(events[opener.value]))
  }

  ghost predicate Tracks(view: Open, granted: seq<Grant>, events: seq<Event>, replies: seq<Reply>, n: nat)
    requires n <= |events| && n <= |replies|
  {
    forall h :: TracksAt(view, granted, events, OpenSince(events, replies, n, h), h)
  }

  lemma {:induction false} SincePrefix(events: seq<Event>, replies: seq<Reply>, r: Reply, n: nat, h: Data)
    requires n <= |events| && n <= |replies|
    ensures OpenSince(events, replies + [r], n, h) == OpenSince(events, replies, n, h)
  {
    if n > 0 {
      SincePrefix(events, replies, r, n - 1, h);
    }
  }

  predicate InLog(f: Files, n: nat) {
    (f.writerAt.Some? ==> f.writerAt.value < n) && (f.writerReaderAt.Some? ==> f.writerReaderAt.value < n)
    && (f.readerAt.Some? ==> f.readerAt.value < n)
  }

  ghost predicate AllInLog(view: Open, n: nat) {
    forall h :: h in view ==> InLog(view[h], n)
  }

  lemma ViewInLog(view: Open, issued: seq<Data>, handleCount: nat, granted: seq<Grant>, closed: seq<nat>)
    requires Inv(view, issued, handleCount, granted, closed)
    ensures AllInLog(view, |granted|) && forall h :: h in view ==> h in issued
  {
    forall h | h in view ensures InLog(view[h], |granted|) {
      if view[h] != NOTHING {
        var g: nat :| HoldsAt(view, h, g);
      }
    }
  }

  lemma KeptGrows(granted: seq<Grant>, more: seq<Grant>, f: Files)
    requires InLog(f, |granted|)
    ensures Kept(granted + more, f) == Kept(granted, f)
  {
  }

  lemma TracksNone(view: Open, granted: seq<Grant>, events: seq<Event>, replies: seq<Reply>)
    requires forall h :: h !in view
    ensures Tracks(view, granted, events, replies, 0)
  {
  }

  /** What a packet and its reply have to do with each other. */
  predicate Fits(view: Open, e: Event, reply: Reply) {
    && (reply.Handle? <==> Opens(e)) && (reply.Handle? ==> reply.handle !in view)
  }

  /** A new request keeps what was given out for it. */
  lemma SlotKept(granted: seq<Grant>, e: Event)
    requires e.OpenFile? && Granted(e) != []
    ensures Kept(granted + Granted(e), Slot(e.flags, e.hasOpenFile, |granted|)) == Granted(e)
  {
    assert (granted + Granted(e))[|granted|] == e.answer.grant;
  }

  lemma NothingKept(granted: seq<Grant>, e: Event)
    requires e.OpenDir?
    ensures Kept(granted + Granted(e), NOTHING) == Granted(e)
  {
  }

  lemma SinceNext(events: seq<Event>, replies: seq<Reply>, n: nat, reply: Reply, h: Data)
    requires n < |events| && |replies| == n
    ensures OpenSince(events, replies + [reply], n + 1, h) ==
            if reply == Reply.Handle(h) then Some(n)
            else if events[n] == CloseHandle(h) then None
            else OpenSince(events, replies, n, h)
  {
    SincePrefix(events, replies, reply, n, h);
  }

  lemma TracksOne(view: Open, granted: seq<Grant>, events: seq<Event>, replies: seq<Reply>, n: nat, reply: Reply, h: Data)
    requires n < |events| && |replies| == n && TracksAt(view, granted, events, OpenSince(events, replies, n, h), h)
    requires (h in view ==> InLog(view[h], |granted|)) && Fits(view, events[n], reply)
    ensures TracksAt(After(view, events[n], reply, |granted|), granted + Granted(events[n]), events,
                     OpenSince(events, replies + [reply], n + 1, h), h)
  {
    var e := events[n];
    assert e.CloseHandle? ==> !Opens(e);
    hide Kept, Slot, InLog, Granted, OpenSince;
    SinceNext(events, replies, n, reply, h);
    if reply == Reply.Handle(h) {
      if e.OpenFile? {
        SlotKept(granted, e);
      } else {
        NothingKept(granted, e);
      }
    } else if h in view {
      KeptGrows(granted, Granted(e), view[h]);
    }
  }

  lemma TracksNext(view: Open, granted: seq<Grant>, events: seq<Event>, replies: seq<Reply>, n: nat, reply: Reply)
    requires n < |events| && |replies| == n && Tracks(view, granted, events, replies, n) && AllInLog(view, |granted|)
    requires Fits(view, events[n], reply)
    ensures Tracks(After(view, events[n], reply, |granted|), granted + Granted(events[n]), events, replies + [reply], n + 1)
  {
    hide TracksAt, Fits, After, Granted, InLog;
    var view', granted' := After(view, events[n], reply, |granted|), granted + Granted(events[n]);
    var replies', n' := replies + [reply], n + 1;
    forall h ensures TracksAt(view', granted', events, OpenSince(events, replies', n', h), h) {
      TracksOne(view, granted, events, replies, n, reply, h);
    }
  }

  lemma DueNext(view: Open, granted: seq<Grant>, events: seq<Event>, replies: seq<Reply>, n: nat, reply: Reply)
    requires n < |events| && |replies| == n && Tracks(view, granted, events, replies, n) && Fits(view, events[n], reply)
    requires forall k :: 0 <= k < n ==> IsDue(events, replies, k)
    requires !events[n].CloseHandle? && !Opens(events[n]) ==> reply == Status(false)
    requires events[n].CloseHandle? ==>
               reply == Status(events[n].handle in view && CloseWell(Kept(granted, view[events[n].handle])))
    ensures forall k :: 0 <= k <= n ==> IsDue(events, replies + [reply], k)
  {
    hide OpenSince, CloseWell, Kept, Granted;
    forall k | 0 <= k <= n ensures IsDue(events, replies + [reply], k) {
      if events[k].CloseHandle? {
        assert TracksAt(view, granted, events, OpenSince(events, replies, n, events[k].handle), events[k].handle);
        SincePrefix(events, replies, reply, k, events[k].handle);
      }
      if k < n {
        assert IsDue(events, replies, k);
      }
    }
  }

  /** The handles issued only grow, and a handle given out is new. */
  predicate Issues(before: seq<Data>, after: seq<Data>, reply: Reply) {
    before <= after && (reply.Handle? ==> reply.handle !in before && reply.handle in after)
  }

  lemma EverythingClosed(issued: seq<Data>, handleCount: nat, granted: seq<Grant>, closed: seq<nat>)
    requires Inv(map[], issued, handleCount, granted, closed)
    ensures forall g: nat :: CanClose(granted, g) <==> g in closed
    ensures forall i, j :: 0 <= i < j < |closed| ==> closed[i] != closed[j]
  {
    forall g: nat | CanClose(granted, g) ensures g in closed {
      assert forall h :: !HoldsAt(map[], h, g);
    }
  }

  function AllGranted(events: seq<Event>): seq<Grant> {
    if events == [] then [] else AllGranted(events[..|events| - 1]) + Granted(events[|events| - 1])
  }

  lemma GrantedNone()
    ensures AllGranted([]) == []
  {
  }

  lemma GrantedNext(events: seq<Event>, i: nat)
    requires i < |events|
    ensures AllGranted(events[..i + 1]) == AllGranted(events[..i]) + Granted(events[i])
  {
    assert events[..i + 1][..i] == events[..i];
  }

  /** Where `open` keeps what it was given. */
  function Slot(flags: Flags, hasOpenFile: bool, g: nat): (f: Files)
    ensures Holds(f, g)
  {
    if !flags.Writes() then Files(None, None, Some(g))
    else if flags.read && hasOpenFile then Files(None, Some(g), None)
    else Files(Some(g), None, None)
  }

  /** What the handlers give out for one packet. */
  function Granted(e: Event): seq<Grant> {
    if e.OpenFile? && (e.flags.Writes() || e.flags.read) && e.answer.Given? then [e.answer.grant] else []
  }
}
