/**
 * `File.ReadAt`: a read split into many outstanding requests whose answers
 * come back in any order, each possibly short.
 */
module ClientRead {
  import opened Bytes

  /** What the server may answer to a READ; `Refused` is any status but EOF. */
  datatype Answer = Chunk(n: nat) | EndOfFile | Refused

  /** One outstanding request, for buffer positions `lo .. lo + len`. */
  datatype Inflight = Inflight(lo: nat, len: nat)

  /** The error with the lowest offset seen so far. */
  datatype OffsetErr = NoErr | Eof(offset: nat) | Failed(offset: nat)

  datatype Outcome = Ok | AtEnd | Error

  /** The local variables of the call. */
  datatype Call = Call(sent: nat, inFlight: nat, desired: nat, lastId: nat, read: nat,
                       reqs: map<nat, Inflight>, firstErr: OffsetErr)

  /**
   * The books kept for the proof: positions already holding file bytes, the request
   * each outstanding position belongs to, whether a result was lost, and the positions at which
   * a read was refused or answered with the end of the file.
   */
  datatype Book = Book(filled: set<nat>, owner: map<nat, nat>, lost: bool, refused: set<nat>, ended: set<nat>)

  /** The server returns true file bytes, at least one when it returns data. */
  predicate Legal(file: Data, pos: nat, len: nat, a: Answer) {
    && (a.Chunk? ==> 1 <= a.n <= len && pos + a.n <= |file|)
    && (a.EndOfFile? ==> pos >= |file|)
  }

  predicate Inside(r: Inflight, p: nat) {
    r.lo <= p < r.lo + r.len
  }

  /** The first outstanding request from `i` on. */
  function FirstFrom<T>(reqs: map<nat, T>, i: nat, last: nat): nat
    decreases if i < last then last - i else 0
  {
    if i in reqs || i >= last then i else FirstFrom(reqs, i + 1, last)
  }

  function Pick<T>(reqs: map<nat, T>, last: nat, k: nat): nat {
    var id := FirstFrom(reqs, k, last);
    if id in reqs then id else FirstFrom(reqs, 0, last)
  }

  lemma {:induction false} FirstFound<T>(reqs: map<nat, T>, i: nat, last: nat, id: nat)
    requires i <= id <= last && id in reqs
    ensures FirstFrom(reqs, i, last) in reqs
    decreases last - i
  {
    if i !in reqs && i < last {
      FirstFound(reqs, i + 1, last, id);
    }
  }

  /** Whichever request is outstanding can be the one picked. */
  lemma PickFinds<T>(reqs: map<nat, T>, last: nat, k: nat)
    requires reqs != map[] && forall id :: id in reqs ==> id <= last
    ensures Pick(reqs, last, k) in reqs && (k in reqs ==> Pick(reqs, last, k) == k)
  {
    var id :| id in reqs;
    FirstFound(reqs, 0, last, id);
  }

  /** Requests ask for something, in the sent part of the buffer. */
  ghost predicate Bounds(reqs: map<nat, Inflight>, lastId: nat, sent: nat) {
    forall id :: id in reqs ==> id <= lastId && reqs[id].len >= 1 && reqs[id].lo + reqs[id].len <= sent
  }

  /** A request owns all of its positions. */
  ghost predicate Owns(owner: map<nat, nat>, id: nat, r: Inflight) {
    forall p :: r.lo <= p < r.lo + r.len ==> p in owner && owner[p] == id
  }

  /** Requests own their positions, and nobody else owns any. */
  ghost predicate Owners(reqs: map<nat, Inflight>, owner: map<nat, nat>) {
    && (forall id :: id in reqs ==> Owns(owner, id, reqs[id]))
    && (forall p :: p in owner ==> owner[p] in reqs && Inside(reqs[owner[p]], p))
  }

  /** The only excuse for a sent position that is neither filled nor still asked for. */
  ghost predicate Excused(file: Data, e: OffsetErr, pos: nat) {
    && !e.NoErr?
    && (pos >= |file| || (e.Failed? && pos >= e.offset))
  }

  ghost predicate Accounted(file: Data, off: nat, sent: nat, filled: set<nat>, owner: map<nat, nat>, e: OffsetErr) {
    && (forall p :: p in filled ==> p < sent && p !in owner)
    && (forall p: nat :: p < sent && p !in filled && p !in owner ==> Excused(file, e, off + p))
    && (e.Eof? ==> |file| <= e.offset && off <= e.offset < off + sent)
  }

  ghost predicate Filled(file: Data, off: nat, now: Data, was: Data, filled: set<nat>) {
    && |now| == |was|
    && (forall p :: p in filled ==> p < |now| && off + p < |file| && now[p] == file[off + p])
    && (forall p :: 0 <= p < |now| && p !in filled ==> now[p] == was[p])
  }

  /** The error kept is that of the lowest position with a status, unless a result was lost. */
  ghost predicate Statuses(off: nat, sent: nat, owner: map<nat, nat>, e: OffsetErr, lost: bool, refused: set<nat>, ended: set<nat>) {
    && refused !! ended
    && (forall p :: p in refused + ended ==> p < sent && p !in owner && !e.NoErr? && e.offset <= off + p)
    && (e.Failed? && !lost ==> e.offset >= off && e.offset - off in refused)
    && (e.Eof? ==> e.offset >= off && e.offset - off in ended)
  }

  ghost predicate Inv(file: Data, off: nat, len: nat, c: Call, k: Book) {
    && c.sent <= len
    && Bounds(c.reqs, c.lastId, c.sent)
    && Owners(c.reqs, k.owner)
    && Accounted(file, off, c.sent, k.filled, k.owner, c.firstErr)
    && c.read == |k.filled|
    && (if k.lost then c.firstErr == Failed(0) else |c.reqs| == c.inFlight)
    && Statuses(off, c.sent, k.owner, c.firstErr, k.lost, k.refused, k.ended)
  }

  lemma {:induction false} IntervalCard(s: set<nat>, n: nat)
    requires forall p: nat :: p in s <==> p < n
    ensures |s| == n
  {
    if n == 0 {
      assert s == {};
    } else {
      IntervalCard(s - {n - 1}, n - 1);
    }
  }

  lemma {:induction false} AddRange(s: set<nat>, lo: nat, k: nat) returns (t: set<nat>)
    requires forall i :: lo <= i < lo + k ==> i !in s
    ensures |t| == |s| + k
    ensures forall p: nat :: p in t <==> p in s || lo <= p < lo + k
  {
    if k == 0 {
      t := s;
    } else {
      var u := AddRange(s, lo, k - 1);
      t := u + {lo + k - 1};
    }
  }

  /** `sendReq` for the next `l` bytes of the buffer. */
  function Send(c: Call, l: nat): Call {
    c.(lastId := c.lastId + 1, reqs := c.reqs[c.lastId + 1 := Inflight(c.sent, l)],
       inFlight := c.inFlight + 1, sent := c.sent + l)
  }

  ghost function SendBook(c: Call, k: Book, l: nat): Book {
    k.(owner := k.owner + map p: nat | p < c.sent + l && Inside(Inflight(c.sent, l), p) :: c.lastId + 1)
  }

  lemma SendOwners(reqs: map<nat, Inflight>, lastId: nat, sent: nat, owner: map<nat, nat>, r: Inflight,
                   reqs': map<nat, Inflight>, owner': map<nat, nat>)
    requires Bounds(reqs, lastId, sent) && Owners(reqs, owner) && r.lo == sent
    requires reqs' == reqs[lastId + 1 := r]
    requires forall p: nat :: p in owner' <==> p in owner || Inside(r, p)
    requires forall p: nat :: p in owner' ==> owner'[p] == if Inside(r, p) then lastId + 1 else owner[p]
    ensures Owners(reqs', owner')
    ensures |reqs'| == |reqs| + 1
  {
    forall id | id in reqs' ensures Owns(owner', id, reqs'[id]) {
      assert id != lastId + 1 ==> Owns(owner, id, reqs[id]);
      forall p | reqs'[id].lo <= p < reqs'[id].lo + reqs'[id].len ensures p in owner' && owner'[p] == id {
        assert Inside(r, p) <==> id == lastId + 1;
      }
    }
    forall p | p in owner' ensures owner'[p] in reqs' && Inside(reqs'[owner'[p]], p) {
      if p in owner {
        assert owner[p] in reqs && Inside(reqs[owner[p]], p);
      }
    }
  }

  lemma SendBounds(reqs: map<nat, Inflight>, lastId: nat, sent: nat, r: Inflight, reqs': map<nat, Inflight>, lastId': nat, sent': nat)
    requires Bounds(reqs, lastId, sent) && r.lo == sent && r.len >= 1 && lastId' == lastId + 1 && sent' == sent + r.len
    requires reqs' == reqs[lastId' := r]
    ensures Bounds(reqs', lastId', sent')
  {
  }

  lemma SendAccounted(file: Data, off: nat, sent: nat, filled: set<nat>, owner: map<nat, nat>, r: Inflight,
                      sent': nat, owner': map<nat, nat>)
    requires Accounted(file, off, sent, filled, owner, NoErr) && r.lo == sent && sent' == sent + r.len
    requires forall p: nat :: p in owner' <==> p in owner || Inside(r, p)
    ensures Accounted(file, off, sent', filled, owner', NoErr)
  {
  }

  lemma SendInv(file: Data, off: nat, len: nat, c: Call, k: Book, l: nat)
    requires Inv(file, off, len, c, k) && 1 <= l <= len - c.sent && c.firstErr.NoErr?
    ensures Inv(file, off, len, Send(c, l), SendBook(c, k, l))
  {
    hide Owners, Accounted, Bounds, Statuses;
    var r := Inflight(c.sent, l);
    var c', k' := Send(c, l), SendBook(c, k, l);
    SendBounds(c.reqs, c.lastId, c.sent, r, c'.reqs, c'.lastId, c'.sent);
    SendOwners(c.reqs, c.lastId, c.sent, k.owner, r, c'.reqs, k'.owner);
    SendAccounted(file, off, c.sent, k.filled, k.owner, r, c'.sent, k'.owner);
    SendStatuses(off, c.sent, k.owner, k.lost, k.refused, k.ended, c'.sent, k'.owner);
  }

  /** The request table once `n` bytes answered request `id`; the rest, if any, is asked for again. */
  function Asking(reqs: map<nat, Inflight>, id: nat, n: nat, newId: nat): map<nat, Inflight>
    requires id in reqs && n <= reqs[id].len
  {
    if n < reqs[id].len then (reqs - {id})[newId := Inflight(reqs[id].lo + n, reqs[id].len - n)] else reqs - {id}
  }

  function TakeChunk(c: Call, id: nat, n: nat, maxConcurrent: nat): Call
    requires id in c.reqs && n <= c.reqs[id].len
  {
    c.(read := c.read + n,
       inFlight := if n < c.reqs[id].len then c.inFlight + 1 else c.inFlight,
       reqs := Asking(c.reqs, id, n, c.lastId + 1),
       lastId := c.lastId + 1,
       desired := if c.desired < maxConcurrent then c.desired + 1 else c.desired)
  }

  ghost function ChunkBook(c: Call, k: Book, id: nat, n: nat, filled: set<nat>): Book
    requires id in c.reqs && n <= c.reqs[id].len
  {
    k.(filled := filled,
       owner := map p: nat | p in k.owner && !Inside(Inflight(c.reqs[id].lo, n), p)
                   :: if k.owner[p] == id then c.lastId + 1 else k.owner[p])
  }

  lemma ChunkOwns(reqs: map<nat, Inflight>, owner: map<nat, nat>, id: nat, n: nat, newId: nat,
                  reqs': map<nat, Inflight>, owner': map<nat, nat>, j: nat)
    requires Owners(reqs, owner) && id in reqs && 1 <= n <= reqs[id].len && newId !in reqs
    requires reqs' == Asking(reqs, id, n, newId) && j in reqs'
    requires forall p: nat :: p in owner' <==> p in owner && !Inside(Inflight(reqs[id].lo, n), p)
    requires forall p: nat :: p in owner' ==> owner'[p] == if owner[p] == id then newId else owner[p]
    ensures Owns(owner', j, reqs'[j])
  {
    var i := if j == newId then id else j;
    assert Owns(owner, i, reqs[i]) && Owns(owner, id, reqs[id]);
    forall p | reqs'[j].lo <= p < reqs'[j].lo + reqs'[j].len ensures p in owner' && owner'[p] == j {
      assert p in owner && owner[p] == i;
    }
  }

  lemma ChunkOwners(reqs: map<nat, Inflight>, owner: map<nat, nat>, id: nat, n: nat, newId: nat,
                    reqs': map<nat, Inflight>, owner': map<nat, nat>)
    requires Owners(reqs, owner) && id in reqs && 1 <= n <= reqs[id].len && newId !in reqs
    requires reqs' == Asking(reqs, id, n, newId)
    requires forall p: nat :: p in owner' <==> p in owner && !Inside(Inflight(reqs[id].lo, n), p)
    requires forall p: nat :: p in owner' ==> owner'[p] == if owner[p] == id then newId else owner[p]
    ensures Owners(reqs', owner')
    ensures reqs[id].lo in owner && reqs[id].lo !in owner'
  {
    assert Owns(owner, id, reqs[id]);
    assert Inside(Inflight(reqs[id].lo, n), reqs[id].lo);
    forall j | j in reqs' ensures Owns(owner', j, reqs'[j]) {
      ChunkOwns(reqs, owner, id, n, newId, reqs', owner', j);
    }
    forall p | p in owner' ensures owner'[p] in reqs' && Inside(reqs'[owner'[p]], p) {
      assert p in owner && owner[p] in reqs && Inside(reqs[owner[p]], p);
    }
  }

  lemma AskingSize(reqs: map<nat, Inflight>, id: nat, n: nat, newId: nat)
    requires id in reqs && n <= reqs[id].len && newId !in reqs
    ensures |Asking(reqs, id, n, newId)| == if n < reqs[id].len then |reqs| else |reqs| - 1
  {
    assert |reqs - {id}| == |reqs| - 1;
  }

  lemma ChunkAccounted(file: Data, off: nat, sent: nat, filled: set<nat>, owner: map<nat, nat>, e: OffsetErr,
                       r: Inflight, filled': set<nat>, owner': map<nat, nat>)
    requires Accounted(file, off, sent, filled, owner, e) && r.lo + r.len <= sent
    requires forall p: nat :: p in filled' <==> p in filled || Inside(r, p)
    requires forall p: nat :: p in owner' <==> p in owner && !Inside(r, p)
    ensures Accounted(file, off, sent, filled', owner', e)
  {
  }

  lemma ChunkInv(file: Data, off: nat, len: nat, c: Call, k: Book, id: nat, n: nat, filled: set<nat>, maxConcurrent: nat)
    requires Inv(file, off, len, c.(inFlight := c.inFlight + 1), k)
    requires id in c.reqs && 1 <= n <= c.reqs[id].len
    requires forall p: nat :: p in filled <==> p in k.filled || Inside(Inflight(c.reqs[id].lo, n), p)
    requires |filled| == |k.filled| + n
    ensures Inv(file, off, len, TakeChunk(c, id, n, maxConcurrent), ChunkBook(c, k, id, n, filled))
    ensures ChunkBook(c, k, id, n, filled).owner.Keys < k.owner.Keys
  {
    hide Accounted, Owners, Statuses;
    var c', k' := TakeChunk(c, id, n, maxConcurrent), ChunkBook(c, k, id, n, filled);
    ChunkOwners(c.reqs, k.owner, id, n, c.lastId + 1, c'.reqs, k'.owner);
    AskingSize(c.reqs, id, n, c.lastId + 1);
    ChunkAccounted(file, off, c.sent, k.filled, k.owner, c.firstErr, Inflight(c.reqs[id].lo, n), filled, k'.owner);
    ChunkStatuses(off, c.sent, k.owner, c.firstErr, k.lost, k.refused, k.ended, k'.owner);
  }

  /** `firstErr` after a status for the request at `pos`: only a lower offset replaces it. */
  function Lower(e: OffsetErr, pos: nat, a: Answer): OffsetErr {
    if e.NoErr? || pos < e.offset then
      if a.EndOfFile? then Eof(pos) else Failed(pos)
    else
      e
  }

  function TakeStatus(c: Call, off: nat, id: nat, a: Answer): Call
    requires id in c.reqs
  {
    c.(firstErr := Lower(c.firstErr, off + c.reqs[id].lo, a), reqs := c.reqs - {id})
  }

  ghost function StatusBook(c: Call, k: Book, id: nat, a: Answer): Book
    requires id in c.reqs
  {
    var p := c.reqs[id].lo;
    k.(owner := map p: nat | p in k.owner && k.owner[p] != id :: k.owner[p],
       refused := if a.Refused? then k.refused + {p} else k.refused,
       ended := if a.EndOfFile? then k.ended + {p} else k.ended)
  }

  lemma StatusOwners(reqs: map<nat, Inflight>, owner: map<nat, nat>, id: nat, owner': map<nat, nat>)
    requires Owners(reqs, owner) && id in reqs && reqs[id].len >= 1
    requires forall p: nat :: p in owner' <==> p in owner && owner[p] != id
    requires forall p: nat :: p in owner' ==> owner'[p] == owner[p]
    ensures Owners(reqs - {id}, owner')
    ensures reqs[id].lo in owner && reqs[id].lo !in owner'
    ensures forall p: nat :: p in owner && p !in owner' ==> p >= reqs[id].lo
  {
    assert Owns(owner, id, reqs[id]);
    forall j | j in reqs - {id} ensures Owns(owner', j, (reqs - {id})[j]) {
      assert Owns(owner, j, reqs[j]);
    }
  }

  lemma StatusAccounted(file: Data, off: nat, sent: nat, filled: set<nat>, owner: map<nat, nat>, e: OffsetErr,
                        r: Inflight, a: Answer, owner': map<nat, nat>)
    requires Accounted(file, off, sent, filled, owner, e) && r.lo < sent
    requires !a.Chunk? && Legal(file, off + r.lo, r.len, a)
    requires forall p: nat :: p in owner' ==> p in owner
    requires forall p: nat :: p in owner && p !in owner' ==> p >= r.lo
    ensures Accounted(file, off, sent, filled, owner', Lower(e, off + r.lo, a))
  {
    var e' := Lower(e, off + r.lo, a);
    assert forall p: nat :: Excused(file, e, p) || p >= off + r.lo ==> Excused(file, e', p);
  }

  lemma StatusStatuses(off: nat, sent: nat, owner: map<nat, nat>, e: OffsetErr, lost: bool, refused: set<nat>, ended: set<nat>,
                       p: nat, a: Answer, owner': map<nat, nat>, refused': set<nat>, ended': set<nat>)
    requires Statuses(off, sent, owner, e, lost, refused, ended) && (lost ==> e == Failed(0)) && !a.Chunk?
    requires p < sent && p in owner && p !in owner' && owner'.Keys <= owner.Keys
    requires refused' == (if a.Refused? then refused + {p} else refused)
    requires ended' == (if a.EndOfFile? then ended + {p} else ended)
    ensures Statuses(off, sent, owner', Lower(e, off + p, a), lost, refused', ended')
  {
  }

  lemma ChunkStatuses(off: nat, sent: nat, owner: map<nat, nat>, e: OffsetErr, lost: bool, refused: set<nat>, ended: set<nat>,
                      owner': map<nat, nat>)
    requires Statuses(off, sent, owner, e, lost, refused, ended) && owner'.Keys <= owner.Keys
    ensures Statuses(off, sent, owner', e, lost, refused, ended)
  {
  }

  lemma SendStatuses(off: nat, sent: nat, owner: map<nat, nat>, lost: bool, refused: set<nat>, ended: set<nat>,
                     sent': nat, owner': map<nat, nat>)
    requires Statuses(off, sent, owner, NoErr, lost, refused, ended)
    ensures Statuses(off, sent', owner', NoErr, lost, refused, ended)
  {
    assert refused + ended == {};
  }

  lemma LostStatuses(off: nat, sent: nat, owner: map<nat, nat>, e: OffsetErr, lost: bool, refused: set<nat>, ended: set<nat>)
    requires Statuses(off, sent, owner, e, lost, refused, ended)
    ensures Statuses(off, sent, owner, Failed(0), true, refused, ended)
  {
  }

  ghost predicate BelowAll(p: nat, ended: set<nat>) {
    forall q :: q in ended ==> p < q
  }

  /** The call fails if and only if a result was lost, or a read was refused below every end of file. */
  lemma FailsIff(off: nat, sent: nat, owner: map<nat, nat>, e: OffsetErr, lost: bool, refused: set<nat>, ended: set<nat>)
    requires Statuses(off, sent, owner, e, lost, refused, ended) && (lost ==> e == Failed(0))
    ensures e.Failed? <==> lost || exists p :: p in refused && BelowAll(p, ended)
  {
    if e.Failed? && !lost {
      var p := e.offset - off;
      forall q | q in ended ensures p < q {
        assert q in refused + ended;
        assert p in refused && p != q;
      }
      assert BelowAll(p, ended);
    }
    if p :| p in refused && BelowAll(p, ended) {
      assert p in refused + ended;
    }
  }

  lemma StatusInv(file: Data, off: nat, len: nat, c: Call, k: Book, id: nat, a: Answer)
    requires Inv(file, off, len, c.(inFlight := c.inFlight + 1), k)
    requires id in c.reqs && !a.Chunk? && Legal(file, off + c.reqs[id].lo, c.reqs[id].len, a)
    ensures Inv(file, off, len, TakeStatus(c, off, id, a), StatusBook(c, k, id, a))
    ensures StatusBook(c, k, id, a).owner.Keys < k.owner.Keys
  {
    hide Accounted, Owners, Statuses;
    var k' := StatusBook(c, k, id, a);
    StatusOwners(c.reqs, k.owner, id, k'.owner);
    assert |c.reqs - {id}| == |c.reqs| - 1;
    StatusAccounted(file, off, c.sent, k.filled, k.owner, c.firstErr, c.reqs[id], a, k'.owner);
    assert c.reqs[id].lo in k.owner.Keys;
    StatusStatuses(off, c.sent, k.owner, c.firstErr, k.lost, k.refused, k.ended, c.reqs[id].lo, a,
                   k'.owner, k'.refused, k'.ended);
  }


  // ---- what the outside decides ----

  /**
   * One result of the channel: a lost one, or the answer to one of the outstanding requests, `pick` saying to which.
   * At a position of the file it is a refusal or data, at most `len` bytes but at least one; past the end it is a
   * refusal or the end-of-file status.
   */
  datatype Reply = Reply(lost: bool, pick: nat, refused: bool, len: nat)

  type Replies = nat -> Reply

  /** A call: where to read, how much, and the limits of the client. */
  datatype Reading = Reading(file: Data, off: nat, len: nat, maxPacket: nat, maxConcurrent: nat)

  function AnswerTo(file: Data, pos: nat, len: nat, r: Reply): (a: Answer)
    ensures (len >= 1 ==> Legal(file, pos, len, a)) && (a.Chunk? ==> a.n <= len) && (a.Refused? <==> r.refused)
  {
    if r.refused then Refused
    else if pos >= |file| then EndOfFile
    else Chunk(Min(len, Min(if r.len == 0 then 1 else r.len, |file| - pos)))
  }

  // ---- the loop as a function of it ----

  const FIRST := Call(0, 0, 1, 0, 0, map[], NoErr)

  /** The inner loop: requests are sent while fewer than `desired` are outstanding. */
  function SendMore(j: Reading, c: Call): Call
    requires j.maxPacket >= 1
    decreases if c.sent < j.len then j.len - c.sent else 0
  {
    if c.inFlight < c.desired && c.sent < j.len && c.firstErr.NoErr?
    then SendMore(j, Send(c, Min(j.len - c.sent, j.maxPacket)))
    else c
  }

  /** Whether a result is one that never came, or came for a request that is not outstanding. */
  predicate IsLost(c: Call, r: Reply) {
    r.lost || Pick(c.reqs, c.lastId, r.pick) !in c.reqs
  }

  /** The buffer position of the request a result answers. */
  function AnsweredAt(c: Call, r: Reply): nat
    requires !IsLost(c, r)
  {
    c.reqs[Pick(c.reqs, c.lastId, r.pick)].lo
  }

  predicate IsRefusal(c: Call, r: Reply) {
    !IsLost(c, r) && r.refused
  }

  predicate IsEnd(j: Reading, c: Call, r: Reply) {
    !IsLost(c, r) && !r.refused && j.off + AnsweredAt(c, r) >= |j.file|
  }

  /** One result taken from the channel and handled. */
  function TakeReply(j: Reading, c: Call, r: Reply): Call
    requires c.inFlight > 0
  {
    var d := c.(inFlight := c.inFlight - 1);
    if IsLost(c, r) then d.(firstErr := Failed(0))
    else
      var id := Pick(c.reqs, c.lastId, r.pick);
      var a := AnswerTo(j.file, j.off + c.reqs[id].lo, c.reqs[id].len, r);
      if a.Chunk? then TakeChunk(d, id, a.n, j.maxConcurrent) else TakeStatus(d, j.off, id, a)
  }

  /** The local variables when `n` turns are over and the next has sent its requests. */
  function Waiting(j: Reading, env: Replies, n: nat): Call
    requires j.maxPacket >= 1
  {
    if n == 0 then SendMore(j, FIRST)
    else
      var c := Waiting(j, env, n - 1);
      if c.inFlight == 0 then c else SendMore(j, TakeReply(j, c, env(n - 1)))
  }

  /** The loop takes `n` turns: only then is nothing outstanding. */
  ghost predicate ReadTurns(j: Reading, env: Replies, n: nat)
    requires j.maxPacket >= 1
  {
    Waiting(j, env, n).inFlight == 0 && forall m :: 0 <= m < n ==> Waiting(j, env, m).inFlight > 0
  }

  /** In no turn, up to the n-th, are more requests outstanding than allowed. */
  ghost predicate WindowKept(j: Reading, env: Replies, n: nat)
    requires j.maxPacket >= 1
  {
    forall m :: 0 <= m <= n ==> Waiting(j, env, m).inFlight <= j.maxConcurrent
  }

  /** Among the first `n` results one was lost, or a refusal. These look at the results alone. */
  ghost predicate SomeLost(env: Replies, n: nat) {
    exists m :: 0 <= m < n && env(m).lost
  }

  ghost predicate SomeRefused(env: Replies, n: nat) {
    exists m :: 0 <= m < n && env(m).refused
  }

  /** The positions at which in the first `n` turns reads were refused. */
  function Refusals(j: Reading, env: Replies, n: nat): set<nat>
    requires j.maxPacket >= 1
  {
    if n == 0 then {}
    else
      var c := Waiting(j, env, n - 1);
      Refusals(j, env, n - 1) + if IsRefusal(c, env(n - 1)) then {AnsweredAt(c, env(n - 1))} else {}
  }

  /** The positions at which in the first `n` turns the end of the file was reported. */
  function Ends(j: Reading, env: Replies, n: nat): set<nat>
    requires j.maxPacket >= 1
  {
    if n == 0 then {}
    else
      var c := Waiting(j, env, n - 1);
      Ends(j, env, n - 1) + if IsEnd(j, c, env(n - 1)) then {AnsweredAt(c, env(n - 1))} else {}
  }

  /** A result is lost, or a read refused at a position below all those where the end of the file was reported. */
  ghost predicate Doomed(j: Reading, env: Replies, n: nat)
    requires j.maxPacket >= 1
  {
    SomeLost(env, n) || exists p :: p in Refusals(j, env, n) && BelowAll(p, Ends(j, env, n))
  }

  lemma {:induction false} RefusalsCome(j: Reading, env: Replies, n: nat)
    requires j.maxPacket >= 1 && Refusals(j, env, n) != {}
    ensures SomeRefused(env, n)
  {
    hide Waiting;
    if !env(n - 1).refused {
      RefusalsCome(j, env, n - 1);
    }
  }

  /** A lost result dooms the call, and without one or a refusal it does not fail. */
  lemma WhenDoomed(j: Reading, env: Replies, n: nat)
    requires j.maxPacket >= 1
    ensures SomeLost(env, n) ==> Doomed(j, env, n)
    ensures !SomeLost(env, n) && !SomeRefused(env, n) ==> !Doomed(j, env, n)
  {
    if !SomeRefused(env, n) && Refusals(j, env, n) != {} {
      RefusalsCome(j, env, n);
    }
  }

  // ---- the window ----

  /** How many of the first `n` results brought data. */
  function DataCount(j: Reading, env: Replies, n: nat): nat
    requires j.maxPacket >= 1
  {
    if n == 0 then 0
    else
      var c, r := Waiting(j, env, n - 1), env(n - 1);
      DataCount(j, env, n - 1) + if IsLost(c, r) || IsRefusal(c, r) || IsEnd(j, c, r) then 0 else 1
  }

  lemma {:induction false} SendMoreFills(j: Reading, c: Call)
    requires j.maxPacket >= 1
    ensures var d := SendMore(j, c); d.desired == c.desired && (d.inFlight >= d.desired || d.sent >= j.len || !d.firstErr.NoErr?)
    decreases if c.sent < j.len then j.len - c.sent else 0
  {
    if c.inFlight < c.desired && c.sent < j.len && c.firstErr.NoErr? {
      SendMoreFills(j, Send(c, Min(j.len - c.sent, j.maxPacket)));
    }
  }

  /**
   * In every turn before the last there are as many requests outstanding as desired, unless all of the buffer has been
   * asked for or an error is known; and what is desired has grown by one with each result that brought data, up to the
   * limit.
   */
  lemma {:induction false} WindowGrows(j: Reading, env: Replies, n: nat)
    requires j.maxPacket >= 1 && j.maxConcurrent >= 1 && forall m :: 0 <= m < n ==> Waiting(j, env, m).inFlight > 0
    ensures var c := Waiting(j, env, n);
            && c.desired == Min(j.maxConcurrent, 1 + DataCount(j, env, n))
            && (c.inFlight >= c.desired || c.sent >= j.len || !c.firstErr.NoErr?)
  {
    hide SendMore, Pick;
    if n == 0 {
      SendMoreFills(j, FIRST);
    } else {
      WindowGrows(j, env, n - 1);
      var c := Waiting(j, env, n - 1);
      SendMoreFills(j, TakeReply(j, c, env(n - 1)));
      Grown(j, c, env(n - 1));
    }
  }

  lemma Grown(j: Reading, c: Call, r: Reply)
    requires c.inFlight > 0 && 1 <= c.desired <= j.maxConcurrent
    ensures TakeReply(j, c, r).desired ==
            if IsLost(c, r) || IsRefusal(c, r) || IsEnd(j, c, r) then c.desired else Min(j.maxConcurrent, c.desired + 1)
  {
    hide Pick;
  }

  // ---- the call ----

  /** `copy(req.b, data)`. */
  method Store(file: Data, b: array<byte>, off: nat, r: Inflight, ghost was: Data, ghost filled: set<nat>)
    returns (ghost filled': set<nat>)
    requires r.lo + r.len <= b.Length && off + r.lo + r.len <= |file|
    requires Filled(file, off, b[..], was, filled)
    requires forall i :: r.lo <= i < r.lo + r.len ==> i !in filled
    modifies b
    ensures Filled(file, off, b[..], was, filled')
    ensures forall p: nat :: p in filled' <==> p in filled || Inside(r, p)
    ensures |filled'| == |filled| + r.len
  {
    ghost var before := b[..];
    forall i | r.lo <= i < r.lo + r.len {
      b[i] := file[off + i];
    }
    filled' := AddRange(filled, r.lo, r.len);
    assert forall p: nat :: p < b.Length && !Inside(r, p) ==> b[p] == before[p];
  }

  method SendWindow(j: Reading, c0: Call, ghost k0: Book) returns (c: Call, ghost k: Book)
    requires j.maxPacket >= 1 && c0.inFlight <= c0.desired && Inv(j.file, j.off, j.len, c0, k0)
    ensures c == SendMore(j, c0)
    ensures k.lost == k0.lost && k.refused == k0.refused && k.ended == k0.ended && k.filled == k0.filled
    ensures Inv(j.file, j.off, j.len, c, k) && c.inFlight <= c.desired == c0.desired
    ensures c.sent > c0.sent || (c == c0 && k == k0)
    ensures c.inFlight >= c.desired || c.sent == j.len || !c.firstErr.NoErr?
  {
    hide Inv;
    c, k := c0, k0;
    SentAtMost(j.file, j.off, j.len, c, k);
    while c.inFlight < c.desired && c.sent < j.len && c.firstErr.NoErr?
      invariant Inv(j.file, j.off, j.len, c, k) && c.inFlight <= c.desired == c0.desired && c.sent <= j.len
      invariant SendMore(j, c) == SendMore(j, c0) && (c.sent > c0.sent || (c == c0 && k == k0))
      invariant k.filled == k0.filled && k.lost == k0.lost && k.refused == k0.refused && k.ended == k0.ended
      decreases j.len - c.sent
    {
      var l := Min(j.len - c.sent, j.maxPacket);
      SendInv(j.file, j.off, j.len, c, k, l);
      c, k := Send(c, l), SendBook(c, k, l);
    }
  }

  lemma SentAtMost(file: Data, off: nat, len: nat, c: Call, k: Book)
    requires Inv(file, off, len, c, k)
    ensures c.sent <= len
    ensures forall id :: id in c.reqs ==> id <= c.lastId && c.reqs[id].len >= 1
  {
  }

  lemma LostInv(file: Data, off: nat, len: nat, c: Call, k: Book)
    requires Inv(file, off, len, c.(inFlight := c.inFlight + 1), k)
    ensures Inv(file, off, len, c.(firstErr := Failed(0)), k.(lost := true))
  {
    hide Bounds, Owners, Statuses;
    LostStatuses(off, c.sent, k.owner, c.firstErr, k.lost, k.refused, k.ended);
  }

  /** A DATA answer of `n` bytes to request `id`. */
  method ReceiveChunk(file: Data, b: array<byte>, off: nat, maxConcurrent: nat, c0: Call, id: nat, n: nat,
                      ghost was: Data, ghost k0: Book)
    returns (c: Call, ghost k: Book)
    requires Inv(file, off, b.Length, c0.(inFlight := c0.inFlight + 1), k0)
    requires Filled(file, off, b[..], was, k0.filled)
    requires id in c0.reqs && Legal(file, off + c0.reqs[id].lo, c0.reqs[id].len, Chunk(n))
    modifies b
    ensures c == TakeChunk(c0, id, n, maxConcurrent)
    ensures k.lost == k0.lost && k.refused == k0.refused && k.ended == k0.ended
    ensures Inv(file, off, b.Length, c, k) && Filled(file, off, b[..], was, k.filled)
    ensures k.owner.Keys < k0.owner.Keys
  {
    var req := c0.reqs[id];
    assert Owns(k0.owner, id, req);
    ghost var filled := Store(file, b, off, Inflight(req.lo, n), was, k0.filled);
    ChunkInv(file, off, b.Length, c0, k0, id, n, filled, maxConcurrent);
    c, k := TakeChunk(c0, id, n, maxConcurrent), ChunkBook(c0, k0, id, n, filled);
  }

  /** The answer to request `id`. */
  method ReceiveAnswer(j: Reading, b: array<byte>, a: Answer, id: nat, c0: Call, ghost was: Data, ghost k0: Book)
    returns (c: Call, ghost k: Book)
    requires c0.inFlight < c0.desired <= j.maxConcurrent && b.Length == j.len
    requires Inv(j.file, j.off, j.len, c0.(inFlight := c0.inFlight + 1), k0) && Filled(j.file, j.off, b[..], was, k0.filled)
    requires id in c0.reqs && Legal(j.file, j.off + c0.reqs[id].lo, c0.reqs[id].len, a)
    modifies b
    ensures c == if a.Chunk? then TakeChunk(c0, id, a.n, j.maxConcurrent) else TakeStatus(c0, j.off, id, a)
    ensures k.lost == k0.lost
    ensures k.refused == k0.refused + if a.Refused? then {c0.reqs[id].lo} else {}
    ensures k.ended == k0.ended + if a.EndOfFile? then {c0.reqs[id].lo} else {}
    ensures Inv(j.file, j.off, j.len, c, k) && Filled(j.file, j.off, b[..], was, k.filled)
    ensures c.inFlight <= c.desired <= j.maxConcurrent && c0.desired <= c.desired && c.sent == c0.sent
    ensures k.owner.Keys < k0.owner.Keys
  {
    hide Inv, Filled;
    c, k := c0, k0;
    if a.Chunk? {
      c, k := ReceiveChunk(j.file, b, j.off, j.maxConcurrent, c, id, a.n, was, k);
    } else {
      StatusInv(j.file, j.off, j.len, c, k, id, a);
      c, k := TakeStatus(c, j.off, id, a), StatusBook(c, k, id, a);
    }
  }

  /** Until a result is lost, a result that comes is for one of the outstanding requests. */
  lemma LostOnly(file: Data, off: nat, len: nat, c: Call, k: Book, r: Reply)
    requires Inv(file, off, len, c, k) && c.inFlight > 0 && !k.lost
    ensures IsLost(c, r) <==> r.lost
  {
    hide Owners, Accounted, Statuses, Pick;
    assert c.reqs != map[];
    PickFinds(c.reqs, c.lastId, r.pick);
  }

  /** One result taken from the channel and handled. */
  method Receive(j: Reading, b: array<byte>, r: Reply, c0: Call, ghost was: Data, ghost k0: Book)
    returns (c: Call, ghost k: Book)
    requires 0 < c0.inFlight <= c0.desired <= j.maxConcurrent && b.Length == j.len
    requires Inv(j.file, j.off, j.len, c0, k0) && Filled(j.file, j.off, b[..], was, k0.filled)
    modifies b
    ensures c == TakeReply(j, c0, r)
    ensures k.lost == (k0.lost || r.lost)
    ensures k.refused == k0.refused + if IsRefusal(c0, r) then {AnsweredAt(c0, r)} else {}
    ensures k.ended == k0.ended + if IsEnd(j, c0, r) then {AnsweredAt(c0, r)} else {}
    ensures Inv(j.file, j.off, j.len, c, k) && Filled(j.file, j.off, b[..], was, k.filled)
    ensures c.inFlight <= c.desired <= j.maxConcurrent && c0.desired <= c.desired && c.sent == c0.sent
    ensures k.owner.Keys < k0.owner.Keys || (k.owner == k0.owner && c.inFlight < c0.inFlight)
  {
    hide Inv, Filled, Pick, TakeChunk, TakeStatus;
    SentAtMost(j.file, j.off, j.len, c0, k0);
    if !k0.lost {
      LostOnly(j.file, j.off, j.len, c0, k0, r);
    }
    c, k := c0.(inFlight := c0.inFlight - 1), k0;
    assert c.(inFlight := c.inFlight + 1) == c0;
    var id := Pick(c.reqs, c.lastId, r.pick);
    if r.lost || id !in c.reqs {
      // A failed send or a disconnect; the table keeps its entry.
      LostInv(j.file, j.off, j.len, c, k);
      c, k := c.(firstErr := Failed(0)), k.(lost := true);
      return;
    }
    var answer := AnswerTo(j.file, j.off + c.reqs[id].lo, c.reqs[id].len, r);
    c, k := ReceiveAnswer(j, b, answer, id, c, was, k);
  }

  /** With nothing outstanding and no failure, exactly the available positions are filled. */
  lemma AllFilled(file: Data, off: nat, len: nat, c: Call, k: Book)
    requires Inv(file, off, len, c, k) && c.inFlight == 0 && !c.firstErr.Failed?
    requires c.firstErr.NoErr? ==> c.sent == len
    requires forall p :: p in k.filled ==> off + p < |file|
    ensures forall p: nat :: p in k.filled <==> p < |Slice(file, off, len)|
    ensures |k.filled| == |Slice(file, off, len)|
    ensures c.firstErr.Eof? <==> |Slice(file, off, len)| < len
    ensures c.read == |k.filled|
  {
    var n := |Slice(file, off, len)|;
    assert c.reqs == map[];
    assert k.owner == map[];
    assert n !in k.filled;
    IntervalCard(k.filled, n);
  }

  lemma FinalBytes(file: Data, off: nat, now: Data, was: Data, filled: set<nat>)
    requires Filled(file, off, now, was, filled)
    requires forall p: nat :: p in filled <==> p < |Slice(file, off, |now|)|
    ensures now == Slice(file, off, |now|) + was[|Slice(file, off, |now|)|..]
  {
    var n := |Slice(file, off, |now|)|;
    forall p | 0 <= p < |now| ensures now[p] == (Slice(file, off, |now|) + was[n..])[p] {
    }
  }


  /** The local variables and the books when `n` turns are over. */
  ghost predicate Follows(j: Reading, env: Replies, n: nat, c: Call, k: Book)
    requires j.maxPacket >= 1
  {
    && SendMore(j, c) == Waiting(j, env, n) && k.lost == SomeLost(env, n)
    && k.refused == Refusals(j, env, n) && k.ended == Ends(j, env, n)
    && forall m :: 0 <= m < n ==> 0 < Waiting(j, env, m).inFlight <= j.maxConcurrent
  }

  lemma Begin(j: Reading, env: Replies, k: Book)
    requires j.maxPacket >= 1 && k == Book({}, map[], false, {}, {})
    ensures Inv(j.file, j.off, j.len, FIRST, k) && Follows(j, env, 0, FIRST, k)
  {
    hide SendMore;
  }

  lemma FollowsNext(j: Reading, env: Replies, n: nat, c: Call, k: Book, c1: Call, c2: Call, k2: Book, n': nat)
    requires j.maxPacket >= 1 && Follows(j, env, n, c, k) && n' == n + 1
    requires c1 == SendMore(j, c) && 0 < c1.inFlight <= j.maxConcurrent && c2 == TakeReply(j, c1, env(n))
    requires k2.lost == (k.lost || env(n).lost)
    requires k2.refused == k.refused + if IsRefusal(c1, env(n)) then {AnsweredAt(c1, env(n))} else {}
    requires k2.ended == k.ended + if IsEnd(j, c1, env(n)) then {AnsweredAt(c1, env(n))} else {}
    ensures Follows(j, env, n', c2, k2)
  {
    hide SendMore, TakeReply, IsLost, IsRefusal, IsEnd, AnsweredAt;
  }

  /** With nothing outstanding: how many turns there were, and whether the call fails. */
  lemma FollowsEnd(j: Reading, env: Replies, n: nat, c: Call, k: Book, c1: Call, k1: Book)
    requires j.maxPacket >= 1 && Follows(j, env, n, c, k) && c1 == SendMore(j, c) && c1.inFlight == 0
    requires Inv(j.file, j.off, j.len, c1, k1) && k1.lost == k.lost && k1.refused == k.refused && k1.ended == k.ended
    ensures ReadTurns(j, env, n) && WindowKept(j, env, n)
    ensures c1.firstErr.Failed? <==> Doomed(j, env, n)
  {
    hide Bounds, Owners, Accounted, Statuses, Waiting, SendMore, SomeLost, Refusals, Ends, BelowAll;
    FailsIff(j.off, c1.sent, k1.owner, c1.firstErr, k1.lost, k1.refused, k1.ended);
  }

  lemma NothingToSend(j: Reading, c: Call)
    requires j.maxPacket >= 1 && c.sent >= j.len
    ensures SendMore(j, c) == c
  {
  }

  /** The loop, to the state in which nothing is outstanding. */
  method ReadLoop(j: Reading, b: array<byte>, env: Replies) returns (c: Call, ghost k: Book, turns: nat)
    requires j.maxPacket >= 1 && j.maxConcurrent >= 1 && b.Length == j.len
    modifies b
    ensures ReadTurns(j, env, turns) && WindowKept(j, env, turns) && c.inFlight == 0
    ensures c.firstErr.Failed? <==> Doomed(j, env, turns)
    ensures Inv(j.file, j.off, j.len, c, k) && Filled(j.file, j.off, b[..], old(b[..]), k.filled)
    ensures c.sent == j.len || !c.firstErr.NoErr?
  {
    hide Inv, Follows, Filled, SendMore, TakeReply, ReadTurns, WindowKept, Doomed;
    c, k, turns := FIRST, Book({}, map[], false, {}, {}), 0;
    Begin(j, env, k);
    FilledFirst(j.file, j.off, b[..]);
    SentAtMost(j.file, j.off, j.len, c, k);
    while c.sent < j.len || c.inFlight > 0
      invariant Follows(j, env, turns, c, k) && c.inFlight <= c.desired <= j.maxConcurrent && 1 <= c.desired
      invariant Inv(j.file, j.off, j.len, c, k) && Filled(j.file, j.off, b[..], old(b[..]), k.filled) && c.sent <= j.len
      decreases j.len - c.sent, k.owner.Keys, c.inFlight
    {
      var c1, c2;
      ghost var k1, k2;
      c1, k1 := SendWindow(j, c, k);
      SentAtMost(j.file, j.off, j.len, c1, k1);
      if c1.inFlight == 0 {
        FollowsEnd(j, env, turns, c, k, c1, k1);
        return c1, k1, turns;
      }
      c2, k2 := Receive(j, b, env(turns), c1, old(b[..]), k1);
      FollowsNext(j, env, turns, c, k, c1, c2, k2, turns + 1);
      c, k, turns := c2, k2, turns + 1;
    }
    NothingToSend(j, c);
    FollowsEnd(j, env, turns, c, k, c, k);
  }

  lemma FilledFirst(file: Data, off: nat, b: Data)
    ensures Filled(file, off, b, b, {})
  {
  }

  /**
   * Whatever the order of the answers and however short they are, the call ends with the bytes, the count and the
   * end-of-file report of one direct read, or with an error and 0. It ends with an error if and only if a result was
   * lost, or a read refused at a position below all those where the end of the file was reported; so never when none of
   * the results it took was lost or a refusal. In none of its turns are more requests outstanding than allowed.
   */
  method ReadAt(file: Data, b: array<byte>, off: nat, maxPacket: nat, maxConcurrent: nat, env: Replies)
    returns (n: nat, err: Outcome, turns: nat)
    requires maxPacket >= 1 && maxConcurrent >= 1
    modifies b
    ensures err.Error? ==> n == 0
    ensures !err.Error? ==> n == |Slice(file, off, b.Length)|
    ensures !err.Error? ==> b[..] == Slice(file, off, b.Length) + old(b[..])[n..]
    ensures !err.Error? ==> (err.AtEnd? <==> n < b.Length)
    ensures ReadTurns(Reading(file, off, b.Length, maxPacket, maxConcurrent), env, turns)
    ensures err.Error? <==> Doomed(Reading(file, off, b.Length, maxPacket, maxConcurrent), env, turns)
    ensures SomeLost(env, turns) ==> err.Error?
    ensures !SomeLost(env, turns) && !SomeRefused(env, turns) ==> !err.Error?
    ensures WindowKept(Reading(file, off, b.Length, maxPacket, maxConcurrent), env, turns)
  {
    hide Inv, Filled, ReadTurns, WindowKept, Doomed, SomeLost, SomeRefused;
    var j := Reading(file, off, b.Length, maxPacket, maxConcurrent);
    var c;
    ghost var k;
    c, k, turns := ReadLoop(j, b, env);
    WhenDoomed(j, env, turns);
    if c.firstErr.Failed? {
      return 0, Error, turns;
    }
    FilledInFile(file, off, b[..], old(b[..]), k.filled);
    AllFilled(file, off, b.Length, c, k);
    FinalBytes(file, off, b[..], old(b[..]), k.filled);
    n, err := c.read, if c.firstErr.Eof? then AtEnd else Ok;
  }

  lemma FilledInFile(file: Data, off: nat, now: Data, was: Data, filled: set<nat>)
    requires Filled(file, off, now, was, filled)
    ensures forall p :: p in filled ==> off + p < |file|
  {
  }
}
