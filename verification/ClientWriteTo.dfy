/**
 * `File.WriteTo`: the whole rest of a remote file copied to a writer with many
 * chunk reads outstanding; data that arrives out of order is held and drained.
 */
module ClientWriteTo {
  import opened Bytes
  import opened ClientRead

  datatype Result = Done | Broken | Inconsistent

  /** Chunk `i` of a transfer from `start` begins here; a request asks for one chunk. */
  function Pos(start: nat, size: nat, i: nat): nat {
    if i == 0 then start else Pos(start, size, i - 1) + size
  }

  /** The bytes `WriteTo` is asked for. */
  function Rest(file: Data, start: nat): Data {
    Slice(file, start, |file|)
  }

  /** What the server answers to the READ of one chunk; a data answer may be short, even empty. */
  predicate LegalChunk(file: Data, pos: nat, size: nat, a: Answer) {
    && (a.Chunk? ==> pos < |file| && a.n <= size && pos + a.n <= |file|)
    && (a.EndOfFile? ==> pos >= |file|)
  }

  /** All the server could give for a chunk at `pos`. */
  function FullLen(file: Data, pos: nat, size: nat): nat
    requires pos < |file|
  {
    Min(size, |file| - pos)
  }

  /** Where a chunk already asked for has got to. */
  datatype Chunk = Asked(id: nat) | Held | Written | Dropped

  /** The local variables of the call; a request is recorded by its chunk number. */
  datatype Transfer = Transfer(sent: nat, inFlight: nat, desired: nat, lastId: nat, writeOffset: nat,
                               reqs: map<nat, nat>, pending: map<nat, Data>, firstErr: OffsetErr, out: Data)

  /**
   * The books kept for the proof: the chunks sent so far; `next`, the first chunk that may still
   * reach the writer; the chunk number of each held position; the chunks that can still bring
   * data; and what has gone wrong.
   */
  datatype Ledger = Ledger(chunks: seq<Chunk>, next: nat, heldAt: map<nat, nat>, todo: set<nat>, answers: seq<Got>,
                       stuck: bool, writeFailed: bool, lost: bool, fault: bool)

  /** A data answer: where, and how many bytes. */
  datatype Got = Got(pos: nat, n: nat)

  /** Every data answer brought all the server could give. */
  ghost predicate AllFull(j: Job, answers: seq<Got>) {
    forall a :: a in answers ==> a.n >= Min(j.size, |j.file| - a.pos)
  }

  /** What is copied, from where, and in what chunk size. */
  datatype Job = Job(file: Data, start: nat, size: nat) {
    function At(i: nat): nat {
      Pos(start, size, i)
    }
  }

  lemma {:induction false} PosGrows(j: Job, a: nat, b: nat)
    requires a < b
    ensures j.At(a) + j.size <= j.At(b)
  {
    if a < b - 1 {
      PosGrows(j, a, b - 1);
    }
  }

  lemma {:induction false} PosAtLeast(j: Job, i: nat)
    requires j.size >= 1
    ensures j.At(i) >= j.start + i
  {
    if i > 0 {
      PosAtLeast(j, i - 1);
    }
  }

  lemma PosInjective(j: Job, a: nat, b: nat)
    requires j.size >= 1 && j.At(a) == j.At(b)
    ensures a == b
  {
    if a < b {
      PosGrows(j, a, b);
    } else if b < a {
      PosGrows(j, b, a);
    }
  }

  /** The request table agrees with the chunk states. */
  ghost predicate Requests(reqs: map<nat, nat>, lastId: nat, chunks: seq<Chunk>) {
    && (forall id :: id in reqs ==> id <= lastId && reqs[id] < |chunks| && chunks[reqs[id]] == Asked(id))
    && (forall i :: 0 <= i < |chunks| && chunks[i].Asked? ==> chunks[i].id in reqs && reqs[chunks[i].id] == i)
  }

  /** The held positions agree with the chunk states. */
  ghost predicate Holding(j: Job, chunks: seq<Chunk>, heldAt: map<nat, nat>) {
    && (forall i :: 0 <= i < |chunks| && chunks[i].Held? ==> j.At(i) in heldAt && heldAt[j.At(i)] == i)
    && (forall p :: p in heldAt ==> heldAt[p] < |chunks| && chunks[heldAt[p]].Held? && j.At(heldAt[p]) == p)
  }

  ghost predicate SameKeys(pending: map<nat, Data>, heldAt: map<nat, nat>) {
    forall p :: p in pending <==> p in heldAt
  }

  ghost predicate HeldBytes(j: Job, pending: map<nat, Data>) {
    forall p :: p in pending ==>
      p < |j.file| && |pending[p]| <= FullLen(j.file, p, j.size) && pending[p] == j.file[p..p + |pending[p]|]
  }

  /** The writer has received a prefix; `writeOffset` is behind it only after a failed write. */
  ghost predicate Output(j: Job, out: Data, writeOffset: nat, writeFailed: bool) {
    && out <= Rest(j.file, j.start)
    && j.start <= writeOffset <= j.start + |out|
    && (!writeFailed ==> writeOffset == j.start + |out|)
  }

  /** Chunks below `next` are finished with; no chunk from `next` on has been written. */
  ghost predicate Split(chunks: seq<Chunk>, next: nat) {
    && next <= |chunks|
    && (forall i :: 0 <= i < |chunks| && (chunks[i].Asked? || chunks[i].Held?) ==> i >= next)
    && (forall i :: 0 <= i < |chunks| && chunks[i].Written? ==> i < next)
  }

  /**
   * While nothing is stuck all chunks below `next` were written in full; once stuck,
   * `writeOffset` is below chunk `next`, so no chunk to come can match it.
   */
  ghost predicate InOrder(j: Job, writeOffset: nat, next: nat, stuck: bool) {
    if stuck then writeOffset < j.At(next)
    else writeOffset == if next == 0 then j.start else Min(j.At(next), |j.file|)
  }

  ghost predicate Excuses(j: Job, chunks: seq<Chunk>, e: OffsetErr) {
    && (forall i :: 0 <= i < |chunks| && chunks[i].Dropped? ==> Excused(j.file, e, j.At(i)))
    && (e.Eof? ==> |j.file| <= e.offset < j.At(|chunks|))
  }

  /** A short answer leaves a hole: it is still held, or the output has stopped inside the file. */
  ghost predicate Shorts(j: Job, pending: map<nat, Data>, writeOffset: nat, short: bool, stuck: bool) {
    && (!short ==> forall p :: p in pending ==> |pending[p]| >= Min(j.size, |j.file| - p))
    && (short ==> (stuck && writeOffset < |j.file|) || exists p :: p in pending && |pending[p]| < Min(j.size, |j.file| - p))
    && (stuck ==> short)
  }

  ghost predicate Todo(j: Job, chunks: seq<Chunk>, todo: set<nat>) {
    forall i :: 0 <= i < |j.file| && (i < |chunks| ==> chunks[i].Asked?) ==> i in todo
  }

  ghost predicate Inv(j: Job, t: Transfer, k: Ledger) {
    && j.size >= 1 && t.sent == |k.chunks|
    && Requests(t.reqs, t.lastId, k.chunks)
    && SameKeys(t.pending, k.heldAt)
    && Holding(j, k.chunks, k.heldAt)
    && HeldBytes(j, t.pending)
    && Output(j, t.out, t.writeOffset, k.writeFailed)
    && Split(k.chunks, k.next)
    && InOrder(j, t.writeOffset, k.next, k.stuck)
    && Todo(j, k.chunks, k.todo)
    && (!k.lost ==> |t.reqs| == t.inFlight) && (k.lost ==> k.fault)
    && (t.firstErr.Failed? ==> k.fault)
    && (if k.writeFailed then k.stuck && t.firstErr.Failed? && t.firstErr.offset <= j.At(k.next)
        else && Excuses(j, k.chunks, t.firstErr)
             && Shorts(j, t.pending, t.writeOffset, !AllFull(j, k.answers), k.stuck)
             && (k.lost ==> t.firstErr == Failed(0)))
  }

  // ---- the transitions ----

  /** `sendReq` for the next chunk. */
  function Send(j: Job, t: Transfer, statSize: nat): Transfer {
    t.(sent := t.sent + 1, lastId := t.lastId + 1, reqs := t.reqs[t.lastId + 1 := t.sent], inFlight := t.inFlight + 1,
       desired := if j.At(t.sent + 1) > statSize then 1 else t.desired)
  }

  ghost function SendBook(t: Transfer, k: Ledger): Ledger {
    k.(chunks := k.chunks + [Asked(t.lastId + 1)])
  }

  lemma SendRequests(reqs: map<nat, nat>, lastId: nat, chunks: seq<Chunk>)
    requires Requests(reqs, lastId, chunks)
    ensures Requests(reqs[lastId + 1 := |chunks|], lastId + 1, chunks + [Asked(lastId + 1)])
    ensures |reqs[lastId + 1 := |chunks|]| == |reqs| + 1
  {
  }

  lemma SendInv(j: Job, t: Transfer, k: Ledger, statSize: nat)
    requires Inv(j, t, k) && t.firstErr.NoErr?
    ensures Inv(j, Send(j, t, statSize), SendBook(t, k))
  {
    hide Requests, SameKeys, HeldBytes, Output, InOrder, Shorts, Pos;
    SendRequests(t.reqs, t.lastId, k.chunks);
    PosGrows(j, |k.chunks|, |k.chunks| + 1);
  }

  /** A request answered: its chunk changes state and leaves the table. */
  lemma AnswerRequests(reqs: map<nat, nat>, lastId: nat, chunks: seq<Chunk>, id: nat, to: Chunk)
    requires Requests(reqs, lastId, chunks) && id in reqs && !to.Asked?
    ensures reqs[id] < |chunks| && chunks[reqs[id]] == Asked(id)
    ensures Requests(reqs - {id}, lastId, chunks[reqs[id] := to])
    ensures |reqs - {id}| == |reqs| - 1
  {
  }

  /** A data answer to request `id`, put aside. */
  function Hold(j: Job, t: Transfer, id: nat, n: nat): Transfer
    requires id in t.reqs && j.At(t.reqs[id]) + n <= |j.file|
  {
    var p := j.At(t.reqs[id]);
    t.(reqs := t.reqs - {id}, pending := t.pending[p := j.file[p..p + n]])
  }

  ghost function HoldBook(j: Job, t: Transfer, k: Ledger, id: nat, n: nat): Ledger
    requires id in t.reqs && t.reqs[id] < |k.chunks|
  {
    var i := t.reqs[id];
    k.(chunks := k.chunks[i := Held], heldAt := k.heldAt[j.At(i) := i], todo := k.todo - {i},
       answers := k.answers + [Got(j.At(i), n)])
  }

  lemma HoldHolding(j: Job, chunks: seq<Chunk>, heldAt: map<nat, nat>, i: nat)
    requires j.size >= 1 && Holding(j, chunks, heldAt)
    requires i < |chunks| && chunks[i].Asked?
    ensures Holding(j, chunks[i := Held], heldAt[j.At(i) := i])
    ensures j.At(i) !in heldAt
  {
    if j.At(i) in heldAt {
      PosInjective(j, i, heldAt[j.At(i)]);
      assert false;
    }
    var chunks', heldAt' := chunks[i := Held], heldAt[j.At(i) := i];
    forall a | 0 <= a < |chunks'| && chunks'[a].Held? ensures j.At(a) in heldAt' && heldAt'[j.At(a)] == a {
      assert a == i || j.At(a) in heldAt;
    }
  }

  lemma HoldShorts(j: Job, pending: map<nat, Data>, writeOffset: nat, short: bool, stuck: bool, p: nat, d: Data)
    requires Shorts(j, pending, writeOffset, short, stuck) && p !in pending
    ensures Shorts(j, pending[p := d], writeOffset, short || |d| < Min(j.size, |j.file| - p), stuck)
  {
    var pending' := pending[p := d];
    assert p in pending';
    assert forall q :: q in pending ==> q in pending' && pending'[q] == pending[q];
  }

  lemma HoldChunks(j: Job, chunks: seq<Chunk>, next: nat, todo: set<nat>, e: OffsetErr, i: nat)
    requires i < |chunks| && chunks[i].Asked? && i < |j.file|
    requires Split(chunks, next) && Todo(j, chunks, todo)
    ensures Split(chunks[i := Held], next) && Todo(j, chunks[i := Held], todo - {i})
    ensures Excuses(j, chunks, e) ==> Excuses(j, chunks[i := Held], e)
    ensures todo - {i} < todo
  {
    assert i in todo;
  }

  lemma AllFullAppend(j: Job, answers: seq<Got>, g: Got)
    ensures AllFull(j, answers + [g]) <==> AllFull(j, answers) && g.n >= Min(j.size, |j.file| - g.pos)
  {
    assert g in answers + [g];
    assert forall a :: a in answers ==> a in answers + [g];
  }

  lemma HoldBytes(j: Job, pending: map<nat, Data>, heldAt: map<nat, nat>, i: nat, n: nat)
    requires HeldBytes(j, pending) && SameKeys(pending, heldAt)
    requires LegalChunk(j.file, j.At(i), j.size, Answer.Chunk(n))
    ensures HeldBytes(j, pending[j.At(i) := j.file[j.At(i)..j.At(i) + n]])
    ensures SameKeys(pending[j.At(i) := j.file[j.At(i)..j.At(i) + n]], heldAt[j.At(i) := i])
    ensures j.At(i) in pending ==> j.At(i) in heldAt
  {
  }

  lemma HoldInv(j: Job, t: Transfer, k: Ledger, id: nat, n: nat)
    requires Inv(j, t.(inFlight := t.inFlight + 1), k)
    requires id in t.reqs && LegalChunk(j.file, j.At(t.reqs[id]), j.size, Answer.Chunk(n))
    ensures t.reqs[id] < |k.chunks| && Inv(j, Hold(j, t, id, n), HoldBook(j, t, k, id, n))
    ensures HoldBook(j, t, k, id, n).todo < k.todo
    ensures j.At(t.reqs[id]) !in t.pending
  {
    hide Requests, SameKeys, HeldBytes, Holding, Output, InOrder, Shorts, Pos, Excuses, Split, Todo, AllFull;
    var i := t.reqs[id];
    var p := j.At(i);
    PosAtLeast(j, i);
    AnswerRequests(t.reqs, t.lastId, k.chunks, id, Held);
    HoldHolding(j, k.chunks, k.heldAt, i);
    HoldBytes(j, t.pending, k.heldAt, i, n);
    HoldChunks(j, k.chunks, k.next, k.todo, t.firstErr, i);
    if !k.writeFailed {
      HoldShorts(j, t.pending, t.writeOffset, !AllFull(j, k.answers), k.stuck, p, j.file[p..p + n]);
      AllFullAppend(j, k.answers, Got(p, n));
    }
  }

  /** A status answer to request `id`. */
  function Refuse(j: Job, t: Transfer, id: nat, a: Answer): Transfer
    requires id in t.reqs
  {
    t.(reqs := t.reqs - {id}, firstErr := Lower(t.firstErr, j.At(t.reqs[id]), a))
  }

  ghost function RefuseBook(t: Transfer, k: Ledger, id: nat, a: Answer): Ledger
    requires id in t.reqs && t.reqs[id] < |k.chunks|
  {
    k.(chunks := k.chunks[t.reqs[id] := Dropped], fault := k.fault || a.Refused?)
  }

  lemma RefuseExcuses(j: Job, chunks: seq<Chunk>, e: OffsetErr, i: nat, a: Answer)
    requires j.size >= 1 && i < |chunks| && !a.Chunk? && LegalChunk(j.file, j.At(i), j.size, a)
    requires Excuses(j, chunks, e)
    ensures Excuses(j, chunks[i := Dropped], Lower(e, j.At(i), a))
  {
    PosGrows(j, i, |chunks|);
    var e' := Lower(e, j.At(i), a);
    assert forall p: nat :: Excused(j.file, e, p) || p >= j.At(i) ==> Excused(j.file, e', p);
  }

  lemma RefuseChunks(j: Job, chunks: seq<Chunk>, next: nat, todo: set<nat>, heldAt: map<nat, nat>, i: nat)
    requires i < |chunks| && chunks[i].Asked?
    requires Split(chunks, next) && Todo(j, chunks, todo) && Holding(j, chunks, heldAt)
    ensures Split(chunks[i := Dropped], next) && Todo(j, chunks[i := Dropped], todo) && Holding(j, chunks[i := Dropped], heldAt)
    ensures i >= next
  {
  }

  lemma RefuseInv(j: Job, t: Transfer, k: Ledger, id: nat, a: Answer)
    requires Inv(j, t.(inFlight := t.inFlight + 1), k)
    requires id in t.reqs && !a.Chunk? && LegalChunk(j.file, j.At(t.reqs[id]), j.size, a)
    ensures t.reqs[id] < |k.chunks| && Inv(j, Refuse(j, t, id, a), RefuseBook(t, k, id, a))
  {
    hide Requests, SameKeys, HeldBytes, Holding, Output, InOrder, Shorts, Pos, Excuses, Split, Todo, AllFull;
    var i := t.reqs[id];
    AnswerRequests(t.reqs, t.lastId, k.chunks, id, Dropped);
    RefuseChunks(j, k.chunks, k.next, k.todo, k.heldAt, i);
    if k.writeFailed {
      if i > k.next {
        PosGrows(j, k.next, i);
      }
    } else {
      RefuseExcuses(j, k.chunks, t.firstErr, i, a);
    }
  }

  /** A failed send or a disconnect; the table keeps its entry. */
  lemma LostInv(j: Job, t: Transfer, k: Ledger)
    requires Inv(j, t.(inFlight := t.inFlight + 1), k)
    ensures Inv(j, t.(firstErr := Failed(0)), k.(lost := true, fault := true))
  {
    hide Requests, SameKeys, HeldBytes, Holding, Output, InOrder, Shorts, Pos, Split, Todo, AllFull;
  }

  /** Held data written in full: the head of the drain loop. */
  function PopOk(t: Transfer): Transfer
    requires t.writeOffset in t.pending
  {
    var d := t.pending[t.writeOffset];
    t.(pending := t.pending - {t.writeOffset}, out := t.out + d, writeOffset := t.writeOffset + |d|)
  }

  /** Held data of which the writer took only `n` bytes, or failed. */
  function PopFail(t: Transfer, n: nat): Transfer
    requires t.writeOffset in t.pending && n <= |t.pending[t.writeOffset]|
  {
    var d := t.pending[t.writeOffset];
    t.(pending := t.pending - {t.writeOffset}, out := t.out + d[..n], firstErr := Failed(t.writeOffset + n))
  }

  ghost function PopBook(j: Job, t: Transfer, k: Ledger, failed: bool): Ledger
    requires t.writeOffset in t.pending && t.writeOffset in k.heldAt && k.heldAt[t.writeOffset] < |k.chunks|
  {
    var p := t.writeOffset;
    k.(chunks := k.chunks[k.heldAt[p] := Written], heldAt := k.heldAt - {p}, next := k.next + 1,
       writeFailed := failed, fault := k.fault || failed, stuck := failed || |t.pending[p]| < Min(j.size, |j.file| - p))
  }

  /** Only chunk `next` can start at `writeOffset`, and only while nothing is stuck. */
  lemma PopIsNext(j: Job, writeOffset: nat, chunks: seq<Chunk>, heldAt: map<nat, nat>, next: nat, stuck: bool)
    requires j.size >= 1 && Holding(j, chunks, heldAt) && Split(chunks, next) && InOrder(j, writeOffset, next, stuck)
    requires writeOffset in heldAt
    ensures !stuck && heldAt[writeOffset] == next < |chunks| && j.At(next) == writeOffset && chunks[next].Held?
  {
    var i := heldAt[writeOffset];
    if i > next {
      PosGrows(j, next, i);
    }
  }

  lemma PopChunks(j: Job, chunks: seq<Chunk>, heldAt: map<nat, nat>, next: nat, todo: set<nat>, e: OffsetErr, next': nat)
    requires j.size >= 1 && next < |chunks| && chunks[next].Held? && next' == next + 1
    requires Holding(j, chunks, heldAt) && Split(chunks, next) && Todo(j, chunks, todo)
    ensures Holding(j, chunks[next := Written], heldAt - {j.At(next)})
    ensures Split(chunks[next := Written], next') && Todo(j, chunks[next := Written], todo)
    ensures Excuses(j, chunks, e) ==> Excuses(j, chunks[next := Written], e)
  {
    var chunks', heldAt' := chunks[next := Written], heldAt - {j.At(next)};
    forall a | 0 <= a < |chunks'| && chunks'[a].Held? ensures j.At(a) in heldAt' && heldAt'[j.At(a)] == a {
      if j.At(a) == j.At(next) {
        PosInjective(j, a, next);
      }
    }
  }

  lemma PopRequests(reqs: map<nat, nat>, lastId: nat, chunks: seq<Chunk>, i: nat)
    requires Requests(reqs, lastId, chunks) && i < |chunks| && chunks[i].Held?
    ensures Requests(reqs, lastId, chunks[i := Written])
  {
  }

  lemma PopOutput(j: Job, out: Data, writeOffset: nat, d: Data, n: nat, out': Data, writeOffset': nat)
    requires Output(j, out, writeOffset, false) && n <= |d|
    requires writeOffset < |j.file| && writeOffset + |d| <= |j.file| && d == j.file[writeOffset..writeOffset + |d|]
    requires out' == out + d[..n] && writeOffset' == writeOffset + n
    ensures Output(j, out', writeOffset, true)
    ensures Output(j, out', writeOffset', false)
  {
    var r := Rest(j.file, j.start);
    assert r == j.file[j.start..];
    forall x | 0 <= x < n ensures d[..n][x] == r[|out| + x] {
    }
    assert out' == r[..|out| + n];
  }

  lemma PopBytes(j: Job, pending: map<nat, Data>, heldAt: map<nat, nat>, p: nat)
    requires HeldBytes(j, pending) && SameKeys(pending, heldAt) && p in pending
    ensures HeldBytes(j, pending - {p}) && SameKeys(pending - {p}, heldAt - {p}) && p in heldAt
    ensures p < |j.file| && |pending[p]| <= FullLen(j.file, p, j.size) && pending[p] == j.file[p..p + |pending[p]|]
  {
  }

  lemma PopOrder(j: Job, p: nat, next: nat, n: nat, p': nat, next': nat, stuck: bool)
    requires j.size >= 1 && p == j.At(next) < |j.file| && n <= FullLen(j.file, j.At(next), j.size)
    requires p' == p + n && next' == next + 1 && stuck == (n < Min(j.size, |j.file| - p))
    ensures InOrder(j, p, next', true)
    ensures InOrder(j, p', next', stuck)
    ensures p' <= j.At(next')
  {
  }

  lemma PopShorts(j: Job, pending: map<nat, Data>, p: nat, short: bool, p': nat, stuck: bool)
    requires Shorts(j, pending, p, short, false) && p in pending
    requires p < |j.file| && p' == p + |pending[p]| <= |j.file| && stuck == (|pending[p]| < Min(j.size, |j.file| - p))
    ensures Shorts(j, pending - {p}, p', short, stuck)
  {
    var pending' := pending - {p};
    if short && !stuck {
      var q :| q in pending && |pending[q]| < Min(j.size, |j.file| - q);
      assert q in pending';
    }
  }

  lemma PopOkInv(j: Job, t: Transfer, k: Ledger)
    requires Inv(j, t, k) && t.writeOffset in t.pending
    ensures t.writeOffset in k.heldAt && k.heldAt[t.writeOffset] < |k.chunks|
    ensures Inv(j, PopOk(t), PopBook(j, t, k, false))
  {
    hide Requests, Holding, SameKeys, HeldBytes, Output, InOrder, Shorts, Pos, Excuses, Split, Todo, AllFull;
    var p := t.writeOffset;
    var d := t.pending[p];
    PopBytes(j, t.pending, k.heldAt, p);
    PopIsNext(j, p, k.chunks, k.heldAt, k.next, k.stuck);
    var t', k' := PopOk(t), PopBook(j, t, k, false);
    PopRequests(t.reqs, t.lastId, k.chunks, k.next);
    PopChunks(j, k.chunks, k.heldAt, k.next, k.todo, t.firstErr, k'.next);
    assert d[..|d|] == d;
    PopOutput(j, t.out, p, d, |d|, t'.out, t'.writeOffset);
    PopOrder(j, p, k.next, |d|, t'.writeOffset, k'.next, k'.stuck);
    PopShorts(j, t.pending, p, !AllFull(j, k.answers), t'.writeOffset, k'.stuck);
  }

  lemma PopFailInv(j: Job, t: Transfer, k: Ledger, n: nat)
    requires Inv(j, t, k) && t.writeOffset in t.pending
    requires n <= |t.pending[t.writeOffset]|
    ensures t.writeOffset in k.heldAt && k.heldAt[t.writeOffset] < |k.chunks|
    ensures Inv(j, PopFail(t, n), PopBook(j, t, k, true))
  {
    hide Requests, Holding, SameKeys, HeldBytes, Output, InOrder, Shorts, Pos, Excuses, Split, Todo, AllFull;
    var p := t.writeOffset;
    var d := t.pending[p];
    PopBytes(j, t.pending, k.heldAt, p);
    PopIsNext(j, p, k.chunks, k.heldAt, k.next, k.stuck);
    var t', k' := PopFail(t, n), PopBook(j, t, k, true);
    PopRequests(t.reqs, t.lastId, k.chunks, k.next);
    PopChunks(j, k.chunks, k.heldAt, k.next, k.todo, t.firstErr, k'.next);
    PopOutput(j, t.out, p, d, n, t'.out, p + n);
    PopOrder(j, p, k.next, n, t'.firstErr.offset, k'.next, n < Min(j.size, |j.file| - p));
  }

  // ---- what the outside decides ----

  /** What the writer does with one `Write`: it takes everything, or fails after `n` bytes. */
  datatype Took = All | Part(n: nat)

  /**
   * One result of the channel: a lost one, or the answer to one of the outstanding requests, `pick` saying to
   * which. At a position of the file it is a refusal or data, at most `len` bytes; past the end it is a refusal
   * or the end-of-file status. `took` is what the writer does with the writes that follow, `All` once it runs out.
   */
  datatype Choice = Choice(lost: bool, pick: nat, refused: bool, len: nat, took: seq<Took>)

  type Outside = nat -> Choice

  /** No result is lost, no read refused, and the writer takes everything. */
  predicate Faultless(c: Choice) {
    !c.lost && !c.refused && forall i :: 0 <= i < |c.took| ==> c.took[i].All?
  }

  function TookAt(took: seq<Took>, i: nat): Took {
    if i < |took| then took[i] else All
  }

  function AnswerOf(file: Data, pos: nat, size: nat, c: Choice): (a: Answer)
    ensures LegalChunk(file, pos, size, a) && (a.Refused? <==> c.refused)
  {
    if c.refused then Refused
    else if pos >= |file| then EndOfFile
    else Answer.Chunk(Min(c.len, FullLen(file, pos, size)))
  }

  // ---- the loop as a function of it ----

  function Start(start: nat): Transfer {
    Transfer(0, 0, 1, 0, start, map[], map[], NoErr, [])
  }

  /** The inner loop: requests are sent until as many chunks as desired are outstanding or held. */
  function Fill(j: Job, statSize: nat, t: Transfer): Transfer
    decreases if t.inFlight + |t.pending| < t.desired then t.desired - t.inFlight - |t.pending| else 0
  {
    if t.inFlight + |t.pending| < t.desired then Fill(j, statSize, Send(j, t, statSize)) else t
  }

  function Filled(j: Job, statSize: nat, t: Transfer): Transfer {
    if t.firstErr.NoErr? then Fill(j, statSize, t) else t
  }

  function Wrote(t: Transfer, w: Took): Transfer
    requires t.writeOffset in t.pending
  {
    if w.All? then PopOk(t) else PopFail(t, Min(w.n, |t.pending[t.writeOffset]|))
  }

  /** The drain loop: held data that has become next is written, until the writer fails. */
  function Drained(t: Transfer, took: seq<Took>, i: nat): Transfer
    decreases |t.pending|
  {
    if t.writeOffset !in t.pending then t
    else
      PopShrinks(t);
      if TookAt(took, i).All? then Drained(PopOk(t), took, i + 1) else Wrote(t, TookAt(took, i))
  }

  lemma PopShrinks(t: Transfer)
    requires t.writeOffset in t.pending
    ensures |PopOk(t).pending| < |t.pending|
  {
    assert t.pending.Keys == (t.pending - {t.writeOffset}).Keys + {t.writeOffset};
  }

  function Desired(j: Job, statSize: nat, maxConcurrent: nat, t: Transfer): nat {
    if j.At(t.sent) > statSize then 1 else if t.desired < maxConcurrent then t.desired + 1 else t.desired
  }

  /** The data that is next is written; if the writer takes it, more may be asked for and what is held follows. */
  function TakeNext(j: Job, statSize: nat, maxConcurrent: nat, t: Transfer, took: seq<Took>): Transfer
    requires t.writeOffset in t.pending
  {
    if TookAt(took, 0).All? then
      var u := PopOk(t);
      Drained(u.(desired := Desired(j, statSize, maxConcurrent, u)), took, 1)
    else Wrote(t, TookAt(took, 0))
  }

  /** A data answer: written at once if it is next, otherwise held. */
  function TakeData(j: Job, statSize: nat, maxConcurrent: nat, t: Transfer, id: nat, n: nat, took: seq<Took>): Transfer
    requires id in t.reqs && j.At(t.reqs[id]) + n <= |j.file|
  {
    var h := Hold(j, t, id, n);
    if j.At(t.reqs[id]) != t.writeOffset then h else TakeNext(j, statSize, maxConcurrent, h, took)
  }

  function TakeAnswer(j: Job, statSize: nat, maxConcurrent: nat, t: Transfer, id: nat, c: Choice): Transfer
    requires id in t.reqs
  {
    var a := AnswerOf(j.file, j.At(t.reqs[id]), j.size, c);
    if a.Chunk? then TakeData(j, statSize, maxConcurrent, t, id, a.n, c.took) else Refuse(j, t, id, a)
  }

  /** One result taken from the channel and handled. */
  function TakeResult(j: Job, statSize: nat, maxConcurrent: nat, t: Transfer, c: Choice): Transfer
    requires t.inFlight > 0
  {
    var u := t.(inFlight := t.inFlight - 1);
    var id := Pick(u.reqs, u.lastId, c.pick);
    if c.lost || id !in u.reqs then u.(firstErr := Failed(0))
    else TakeAnswer(j, statSize, maxConcurrent, u, id, c)
  }

  /** The loop ends here: nothing is outstanding, after an error or because nothing more could be sent. */
  predicate Stops(j: Job, statSize: nat, t: Transfer) {
    Filled(j, statSize, t).inFlight == 0
  }

  /** The local variables after `n` turns of the loop. */
  function After(j: Job, statSize: nat, maxConcurrent: nat, env: Outside, n: nat): Transfer {
    if n == 0 then Start(j.start)
    else
      var t := Filled(j, statSize, After(j, statSize, maxConcurrent, env, n - 1));
      if t.inFlight == 0 then t else TakeResult(j, statSize, maxConcurrent, t, env(n - 1))
  }

  function ResultOf(t: Transfer): Result {
    if t.firstErr.Eof? then Done else if t.firstErr.NoErr? then Inconsistent else Broken
  }

  /**
   * The answer the outside chooses brings fewer bytes than it could: it is data, for a position of the file, and
   * shorter than the request and the file allow.
   */
  predicate Short(j: Job, t: Transfer, c: Choice) {
    var id := Pick(t.reqs, t.lastId, c.pick);
    && !c.lost && !c.refused && id in t.reqs && j.At(t.reqs[id]) < |j.file|
    && c.len < FullLen(j.file, j.At(t.reqs[id]), j.size)
  }

  predicate ShortAt(j: Job, statSize: nat, maxConcurrent: nat, env: Outside, m: nat) {
    Short(j, Filled(j, statSize, After(j, statSize, maxConcurrent, env, m)), env(m))
  }

  /** No answer of the first `n` turns is short. */
  ghost predicate NoShort(j: Job, statSize: nat, maxConcurrent: nat, env: Outside, n: nat) {
    forall m :: 0 <= m < n ==> !ShortAt(j, statSize, maxConcurrent, env, m)
  }

  /** Nothing fails in the first `n` turns. */
  ghost predicate NoFault(env: Outside, n: nat) {
    forall m :: 0 <= m < n ==> Faultless(env(m))
  }

  predicate WindowAt(j: Job, statSize: nat, maxConcurrent: nat, env: Outside, m: nat) {
    var t := Filled(j, statSize, After(j, statSize, maxConcurrent, env, m));
    t.inFlight + |t.pending| <= maxConcurrent
  }

  /** When the first `n` turns have sent their requests, no more are outstanding or held than allowed. */
  ghost predicate Windowed(j: Job, statSize: nat, maxConcurrent: nat, env: Outside, n: nat) {
    forall m :: 0 <= m < n ==> WindowAt(j, statSize, maxConcurrent, env, m)
  }

  /** Nor in the turn after them. */
  ghost predicate Window(j: Job, statSize: nat, maxConcurrent: nat, env: Outside, n: nat) {
    Windowed(j, statSize, maxConcurrent, env, n) && WindowAt(j, statSize, maxConcurrent, env, n)
  }

  /** The loop has not stopped before `n` turns. */
  ghost predicate Running(j: Job, statSize: nat, maxConcurrent: nat, env: Outside, n: nat) {
    forall m :: 0 <= m < n ==> !Stops(j, statSize, After(j, statSize, maxConcurrent, env, m))
  }

  /** `n` is the number of turns the loop takes. */
  ghost predicate Turns(j: Job, statSize: nat, maxConcurrent: nat, env: Outside, n: nat) {
    Running(j, statSize, maxConcurrent, env, n) && Stops(j, statSize, After(j, statSize, maxConcurrent, env, n))
  }

  // ---- when the call is broken off ----

  /** The result of the n-th turn is the answer to a request, for this position. */
  predicate AnswersAt(j: Job, t: Transfer, c: Choice, pos: nat) {
    var id := Pick(t.reqs, t.lastId, c.pick);
    !c.lost && id in t.reqs && j.At(t.reqs[id]) == pos
  }

  function AnsweredPos(j: Job, t: Transfer, c: Choice): nat {
    var id := Pick(t.reqs, t.lastId, c.pick);
    if id in t.reqs then j.At(t.reqs[id]) else 0
  }

  predicate IsRefusal(j: Job, t: Transfer, c: Choice) {
    AnswersAt(j, t, c, AnsweredPos(j, t, c)) && c.refused
  }

  predicate IsEnd(j: Job, t: Transfer, c: Choice) {
    AnswersAt(j, t, c, AnsweredPos(j, t, c)) && !c.refused && AnsweredPos(j, t, c) >= |j.file|
  }

  predicate IsData(j: Job, t: Transfer, c: Choice) {
    AnswersAt(j, t, c, AnsweredPos(j, t, c)) && !c.refused && AnsweredPos(j, t, c) < |j.file|
  }

  /** Of what is held from `at` on, written piece by piece, the writer does not take all. */
  predicate Rejects(pending: map<nat, Data>, at: nat, took: seq<Took>, i: nat)
    decreases |pending|
  {
    at in pending &&
    (HeldShrinks(pending, at);
     TookAt(took, i).All? ==> Rejects(pending - {at}, at + |pending[at]|, took, i + 1))
  }

  lemma HeldShrinks(pending: map<nat, Data>, at: nat)
    requires at in pending
    ensures |pending - {at}| < |pending|
  {
    assert pending.Keys == (pending - {at}).Keys + {at};
  }

  /** In this turn data that is next arrives, and of what can now be written the writer does not take all. */
  predicate WriterFails(j: Job, t: Transfer, c: Choice) {
    var p := AnsweredPos(j, t, c);
    && IsData(j, t, c) && p == t.writeOffset
    && Rejects(t.pending[p := j.file[p..p + Min(c.len, FullLen(j.file, p, j.size))]], p, c.took, 0)
  }

  /** The variables of the call as turn `m`, its requests sent, takes its result. */
  function Receiving(j: Job, statSize: nat, maxConcurrent: nat, env: Outside, m: nat): Transfer {
    Filled(j, statSize, After(j, statSize, maxConcurrent, env, m))
  }

  /** The positions at which in the first `n` turns reads were refused, or answered with the end of the file. */
  function Refusals(j: Job, statSize: nat, maxConcurrent: nat, env: Outside, n: nat): set<nat> {
    if n == 0 then {}
    else
      var t := Receiving(j, statSize, maxConcurrent, env, n - 1);
      Refusals(j, statSize, maxConcurrent, env, n - 1)
      + if IsRefusal(j, t, env(n - 1)) then {AnsweredPos(j, t, env(n - 1))} else {}
  }

  function Ends(j: Job, statSize: nat, maxConcurrent: nat, env: Outside, n: nat): set<nat> {
    if n == 0 then {}
    else
      var t := Receiving(j, statSize, maxConcurrent, env, n - 1);
      Ends(j, statSize, maxConcurrent, env, n - 1)
      + if IsEnd(j, t, env(n - 1)) then {AnsweredPos(j, t, env(n - 1))} else {}
  }

  ghost predicate SomeLost(env: Outside, n: nat) {
    exists m :: 0 <= m < n && env(m).lost
  }

  predicate SomeWriteFails(j: Job, statSize: nat, maxConcurrent: nat, env: Outside, n: nat) {
    n > 0 && (SomeWriteFails(j, statSize, maxConcurrent, env, n - 1)
              || WriterFails(j, Receiving(j, statSize, maxConcurrent, env, n - 1), env(n - 1)))
  }

  /** A result is lost, the writer fails, or a read is refused below every position where the end of the file was told. */
  ghost predicate Doomed(j: Job, statSize: nat, maxConcurrent: nat, env: Outside, n: nat) {
    || SomeLost(env, n) || SomeWriteFails(j, statSize, maxConcurrent, env, n)
    || exists p :: p in Refusals(j, statSize, maxConcurrent, env, n) && BelowAll(p, Ends(j, statSize, maxConcurrent, env, n))
  }

  /** Requests have ids given out, are for chunks asked for, each for its own, and for positions without a status yet. */
  ghost predicate Table(j: Job, reqs: map<nat, nat>, lastId: nat, sent: nat, told: set<nat>) {
    && (forall id :: id in reqs ==> id <= lastId && reqs[id] < sent && j.At(reqs[id]) !in told)
    && (forall a, b :: a in reqs && b in reqs && a != b ==> reqs[a] != reqs[b])
    && (forall p :: p in told ==> p < j.At(sent))
  }

  ghost predicate InFile(j: Job, pending: map<nat, Data>) {
    forall p :: p in pending ==> p + |pending[p]| <= |j.file|
  }

  /** The error kept: fatal ones stay, otherwise it is that of the lowest position with a status. */
  ghost predicate Errors(j: Job, e: OffsetErr, fatal: bool, refused: set<nat>, ended: set<nat>) {
    && refused !! ended && (forall p :: p in ended ==> p >= |j.file|)
    && if fatal then e.Failed? && e.offset <= |j.file|
       else && (e.NoErr? ==> refused + ended == {})
            && (forall p :: p in refused + ended ==> !e.NoErr? && e.offset <= p)
            && (e.Failed? ==> e.offset in refused) && (e.Eof? ==> e.offset in ended)
  }

  ghost predicate Good(j: Job, t: Transfer, lost: bool, failed: bool, refused: set<nat>, ended: set<nat>) {
    && j.size >= 1 && (!lost ==> |t.reqs| == t.inFlight)
    && Table(j, t.reqs, t.lastId, t.sent, refused + ended) && InFile(j, t.pending)
    && Errors(j, t.firstErr, lost || failed, refused, ended)
  }

  lemma TableSend(j: Job, reqs: map<nat, nat>, lastId: nat, sent: nat, told: set<nat>, lastId': nat, sent': nat)
    requires j.size >= 1 && Table(j, reqs, lastId, sent, told) && lastId' == lastId + 1 && sent' == sent + 1
    ensures Table(j, reqs[lastId' := sent], lastId', sent', told) && |reqs[lastId' := sent]| == |reqs| + 1
  {
    PosNext(j, sent);
  }

  lemma {:induction false} FillGood(j: Job, statSize: nat, t: Transfer, lost: bool, failed: bool, refused: set<nat>, ended: set<nat>)
    requires Good(j, t, lost, failed, refused, ended)
    ensures Good(j, Fill(j, statSize, t), lost, failed, refused, ended)
    decreases if t.inFlight + |t.pending| < t.desired then t.desired - t.inFlight - |t.pending| else 0
  {
    hide Table, InFile, Errors;
    if t.inFlight + |t.pending| < t.desired {
      var u := Send(j, t, statSize);
      TableSend(j, t.reqs, t.lastId, t.sent, refused + ended, u.lastId, u.sent);
      FillGood(j, statSize, u, lost, failed, refused, ended);
    }
  }

  /** The drain loop touches only what is held and the output, and keeps the error unless the writer fails. */
  lemma {:induction false} DrainedErr(j: Job, t: Transfer, took: seq<Took>, i: nat)
    requires InFile(j, t.pending)
    ensures var u := Drained(t, took, i);
      && u.reqs == t.reqs && u.lastId == t.lastId && u.sent == t.sent && u.inFlight == t.inFlight && InFile(j, u.pending)
      && if Rejects(t.pending, t.writeOffset, took, i) then u.firstErr.Failed? && u.firstErr.offset <= |j.file|
         else u.firstErr == t.firstErr
    decreases |t.pending|
  {
    if t.writeOffset in t.pending {
      PopShrinks(t);
      HeldShrinks(t.pending, t.writeOffset);
      if TookAt(took, i).All? {
        DrainedErr(j, PopOk(t), took, i + 1);
      }
    }
  }

  lemma NextErr(j: Job, statSize: nat, maxConcurrent: nat, t: Transfer, took: seq<Took>)
    requires InFile(j, t.pending) && t.writeOffset in t.pending
    ensures var u := TakeNext(j, statSize, maxConcurrent, t, took);
      && u.reqs == t.reqs && u.lastId == t.lastId && u.sent == t.sent && u.inFlight == t.inFlight && InFile(j, u.pending)
      && if Rejects(t.pending, t.writeOffset, took, 0) then u.firstErr.Failed? && u.firstErr.offset <= |j.file|
         else u.firstErr == t.firstErr
  {
    hide Drained, Desired;
    HeldShrinks(t.pending, t.writeOffset);
    if TookAt(took, 0).All? {
      var u := PopOk(t);
      DrainedErr(j, u.(desired := Desired(j, statSize, maxConcurrent, u)), took, 1);
    }
  }

  lemma TableAnswered(j: Job, reqs: map<nat, nat>, lastId: nat, sent: nat, told: set<nat>, id: nat, told': set<nat>)
    requires j.size >= 1 && Table(j, reqs, lastId, sent, told) && id in reqs
    requires told' == told || told' == told + {j.At(reqs[id])}
    ensures Table(j, reqs - {id}, lastId, sent, told') && |reqs - {id}| == |reqs| - 1 && j.At(reqs[id]) !in told
  {
    PosGrows(j, reqs[id], sent);
    forall a | a in reqs - {id} ensures j.At(reqs[a]) !in told' {
      if j.At(reqs[a]) == j.At(reqs[id]) {
        PosInjective(j, reqs[a], reqs[id]);
      }
    }
  }

  lemma StatusErrors(j: Job, e: OffsetErr, fatal: bool, refused: set<nat>, ended: set<nat>, pos: nat, a: Answer,
                     refused': set<nat>, ended': set<nat>)
    requires Errors(j, e, fatal, refused, ended) && pos !in refused + ended && !a.Chunk? && (a.EndOfFile? ==> pos >= |j.file|)
    requires refused' == (if a.Refused? then refused + {pos} else refused)
    requires ended' == (if a.EndOfFile? then ended + {pos} else ended)
    ensures Errors(j, Lower(e, pos, a), fatal, refused', ended')
  {
  }

  lemma LostGood(j: Job, t: Transfer, c: Choice, lost: bool, failed: bool, refused: set<nat>, ended: set<nat>)
    requires Good(j, t, lost, failed, refused, ended) && t.inFlight > 0
    requires c.lost || Pick(t.reqs, t.lastId, c.pick) !in t.reqs
    ensures (lost || c.lost) && Good(j, t.(inFlight := t.inFlight - 1, firstErr := Failed(0)), true, failed, refused, ended)
  {
    hide Pick, InFile;
    if !lost {
      assert t.reqs != map[];
      PickFinds(t.reqs, t.lastId, c.pick);
    }
  }

  lemma OneTold(refused: set<nat>, ended: set<nat>, pos: nat, a: Answer, refused': set<nat>, ended': set<nat>)
    requires !a.Chunk? && refused' == refused + (if a.Refused? then {pos} else {})
    requires ended' == ended + if a.EndOfFile? then {pos} else {}
    ensures refused' == (if a.Refused? then refused + {pos} else refused)
    ensures ended' == (if a.EndOfFile? then ended + {pos} else ended)
    ensures refused' + ended' == refused + ended + {pos}
  {
  }

  lemma StatusGood(j: Job, t: Transfer, id: nat, a: Answer, lost: bool, failed: bool, refused: set<nat>, ended: set<nat>,
                   refused': set<nat>, ended': set<nat>)
    requires Good(j, t.(inFlight := t.inFlight + 1), lost, failed, refused, ended) && id in t.reqs
    requires !a.Chunk? && LegalChunk(j.file, j.At(t.reqs[id]), j.size, a)
    requires refused' == refused + (if a.Refused? then {j.At(t.reqs[id])} else {})
    requires ended' == ended + if a.EndOfFile? then {j.At(t.reqs[id])} else {}
    ensures Good(j, Refuse(j, t, id, a), lost, failed, refused', ended')
  {
    hide InFile, Errors, Pos, Table, Lower;
    var pos, told := j.At(t.reqs[id]), refused + ended;
    OneTold(refused, ended, pos, a, refused', ended');
    TableAnswered(j, t.reqs, t.lastId, t.sent, told, id, refused' + ended');
    StatusErrors(j, t.firstErr, lost || failed, refused, ended, pos, a, refused', ended');
  }

  lemma DataGood(j: Job, statSize: nat, maxConcurrent: nat, t: Transfer, id: nat, n: nat, took: seq<Took>, lost: bool, failed: bool,
                 refused: set<nat>, ended: set<nat>)
    requires Good(j, t.(inFlight := t.inFlight + 1), lost, failed, refused, ended) && id in t.reqs
    requires j.At(t.reqs[id]) + n <= |j.file|
    ensures var p := j.At(t.reqs[id]);
      Good(j, TakeData(j, statSize, maxConcurrent, t, id, n, took), lost,
           failed || (p == t.writeOffset && Rejects(t.pending[p := j.file[p..p + n]], p, took, 0)), refused, ended)
  {
    hide Errors, Pos, TakeNext, Rejects;
    var h := Hold(j, t, id, n);
    TableAnswered(j, t.reqs, t.lastId, t.sent, refused + ended, id, refused + ended);
    hide Table;
    if j.At(t.reqs[id]) == t.writeOffset {
      NextErr(j, statSize, maxConcurrent, h, took);
      var u := TakeNext(j, statSize, maxConcurrent, h, took);
      if Rejects(h.pending, h.writeOffset, took, 0) {
        FatalErrors(j, t.firstErr, lost || failed, refused, ended, u.firstErr);
      }
    }
  }

  lemma FatalErrors(j: Job, e: OffsetErr, fatal: bool, refused: set<nat>, ended: set<nat>, e': OffsetErr)
    requires Errors(j, e, fatal, refused, ended) && e'.Failed? && e'.offset <= |j.file|
    ensures Errors(j, e', true, refused, ended)
  {
  }

  /** One turn's result, by what it is. */
  lemma ResultGood(j: Job, statSize: nat, maxConcurrent: nat, t: Transfer, c: Choice, lost: bool, failed: bool,
                   refused: set<nat>, ended: set<nat>)
    requires Good(j, t, lost, failed, refused, ended) && t.inFlight > 0
    ensures Good(j, TakeResult(j, statSize, maxConcurrent, t, c), lost || c.lost, failed || WriterFails(j, t, c),
                 refused + (if IsRefusal(j, t, c) then {AnsweredPos(j, t, c)} else {}),
                 ended + if IsEnd(j, t, c) then {AnsweredPos(j, t, c)} else {})
  {
    hide Good, Pick, Pos, TakeData, Refuse, Rejects;
    var u := t.(inFlight := t.inFlight - 1);
    assert u.(inFlight := u.inFlight + 1) == t;
    var id := Pick(t.reqs, t.lastId, c.pick);
    if c.lost || id !in t.reqs {
      LostGood(j, t, c, lost, failed, refused, ended);
      assert refused + {} == refused && ended + {} == ended;
    } else {
      var a := AnswerOf(j.file, j.At(t.reqs[id]), j.size, c);
      if a.Chunk? {
        DataGood(j, statSize, maxConcurrent, u, id, a.n, c.took, lost, failed, refused, ended);
        assert refused + {} == refused && ended + {} == ended;
      } else {
        var pos := j.At(t.reqs[id]);
        StatusGood(j, u, id, a, lost, failed, refused, ended, refused + (if a.Refused? then {pos} else {}),
                   ended + if a.EndOfFile? then {pos} else {});
      }
    }
  }

  lemma StartGood(j: Job)
    requires j.size >= 1
    ensures Good(j, Start(j.start), false, false, {}, {})
  {
  }

  lemma FilledGood(j: Job, statSize: nat, t: Transfer, lost: bool, failed: bool, refused: set<nat>, ended: set<nat>)
    requires Good(j, t, lost, failed, refused, ended)
    ensures Good(j, Filled(j, statSize, t), lost, failed, refused, ended)
  {
    hide Good, Fill;
    FillGood(j, statSize, t, lost, failed, refused, ended);
  }

  lemma LostNext(env: Outside, n: nat)
    requires n > 0
    ensures SomeLost(env, n) <==> SomeLost(env, n - 1) || env(n - 1).lost
  {
  }

  lemma {:induction false} GoodRun(j: Job, statSize: nat, maxConcurrent: nat, env: Outside, n: nat)
    requires j.size >= 1 && Running(j, statSize, maxConcurrent, env, n)
    ensures Good(j, After(j, statSize, maxConcurrent, env, n), SomeLost(env, n), SomeWriteFails(j, statSize, maxConcurrent, env, n),
                 Refusals(j, statSize, maxConcurrent, env, n), Ends(j, statSize, maxConcurrent, env, n))
  {
    hide Good, Filled, TakeResult, WriterFails, IsRefusal, IsEnd, AnsweredPos, SomeLost;
    if n == 0 {
      StartGood(j);
      NoneLost(env);
    } else {
      GoodRun(j, statSize, maxConcurrent, env, n - 1);
      LostNext(env, n);
      var t := After(j, statSize, maxConcurrent, env, n - 1);
      var lost, failed := SomeLost(env, n - 1), SomeWriteFails(j, statSize, maxConcurrent, env, n - 1);
      var refused, ended := Refusals(j, statSize, maxConcurrent, env, n - 1), Ends(j, statSize, maxConcurrent, env, n - 1);
      FilledGood(j, statSize, t, lost, failed, refused, ended);
      assert !Stops(j, statSize, t);
      ResultGood(j, statSize, maxConcurrent, Filled(j, statSize, t), env(n - 1), lost, failed, refused, ended);
    }
  }

  lemma NoneLost(env: Outside)
    ensures !SomeLost(env, 0)
  {
  }

  lemma FailedIff(j: Job, t: Transfer, lost: bool, failed: bool, refused: set<nat>, ended: set<nat>)
    requires Good(j, t, lost, failed, refused, ended)
    ensures t.firstErr.Failed? <==> lost || failed || exists p :: p in refused && BelowAll(p, ended)
  {
    hide Table, InFile;
    var e := t.firstErr;
    if e.Failed? && !lost && !failed {
      forall q | q in ended ensures e.offset < q {
        assert q in refused + ended;
      }
      assert BelowAll(e.offset, ended);
    }
    if p :| p in refused && BelowAll(p, ended) {
      assert p in refused + ended;
    }
  }

  /**
   * The call is broken off if and only if a result is lost, the writer fails, or a read is refused below every position
   * where the end of the file was told.
   */
  lemma BrokenIff(j: Job, statSize: nat, maxConcurrent: nat, env: Outside, n: nat)
    requires j.size >= 1 && Turns(j, statSize, maxConcurrent, env, n)
    ensures ResultOf(Filled(j, statSize, After(j, statSize, maxConcurrent, env, n))).Broken? <==>
            Doomed(j, statSize, maxConcurrent, env, n)
  {
    hide Good, Filled, After, Refusals, Ends, SomeLost, SomeWriteFails;
    GoodRun(j, statSize, maxConcurrent, env, n);
    var lost, failed := SomeLost(env, n), SomeWriteFails(j, statSize, maxConcurrent, env, n);
    var refused, ended := Refusals(j, statSize, maxConcurrent, env, n), Ends(j, statSize, maxConcurrent, env, n);
    var t := After(j, statSize, maxConcurrent, env, n);
    FilledGood(j, statSize, t, lost, failed, refused, ended);
    FailedIff(j, Filled(j, statSize, t), lost, failed, refused, ended);
  }

  // ---- the window ----

  /** In this turn data that is next arrives and the writer takes it. */
  predicate Advances(j: Job, t: Transfer, c: Choice) {
    IsData(j, t, c) && AnsweredPos(j, t, c) == t.writeOffset && TookAt(c.took, 0).All?
  }

  function AdvanceCount(j: Job, statSize: nat, maxConcurrent: nat, env: Outside, n: nat): nat {
    if n == 0 then 0
    else
      AdvanceCount(j, statSize, maxConcurrent, env, n - 1)
      + if Advances(j, Receiving(j, statSize, maxConcurrent, env, n - 1), env(n - 1)) then 1 else 0
  }

  /** As much as is desired after this many advances: one at a time once all of the size reported has been asked for. */
  predicate Wants(j: Job, statSize: nat, maxConcurrent: nat, t: Transfer, advances: nat) {
    t.desired == if j.At(t.sent) > statSize then 1 else Min(maxConcurrent, 1 + advances)
  }

  lemma {:induction false} FillWants(j: Job, statSize: nat, maxConcurrent: nat, t: Transfer, advances: nat)
    requires Wants(j, statSize, maxConcurrent, t, advances)
    ensures var u := Fill(j, statSize, t); Wants(j, statSize, maxConcurrent, u, advances) && u.inFlight + |u.pending| >= u.desired
    decreases if t.inFlight + |t.pending| < t.desired then t.desired - t.inFlight - |t.pending| else 0
  {
    if t.inFlight + |t.pending| < t.desired {
      PosNext(j, t.sent);
      FillWants(j, statSize, maxConcurrent, Send(j, t, statSize), advances);
    }
  }

  lemma {:induction false} DrainedKeeps(t: Transfer, took: seq<Took>, i: nat)
    ensures Drained(t, took, i).desired == t.desired && Drained(t, took, i).sent == t.sent
    decreases |t.pending|
  {
    if t.writeOffset in t.pending {
      PopShrinks(t);
      if TookAt(took, i).All? {
        DrainedKeeps(PopOk(t), took, i + 1);
      }
    }
  }

  lemma ResultWants(j: Job, statSize: nat, maxConcurrent: nat, t: Transfer, c: Choice, advances: nat)
    requires maxConcurrent >= 1 && t.inFlight > 0 && Wants(j, statSize, maxConcurrent, t, advances)
    ensures Wants(j, statSize, maxConcurrent, TakeResult(j, statSize, maxConcurrent, t, c),
                  advances + if Advances(j, t, c) then 1 else 0)
  {
    hide Pick, Pos, Drained;
    if Advances(j, t, c) {
      var u := t.(inFlight := t.inFlight - 1);
      var id := Pick(u.reqs, u.lastId, c.pick);
      var a := AnswerOf(j.file, j.At(t.reqs[id]), j.size, c);
      var h := PopOk(Hold(j, u, id, a.n));
      DrainedKeeps(h.(desired := Desired(j, statSize, maxConcurrent, h)), c.took, 1);
    }
  }

  /**
   * In every turn as many chunks are outstanding or held as desired, unless an error is known; and what is desired has
   * grown by one, up to the limit, with each arrival of data that was next, until all of the reported size is asked for.
   */
  lemma {:induction false} WindowGrows(j: Job, statSize: nat, maxConcurrent: nat, env: Outside, n: nat)
    requires maxConcurrent >= 1 && Running(j, statSize, maxConcurrent, env, n)
    ensures Wants(j, statSize, maxConcurrent, After(j, statSize, maxConcurrent, env, n),
                  AdvanceCount(j, statSize, maxConcurrent, env, n))
    ensures var t := Receiving(j, statSize, maxConcurrent, env, n);
      && Wants(j, statSize, maxConcurrent, t, AdvanceCount(j, statSize, maxConcurrent, env, n))
      && (t.firstErr.NoErr? ==> t.inFlight + |t.pending| >= t.desired)
  {
    hide Fill, TakeResult, Advances;
    var t := After(j, statSize, maxConcurrent, env, n);
    if n > 0 {
      WindowGrows(j, statSize, maxConcurrent, env, n - 1);
      var before := Receiving(j, statSize, maxConcurrent, env, n - 1);
      assert !Stops(j, statSize, After(j, statSize, maxConcurrent, env, n - 1));
      ResultWants(j, statSize, maxConcurrent, before, env(n - 1), AdvanceCount(j, statSize, maxConcurrent, env, n - 1));
    }
    FillWants(j, statSize, maxConcurrent, t, AdvanceCount(j, statSize, maxConcurrent, env, n));
  }

  // ---- the call ----

  method Drain(j: Job, t0: Transfer, ghost k0: Ledger, took: seq<Took>, start: nat) returns (t: Transfer, ghost k: Ledger)
    requires Inv(j, t0, k0)
    ensures Inv(j, t, k) && t.writeOffset !in t.pending
    ensures t == Drained(t0, took, start)
    ensures t.inFlight == t0.inFlight && t.desired == t0.desired && |t.pending| <= |t0.pending|
    ensures k.todo == k0.todo && k.answers == k0.answers && (t.firstErr.NoErr? ==> t0.firstErr.NoErr?)
    ensures (forall i :: 0 <= i < |took| ==> took[i].All?) ==> k.fault == k0.fault
  {
    hide Inv;
    t, k := t0, k0;
    var i := start;
    while t.writeOffset in t.pending
      invariant Inv(j, t, k) && Drained(t, took, i) == Drained(t0, took, start)
      invariant t.inFlight == t0.inFlight && t.desired == t0.desired && |t.pending| <= |t0.pending|
      invariant k.todo == k0.todo && k.answers == k0.answers && (t.firstErr.NoErr? ==> t0.firstErr.NoErr?)
      invariant (forall i :: 0 <= i < |took| ==> took[i].All?) ==> k.fault == k0.fault
      decreases |t.pending|
    {
      var w := TookAt(took, i);
      PopShrinks(t);
      if w.All? {
        PopOkInv(j, t, k);
        t, k := PopOk(t), PopBook(j, t, k, false);
        i := i + 1;
      } else {
        var n := Min(w.n, |t.pending[t.writeOffset]|);
        PopFailInv(j, t, k, n);
        t, k := PopFail(t, n), PopBook(j, t, k, true);
        return;
      }
    }
  }

  lemma DesiredInv(j: Job, t: Transfer, k: Ledger, d: nat)
    requires Inv(j, t, k)
    ensures Inv(j, t.(desired := d), k)
  {
    hide Requests, Holding, SameKeys, HeldBytes, Output, InOrder, Shorts, Pos, Excuses, Split, Todo, AllFull;
  }

  lemma PendingSize(pending: map<nat, Data>, p: nat, d: Data)
    ensures |pending[p := d]| <= |pending| + 1
    ensures |pending[p := d] - {p}| <= |pending|
  {
    var q := pending[p := d];
    assert q.Keys == pending.Keys + {p};
    assert (q - {p}).Keys == pending.Keys - {p};
    assert |pending.Keys - {p}| <= |pending.Keys|;
  }

  method WriteNext(j: Job, statSize: nat, maxConcurrent: nat, took: seq<Took>, t0: Transfer, ghost k0: Ledger)
    returns (t: Transfer, ghost k: Ledger)
    requires Inv(j, t0, k0) && t0.writeOffset in t0.pending && 1 <= t0.desired <= maxConcurrent
    ensures Inv(j, t, k) && t.writeOffset !in t.pending
    ensures t == TakeNext(j, statSize, maxConcurrent, t0, took)
    ensures t.inFlight == t0.inFlight && |t.pending| <= |t0.pending| && 1 <= t.desired <= maxConcurrent
    ensures k.todo == k0.todo && k.answers == k0.answers && (t.firstErr.NoErr? ==> t0.firstErr.NoErr?)
    ensures (forall i :: 0 <= i < |took| ==> took[i].All?) ==> k.fault == k0.fault
  {
    hide Inv, Pos, Drained;
    var w := TookAt(took, 0);
    if w.All? {
      PopOkInv(j, t0, k0);
      t, k := PopOk(t0), PopBook(j, t0, k0, false);
      var desired := Desired(j, statSize, maxConcurrent, t);
      DesiredInv(j, t, k, desired);
      t, k := Drain(j, t.(desired := desired), k, took, 1);
    } else {
      var m := Min(w.n, |t0.pending[t0.writeOffset]|);
      PopFailInv(j, t0, k0, m);
      t, k := PopFail(t0, m), PopBook(j, t0, k0, true);
    }
  }

  /** A data answer: written at once if it is next (the same as held and taken out at once), otherwise held. */
  method ReceiveChunk(j: Job, statSize: nat, maxConcurrent: nat, id: nat, n: nat, took: seq<Took>, t0: Transfer, ghost k0: Ledger)
    returns (t: Transfer, ghost k: Ledger)
    requires Inv(j, t0.(inFlight := t0.inFlight + 1), k0) && t0.writeOffset !in t0.pending
    requires id in t0.reqs && LegalChunk(j.file, j.At(t0.reqs[id]), j.size, Answer.Chunk(n))
    requires 1 <= t0.desired <= maxConcurrent
    ensures Inv(j, t, k) && t.writeOffset !in t.pending
    ensures t == TakeData(j, statSize, maxConcurrent, t0, id, n, took)
    ensures t.inFlight == t0.inFlight && |t.pending| <= |t0.pending| + 1 && 1 <= t.desired <= maxConcurrent
    ensures k.todo < k0.todo && (t.firstErr.NoErr? ==> t0.firstErr.NoErr?)
    ensures k.answers == k0.answers + [Got(j.At(t0.reqs[id]), n)]
    ensures (forall i :: 0 <= i < |took| ==> took[i].All?) ==> k.fault == k0.fault
  {
    hide Inv, Pos, TakeNext;
    var p := j.At(t0.reqs[id]);
    HoldInv(j, t0, k0, id, n);
    t, k := Hold(j, t0, id, n), HoldBook(j, t0, k0, id, n);
    PendingSize(t0.pending, p, j.file[p..p + n]);
    if p == t0.writeOffset {
      t, k := WriteNext(j, statSize, maxConcurrent, took, t, k);
    }
  }

  lemma RequestsBelow(j: Job, t: Transfer, k: Ledger)
    requires Inv(j, t, k)
    ensures forall id :: id in t.reqs ==> id <= t.lastId
    ensures !k.fault ==> |t.reqs| == t.inFlight
  {
    hide Holding, SameKeys, HeldBytes, Output, InOrder, Shorts, Pos, Excuses, Split, Todo, AllFull;
  }

  /** The answer to request `id`. */
  method ReceiveAnswer(j: Job, statSize: nat, maxConcurrent: nat, c: Choice, id: nat, t0: Transfer, ghost k0: Ledger)
    returns (t: Transfer, ghost k: Ledger)
    requires Inv(j, t0.(inFlight := t0.inFlight + 1), k0) && t0.writeOffset !in t0.pending
    requires id in t0.reqs && 1 <= t0.desired <= maxConcurrent && t0.inFlight + |t0.pending| < maxConcurrent
    ensures Inv(j, t, k) && t.writeOffset !in t.pending
    ensures t == TakeAnswer(j, statSize, maxConcurrent, t0, id, c)
    ensures 1 <= t.desired <= maxConcurrent && t.inFlight + |t.pending| <= maxConcurrent
    ensures t.firstErr.NoErr? ==> t0.firstErr.NoErr? && k.todo < k0.todo
    ensures k.todo < k0.todo || (k.todo == k0.todo && t.inFlight == t0.inFlight)
    ensures Faultless(c) && !k0.fault ==> !k.fault
    ensures
      var pos := j.At(t0.reqs[id]);
      AllFull(j, k.answers) <==>
      AllFull(j, k0.answers) && (c.refused || pos >= |j.file| || c.len >= FullLen(j.file, pos, j.size))
  {
    hide Inv, Pos, AllFull, TakeData;
    t, k := t0, k0;
    var answer := AnswerOf(j.file, j.At(t.reqs[id]), j.size, c);
    if answer.Chunk? {
      AllFullAppend(j, k.answers, Got(j.At(t.reqs[id]), answer.n));
      t, k := ReceiveChunk(j, statSize, maxConcurrent, id, answer.n, c.took, t, k);
    } else {
      RefuseInv(j, t, k, id, answer);
      t, k := Refuse(j, t, id, answer), RefuseBook(t, k, id, answer);
    }
  }

  /** One result taken from the channel and handled. */
  method Receive(j: Job, statSize: nat, maxConcurrent: nat, c: Choice, t0: Transfer, ghost k0: Ledger)
    returns (t: Transfer, ghost k: Ledger)
    requires Inv(j, t0, k0) && t0.writeOffset !in t0.pending
    requires t0.inFlight > 0 && 1 <= t0.desired <= maxConcurrent && t0.inFlight + |t0.pending| <= maxConcurrent
    ensures Inv(j, t, k) && t.writeOffset !in t.pending
    ensures t == TakeResult(j, statSize, maxConcurrent, t0, c)
    ensures 1 <= t.desired <= maxConcurrent && t.inFlight + |t.pending| <= maxConcurrent
    ensures t.firstErr.NoErr? ==> t0.firstErr.NoErr? && k.todo < k0.todo
    ensures !t0.firstErr.NoErr? ==> k.todo < k0.todo || (k.todo == k0.todo && t.inFlight < t0.inFlight)
    ensures Faultless(c) && !k0.fault ==> !k.fault
    ensures AllFull(j, k.answers) <==> AllFull(j, k0.answers) && !Short(j, t0, c)
  {
    hide Inv, Pos, AllFull, TakeAnswer, Pick;
    RequestsBelow(j, t0, k0);
    t, k := t0.(inFlight := t0.inFlight - 1), k0;
    assert t.(inFlight := t.inFlight + 1) == t0;
    var id := Pick(t.reqs, t.lastId, c.pick);
    if t.reqs != map[] {
      PickFinds(t.reqs, t.lastId, c.pick);
    }
    if c.lost || id !in t.reqs {
      LostInv(j, t, k);
      t, k := t.(firstErr := Failed(0)), k.(lost := true, fault := true);
      return;
    }
    t, k := ReceiveAnswer(j, statSize, maxConcurrent, c, id, t, k);
  }

  method SendWindow(j: Job, statSize: nat, maxConcurrent: nat, t0: Transfer, ghost k0: Ledger)
    returns (t: Transfer, ghost k: Ledger)
    requires Inv(j, t0, k0) && t0.writeOffset !in t0.pending && t0.firstErr.NoErr?
    requires 1 <= t0.desired <= maxConcurrent && t0.inFlight + |t0.pending| <= maxConcurrent
    ensures Inv(j, t, k) && t.writeOffset !in t.pending && t.firstErr.NoErr? && k.todo == k0.todo
    ensures t == Fill(j, statSize, t0) && k.fault == k0.fault && k.answers == k0.answers
    ensures 1 <= t.desired <= maxConcurrent && t.inFlight + |t.pending| <= maxConcurrent
    ensures t.inFlight + |t.pending| > 0
  {
    hide Inv, Pos;
    t, k := t0, k0;
    while t.inFlight + |t.pending| < t.desired
      invariant Inv(j, t, k) && t.writeOffset !in t.pending && t.firstErr.NoErr? && k.todo == k0.todo
      invariant Fill(j, statSize, t) == Fill(j, statSize, t0) && k.fault == k0.fault && k.answers == k0.answers
      invariant 1 <= t.desired <= maxConcurrent && t.inFlight + |t.pending| <= maxConcurrent
      decreases maxConcurrent - t.inFlight - |t.pending|
    {
      SendInv(j, t, k, statSize);
      t, k := Send(j, t, statSize), SendBook(t, k);
    }
  }

  /** With nothing outstanding and no failure, the chunk that would be next lies past the end. */
  lemma NextIsPastEnd(j: Job, t: Transfer, k: Ledger)
    requires Inv(j, t, k) && t.writeOffset !in t.pending && t.inFlight == 0 && !t.firstErr.Failed?
    requires !k.stuck && k.next < |k.chunks|
    ensures j.At(k.next) >= |j.file|
  {
    hide Output, Shorts, Pos, Todo, AllFull, HeldBytes;
    assert t.reqs == map[];
    PosNext(j, k.next);
    assert k.chunks[k.next].Dropped? || k.chunks[k.next].Held?;
  }

  /** Held data lies at or after `writeOffset`. */
  lemma HeldIsAhead(j: Job, t: Transfer, k: Ledger, p: nat)
    requires Inv(j, t, k) && p in t.pending
    ensures t.writeOffset <= j.At(k.next) <= p < |j.file| && k.next < |k.chunks|
  {
    hide Output, Shorts, Pos, Todo, AllFull, Requests, Excuses;
    PosNext(j, 0);
    if k.heldAt[p] > k.next {
      PosGrows(j, k.next, k.heldAt[p]);
    }
  }

  lemma PosNext(j: Job, i: nat)
    ensures j.At(i + 1) == j.At(i) + j.size
    ensures j.At(0) == j.start
  {
  }

  /** At end of file without an error, the whole rest was written exactly when no answer was short. */
  lemma Complete(j: Job, t: Transfer, k: Ledger)
    requires Inv(j, t, k) && t.writeOffset !in t.pending && t.inFlight == 0 && t.firstErr.Eof?
    ensures t.out == Rest(j.file, j.start) <==> AllFull(j, k.answers)
  {
    hide Requests, Holding, SameKeys, HeldBytes, Todo, Pos, AllFull;
    PosNext(j, 0);
    if AllFull(j, k.answers) {
      if k.next < |k.chunks| {
        NextIsPastEnd(j, t, k);
      }
    } else if !k.stuck || t.writeOffset >= |j.file| {
      var p :| p in t.pending && |t.pending[p]| < Min(j.size, |j.file| - p);
      HeldIsAhead(j, t, k, p);
    }
  }

  /** The loop gives up as inconsistent only if some answer was short. */
  lemma OnlyShortIsInconsistent(j: Job, t: Transfer, k: Ledger)
    requires Inv(j, t, k) && t.writeOffset !in t.pending && t.inFlight == 0 && t.firstErr.NoErr?
    requires t.pending != map[]
    ensures !AllFull(j, k.answers)
  {
    hide Requests, Holding, SameKeys, HeldBytes, Output, InOrder, Todo, Pos, AllFull, Split, Excuses;
    var p :| p in t.pending;
    HeldIsAhead(j, t, k, p);
    if !k.stuck {
      NextIsPastEnd(j, t, k);
    }
  }

  ghost function Below(n: nat): (s: set<nat>)
    ensures forall i: nat :: i in s <==> i < n
  {
    if n == 0 then {} else Below(n - 1) + {n - 1}
  }

  ghost function Blank(file: Data): Ledger {
    Ledger([], 0, map[], Below(|file|), [], false, false, false, false)
  }

  lemma Begin(j: Job, t: Transfer, k: Ledger)
    requires j.size >= 1 && t == Start(j.start) && k == Blank(j.file)
    ensures Inv(j, t, k) && AllFull(j, k.answers) && !k.fault
    ensures t.desired == 1 && t.inFlight == 0 && t.pending == map[]
  {
  }

  /** Where nothing fails and every answer may be a packet long, no answer is short. */
  lemma LongIsNotShort(j: Job, statSize: nat, maxConcurrent: nat, env: Outside, n: nat)
    requires forall i: nat :: Faultless(env(i)) && env(i).len >= j.size
    ensures NoShort(j, statSize, maxConcurrent, env, n) && NoFault(env, n)
  {
    hide Filled, After, Pick;
  }

  lemma AfterNext(j: Job, statSize: nat, maxConcurrent: nat, env: Outside, n: nat)
    requires !Stops(j, statSize, After(j, statSize, maxConcurrent, env, n))
    ensures
      var t := Filled(j, statSize, After(j, statSize, maxConcurrent, env, n));
      After(j, statSize, maxConcurrent, env, n + 1) == TakeResult(j, statSize, maxConcurrent, t, env(n))
  {
  }

  lemma TraceNext(j: Job, statSize: nat, maxConcurrent: nat, env: Outside, n: nat)
    requires !Stops(j, statSize, After(j, statSize, maxConcurrent, env, n))
    ensures Running(j, statSize, maxConcurrent, env, n) ==> Running(j, statSize, maxConcurrent, env, n + 1)
    ensures
      NoShort(j, statSize, maxConcurrent, env, n + 1) <==>
      NoShort(j, statSize, maxConcurrent, env, n) && !ShortAt(j, statSize, maxConcurrent, env, n)
    ensures NoFault(env, n + 1) ==> NoFault(env, n) && Faultless(env(n))
  {
    hide After, Filled, Stops, ShortAt, Faultless;
  }

  /** The local variables and the books after `n` turns of the loop. */
  ghost predicate Follows(j: Job, statSize: nat, maxConcurrent: nat, env: Outside, n: nat, t: Transfer, k: Ledger) {
    && t == After(j, statSize, maxConcurrent, env, n)
    && Running(j, statSize, maxConcurrent, env, n) && Windowed(j, statSize, maxConcurrent, env, n)
    && (NoFault(env, n) ==> !k.fault)
    && (AllFull(j, k.answers) <==> NoShort(j, statSize, maxConcurrent, env, n))
  }

  lemma FollowsFirst(j: Job, statSize: nat, maxConcurrent: nat, env: Outside, t: Transfer, k: Ledger)
    requires t == Start(j.start) && !k.fault && AllFull(j, k.answers)
    ensures Follows(j, statSize, maxConcurrent, env, 0, t, k)
  {
  }

  lemma FollowsNext(j: Job, statSize: nat, maxConcurrent: nat, env: Outside, n: nat, t: Transfer, k: Ledger,
                    t1: Transfer, t2: Transfer, k2: Ledger, n': nat)
    requires n' == n + 1 && Follows(j, statSize, maxConcurrent, env, n, t, k) && t1 == Filled(j, statSize, t) && t1.inFlight > 0
    requires t1.inFlight + |t1.pending| <= maxConcurrent && t2 == TakeResult(j, statSize, maxConcurrent, t1, env(n))
    requires AllFull(j, k2.answers) <==> AllFull(j, k.answers) && !Short(j, t1, env(n))
    requires Faultless(env(n)) && !k.fault ==> !k2.fault
    ensures Follows(j, statSize, maxConcurrent, env, n', t2, k2)
  {
    hide Filled, TakeResult, After, Running, NoShort, NoFault, AllFull, Short, Faultless;
    AfterNext(j, statSize, maxConcurrent, env, n);
    TraceNext(j, statSize, maxConcurrent, env, n);
  }

  lemma FollowsEnd(j: Job, statSize: nat, maxConcurrent: nat, env: Outside, n: nat, t: Transfer, k: Ledger, t1: Transfer)
    requires Follows(j, statSize, maxConcurrent, env, n, t, k) && t1 == Filled(j, statSize, t) && t1.inFlight == 0
    requires t1.inFlight + |t1.pending| <= maxConcurrent
    ensures Turns(j, statSize, maxConcurrent, env, n) && Window(j, statSize, maxConcurrent, env, n)
    ensures t1 == Filled(j, statSize, After(j, statSize, maxConcurrent, env, n))
    ensures NoFault(env, n) ==> !k.fault
    ensures AllFull(j, k.answers) <==> NoShort(j, statSize, maxConcurrent, env, n)
  {
    hide Filled, After, Running, NoShort, NoFault, AllFull;
  }

  lemma FilledAfterError(j: Job, statSize: nat, t: Transfer)
    requires !t.firstErr.NoErr?
    ensures Filled(j, statSize, t) == t
  {
  }

  /** The head of a turn: requests are sent unless there has been an error. */
  method SendPart(j: Job, statSize: nat, maxConcurrent: nat, t0: Transfer, ghost k0: Ledger)
    returns (t: Transfer, ghost k: Ledger)
    requires Inv(j, t0, k0) && t0.writeOffset !in t0.pending
    requires 1 <= t0.desired <= maxConcurrent && t0.inFlight + |t0.pending| <= maxConcurrent
    ensures Inv(j, t, k) && t.writeOffset !in t.pending && t.firstErr == t0.firstErr && k.todo == k0.todo
    ensures t == Filled(j, statSize, t0) && k.fault == k0.fault && k.answers == k0.answers
    ensures 1 <= t.desired <= maxConcurrent && t.inFlight + |t.pending| <= maxConcurrent
    ensures !t0.firstErr.NoErr? ==> t == t0
    ensures t.firstErr.NoErr? ==> t.inFlight + |t.pending| > 0
  {
    hide Inv, Fill;
    t, k := t0, k0;
    if t.firstErr.NoErr? {
      t, k := SendWindow(j, statSize, maxConcurrent, t, k);
    }
  }

  /** How the call ends: with the end of the file reached, with another error, or with nothing left to do. */
  method Outcome(j: Job, t: Transfer, ghost k: Ledger) returns (res: Result)
    requires Inv(j, t, k) && t.inFlight == 0 && t.writeOffset !in t.pending
    requires t.firstErr.NoErr? ==> |t.pending| > 0
    ensures t.out <= Rest(j.file, j.start)
    ensures res == ResultOf(t)
    ensures res.Done? ==> (t.out == Rest(j.file, j.start) <==> AllFull(j, k.answers))
    ensures res.Inconsistent? ==> !AllFull(j, k.answers)
    ensures res.Broken? ==> k.fault
  {
    hide Inv, AllFull, Pos;
    InvGives(j, t, k);
    if t.firstErr.NoErr? {
      OnlyShortIsInconsistent(j, t, k);
      return Inconsistent;
    }
    if !t.firstErr.Eof? {
      return Broken;
    }
    Complete(j, t, k);
    return Done;
  }

  lemma InvGives(j: Job, t: Transfer, k: Ledger)
    requires Inv(j, t, k)
    ensures t.out <= Rest(j.file, j.start)
    ensures t.firstErr.Failed? ==> k.fault
  {
    hide Requests, Holding, SameKeys, HeldBytes, InOrder, Shorts, Pos, Excuses, Split, Todo, AllFull;
  }

  /** The loop, to the state in which nothing is outstanding. */
  method Loop(j: Job, statSize: nat, maxConcurrent: nat, env: Outside) returns (t: Transfer, ghost k: Ledger, turns: nat)
    requires j.size >= 1 && maxConcurrent >= 1
    ensures Turns(j, statSize, maxConcurrent, env, turns)
    ensures t == Filled(j, statSize, After(j, statSize, maxConcurrent, env, turns))
    ensures Inv(j, t, k) && t.inFlight == 0 && t.writeOffset !in t.pending && (t.firstErr.NoErr? ==> |t.pending| > 0)
    ensures NoFault(env, turns) ==> !k.fault
    ensures AllFull(j, k.answers) <==> NoShort(j, statSize, maxConcurrent, env, turns)
    ensures Window(j, statSize, maxConcurrent, env, turns)
  {
    hide Inv, AllFull, Filled, TakeResult, After, Follows, Turns, NoShort, NoFault, Window, Short, Faultless, Start, Blank;
    t, k, turns := Start(j.start), Blank(j.file), 0;
    Begin(j, t, k);
    FollowsFirst(j, statSize, maxConcurrent, env, t, k);
    while t.firstErr.NoErr? || t.inFlight > 0
      invariant Inv(j, t, k) && t.writeOffset !in t.pending
      invariant 1 <= t.desired <= maxConcurrent && t.inFlight + |t.pending| <= maxConcurrent
      invariant Follows(j, statSize, maxConcurrent, env, turns, t, k)
      decreases t.firstErr.NoErr?, k.todo, t.inFlight
    {
      var t1, t2;
      ghost var k1, k2;
      t1, k1 := SendPart(j, statSize, maxConcurrent, t, k);
      if t1.inFlight == 0 {
        FollowsEnd(j, statSize, maxConcurrent, env, turns, t, k, t1);
        return t1, k1, turns;
      }
      t2, k2 := Receive(j, statSize, maxConcurrent, env(turns), t1, k1);
      FollowsNext(j, statSize, maxConcurrent, env, turns, t, k, t1, t2, k2, turns + 1);
      t, k, turns := t2, k2, turns + 1;
    }
    FilledAfterError(j, statSize, t);
    FollowsEnd(j, statSize, maxConcurrent, env, turns, t, k, t);
  }

  /**
   * For everything the outside may decide: the writer only ever gets a prefix of the rest of the file. When the call
   * ends without an error, it has got the whole rest if and only if no answer was short, which is a condition on what
   * the outside decides; the inconsistency needs a short answer. A call in which no result is lost, no read refused and
   * the writer does not fail is not broken off, and if no answer is short besides it ends without an error. At no time
   * are more chunks outstanding or held than allowed. The call takes as many turns of its loop as `After` needs to
   * stop, and ends as that says.
   */
  method WriteTo(file: Data, start: nat, statSize: nat, maxPacket: nat, maxConcurrent: nat, env: Outside)
    returns (out: Data, res: Result, turns: nat)
    requires maxPacket >= 1 && maxConcurrent >= 1
    ensures
      var j := Job(file, start, maxPacket);
      && Turns(j, statSize, maxConcurrent, env, turns)
      && var last := Filled(j, statSize, After(j, statSize, maxConcurrent, env, turns));
         out == last.out && res == ResultOf(last)
    ensures out <= Rest(file, start)
    ensures res.Done? ==>
      (out == Rest(file, start) <==> NoShort(Job(file, start, maxPacket), statSize, maxConcurrent, env, turns))
    ensures res.Inconsistent? ==> !NoShort(Job(file, start, maxPacket), statSize, maxConcurrent, env, turns)
    ensures res.Broken? <==> Doomed(Job(file, start, maxPacket), statSize, maxConcurrent, env, turns)
    ensures NoFault(env, turns) ==> !res.Broken?
    ensures NoFault(env, turns) && NoShort(Job(file, start, maxPacket), statSize, maxConcurrent, env, turns) ==>
      res.Done? && out == Rest(file, start)
    ensures (forall i: nat :: Faultless(env(i)) && env(i).len >= maxPacket) ==> res.Done? && out == Rest(file, start)
    ensures Window(Job(file, start, maxPacket), statSize, maxConcurrent, env, turns)
  {
    hide Inv, AllFull, Filled, After, Turns, NoShort, NoFault, Window, Doomed;
    var j := Job(file, start, maxPacket);
    var t;
    ghost var k;
    t, k, turns := Loop(j, statSize, maxConcurrent, env);
    res := Outcome(j, t, k);
    out := t.out;
    BrokenIff(j, statSize, maxConcurrent, env, turns);
    if forall i: nat :: Faultless(env(i)) && env(i).len >= maxPacket {
      LongIsNotShort(j, statSize, maxConcurrent, env, turns);
    }
  }

  // ---- a run that loses the tail ----

  const FOUR := Job([1, 2, 3, 4], 0, 2)

  /** Every result comes, in the order of the requests; the second brings one byte only. */
  function OneShort(i: nat): Choice {
    Choice(false, 0, false, if i == 1 then 1 else 2, [])
  }

  lemma FourPositions()
    ensures FOUR.At(0) == 0 && FOUR.At(1) == 2 && FOUR.At(2) == 4 && FOUR.At(3) == 6
  {
    assert FOUR.start == 0 && FOUR.size == 2;
  }

  /** An answer with the bytes that are next, when nothing is held and the writer takes them. */
  lemma WritesNext(j: Job, statSize: nat, maxConcurrent: nat, t: Transfer, c: Choice, id: nat, d: Data)
    requires t.inFlight > 0 && t.pending == map[] && !c.lost && c.took == []
    requires id == Pick(t.reqs, t.lastId, c.pick) && id in t.reqs && j.At(t.reqs[id]) == t.writeOffset
    requires AnswerOf(j.file, t.writeOffset, j.size, c) == Answer.Chunk(|d|) && d != []
    requires t.writeOffset + |d| <= |j.file| && d == j.file[t.writeOffset..t.writeOffset + |d|]
    ensures
      TakeResult(j, statSize, maxConcurrent, t, c) ==
      t.(inFlight := t.inFlight - 1, reqs := t.reqs - {id}, writeOffset := t.writeOffset + |d|, out := t.out + d,
         desired := Desired(j, statSize, maxConcurrent, t))
  {
    var h := Hold(j, t.(inFlight := t.inFlight - 1), id, |d|);
    assert h.pending == map[t.writeOffset := d];
    assert PopOk(h).pending == map[];
  }

  lemma FirstTurn()
    ensures
      var t0 := Filled(FOUR, 4, Start(0));
      && t0.inFlight > 0
      && TakeResult(FOUR, 4, 2, t0, OneShort(0)) == Transfer(1, 0, 2, 1, 2, map[], map[], NoErr, [1, 2])
  {
    FourPositions();
    var t0 := Transfer(1, 1, 1, 1, 0, map[1 := 0], map[], NoErr, []);
    assert Send(FOUR, Start(0), 4) == t0;
    assert Fill(FOUR, 4, t0) == t0;
    var u := t0.(inFlight := 0);
    assert FirstFrom(u.reqs, 0, 1) == FirstFrom(u.reqs, 1, 1) == 1;
    assert u.reqs - {1} == map[];
    WritesNext(FOUR, 4, 2, t0, OneShort(0), 1, [1, 2]);
  }

  lemma SecondTurn(t: Transfer)
    requires t == Transfer(1, 0, 2, 1, 2, map[], map[], NoErr, [1, 2])
    ensures
      var t0 := Filled(FOUR, 4, t);
      && t0.inFlight > 0
      && TakeResult(FOUR, 4, 2, t0, OneShort(1)) == Transfer(3, 1, 1, 3, 3, map[3 := 2], map[], NoErr, [1, 2, 3])
  {
    FourPositions();
    var s := Send(FOUR, t, 4);
    assert s == Transfer(2, 1, 2, 2, 2, map[2 := 1], map[], NoErr, [1, 2]);
    var t0 := Transfer(3, 2, 1, 3, 2, map[2 := 1, 3 := 2], map[], NoErr, [1, 2]);
    assert Send(FOUR, s, 4) == t0;
    assert Fill(FOUR, 4, t0) == t0;
    assert Fill(FOUR, 4, s) == t0;
    var u := t0.(inFlight := 1);
    assert FirstFrom(u.reqs, 0, 3) == FirstFrom(u.reqs, 1, 3) == FirstFrom(u.reqs, 2, 3) == 2;
    assert u.reqs - {2} == map[3 := 2];
    WritesNext(FOUR, 4, 2, t0, OneShort(1), 2, [3]);
  }

  lemma ThirdTurn(t: Transfer)
    requires t == Transfer(3, 1, 1, 3, 3, map[3 := 2], map[], NoErr, [1, 2, 3])
    ensures Filled(FOUR, 4, t).inFlight > 0
    ensures
      var last := TakeResult(FOUR, 4, 2, Filled(FOUR, 4, t), OneShort(2));
      last.inFlight == 0 && last.firstErr == Eof(4) && last.out == [1, 2, 3]
  {
    FourPositions();
    assert Fill(FOUR, 4, t) == t;
    var u := t.(inFlight := 0);
    assert FirstFrom(u.reqs, 0, 3) == FirstFrom(u.reqs, 1, 3) == FirstFrom(u.reqs, 2, 3) == FirstFrom(u.reqs, 3, 3) == 3;
  }

  /** The loop takes three turns and ends with the end-of-file status, with three of the four bytes written. */
  lemma ShortRun()
    ensures Turns(FOUR, 4, 2, OneShort, 3)
    ensures
      var last := Filled(FOUR, 4, After(FOUR, 4, 2, OneShort, 3));
      ResultOf(last).Done? && last.out == [1, 2, 3]
  {
    hide Fill, TakeResult;
    FirstTurn();
    SecondTurn(After(FOUR, 4, 2, OneShort, 1));
    ThirdTurn(After(FOUR, 4, 2, OneShort, 2));
  }

  /** The number of turns is one, whatever else the loop does. */
  lemma TurnsUnique(j: Job, statSize: nat, maxConcurrent: nat, env: Outside, n: nat, m: nat)
    requires Turns(j, statSize, maxConcurrent, env, n) && Turns(j, statSize, maxConcurrent, env, m)
    ensures n == m
  {
  }

  /**
   * A short answer in the middle is not asked for again: with nothing lost, refused or failed, this call of
   * `WriteTo` ends without an error and has written three of the four bytes.
   */
  method ShortAnswerLosesTail() returns (out: Data, res: Result)
    ensures forall i: nat :: Faultless(OneShort(i))
    ensures res.Done? && out == [1, 2, 3] && Rest(FOUR.file, 0) == [1, 2, 3, 4]
  {
    var turns;
    out, res, turns := WriteTo(FOUR.file, 0, 4, 2, 2, OneShort);
    ShortRun();
    TurnsUnique(FOUR, 4, 2, OneShort, turns, 3);
  }
}
