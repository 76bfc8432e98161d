/**
 * The packets of a block as a datanode sends them (`block_read_stream.go`): what one read gives while the connection
 * does not fail, and when a reader that has skipped to its position gets nothing.
 */
module PacketStream {
  import opened Bytes
  import opened Options

  datatype Packet = Packet(data: Data, last: bool)

  datatype Error = Nil | Eof | Failed

  function Concat(packets: seq<Packet>): Data {
    if packets == [] then [] else packets[0].data + Concat(packets[1..])
  }

  /** Only a last packet can be empty, and nothing follows it. */
  predicate Proper(packets: seq<Packet>) {
    forall i :: 0 <= i < |packets| ==>
      (packets[i].last ==> i == |packets| - 1) && (packets[i].data == [] ==> packets[i].last)
  }

  lemma ProperTail(packets: seq<Packet>)
    requires Proper(packets) && packets != []
    ensures Proper(packets[1..]) && (packets[0].last ==> packets[1..] == [])
    ensures packets[0].data == [] ==> packets[0].last
    ensures Concat(packets) == packets[0].data + Concat(packets[1..])
  {
  }

  /** The buffered rest of a chunk, what is left of the current packet, whether that is the last, and what follows. */
  datatype View = View(chunk: Data, rest: Data, last: bool, packets: seq<Packet>)

  datatype Given = Given(view: View, data: Data, err: Error)

  /** One read: a packet is started if the current one is used up, unless it was the last. */
  function ReadStep(v: View, chunkSize: nat, len: nat): Given
    requires chunkSize > 0
  {
    if v.rest != [] then GiveStep(v, chunkSize, len)
    else if v.last || v.packets == [] then Given(v, [], Eof)
    else GiveStep(View(v.chunk, v.packets[0].data, v.packets[0].last, v.packets[1..]), chunkSize, len)
  }

  /** What is buffered; or one chunk, of which the part not asked for is buffered; or whole chunks. */
  function GiveStep(v: View, chunkSize: nat, len: nat): Given
    requires chunkSize > 0
  {
    if v.chunk != [] then
      var n := Min(len, |v.chunk|);
      Given(v.(chunk := v.chunk[n..]), v.chunk[..n], Nil)
    else if len < chunkSize then
      var k := Min(chunkSize, |v.rest|);
      var n := Min(len, k);
      Given(v.(chunk := v.rest[n..k], rest := v.rest[k..]), v.rest[..n], Nil)
    else
      var k := Large(len, |v.rest|, chunkSize);
      Given(v.(rest := v.rest[k..]), v.rest[..k], if k == |v.rest| && v.last then Eof else Nil)
  }

  function Large(len: nat, rest: nat, chunkSize: nat): (k: nat)
    requires chunkSize > 0
    ensures k <= rest && k <= len
  {
    if len > rest then rest else WholePart(len, chunkSize); len / chunkSize * chunkSize
  }

  lemma WholePart(len: nat, chunkSize: nat)
    requires chunkSize > 0
    ensures len / chunkSize * chunkSize <= len
  {
  }

  /** The buffer a skip copies through. */
  const COPY := 8192

  /**
   * Nothing comes from a connection that sends `packets` once `a` bytes have been skipped: there are no bytes
   * beyond; or the position is strictly inside the last chunk of a packet and no packet follows, or only an empty
   * one while the way into that chunk is longer than the copy buffer.
   */
  predicate Starved(packets: seq<Packet>, chunkSize: nat, a: nat)
    requires chunkSize > 0
  {
    if packets == [] then true
    else if a > |packets[0].data| then Starved(packets[1..], chunkSize, a - |packets[0].data|)
    else if a == |packets[0].data| then Concat(packets[1..]) == []
    else
      && a % chunkSize != 0 && a / chunkSize == (|packets[0].data| - 1) / chunkSize
      && (|packets| == 1 || (packets[1].data == [] && a % chunkSize > COPY))
  }

  /** The same of a connection in use, `a` bytes before the position. */
  predicate Dry(v: View, chunkSize: nat, a: nat)
    requires chunkSize > 0
  {
    if v.rest != [] then a >= |v.chunk| && Starved([Packet(v.rest, v.last)] + v.packets, chunkSize, a - |v.chunk|)
    else if v.last || v.packets == [] then true
    else if v.packets[0].data == [] then v.chunk == [] || a > 0
    else a >= |v.chunk| && Starved(v.packets, chunkSize, a - |v.chunk|)
  }

  predicate ProperView(v: View) {
    Proper(v.packets) && (v.last ==> v.packets == [])
  }

  lemma StarvedNow(packets: seq<Packet>, chunkSize: nat)
    requires chunkSize > 0 && Proper(packets)
    ensures Starved(packets, chunkSize, 0) <==> Concat(packets) == []
  {
    if packets != [] {
      ProperTail(packets);
    }
  }

  /** Whole chunks taken off the front of a packet change nothing. */
  lemma StarvedShift(rest: Data, last: bool, packets: seq<Packet>, chunkSize: nat, a: nat, k: nat)
    requires chunkSize > 0 && k % chunkSize == 0 && k <= a && k < |rest|
    ensures
      Starved([Packet(rest, last)] + packets, chunkSize, a) <==>
      Starved([Packet(rest[k..], last)] + packets, chunkSize, a - k)
  {
    var p, q := [Packet(rest, last)] + packets, [Packet(rest[k..], last)] + packets;
    assert p[1..] == packets == q[1..];
    if a < |rest| {
      ShiftedChunk(a, k, chunkSize);
      ShiftedChunk(|rest| - 1, k, chunkSize);
    }
  }

  lemma ShiftedChunk(a: nat, k: nat, chunkSize: nat)
    requires chunkSize > 0 && k % chunkSize == 0 && k <= a
    ensures (a - k) % chunkSize == a % chunkSize && (a - k) / chunkSize == a / chunkSize - k / chunkSize
  {
    var q := k / chunkSize;
    assert k == q * chunkSize;
    var d, m := (a - k) / chunkSize, (a - k) % chunkSize;
    assert a == (d + q) * chunkSize + m;
    DivMod(a, chunkSize, d + q, m);
  }

  lemma DivMod(a: nat, c: nat, d: nat, m: nat)
    requires c > 0 && a == d * c + m && m < c
    ensures a / c == d && a % c == m
  {
    var q := a / c;
    assert (q - d) * c == q * c - d * c;
    SmallMultiple(q - d, c);
  }

  lemma SmallMultiple(x: int, c: int)
    requires 0 - c < x * c < c
    ensures x == 0
  {
  }

  lemma NothingLeft()
    ensures Concat([]) == []
  {
  }

  /** When no packet follows, or only an empty one, whatever is to be skipped. */
  lemma StarvedAtEnd(packets: seq<Packet>, chunkSize: nat, a: nat)
    requires chunkSize > 0 && Proper(packets) && (packets == [] || packets[0].data == [])
    ensures Starved(packets, chunkSize, a) && Concat(packets) == []
  {
    if packets != [] {
      ProperTail(packets);
      assert packets[1..] == [];
    }
  }

  /** Starting a packet is not yet reading from it. */
  lemma DryStart(v: View, chunkSize: nat, a: nat)
    requires chunkSize > 0 && ProperView(v) && v.rest == [] && !v.last && v.packets != [] && v.packets[0].data != []
    ensures
      var u := View(v.chunk, v.packets[0].data, v.packets[0].last, v.packets[1..]);
      ProperView(u) && Dry(u, chunkSize, a) == Dry(v, chunkSize, a)
  {
    ProperTail(v.packets);
    assert [Packet(v.packets[0].data, v.packets[0].last)] + v.packets[1..] == v.packets;
  }

  /** All that is left of a packet is taken. */
  lemma DryAll(v: View, chunkSize: nat, a: nat)
    requires chunkSize > 0 && ProperView(v) && v.chunk == [] && v.rest != [] && a >= |v.rest|
    ensures Dry(v, chunkSize, a) == Dry(v.(rest := []), chunkSize, a - |v.rest|)
  {
    var p := [Packet(v.rest, v.last)] + v.packets;
    assert p[1..] == v.packets;
    StarvedNow(v.packets, chunkSize);
    if v.packets == [] || v.packets[0].data == [] {
      StarvedAtEnd(v.packets, chunkSize, a - |v.rest|);
    }
  }

  /** One whole chunk and no more is read, and only part of it taken. */
  lemma DryPart(v: View, chunkSize: nat, a: nat, n: nat)
    requires chunkSize > 0 && ProperView(v) && v.chunk == [] && n == Min(COPY, a) < |v.rest| <= chunkSize && n > 0
    ensures Dry(v, chunkSize, a) == Dry(v.(rest := [], chunk := v.rest[n..]), chunkSize, a - n)
  {
    var p := [Packet(v.rest, v.last)] + v.packets;
    assert p[1..] == v.packets;
    StarvedNow(v.packets, chunkSize);
    if a >= |v.rest| && (v.packets == [] || v.packets[0].data == []) {
      StarvedAtEnd(v.packets, chunkSize, a - |v.rest|);
    }
    if a < |v.rest| {
      DivMod(a, chunkSize, 0, a);
      DivMod(|v.rest| - 1, chunkSize, 0, |v.rest| - 1);
    }
  }

  /** A chunk of several is read, and only part of it taken. */
  lemma DryChunk(v: View, chunkSize: nat, a: nat, n: nat)
    requires 0 < chunkSize < |v.rest| && ProperView(v) && v.chunk == [] && n < chunkSize && n <= a
    ensures Dry(v, chunkSize, a) == Dry(v.(rest := v.rest[chunkSize..], chunk := v.rest[n..chunkSize]), chunkSize, a - n)
  {
    if a >= chunkSize {
      StarvedShift(v.rest, v.last, v.packets, chunkSize, a, chunkSize);
    } else {
      DivMod(a, chunkSize, 0, a);
      LaterChunk(|v.rest| - 1, chunkSize);
    }
  }

  lemma LaterChunk(a: nat, c: nat)
    requires 0 < c <= a
    ensures a / c > 0
  {
  }

  /** One read of a skip, once a packet has been started. */
  lemma DryGive(v: View, chunkSize: nat, a: nat)
    requires chunkSize > 0 && ProperView(v) && a > 0 && v.rest != []
    ensures
      var r := GiveStep(v, chunkSize, Min(COPY, a));
      && ProperView(r.view) && 0 < |r.data| <= a && (r.err.Eof? ==> r.view.last && r.view.rest == [])
      && (Dry(r.view, chunkSize, a - |r.data|) == Dry(v, chunkSize, a))
  {
    var len := Min(COPY, a);
    if v.chunk == [] {
      if len < chunkSize {
        if |v.rest| > chunkSize {
          DryChunk(v, chunkSize, a, len);
        } else if len < |v.rest| {
          DryPart(v, chunkSize, a, len);
        } else {
          DryAll(v, chunkSize, a);
          assert v.rest[|v.rest|..|v.rest|] == [];
        }
      } else {
        var k := Large(len, |v.rest|, chunkSize);
        WholeIsPositive(len, chunkSize);
        if k == |v.rest| {
          DryAll(v, chunkSize, a);
        } else {
          StarvedShift(v.rest, v.last, v.packets, chunkSize, a, k);
        }
      }
    }
  }

  lemma WholeIsPositive(len: nat, chunkSize: nat)
    requires 0 < chunkSize <= len
    ensures 0 < len / chunkSize * chunkSize && len / chunkSize * chunkSize % chunkSize == 0
  {
    var q := len / chunkSize;
    DivMod(q * chunkSize, chunkSize, q, 0);
  }

  /** One read of a skip: it ends the connection early, or what is to come of it stays what it was. */
  lemma DryStep(v: View, chunkSize: nat, a: nat)
    requires chunkSize > 0 && ProperView(v) && a > 0
    ensures
      var r := ReadStep(v, chunkSize, Min(COPY, a));
      && ProperView(r.view) && |r.data| <= a
      && (r.err.Eof? && |r.data| < a ==> Dry(v, chunkSize, a))
      && (Dry(r.view, chunkSize, a - |r.data|) == Dry(v, chunkSize, a))
  {
    hide Starved;
    if v.rest != [] {
      DryGive(v, chunkSize, a);
    } else if !v.last && v.packets != [] {
      ProperTail(v.packets);
      if v.packets[0].data != [] {
        DryStart(v, chunkSize, a);
        DryGive(View(v.chunk, v.packets[0].data, v.packets[0].last, v.packets[1..]), chunkSize, a);
      }
    }
  }

  /** The first read at the position gives nothing if and only if the connection is dry. */
  lemma DryEnd(v: View, chunkSize: nat, len: nat)
    requires chunkSize > 0 && ProperView(v) && len > 0
    ensures ReadStep(v, chunkSize, len).data == [] <==> Dry(v, chunkSize, 0)
  {
    if len >= chunkSize {
      WholeIsPositive(len, chunkSize);
    }
    if v.packets != [] {
      ProperTail(v.packets);
    }
  }

  /** A skip followed by a read gives nothing, of the one or the other, if and only if the connection is dry. */
  lemma {:induction false} SkipThenRead(v: View, chunkSize: nat, a: nat, len: nat)
    requires chunkSize > 0 && ProperView(v) && len > 0
    ensures
      var u := Skipped(v, chunkSize, a);
      u.None? || ReadStep(u.value, chunkSize, len).data == [] <==> Dry(v, chunkSize, a)
    decreases a
  {
    if a == 0 {
      DryEnd(v, chunkSize, len);
    } else {
      hide ReadStep, Dry, ProperView;
      var r := ReadStep(v, chunkSize, Min(COPY, a));
      DryStep(v, chunkSize, a);
      if |r.data| == a {
        DryEnd(r.view, chunkSize, len);
      } else if r.data == [] {
        NothingGiven(v, chunkSize, a);
      } else if r.err.Nil? {
        SkipThenRead(r.view, chunkSize, a - |r.data|, len);
      }
    }
  }

  lemma NothingGiven(v: View, chunkSize: nat, a: nat)
    requires chunkSize > 0 && ProperView(v) && a > 0 && ReadStep(v, chunkSize, Min(COPY, a)).data == []
    ensures Dry(v, chunkSize, a)
  {
    if v.rest != [] {
      DryGive(v, chunkSize, a);
    } else if !v.last && v.packets != [] && v.packets[0].data != [] {
      DryStart(v, chunkSize, a);
      DryGive(View(v.chunk, v.packets[0].data, v.packets[0].last, v.packets[1..]), chunkSize, a);
    }
  }

  /** A connection just made. */
  lemma DryNew(packets: seq<Packet>, chunkSize: nat, a: nat)
    requires chunkSize > 0 && Proper(packets)
    ensures Dry(View([], [], false, packets), chunkSize, a) <==> Starved(packets, chunkSize, a)
  {
    if packets == [] || packets[0].data == [] {
      StarvedAtEnd(packets, chunkSize, a);
    }
  }

  /**
   * Exactly when a reader gets nothing: over a connection just made that does not fail, whatever packets come, a skip
   * to the position and a read of any size there give nothing if and only if the packets starve the position.
   */
  lemma StarvedExactly(packets: seq<Packet>, chunkSize: nat, a: nat, len: nat)
    requires chunkSize > 0 && Proper(packets) && len > 0
    ensures
      var u := Skipped(View([], [], false, packets), chunkSize, a);
      u.None? || ReadStep(u.value, chunkSize, len).data == [] <==> Starved(packets, chunkSize, a)
  {
    hide Skipped, ReadStep, Dry, Starved;
    DryNew(packets, chunkSize, a);
    SkipThenRead(View([], [], false, packets), chunkSize, a, len);
  }

  /** A skip of `a` bytes, copy by copy; none when the connection reports its end before. */
  function Skipped(v: View, chunkSize: nat, a: nat): Option<View>
    requires chunkSize > 0
    decreases a
  {
    if a == 0 then Some(v)
    else
      var r := ReadStep(v, chunkSize, Min(COPY, a));
      GivesAtMost(v, chunkSize, Min(COPY, a));
      if |r.data| == a then Some(r.view)
      else if r.data == [] || !r.err.Nil? then None
      else Skipped(r.view, chunkSize, a - |r.data|)
  }

  predicate Reaches(v: View, chunkSize: nat, a: nat)
    requires chunkSize > 0
  {
    Skipped(v, chunkSize, a).Some?
  }

  lemma GivesAtMost(v: View, chunkSize: nat, len: nat)
    requires chunkSize > 0
    ensures |ReadStep(v, chunkSize, len).data| <= len
  {
  }

  lemma ReachesStep(v: View, chunkSize: nat, a: nat, r: Given)
    requires chunkSize > 0 && a > 0 && r == ReadStep(v, chunkSize, Min(COPY, a))
    ensures |r.data| <= a
    ensures
      Reaches(v, chunkSize, a) <==>
      |r.data| == a || (r.data != [] && r.err.Nil? && Reaches(r.view, chunkSize, a - |r.data|))
  {
    hide ReadStep;
    GivesAtMost(v, chunkSize, Min(COPY, a));
  }

  lemma ReachesZero(v: View, chunkSize: nat)
    requires chunkSize > 0
    ensures Reaches(v, chunkSize, 0)
  {
  }

  /** A connection at its end reaches nothing more. */
  lemma ReachesNothing(v: View, chunkSize: nat, a: nat)
    requires chunkSize > 0 && a > 0 && v.rest == [] && v.last
    ensures !Reaches(v, chunkSize, a)
  {
    ReachesStep(v, chunkSize, a, ReadStep(v, chunkSize, Min(COPY, a)));
  }

  /** How many bytes are still to come. */
  function Ahead(v: View): nat {
    |v.chunk| + |v.rest| + |Concat(v.packets)|
  }

  /**
   * A datanode that ends a block with an empty packet, as they do, leaves a reader with nothing just if the position
   * is not before the end of what it sends, as long as a chunk fits in the copy buffer.
   */
  lemma {:induction false} EmptyLastSuffices(packets: seq<Packet>, chunkSize: nat, a: nat)
    requires 0 < chunkSize <= COPY && Proper(packets) && packets != [] && packets[|packets| - 1].data == []
    ensures Starved(packets, chunkSize, a) <==> a >= |Concat(packets)|
    decreases |packets|
  {
    ProperTail(packets);
    if |packets| == 1 {
      StarvedAtEnd(packets, chunkSize, a);
    } else if a >= |packets[0].data| {
      EmptyLastSuffices(packets[1..], chunkSize, a - |packets[0].data|);
      StarvedNow(packets[1..], chunkSize);
    }
  }

  /**
   * With nothing buffered and chunks that fit in the copy buffer, a read of a skip gives bytes while there are any,
   * and leaves nothing buffered unless it is the last of the skip.
   */
  lemma SkipReads(v: View, chunkSize: nat, a: nat)
    requires 0 < chunkSize <= COPY && ProperView(v) && v.chunk == [] && 0 < a
    ensures
      var r := ReadStep(v, chunkSize, Min(COPY, a));
      && ProperView(r.view) && |r.data| + Ahead(r.view) == Ahead(v) && (r.data == [] <==> Ahead(v) == 0)
      && (|r.data| < a ==> r.view.chunk == [] && (r.err.Eof? ==> Ahead(r.view) == 0))
  {
    NothingLeft();
    if v.rest != [] {
      SkipGives(v, chunkSize, a);
    } else if !v.last && v.packets != [] {
      ProperTail(v.packets);
      var u := View(v.chunk, v.packets[0].data, v.packets[0].last, v.packets[1..]);
      assert Ahead(u) == Ahead(v);
      SkipGives(u, chunkSize, a);
    }
  }

  lemma SkipGives(v: View, chunkSize: nat, a: nat)
    requires 0 < chunkSize <= COPY && ProperView(v) && v.chunk == [] && 0 < a && (v.rest == [] ==> v.last)
    ensures
      var r := GiveStep(v, chunkSize, Min(COPY, a));
      && ProperView(r.view) && (r.data == [] <==> v.rest == []) && |r.data| + Ahead(r.view) == Ahead(v)
      && (|r.data| < a ==> r.view.chunk == [] && (r.err.Eof? ==> r.view.rest == [] && r.view.packets == []))
  {
    var len := Min(COPY, a);
    if len >= chunkSize {
      WholeIsPositive(len, chunkSize);
    }
  }

  /** A healthy connection whose chunks fit in the copy buffer reaches exactly the positions it sends bytes for. */
  lemma {:induction false} ReachesWhatIsSent(v: View, chunkSize: nat, a: nat)
    requires 0 < chunkSize <= COPY && ProperView(v) && v.chunk == []
    ensures Reaches(v, chunkSize, a) <==> a <= Ahead(v)
    decreases a
  {
    if a > 0 {
      hide ReadStep, Ahead, ProperView, Reaches;
      SkipReads(v, chunkSize, a);
      var r := ReadStep(v, chunkSize, Min(COPY, a));
      ReachesStep(v, chunkSize, a, r);
      if 0 < |r.data| < a {
        ReachesWhatIsSent(r.view, chunkSize, a - |r.data|);
      }
    }
  }
}
