/**
 * Cutting a block into packets (`block_write_stream.go`): buffered bytes go
 * out in packets of at most 64 KB, the first of them short when the stream does
 * not start on a chunk boundary, each with one checksum per 512-byte chunk.
 */
module BlockWriteStream {
  import opened Bytes

  const PACKET_SIZE := 65536
  const CHUNK_SIZE := 512

  /** The datanode's checksum of a run of bytes. */
  type Checksum = Data -> int

  datatype Packet = Packet(seqno: nat, offset: nat, last: bool, checksums: seq<int>, data: Data)

  function Concat(packets: seq<Packet>): Data {
    if packets == [] then [] else Concat(packets[..|packets| - 1]) + packets[|packets| - 1].data
  }

  /** Where the i-th checksummed run of a packet ends. */
  function RunEnd(data: Data, i: nat): nat {
    Min((i + 1) * CHUNK_SIZE, |data|)
  }

  /** Every checksum of a packet is that of its run, the runs make up the data, and each lies in one chunk of the block. */
  ghost predicate Checked(crc: Checksum, p: Packet) {
    && (|p.checksums| - 1) * CHUNK_SIZE < |p.data| <= |p.checksums| * CHUNK_SIZE
    && forall i {:trigger RunEnd(p.data, i)} :: 0 <= i < |p.checksums| ==>
         && p.checksums[i] == crc(p.data[i * CHUNK_SIZE..RunEnd(p.data, i)])
         && SameChunk(p.offset + i * CHUNK_SIZE, p.offset + RunEnd(p.data, i))
  }

  /** The non-empty range of positions lies within one chunk of the block. */
  predicate SameChunk(from: nat, to: nat) {
    from < to && from / CHUNK_SIZE == (to - 1) / CHUNK_SIZE
  }

  /** Packets are numbered from 1 and follow each other in the block without gap or overlap. */
  ghost predicate Sequence(packets: seq<Packet>, start: nat) {
    forall i :: 0 <= i < |packets| ==>
      packets[i].seqno == i + 1 && packets[i].offset == start + |Concat(packets[..i])|
  }

  ghost predicate DataPackets(crc: Checksum, packets: seq<Packet>) {
    forall i :: 0 <= i < |packets| ==>
      !packets[i].last && 0 < |packets[i].data| <= PACKET_SIZE && Checked(crc, packets[i])
  }

  /** The empty last packet has been queued. */
  predicate Ended(closed: bool, packets: seq<Packet>) {
    closed && packets != [] && packets[|packets| - 1].last
  }

  lemma DataAppend(crc: Checksum, packets: seq<Packet>, p: Packet)
    requires DataPackets(crc, packets) && !p.last && 0 < |p.data| <= PACKET_SIZE && Checked(crc, p)
    ensures DataPackets(crc, packets + [p])
  {
  }

  lemma NotEnded(crc: Checksum, packets: seq<Packet>)
    requires DataPackets(crc, packets)
    ensures !Ended(true, packets)
  {
  }

  lemma ConcatAppend(packets: seq<Packet>, p: Packet)
    ensures Concat(packets + [p]) == Concat(packets) + p.data
  {
    assert (packets + [p])[..|packets|] == packets;
  }

  lemma SequenceAppend(packets: seq<Packet>, start: nat, p: Packet)
    requires Sequence(packets, start) && p.seqno == |packets| + 1 && p.offset == start + |Concat(packets)|
    ensures Sequence(packets + [p], start)
  {
    var after := packets + [p];
    forall i | 0 <= i < |after| ensures after[i].seqno == i + 1 && after[i].offset == start + |Concat(after[..i])| {
      assert after[..i] == packets[..i];
      assert packets[..|packets|] == packets;
    }
  }

  /** Consecutive packets are contiguous: each starts where the one before it ended. */
  lemma Contiguous(packets: seq<Packet>, start: nat, i: nat)
    requires Sequence(packets, start) && i + 1 < |packets|
    ensures packets[i + 1].offset == packets[i].offset + |packets[i].data| && packets[i + 1].seqno == packets[i].seqno + 1
  {
    assert packets[..i + 1] == packets[..i] + [packets[i]];
    ConcatAppend(packets[..i], packets[i]);
  }

  /** The bytes of the packets that were stored. */
  function Delivered(packets: seq<Packet>, stored: seq<bool>): Data
    requires |stored| == |packets|
  {
    if packets == [] then []
    else
      var n := |packets| - 1;
      Delivered(packets[..n], stored[..n]) + if stored[n] then packets[n].data else []
  }

  /** Every packet that has any bytes was stored. */
  predicate Intact(packets: seq<Packet>, stored: seq<bool>) {
    |stored| == |packets| && forall i :: 0 <= i < |packets| && packets[i].data != [] ==> stored[i]
  }

  predicate All(stored: seq<bool>) {
    forall i :: 0 <= i < |stored| ==> stored[i]
  }

  lemma AllAppend(stored: seq<bool>, b: bool)
    ensures All(stored + [b]) <==> All(stored) && b
  {
    assert forall i :: 0 <= i < |stored| ==> (stored + [b])[i] == stored[i];
    assert (stored + [b])[|stored|] == b;
  }

  lemma AllPrefix(some: seq<bool>, stored: seq<bool>)
    requires some <= stored && All(stored)
    ensures All(some)
  {
  }

  lemma NoneDelivered(packets: seq<Packet>, stored: seq<bool>)
    requires |packets| == 1 && stored == [false]
    ensures Delivered(packets, stored) == []
  {
    assert packets[..0] == [];
  }

  /** Nothing is missing if every packet with bytes was stored; otherwise something is. */
  lemma {:induction false} DeliveredIff(packets: seq<Packet>, stored: seq<bool>)
    requires |stored| == |packets|
    ensures if Intact(packets, stored) then Delivered(packets, stored) == Concat(packets)
            else |Delivered(packets, stored)| < |Concat(packets)|
    decreases |packets|
  {
    if packets != [] {
      var n := |packets| - 1;
      DeliveredIff(packets[..n], stored[..n]);
      assert Intact(packets, stored) <==> Intact(packets[..n], stored[..n]) && (packets[n].data != [] ==> stored[n]);
    }
  }

  /**
   * The calls to namenodes and datanodes in the order they are made; `up` says which of them succeed.
   */
  class Network {
    const up: nat -> bool
    var calls: nat

    ghost predicate Healthy() {
      forall k: nat :: up(k)
    }

    /** None of these calls fails. */
    predicate Held(from: nat, to: nat) {
      forall k :: from <= k < to ==> up(k)
    }

    lemma HeldNone(from: nat)
      ensures Held(from, from)
    {
    }

    lemma HeldJoined(from: nat, mid: nat, to: nat)
      requires from <= mid <= to
      ensures Held(from, to) <==> Held(from, mid) && Held(mid, to)
    {
    }

    lemma HeldOneMore(from: nat, to: nat)
      requires from <= to
      ensures Held(from, to + 1) <==> Held(from, to) && up(to)
    {
    }

    constructor (up: nat -> bool)
      ensures this.up == up && calls == 0
    {
      this.up, calls := up, 0;
    }

    method Call() returns (ok: bool)
      modifies this`calls
      ensures ok == up(old(calls)) && calls == old(calls) + 1
    {
      ok := up(calls);
      calls := calls + 1;
    }
  }

  /** How many bytes the next packet takes: up to the next chunk boundary if it starts inside a chunk. */
  function PacketLength(offset: nat, buffered: nat): nat {
    if offset % CHUNK_SIZE == 0 then Min(buffered, PACKET_SIZE) else Min(buffered, CHUNK_SIZE - offset % CHUNK_SIZE)
  }

  class Stream {
    const crc: Checksum
    const start: nat
    const net: Network
    var buf: Data
    var offset: nat
    var seqno: nat
    var closed: bool
    /** Every packet put in the queue, in order, and every byte handed to `Write`. */
    var packets: seq<Packet>
    /** Which of them went out and, as far as is known, were stored. */
    var stored: seq<bool>
    ghost var written: Data

    ghost predicate Valid()
      reads this
    {
      && offset == start + |Concat(packets)| && |stored| == |packets| && (net.Healthy() ==> All(stored))
      && Sequence(packets, start)
      && Concat(packets) + buf == written
      && if Ended(closed, packets)
         then buf == [] && seqno == |packets| && packets[|packets| - 1].data == [] && DataPackets(crc, packets[..|packets| - 1])
         else seqno == |packets| + 1 && DataPackets(crc, packets)
    }

    constructor (crc: Checksum, start: nat, net: Network)
      ensures Valid() && this.crc == crc && this.start == start && this.net == net
      ensures written == [] && packets == [] && stored == [] && buf == [] && offset == start && !closed
    {
      this.crc, this.start, this.net := crc, start, net;
      buf, offset, seqno, closed, packets, stored, written := [], start, 1, false, [], [], [];
    }

    /** One checksum for each run of a packet's data. */
    method Checksums(data: Data) returns (checksums: seq<int>)
      ensures |checksums| == (|data| + CHUNK_SIZE - 1) / CHUNK_SIZE
      ensures forall i {:trigger RunEnd(data, i)} :: 0 <= i < |checksums| ==>
        checksums[i] == crc(data[i * CHUNK_SIZE..RunEnd(data, i)])
    {
      var numChunks := (|data| + CHUNK_SIZE - 1) / CHUNK_SIZE;
      checksums := [];
      for i := 0 to numChunks
        invariant |checksums| == i
        invariant forall k {:trigger RunEnd(data, k)} :: 0 <= k < i ==> checksums[k] == crc(data[k * CHUNK_SIZE..RunEnd(data, k)])
      {
        var from, to := i * CHUNK_SIZE, i * CHUNK_SIZE + CHUNK_SIZE;
        if to >= |data| {
          to := |data|;
        }
        assert to == RunEnd(data, i);
        checksums := checksums + [crc(data[from..to])];
      }
    }

    /** `makePacket` takes the next packet off the buffer, aligning to a chunk boundary first. */
    method MakePacket() returns (packet: Packet)
      requires buf != []
      modifies this`buf
      ensures packet.seqno == seqno && packet.offset == offset && !packet.last
      ensures 0 < |packet.data| <= PACKET_SIZE && packet.data + buf == old(buf)
      ensures |packet.data| == PacketLength(offset, |old(buf)|)
      ensures Checked(crc, packet)
    {
      var length := if |buf| < PACKET_SIZE then |buf| else PACKET_SIZE;
      var alignment := offset % CHUNK_SIZE;
      if alignment > 0 && length > CHUNK_SIZE - alignment {
        length := CHUNK_SIZE - alignment;
      }
      assert length == PacketLength(offset, |buf|) && 0 < length <= |buf| && length <= PACKET_SIZE;
      hide PacketLength;
      var data := buf[..length];
      buf := buf[length..];
      var checksums := Checksums(data);
      packet := Packet(seqno, offset, false, checksums, data);
      assert data + buf == old(buf);
      forall i | 0 <= i < |checksums| ensures SameChunk(offset + i * CHUNK_SIZE, offset + RunEnd(data, i)) {
        RunInChunk(offset, length, i);
      }
    }

    /** The next packet leaves the buffer, is queued and written. */
    method SendNext() returns (sent: bool)
      requires Valid() && buf != []
      modifies this`buf, this`offset, this`seqno, this`packets, this`stored, net`calls
      ensures Valid() && !Ended(closed, packets) && old(packets) < packets && stored == old(stored) + [sent]
      ensures |buf| == |old(buf)| - PacketLength(old(offset), |old(buf)|) < |old(buf)|
      ensures sent == net.up(old(net.calls)) && net.calls == old(net.calls) + 1
    {
      hide Checked, Sequence, DataPackets, Concat, PacketLength;
      BufferedIsNotEnded();
      var packet := MakePacket();
      DataAppend(crc, packets, packet);
      ConcatAppend(packets, packet);
      SequenceAppend(packets, start, packet);
      NotEnded(crc, packets + [packet]);
      packets := packets + [packet];
      offset := offset + |packet.data|;
      seqno := seqno + 1;
      sent := net.Call();
      stored := stored + [sent];
    }

    /**
     * `flush`: packets leave while the buffer holds a full one, or anything at all when forced. The connection
     * may fail under any of them, and that packet is then lost.
     */
    method Flush(force: bool) returns (ok: bool)
      requires Valid()
      modifies this`buf, this`offset, this`seqno, this`packets, this`stored, net`calls
      ensures Valid() && old(packets) <= packets && (old(buf) == [] ==> ok && packets == old(packets) && stored == old(stored))
      ensures ok ==> |buf| < PACKET_SIZE && (force ==> buf == [])
      ensures ok && All(old(stored)) ==> All(stored)
      ensures |old(buf)| < PACKET_SIZE && !force ==>
        && ok && buf == old(buf) && packets == old(packets) && stored == old(stored)
        && offset == old(offset) && net.calls == old(net.calls)
      ensures force && old(buf) != [] && !net.up(old(net.calls)) ==>
        !ok && stored == old(stored) + [false] && |buf| == |old(buf)| - PacketLength(old(offset), |old(buf)|)
      ensures Ended(closed, packets) == old(Ended(closed, packets))
      ensures old(stored) <= stored && old(net.calls) <= net.calls && (ok <==> net.Held(old(net.calls), net.calls))
    {
      hide Valid, Concat, PacketLength;
      ok := true;
      while |buf| > 0 && (force || |buf| >= PACKET_SIZE)
        invariant Valid() && old(packets) <= packets && (|buf| < |old(buf)| ==> force || |old(buf)| >= PACKET_SIZE)
        invariant |buf| <= |old(buf)| && (All(old(stored)) ==> All(stored))
        invariant |buf| == |old(buf)| ==>
          && buf == old(buf) && packets == old(packets) && stored == old(stored)
          && offset == old(offset) && net.calls == old(net.calls)
        invariant |buf| < |old(buf)| ==> net.up(old(net.calls))
        invariant old(stored) <= stored && old(net.calls) <= net.calls && net.Held(old(net.calls), net.calls)
        invariant Ended(closed, packets) == old(Ended(closed, packets))
        decreases |buf|
      {
        BufferedIsNotEnded();
        var sent := SendNext();
        if !sent {
          return false;
        }
      }
    }

    lemma HealthyStored()
      requires Valid() && net.Healthy()
      ensures All(stored)
    {
    }

    lemma BufferedIsNotEnded()
      requires Valid() && buf != []
      ensures !Ended(closed, packets)
    {
    }

    /** `Write`; the look at the acknowledgements before it cannot report an error, as the queue is still open. */
    method Write(b: Data) returns (n: nat, ok: bool)
      requires Valid()
      modifies this`buf, this`offset, this`seqno, this`packets, this`stored, this`written, net`calls
      ensures Valid() && old(packets) <= packets && n == (if closed then 0 else |b|) && written == old(written) + b[..n]
      ensures closed ==> !ok && packets == old(packets)
      ensures ok ==> |buf| < PACKET_SIZE
      ensures ok && All(old(stored)) ==> All(stored)
      ensures !closed && |old(buf)| + |b| < PACKET_SIZE ==>
        && ok && buf == old(buf) + b && packets == old(packets) && stored == old(stored)
        && offset == old(offset) && net.calls == old(net.calls)
      ensures if closed then net.calls == old(net.calls)
              else old(net.calls) <= net.calls && (ok <==> net.Held(old(net.calls), net.calls))
    {
      hide Checked, Sequence, DataPackets, Concat;
      if closed {
        return 0, false;
      }
      buf := buf + b;
      written := written + b;
      n := |b|;
      ok := Flush(false);
    }

    /** The empty last packet is queued and written. */
    method SendLast() returns (sent: bool)
      requires Valid() && closed && buf == [] && !Ended(closed, packets)
      modifies this`packets, this`stored, net`calls
      ensures Valid() && packets == old(packets) + [Packet(seqno, offset, true, [], [])] && stored == old(stored) + [sent]
      ensures Concat(packets) == written && offset == start + |written|
      ensures sent == net.up(old(net.calls)) && net.calls == old(net.calls) + 1
    {
      hide Checked, Sequence, Concat, DataPackets, All;
      var last := Packet(seqno, offset, true, [], []);
      ConcatAppend(packets, last);
      SequenceAppend(packets, start, last);
      assert (packets + [last])[..|packets|] == packets;
      packets := packets + [last];
      AllAppend(stored, true);
      sent := net.Call();
      stored := stored + [sent];
    }

    /**
     * The wait for the acknowledgements. A datanode acknowledges a packet only if it got it, so all of them come only
     * if all packets went out; otherwise an error is reported for some packet, and none from there on was stored.
     */
    method AwaitAcks() returns (ok: bool)
      requires Valid() && packets != []
      modifies this`stored, net`calls
      ensures Valid() && (ok ==> All(stored) && stored == old(stored))
      ensures forall i :: 0 <= i < |stored| ==> stored[i] ==> old(stored)[i]
      ensures !ok ==> !All(stored)
      ensures (ok <==> net.up(old(net.calls)) && All(old(stored))) && net.calls == old(net.calls) + 1
    {
      hide Sequence, DataPackets, Concat;
      ok := net.Call();
      ok := ok && All(stored);
      if !ok {
        var m: nat :| m < |packets|;
        stored := stored[..m] + seq(|packets| - m, _ => false);
        assert !stored[m];
      }
    }

    /** The last packet, and the wait for the acknowledgements. */
    method Conclude() returns (ok: bool)
      requires Valid() && closed && buf == [] && !Ended(closed, packets)
      modifies this`packets, this`stored, net`calls
      ensures Valid() && old(packets) <= packets && Concat(packets) == written && packets != [] && (ok ==> All(stored))
      ensures packets[|packets| - 1] == Packet(seqno, start + |written|, true, [], [])
      ensures old(net.calls) <= net.calls && (ok <==> All(old(stored)) && net.Held(old(net.calls), net.calls))
    {
      hide Checked, Sequence, DataPackets, Concat, All, Network.Held;
      net.HeldNone(net.calls);
      net.HeldOneMore(net.calls, net.calls);
      net.HeldOneMore(net.calls, net.calls + 1);
      AllAppend(stored, true);
      ok := SendLast();
      if ok {
        ok := AwaitAcks();
      }
    }

    /**
     * `finish`: everything buffered goes out, and an empty packet marks the end. On success every byte written is
     * in some packet, all of them stored, and the last packet starts at the end of the block. A stream that is closed
     * already is left as it is, whatever a first `finish` has failed to do. The look at the acknowledgements at its
     * start cannot report an error either.
     */
    method Finish() returns (ok: bool)
      requires Valid()
      modifies this`buf, this`offset, this`seqno, this`packets, this`stored, this`closed, net`calls
      ensures Valid() && closed && old(packets) <= packets
      ensures old(closed) ==> ok && packets == old(packets) && stored == old(stored) && buf == old(buf)
      ensures !old(closed) && ok ==> Concat(packets) == written && buf == [] && packets != [] && All(stored)
      ensures !old(closed) && ok ==> packets[|packets| - 1] == Packet(seqno, start + |written|, true, [], [])
      ensures !old(closed) && old(buf) != [] && !net.up(old(net.calls)) ==>
        !ok && stored == old(stored) + [false] && |buf| == |old(buf)| - PacketLength(old(offset), |old(buf)|)
      ensures old(closed) ==> net.calls == old(net.calls)
      ensures !old(closed) ==> old(net.calls) <= net.calls && (ok <==> All(old(stored)) && net.Held(old(net.calls), net.calls))
    {
      hide Checked, Sequence, DataPackets, Concat, PacketLength, All, Network.Held;
      if closed {
        return true;
      }
      OpenIsNotEnded();
      closed := true;
      ok := Flush(true);
      if !ok {
        return;
      }
      if All(stored) {
        AllPrefix(old(stored), stored);
      }
      ghost var calls := net.calls;
      ok := Conclude();
      net.HeldJoined(old(net.calls), calls, net.calls);
    }

    /** Closing an open stream does not by itself end it. */
    lemma OpenIsNotEnded()
      requires Valid() && !closed
      ensures !Ended(true, packets)
    {
      NotEnded(crc, packets);
    }
  }

  /** A run starts on a chunk boundary, or is all there is up to the next one. */
  lemma RunInChunk(offset: nat, length: nat, i: nat)
    requires i * CHUNK_SIZE < length && (offset % CHUNK_SIZE > 0 ==> length <= CHUNK_SIZE - offset % CHUNK_SIZE)
    ensures SameChunk(offset + i * CHUNK_SIZE, offset + Min((i + 1) * CHUNK_SIZE, length))
  {
  }
}
