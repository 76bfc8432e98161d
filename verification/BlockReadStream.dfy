/**
 * Reading a block's packets from one datanode (`block_read_stream.go`). Small
 * reads go through a buffer of one chunk, large ones straight to the caller.
 * Checksums are taken to hold. The connection may end or break anywhere.
 */
module BlockReadStream {
  import opened Bytes
  import opened PacketStream

  function Chunks(length: nat, chunkSize: nat): nat
    requires chunkSize > 0
  {
    (length + chunkSize - 1) / chunkSize
  }

  lemma ChunksBounds(length: nat, chunkSize: nat)
    requires chunkSize > 0
    ensures length <= Chunks(length, chunkSize) * chunkSize < length + chunkSize
  {
    var n := length + chunkSize - 1;
    assert n == n / chunkSize * chunkSize + n % chunkSize;
  }

  lemma FewChunks(length: nat, chunkSize: nat)
    requires chunkSize > 0
    ensures length == 0 <==> Chunks(length, chunkSize) == 0
    ensures 0 < length <= chunkSize ==> Chunks(length, chunkSize) == 1
  {
    hide Chunks;
    ChunksBounds(length, chunkSize);
    var q := Chunks(length, chunkSize);
    if q > 1 {
      Monotone(2, q, chunkSize);
    }
  }

  class Stream {
    const chunkSize: nat
    /** Whether the connection can fail; without failures the stream is deterministic. */
    const faulty: bool
    var packets: seq<Packet>   // still to come
    var rest: Data             // of the current packet, not read from the connection yet
    var chunk: Data            // read for an earlier small read, not given out yet
    var packetLength: nat
    var chunkIndex: nat
    var numChunks: nat
    var lastPacket: bool
    var dead: bool             // the connection has failed

    /** Everything the stream has still to give out. */
    function Remaining(): Data
      reads this
    {
      chunk + rest + Concat(packets)
    }

    /** The stream as it matters while the connection does not fail. */
    function At(): View
      reads this
    {
      View(chunk, rest, lastPacket, packets)
    }

    ghost predicate Valid()
      reads this
    {
      && chunkSize > 0 && Proper(packets) && (lastPacket ==> packets == [])
      && chunkIndex <= numChunks == Chunks(packetLength, chunkSize)
      && (!dead ==> if chunkIndex < numChunks then |rest| == packetLength - chunkIndex * chunkSize > 0 else rest == [])
      && (!faulty ==> !dead)
    }

    constructor (packets: seq<Packet>, chunkSize: nat, faulty: bool)
      requires Proper(packets) && chunkSize > 0
      ensures Valid() && Remaining() == Concat(packets) && chunk == [] && this.chunkSize == chunkSize && this.faulty == faulty
      ensures At() == View([], [], false, packets)
    {
      this.packets, this.chunkSize, this.faulty := packets, chunkSize, faulty;
      rest, chunk, packetLength, chunkIndex, numChunks, lastPacket, dead := [], [], 0, 0, 0, false, false;
    }

    /** `startPacket`; a connection closed between packets reads as an end of file. */
    method StartPacket() returns (err: Error)
      requires Valid() && chunkIndex == numChunks && !lastPacket
      modifies this`packets, this`rest, this`packetLength, this`chunkIndex, this`numChunks, this`lastPacket, this`dead
      ensures Valid() && Remaining() == old(Remaining())
      ensures err.Nil? ==> !dead && chunkIndex == 0 && |rest| == packetLength && (packetLength == 0 ==> lastPacket)
      ensures err.Nil? ==>
        old(packets) != [] && At() == View(chunk, old(packets)[0].data, old(packets)[0].last, old(packets)[1..])
      ensures err.Nil? && packetLength > 0 ==> numChunks > 0 && (packetLength <= chunkSize ==> numChunks == 1)
      ensures !err.Nil? ==> chunkIndex == numChunks && !lastPacket && packets == old(packets)
      ensures err.Nil? ==> Started()
      ensures !err.Nil? && !faulty ==> err.Eof? && packets == [] && rest == [] && At() == old(At())
    {
      hide Concat, Proper, Chunks;
      var breaks: bool, ends: bool := *, *;
      if dead || (faulty && breaks) {
        dead := true;
        return if ends then Eof else Failed;
      }
      if packets == [] {
        return Eof;
      }
      var p := packets[0];
      ProperTail(packets);
      FewChunks(|p.data|, chunkSize);
      packets := packets[1..];
      packetLength, numChunks, chunkIndex, lastPacket := |p.data|, Chunks(|p.data|, chunkSize), 0, p.last;
      rest := p.data;
      err := Nil;
    }

    /** Read from the connection: all that was asked for, or an error after part of it. */
    method Pull(k: nat) returns (got: Data, err: Error)
      requires !dead ==> k <= |rest|
      modifies this`rest, this`dead
      ensures old(rest) == got + rest && |got| <= k && (dead ==> faulty || old(dead)) && (old(dead) ==> dead)
      ensures err.Nil? ==> |got| == k && dead == old(dead) == false
      ensures !err.Nil? ==> dead
    {
      var breaks: bool, ends: bool := *, *;
      if dead {
        return [], if ends then Eof else Failed;
      }
      if faulty && breaks {
        var p: nat :| p <= k;
        got, rest := rest[..p], rest[p..];
        dead := true;
        err := if ends then Eof else Failed;
        return;
      }
      got, rest, err := rest[..k], rest[k..], Nil;
    }

    /** A small read with nothing buffered takes one chunk, gives out part of it and keeps the rest. */
    method ReadSmall(len: nat) returns (data: Data, err: Error)
      requires Valid() && chunk == [] && len < chunkSize
      requires !dead ==> |rest| == packetLength - chunkIndex * chunkSize && (rest == [] ==> lastPacket && chunkIndex == numChunks)
      modifies this`rest, this`chunk, this`chunkIndex, this`dead
      ensures Valid() && |data| <= len && old(Remaining()) == data + Remaining()
      ensures (!err.Nil? ==> data == [] && faulty) && (err.Nil? ==> !old(dead))
      ensures err.Nil? && old(rest) == [] ==> AtEnd()
      ensures err.Nil? && old(rest) != [] ==> chunkIndex == old(chunkIndex) + 1 && |data| == Min(len, Min(chunkSize, |old(rest)|))
      ensures !faulty ==> Given(At(), data, err) == GiveStep(old(At()), chunkSize, len)
    {
      hide Concat, Proper, Chunks;
      var remaining := packetLength - chunkIndex * chunkSize;
      var size := if dead || remaining < 0 then 0 else Min(chunkSize, remaining);
      chunk, err := Pull(size);
      if !err.Nil? {
        return [], err;
      }
      if size == 0 {
        // An empty last packet: the checksum looked up is not this packet's, and nothing is given out.
        return [], Nil;
      }
      NextChunk(packetLength, chunkIndex, chunkSize);
      chunkIndex := chunkIndex + 1;
      var n := Min(len, |chunk|);
      data, chunk := chunk[..n], chunk[n..];
    }

    /** A large read takes whole chunks, or all that is left of the packet. */
    method ReadLarge(len: nat) returns (data: Data, err: Error)
      requires Valid() && chunk == [] && len >= chunkSize
      requires !dead ==> |rest| == packetLength - chunkIndex * chunkSize && (rest == [] ==> lastPacket && chunkIndex == numChunks)
      modifies this`rest, this`chunkIndex, this`dead
      ensures Valid() && |data| <= len && old(Remaining()) == data + Remaining()
      ensures err.Eof? && !faulty ==> rest == [] && lastPacket
      ensures (err.Failed? ==> faulty) && (err.Nil? ==> !old(dead))
      ensures err.Nil? ==> data != []
      ensures !faulty ==> Given(At(), data, err) == GiveStep(old(At()), chunkSize, len)
    {
      hide Concat, Proper, Chunks;
      var remaining := packetLength - chunkIndex * chunkSize;
      var chunksToRead, amount := 0, 0;
      if remaining < 0 || len > remaining {
        chunksToRead := numChunks - chunkIndex;
        amount := if remaining < 0 then 0 else remaining;
      } else {
        WholeChunks(len, packetLength, chunkIndex, chunkSize);
        chunksToRead := len / chunkSize;
        amount := chunksToRead * chunkSize;
      }
      data, err := Pull(amount);
      if !err.Nil? {
        return;
      }
      Distribute(chunkIndex, chunksToRead, chunkSize);
      ChunksBounds(packetLength, chunkSize);
      chunkIndex := chunkIndex + chunksToRead;
      if chunkIndex == numChunks && lastPacket {
        err := Eof;
      }
    }

    /** The stream is at its end, and says so, whatever is still buffered. */
    predicate AtEnd()
      reads this
    {
      chunkIndex == numChunks && lastPacket
    }

    /** A packet has been started, and unless it is an empty last one there is something left of it. */
    ghost predicate Started()
      reads this
    {
      !dead ==> |rest| == packetLength - chunkIndex * chunkSize && (rest == [] ==> AtEnd())
    }

    lemma ValidFacts()
      requires Valid()
      ensures chunkSize > 0 && (lastPacket ==> Concat(packets) == []) && chunkIndex <= numChunks && (!faulty ==> !dead)
      ensures if chunkIndex < numChunks then Started() else !dead ==> rest == []
    {
    }

    lemma EndedFacts()
      requires Valid() && AtEnd() && !faulty
      ensures At().rest == [] && At().last
    {
    }

    lemma ProperNow()
      requires Valid()
      ensures chunkSize > 0 && ProperView(At())
    {
    }

    /** `Read` once a packet has been started: what is buffered, or else from the connection. */
    method Give(len: nat) returns (data: Data, err: Error)
      requires Valid() && Started()
      modifies this`rest, this`chunk, this`chunkIndex, this`dead
      ensures Valid() && |data| <= len && old(Remaining()) == data + Remaining()
      ensures err.Eof? && !faulty ==> chunk == [] && rest == [] && lastPacket
      ensures err.Failed? ==> faulty
      ensures old(chunk) == [] && len >= chunkSize ==> chunk == []
      ensures err.Nil? && len > 0 && (old(chunk) != [] || old(rest) != []) ==> data != []
      ensures err.Nil? && old(chunk) == [] ==> !old(dead)
      ensures err.Eof? && !faulty ==> old(chunk) == []
      ensures err.Nil? && len > 0 && data == [] ==> AtEnd()
      ensures !faulty ==> Given(At(), data, err) == GiveStep(old(At()), chunkSize, len)
    {
      hide Concat, Proper, Chunks;
      if |chunk| > 0 {
        var n := Min(len, |chunk|);
        data, chunk, err := chunk[..n], chunk[n..], Nil;
      } else if len < chunkSize {
        data, err := ReadSmall(len);
      } else {
        data, err := ReadLarge(len);
      }
    }

    /**
     * `Read` gives out the next bytes of the block, whatever it returns besides. Without failures an end of file
     * means that nothing but the buffered chunk is left, so that nothing is left if and only if nothing was buffered
     * before; and a buffer that takes whole chunks leaves none.
     */
    method Read(len: nat) returns (data: Data, err: Error)
      requires Valid()
      modifies this
      ensures Valid() && |data| <= len && old(Remaining()) == data + Remaining()
      ensures err.Eof? && !faulty ==> Remaining() == chunk && (Remaining() == [] <==> old(chunk) == [])
      ensures err.Failed? ==> faulty
      ensures old(AtEnd()) ==> err.Eof? && data == [] && AtEnd()
      ensures old(chunk) == [] && len >= chunkSize ==> chunk == []
      ensures err.Nil? && len > 0 && old(Remaining()) != [] ==> data != []
      ensures err.Nil? && len > 0 && data == [] ==> AtEnd()
      ensures !faulty ==> Given(At(), data, err) == ReadStep(old(At()), chunkSize, len)
    {
      hide Concat, Valid, Started;
      ValidFacts();
      if chunkIndex == numChunks {
        if lastPacket {
          return [], Eof;
        }
        err := StartPacket();
        if !err.Nil? {
          NothingLeft();
          data := [];
          return;
        }
        ValidFacts();
      }
      data, err := Give(len);
      ValidFacts();
    }
  }

  /**
   * That an end of file means nothing is left is false: after a small read of a last packet that is not empty
   * the rest of the chunk is buffered, and the next read reports the end all the same.
   */
  method EarlyEnd(data: Data, chunkSize: nat) returns (s: Stream, got: Data, err: Error)
    requires 1 < |data| <= chunkSize
    ensures |got| == 1 && err.Eof? && s.Remaining() == data[1..]
  {
    s := new Stream([Packet(data, true)], chunkSize, false);
    assert s.Remaining() == data;
    hide Stream.Valid, Concat;
    got, err := s.Read(1);
    assert s.Remaining() == data[1..];
    var none: Data;
    none, err := s.Read(1);
  }

  lemma Distribute(a: nat, b: nat, c: nat)
    ensures (a + b) * c == a * c + b * c
  {
  }

  lemma NextChunk(length: nat, index: nat, chunkSize: nat)
    requires chunkSize > 0 && index * chunkSize < length
    ensures index < Chunks(length, chunkSize)
    ensures if index + 1 < Chunks(length, chunkSize) then (index + 1) * chunkSize < length else length <= (index + 1) * chunkSize
  {
    hide Chunks;
    ChunksBounds(length, chunkSize);
    var q := Chunks(length, chunkSize);
    if index >= q {
      Monotone(q, index, chunkSize);
    } else if index + 1 < q {
      Monotone(index + 1, q - 1, chunkSize);
      Distribute(q - 1, 1, chunkSize);
    } else {
      Monotone(q, index + 1, chunkSize);
    }
  }

  lemma Monotone(a: nat, b: nat, c: nat)
    requires a <= b
    ensures a * c <= b * c
  {
  }

  lemma WholeChunks(len: nat, length: nat, index: nat, chunkSize: nat)
    requires chunkSize > 0 && len >= chunkSize && index * chunkSize + len <= length
    ensures 0 < len / chunkSize && len / chunkSize * chunkSize <= len && index + len / chunkSize <= Chunks(length, chunkSize)
    ensures if index + len / chunkSize < Chunks(length, chunkSize) then (index + len / chunkSize) * chunkSize < length
            else (index + len / chunkSize) * chunkSize == length
  {
    hide Chunks;
    ChunksBounds(length, chunkSize);
    var k, q := len / chunkSize, Chunks(length, chunkSize);
    var j := index + k;
    WholePart(len, chunkSize);
    WholeIsPositive(len, chunkSize);
    Distribute(index, k, chunkSize);
    if j > q {
      Monotone(q + 1, j, chunkSize);
      Distribute(q, 1, chunkSize);
    } else if j < q {
      Monotone(j, q - 1, chunkSize);
      Distribute(q - 1, 1, chunkSize);
    }
  }
}
