/**
 * Reading a block from whichever datanode works (`block_reader.go`): each
 * datanode is connected to at most once, at the position reached so far, and
 * used until it fails.
 */
module BlockReader {
  import opened Bytes
  import opened PacketStream
  import S = BlockReadStream
  import F = Failover

  /** What is asked of a datanode: a block from a position on, by which reader of the file, on which of its connections. */
  datatype Ask = Ask(block: nat, reader: nat, connection: nat, offset: nat)

  /** A datanode refuses, or sends packets from a chunk boundary on, over a connection that may fail or not. */
  datatype Answer = Refused | Sends(from: nat, packets: seq<Packet>, chunkSize: nat, faulty: bool)

  type Network = Ask -> Answer

  /** What a datanode sends is of the block, and does not start behind the position; it may stop early. */
  predicate Serves(a: Answer, block: Data, offset: nat) {
    a.Refused?
    || (a.from <= offset <= |block| && a.chunkSize > 0 && Proper(a.packets) && Concat(a.packets) <= block[a.from..])
  }

  /** A connection that will not fail. */
  predicate Healthy(a: Answer) {
    a.Sends? && !a.faulty
  }

  /** A healthy connection from which a reader at this position gets nothing. */
  predicate Starves(a: Answer, offset: nat) {
    Healthy(a) && a.from <= offset && a.chunkSize > 0 && Starved(a.packets, a.chunkSize, offset - a.from)
  }

  /** A healthy connection over which a reader gets to this position. */
  predicate Reached(a: Answer, offset: nat) {
    Healthy(a) && a.from <= offset && a.chunkSize > 0 && Reaches(View([], [], false, a.packets), a.chunkSize, offset - a.from)
  }

  /** The first connection of a reader, from the c-th on, over which it gets to this position; `n` if there is none. */
  function FirstReached(net: Network, block: nat, reader: nat, n: nat, c: nat, offset: nat): nat
    decreases n - c
  {
    if c >= n || Reached(net(Ask(block, reader, c, offset)), offset) then c
    else FirstReached(net, block, reader, n, c + 1, offset)
  }

  lemma {:induction false} FirstReachedIs(net: Network, block: nat, reader: nat, n: nat, c: nat, offset: nat)
    requires c <= n
    ensures var r := FirstReached(net, block, reader, n, c, offset);
      c <= r <= n && (r < n ==> Reached(net(Ask(block, reader, r, offset)), offset))
    decreases n - c
  {
    if c < n && !Reached(net(Ask(block, reader, c, offset)), offset) {
      FirstReachedIs(net, block, reader, n, c + 1, offset);
    }
  }

  class Reader {
    const block: Data
    const locs: seq<string>
    const net: Network
    /** The number of the block in its file, and of this reader among those opened. */
    const blockNo: nat
    const readerNo: nat
    var offset: nat
    var datanodes: F.Datanodes?
    var stream: S.Stream?
    var closed: bool
    /** The positions at which datanodes have been connected to, in order. */
    var asked: seq<nat>

    function Answered(connection: nat, at: nat): Answer {
      net(Ask(blockNo, readerNo, connection, at))
    }

    ghost predicate Conforming() {
      forall connection: nat, at: nat :: at <= |block| ==> Serves(Answered(connection, at), block, at)
    }

    /** No connection at this position fails. */
    ghost predicate AllHealthy(at: nat) {
      forall c: nat :: c < |locs| ==> Healthy(Answered(c, at))
    }

    /** Every entry of the list has been tried once or is still to be tried. */
    ghost predicate EachOnce()
      reads this`datanodes, this`asked, datanodes
    {
      if datanodes == null then asked == []
      else
        && multiset(datanodes.tried) + multiset(datanodes.datanodes) == multiset(locs)
        && |asked| == |datanodes.tried|
    }

    /** A connection that need not be of use to the end: refused, able to fail, or with nothing for the position. */
    predicate Futile(connection: nat, at: nat) {
      !Healthy(Answered(connection, at)) || Starves(Answered(connection, at), at)
    }

    /** All connections but the one in use have been given up. */
    ghost predicate GivenUp()
      reads this`asked, this`stream, stream
    {
      && (stream != null ==> asked != [] && (stream.faulty ==> Futile(|asked| - 1, asked[|asked| - 1])))
      && forall c :: 0 <= c < |asked| - (if stream == null then 0 else 1) ==> Futile(c, asked[c])
    }

    /** The stream is at this reader's position. */
    ghost predicate Positioned()
      reads this`offset, this`stream, stream
    {
      stream != null ==> offset <= |block| && stream.Valid() && stream.Remaining() <= block[offset..]
    }

    ghost predicate Valid()
      reads this, datanodes, stream
    {
      && offset <= |block| && Conforming() && EachOnce() && (datanodes == null ==> stream == null)
      && Positioned() && GivenUp()
    }

    ghost function Owned(): set<object>
      reads this
    {
      (if datanodes == null then {} else {datanodes}) + (if stream == null then {} else {stream})
    }

    /** Every entry has been connected to, and no connection was of use. */
    ghost predicate Exhausted()
      reads this`asked
    {
      |asked| == |locs| && forall c :: 0 <= c < |asked| ==> Futile(c, asked[c])
    }

    /** A connection that does not fail is in use. */
    predicate Streaming()
      reads this`stream, stream
    {
      stream != null && !stream.faulty
    }

    /** The next read of this block gives nothing: it is at its end, or so is the connection in use. */
    predicate Dried()
      reads this`offset, this`stream, stream
    {
      offset == |block| || (stream != null && stream.chunkSize > 0 && Dry(stream.At(), stream.chunkSize, 0))
    }

    constructor (block: Data, locs: seq<string>, offset: nat, net: Network, blockNo: nat, readerNo: nat)
      requires offset <= |block|
      requires forall c: nat, at: nat :: at <= |block| ==> Serves(net(Ask(blockNo, readerNo, c, at)), block, at)
      ensures Valid() && this.block == block && this.locs == locs && this.offset == offset && Owned() == {} && !closed
      ensures this.net == net && this.blockNo == blockNo && this.readerNo == readerNo && datanodes == null
    {
      this.block, this.locs, this.offset, this.net := block, locs, offset, net;
      this.blockNo, this.readerNo := blockNo, readerNo;
      datanodes, stream, closed, asked := null, null, false, [];
    }

    /** One copy of a skip. */
    method Copy(s: S.Stream, left: nat) returns (data: Data, err: Error)
      requires s.Valid() && s.chunkSize > 0 && left > 0
      modifies s
      ensures s.Valid() && |data| <= left && old(s.Remaining()) == data + s.Remaining()
      ensures err.Nil? && data == [] ==> s.AtEnd()
      ensures old(s.AtEnd()) ==> !err.Nil?
      ensures !s.faulty ==>
        && Dry(s.At(), s.chunkSize, left - |data|) == old(Dry(s.At(), s.chunkSize, left))
        && (!err.Nil? && |data| < left ==> old(Dry(s.At(), s.chunkSize, left)))
        && (|data| == left || err.Nil? ==>
              Reaches(s.At(), s.chunkSize, left - |data|) == old(Reaches(s.At(), s.chunkSize, left)))
        && (!err.Nil? && |data| < left ==> !old(Reaches(s.At(), s.chunkSize, left)))
    {
      hide S.Stream.Valid, S.Stream.Remaining, Dry, ReadStep, Reaches;
      s.ProperNow();
      ghost var before := s.At();
      DryStep(before, s.chunkSize, left);
      ReachesStep(before, s.chunkSize, left, ReadStep(before, s.chunkSize, Min(COPY, left)));
      data, err := s.Read(Min(COPY, left));
      if |data| == left {
        ReachesZero(s.At(), s.chunkSize);
      } else if data == [] && err.Nil? && !s.faulty {
        s.EndedFacts();
        ReachesNothing(s.At(), s.chunkSize, left);
      }
    }

    /**
     * Skip to the position asked for; a stream that ends before that is a failure. Without one, what the stream has
     * for the position afterwards is what it had before; a failure of a healthy stream means it had nothing.
     */
    method Discard(s: S.Stream, amount: nat) returns (ok: bool)
      requires s.Valid()
      modifies s
      ensures s.Valid() && (ok ==> amount <= |old(s.Remaining())| && s.Remaining() == old(s.Remaining())[amount..])
      ensures !s.faulty ==>
        old(Dry(s.At(), s.chunkSize, amount)) == if ok then Dry(s.At(), s.chunkSize, 0) else true
      ensures !s.faulty ==> ok == old(Reaches(s.At(), s.chunkSize, amount))
    {
      hide S.Stream.Valid, S.Stream.Remaining, S.Stream.At, Dry, Reaches;
      s.ValidFacts();
      var left := amount;
      ghost var skipped: Data := [];
      while left > 0
        invariant s.Valid() && s.chunkSize > 0 && 0 <= left && |skipped| + left == amount
        invariant old(s.Remaining()) == skipped + s.Remaining()
        invariant !s.faulty ==>
          && old(Dry(s.At(), s.chunkSize, amount)) == Dry(s.At(), s.chunkSize, left)
          && old(Reaches(s.At(), s.chunkSize, amount)) == Reaches(s.At(), s.chunkSize, left)
        decreases left, if s.AtEnd() then 0 else 1
      {
        var data, err := Copy(s, left);
        left := left - |data|;
        skipped := skipped + data;
        if left > 0 && !err.Nil? {
          return false;
        }
      }
      ReachesZero(s.At(), s.chunkSize);
      assert s.Remaining() == old(s.Remaining())[amount..];
      ok := true;
    }

    /** Take the next datanode off the list. */
    method PickNext()
      requires datanodes != null && datanodes.datanodes != [] && EachOnce()
      modifies datanodes, this`asked
      ensures |datanodes.datanodes| == |old(datanodes.datanodes)| - 1
      ensures asked == old(asked) + [offset] && EachOnce()
    {
      var failures: F.Failures := *;
      ghost var before := datanodes.datanodes;
      var _ := datanodes.Next(failures);
      ghost var i: nat :| F.Best(before, failures, i) && datanodes.datanodes == before[..i] + before[i + 1..] && datanodes.current == before[i];
      F.TakenOnce(before, i);
      asked := asked + [offset];
    }

    /** `connectNext` takes a datanode off the list; if it answers, there is a stream at the current position. */
    method ConnectNext() returns (ok: bool)
      requires Valid() && stream == null && datanodes != null && datanodes.datanodes != []
      modifies this`stream, this`asked, datanodes
      ensures Valid() && (ok <==> stream != null) && (stream != null ==> fresh(stream))
      ensures |datanodes.datanodes| == |old(datanodes.datanodes)| - 1 && |asked| == |old(asked)| + 1
      ensures
        var a := Answered(|old(asked)|, offset);
        Healthy(a) ==>
          && (if ok then Streaming() && (Dry(stream.At(), stream.chunkSize, 0) <==> Starves(a, offset)) else Starves(a, offset))
          && (ok <==> Reached(a, offset))
    {
      hide S.Stream.Valid, S.Stream.Remaining, Concat, Proper, EachOnce, Dry, Starved, Reaches;
      var a := Answered(|asked|, offset);
      ok := false;
      assert Serves(a, block, offset);
      PickNext();
      if a.Refused? {
        return;
      }
      var s := new S.Stream(a.packets, a.chunkSize, a.faulty);
      DryNew(a.packets, a.chunkSize, offset - a.from);
      ok := Discard(s, offset - a.from);
      if ok {
        SkippedPrefix(Concat(a.packets), block, a.from, offset);
        stream := s;
      }
    }

    /** How much is left to try. */
    function Left(): nat
      requires datanodes != null
      reads this`datanodes, this`stream, datanodes
    {
      |datanodes.datanodes| + if stream == null then 0 else 1
    }

    /** One turn of the retry loop: connect if need be, and read; `again` after a failure that gave nothing. */
    method Attempt(len: nat) returns (data: Data, err: Error, again: bool)
      requires Valid() && datanodes != null && Left() > 0
      modifies this`offset, this`stream, this`asked, datanodes, stream
      ensures Valid() && (stream == old(stream) || stream == null || fresh(stream))
      ensures |data| <= len && offset == old(offset) + |data| && data == block[old(offset)..offset] && !err.Failed?
      ensures again ==> data == [] && stream == null && Left() < old(Left())
      ensures old(Streaming()) ==> !again && Streaming()
      ensures old(Streaming()) && len > 0 && old(offset) < |block| ==> (data == [] <==> old(Dried()))
      ensures old(stream) == null && len > 0 && data == [] ==> Futile(|old(asked)|, old(offset))
      ensures old(stream) == null ==> |asked| == |old(asked)| + 1
      ensures
        var a := Answered(|old(asked)|, old(offset));
        old(stream) == null && Healthy(a) && len > 0 ==>
          && (if again || data == [] then Starves(a, old(offset)) else Streaming() && !Starves(a, old(offset)))
          && (again <==> !Reached(a, old(offset)))
    {
      hide S.Stream.Valid, S.Stream.Remaining, EachOnce, Starved, Dry, Reaches;
      data, err, again := [], Nil, true;
      if stream == null {
        var ok := ConnectNext();
        if !ok {
          return;
        }
      }
      data, err := ReadStream(len);
      again := false;
      if err.Failed? {
        stream := null;
        err := Nil;
        again := |data| == 0;
      }
    }

    /**
     * `Read`: the bytes at the reader's position, whichever datanodes failed on the way. It fails only when every
     * entry of the list has been connected to in vain. The end it reports may be early but never hides a byte it has
     * counted. A new reader whose connections do not fail uses the first that reaches its position: it fails if and
     * only if none does, and otherwise gives nothing if and only if what that one sends starves the position.
     */
    method Read(len: nat) returns (data: Data, err: Error)
      requires Valid()
      modifies this`offset, this`datanodes, this`stream, this`closed, this`asked, Owned()
      ensures Valid() && fresh(Owned() - old(Owned()))
      ensures |data| <= len && offset == old(offset) + |data| <= |block| && data == block[old(offset)..offset]
      ensures old(offset) == |block| && !old(closed) ==> err.Eof?
      ensures err.Failed? ==>
        data == [] && (old(closed) || (Exhausted() && stream == null && datanodes != null && datanodes.datanodes == []))
      ensures old(Streaming()) && !old(closed) ==> !err.Failed? && Streaming()
      ensures old(Streaming()) && !old(closed) && len > 0 ==> (data == [] <==> old(Dried()))
      ensures closed ==> data == []
      ensures old(datanodes == null && !closed) && old(offset) < |block| && len > 0 && locs != [] && data == [] ==>
        Futile(0, old(offset))
      ensures old(datanodes == null && !closed) && old(offset) < |block| && len > 0 && AllHealthy(old(offset)) ==>
        var c := FirstReached(net, blockNo, readerNo, |locs|, 0, old(offset));
        && (err.Failed? <==> c == |locs|) && (data != [] ==> Streaming())
        && (data == [] <==> c == |locs| || Starves(Answered(c, old(offset)), old(offset)))
    {
      hide S.Stream.Valid, S.Stream.Remaining, EachOnce, Starved, Dry, Reaches, GivenUp, Positioned, Conforming;
      if closed {
        return [], Failed;
      }
      if offset >= |block| {
        closed := true;
        return [], Eof;
      }
      ghost var sound := datanodes == null && len > 0 && AllHealthy(offset);
      if datanodes == null {
        NothingAsked();
        datanodes := new F.Datanodes(locs);
        FirstTry();
      }
      while stream != null || |datanodes.datanodes| > 0
        invariant Valid() && datanodes != null && offset == old(offset) < |block| && fresh(Owned() - old(Owned()))
        invariant !closed && (old(Streaming()) ==> Streaming() && Dried() == old(Dried()))
        invariant old(datanodes) == null ==> stream == null && (asked != [] && len > 0 ==> Futile(0, offset))
        invariant sound ==>
          FirstReached(net, blockNo, readerNo, |locs|, |asked|, offset) == FirstReached(net, blockNo, readerNo, |locs|, 0, offset)
        decreases Left()
      {
        if stream == null {
          LeftToAsk();
        }
        var again;
        data, err, again := Attempt(len);
        if !again {
          return;
        }
      }
      AllAsked();
      data, err := [], Failed;
    }

    method Close()
      requires Valid()
      modifies this`closed
      ensures Valid() && closed
    {
      closed := true;
    }

    lemma FirstTry()
      requires datanodes != null && datanodes.tried == [] && datanodes.datanodes == locs && asked == []
      ensures EachOnce()
    {
    }

    lemma LeftToAsk()
      requires EachOnce() && datanodes != null && datanodes.datanodes != []
      ensures |asked| < |locs|
    {
      assert |multiset(datanodes.tried) + multiset(datanodes.datanodes)| == |multiset(locs)|;
    }

    lemma NothingAsked()
      requires EachOnce() && datanodes == null
      ensures asked == []
    {
    }

    lemma AllAsked()
      requires Valid() && datanodes != null && datanodes.datanodes == [] && stream == null
      ensures Exhausted()
    {
      assert multiset(datanodes.tried) == multiset(locs);
      assert |multiset(datanodes.tried)| == |multiset(locs)|;
    }

    method ReadStream(len: nat) returns (data: Data, err: Error)
      requires Valid() && stream != null
      modifies this`offset, stream
      ensures Valid() && |data| <= len && offset == old(offset) + |data| && data == block[old(offset)..offset]
      ensures err.Failed? ==> stream.faulty
      ensures stream.chunkSize > 0
      ensures !stream.faulty && len > 0 ==> (data == [] <==> old(Dry(stream.At(), stream.chunkSize, 0)))
    {
      hide S.Stream.Valid, S.Stream.Remaining, EachOnce, Dry, ReadStep;
      stream.ProperNow();
      stream.ValidFacts();
      if len > 0 {
        DryEnd(stream.At(), stream.chunkSize, len);
      }
      data, err := stream.Read(len);
      offset := offset + |data|;
    }
  }

  lemma SkippedPrefix(sent: Data, block: Data, from: nat, offset: nat)
    requires from <= offset <= |block| && sent <= block[from..] && offset - from <= |sent|
    ensures sent[offset - from..] <= block[offset..]
  {
    assert block[from..][offset - from..] == block[offset..];
  }
}
