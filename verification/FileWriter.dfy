/**
 * Splitting a file into blocks (`file_writer.go`, `block_writer.go`): writes
 * fill the current block up to the block size, then it is finalized and the
 * rest goes to a new one. Any call to a namenode or datanode may fail.
 */
module FileWriter {
  import opened Bytes
  import opened Options
  import B = BlockWriteStream

  datatype Error = Fine | EndOfBlock | Failed

  /** A finalized block: where this writer began in it, what was stored of its packets, and the length given to the namenode. */
  datatype Finalized = Finalized(base: nat, data: Data, numBytes: nat)

  function Contents(blocks: seq<Finalized>): Data {
    if blocks == [] then [] else Contents(blocks[..|blocks| - 1]) + blocks[|blocks| - 1].data
  }

  lemma ContentsAppend(blocks: seq<Finalized>, b: Finalized)
    ensures Contents(blocks + [b]) == Contents(blocks) + b.data
  {
    assert (blocks + [b])[..|blocks|] == blocks;
  }

  /**
   * No finalized length is too small, and every block but those a `Close` ended has exactly the block size; with
   * `exact` every length is right. Only the first block can have begun in the middle, when the file was opened
   * to append.
   */
  ghost predicate Lengths(blocks: seq<Finalized>, first: nat, blockSize: nat, ends: set<nat>, exact: bool) {
    forall i :: 0 <= i < |blocks| ==>
      && blocks[i].base + |blocks[i].data| <= blocks[i].numBytes <= blockSize
      && (exact ==> blocks[i].numBytes == blocks[i].base + |blocks[i].data|)
      && blocks[i].base == (if i == 0 then first else 0)
      && (i !in ends ==> blocks[i].numBytes == blockSize)
  }

  lemma LengthsAppend(blocks: seq<Finalized>, first: nat, blockSize: nat, ends: set<nat>, exact: bool,
                      b: Finalized, ends': set<nat>)
    requires Lengths(blocks, first, blockSize, ends, exact) && b.base + |b.data| <= b.numBytes <= blockSize
    requires exact ==> b.numBytes == b.base + |b.data|
    requires b.base == (if blocks == [] then first else 0) && ends <= ends' <= ends + {|blocks|}
    requires |blocks| !in ends' ==> b.numBytes == blockSize
    ensures Lengths(blocks + [b], first, blockSize, ends', exact)
  {
  }

  /** A block recorded with all it was given keeps the whole; one recorded with less never does. */
  lemma RecordedWhole(contents: Data, given: Data, recorded: Data, input: Data, short: bool)
    requires contents + given == input || |contents| + |given| < |input|
    requires if short then |recorded| < |given| else recorded == given
    ensures contents + recorded == input <==> contents + given == input && !short
    ensures contents + recorded == input || |contents + recorded| < |input|
  {
  }

  lemma LengthsWeaken(blocks: seq<Finalized>, first: nat, blockSize: nat, ends: set<nat>, exact: bool)
    requires Lengths(blocks, first, blockSize, ends, exact)
    ensures Lengths(blocks, first, blockSize, ends, false)
  {
  }

  /**
   * A request to the namenode: a new block, told the one before it unless that is not known any more; the length of a
   * block; the end of the file, told its last block. Blocks are known by their place in the file.
   */
  datatype Request = AddBlock(previous: Option<nat>) | Update(block: nat, numBytes: nat) | Complete(last: Option<nat>)

  function Previous(n: nat): Option<nat> {
    if n == 0 then None else Some(n - 1)
  }

  /** The requests for these blocks, one after the other. */
  function Requests(blocks: seq<Finalized>): seq<Request> {
    if blocks == [] then []
    else
      var n := |blocks| - 1;
      Requests(blocks[..n]) + [AddBlock(Previous(n)), Update(n, blocks[n].numBytes)]
  }

  lemma RequestsAppend(blocks: seq<Finalized>, b: Finalized)
    ensures Requests(blocks + [b]) == Requests(blocks) + [AddBlock(Previous(|blocks|)), Update(|blocks|, b.numBytes)]
  {
    assert (blocks + [b])[..|blocks|] == blocks;
  }

  class BlockWriter {
    const crc: B.Checksum
    const blockSize: nat
    const base: nat
    const net: B.Network
    var offset: nat
    var stream: B.Stream?
    ghost var data: Data

    ghost predicate Valid()
      reads this, stream
    {
      && base <= blockSize && offset == base + |data| <= blockSize
      && if stream == null then data == []
         else stream.crc == crc && stream.start == base && stream.net == net && stream.Valid() && stream.written == data
    }

    constructor (crc: B.Checksum, blockSize: nat, base: nat, net: B.Network)
      requires base <= blockSize
      ensures Valid() && this.crc == crc && this.blockSize == blockSize && this.base == base && this.net == net
      ensures data == [] && stream == null
    {
      this.crc, this.blockSize, this.base, this.net := crc, blockSize, base, net;
      offset, stream, data := base, null, [];
    }

    /** What has been stored of this block. */
    function Sent(): Data
      requires stream != null ==> |stream.stored| == |stream.packets|
      reads this, stream
    {
      if stream == null then [] else B.Delivered(stream.packets, stream.stored)
    }

    predicate IsOpen()
      reads this, stream
    {
      stream == null || !stream.closed
    }

    /** No packet was lost so far. */
    predicate Clean()
      reads this, stream
    {
      stream == null || B.All(stream.stored)
    }

    /** Nothing is buffered, and no packet with bytes was lost or left without acknowledgement. */
    predicate Intact()
      reads this, stream
    {
      stream == null || (stream.buf == [] && B.Intact(stream.packets, stream.stored))
    }

    lemma Offset()
      requires Valid()
      ensures offset == base + |data|
    {
    }

    lemma SentIfIntact()
      requires Valid()
      ensures stream != null ==> |stream.stored| == |stream.packets|
      ensures if Intact() then Sent() == data else |Sent()| < |data|
    {
      hide B.Concat, B.Sequence, B.DataPackets, B.Ended, B.Intact, B.Delivered;
      if stream != null {
        B.DeliveredIff(stream.packets, stream.stored);
      }
    }

    /** `Write` takes as much as the block has room for, and says so when that is not everything. */
    method Write(b: Data) returns (n: nat, err: Error)
      requires Valid()
      modifies this`offset, this`stream, this`data, stream, net`calls
      ensures Valid() && n <= |b| && data == old(data) + b[..n]
      ensures stream == old(stream) || (old(stream) == null && fresh(stream))
      ensures IsOpen() == old(IsOpen())
      ensures err.Fine? ==> n == |b|
      ensures err.EndOfBlock? ==> offset == blockSize && (n < |b| || b == [])
      ensures err.EndOfBlock? && n == 0 && b != [] ==> old(offset) == blockSize
      ensures old(net.calls) <= net.calls && (old(IsOpen()) ==> (err.Failed? <==> !net.Held(old(net.calls), net.calls)))
      ensures old(Clean()) && !err.Failed? ==> Clean()
      ensures
        && old(stream) == null && net.up(old(net.calls))
        && |b| < B.PACKET_SIZE && old(offset) + |b| <= blockSize && old(offset) < blockSize ==>
        && err.Fine? && stream != null && stream.buf == b && stream.stored == [] && stream.offset == old(offset)
        && net.calls == old(net.calls) + 1
    {
      hide B.Stream.Valid, B.Concat;
      if offset >= blockSize {
        return 0, EndOfBlock;
      }
      var blockFull := offset + |b| > blockSize;
      var c := if blockFull then b[..blockSize - offset] else b;
      if stream == null {
        var connected := net.Call();
        if !connected {
          return 0, Failed;
        }
        stream := new B.Stream(crc, offset, net);
      }
      var ok;
      n, ok := stream.Write(c);
      offset := offset + n;
      data := data + c[..n];
      assert c[..n] == b[..n];
      err := if !ok then Failed else if blockFull then EndOfBlock else Fine;
    }

    /** `Flush`: nothing is buffered any more, and nothing is missing unless a packet was lost before. */
    method Flush() returns (ok: bool)
      requires Valid()
      modifies stream, net`calls
      ensures Valid() && IsOpen() == old(IsOpen()) && (ok && stream != null ==> stream.buf == [])
      ensures ok && old(Clean()) ==> Sent() == data
      ensures old(net.calls) <= net.calls && (ok <==> net.Held(old(net.calls), net.calls))
    {
      hide B.Stream.Valid, B.Concat, B.Delivered;
      ok := true;
      if stream != null {
        ok := stream.Flush(true);
      }
      SentIfIntact();
    }

    /**
     * `Close` has every byte of the block in a packet, followed by the empty last packet, all of them stored. When the
     * stream had been closed already it reports success as well, and then every byte was stored if and only if none
     * was left buffered and no packet was lost.
     */
    method Close() returns (ok: bool)
      requires Valid()
      modifies stream, net`calls
      ensures Valid() && !(stream != null && IsOpen())
      ensures ok ==> if old(IsOpen() || Intact()) then Sent() == data else |Sent()| < |data|
      ensures old(!IsOpen()) ==> ok && stream != null && stream.buf == old(stream.buf) && stream.stored == old(stream.stored)
      ensures old(stream != null && IsOpen() && stream.buf != []) && !net.up(old(net.calls)) ==>
        && !ok && stream.stored == old(stream.stored) + [false]
        && |stream.buf| == |old(stream.buf)| - B.PacketLength(old(stream.offset), |old(stream.buf)|)
      ensures ok && old(IsOpen()) && stream != null ==> stream.packets != [] && stream.packets[|stream.packets| - 1].last
      ensures old(net.calls) <= net.calls && (old(IsOpen()) ==> (ok <==> old(Clean()) && net.Held(old(net.calls), net.calls)))
      ensures net.Healthy() ==> ok
    {
      hide B.Stream.Valid, B.Concat, B.Delivered, B.PacketLength;
      ok := true;
      if stream != null {
        if net.Healthy() {
          stream.HealthyStored();
        }
        ok := stream.Finish();
      }
      SentIfIntact();
    }
  }

  /**
   * A `Close` under which the first packet is lost, and that is called again, succeeds: nothing has been stored, yet the
   * block would be finalized with the length of all of it. With 512 bytes in a block begun at 1, one byte has not even
   * left the buffer.
   */
  method RetriedCloseLosesAll(crc: B.Checksum, base: nat, b: Data)
    returns (first: bool, second: bool, sent: Data, left: nat, length: nat)
    requires 0 < |b| < B.PACKET_SIZE
    ensures !first && second && sent == [] && length == base + |b|
    ensures left == |b| - B.PacketLength(base, |b|)
  {
    hide BlockWriter.Valid, B.Concat, B.PacketLength, B.Intact, B.Delivered;
    var net := new B.Network(k => k != 1);
    var w := new BlockWriter(crc, base + |b|, base, net);
    var n, err := w.Write(b);
    first := w.Close();
    assert !w.IsOpen() && w.stream.stored == [] + [false];
    left := |w.stream.buf|;
    second := w.Close();
    w.SentIfIntact();
    w.Offset();
    B.NoneDelivered(w.stream.packets, w.stream.stored);
    sent, length := w.Sent(), w.offset;
  }

  class Writer {
    const crc: B.Checksum
    const blockSize: nat
    const net: B.Network
    ghost const first: nat
    var blockWriter: BlockWriter?
    /** The blocks finalized so far, in order. */
    var blocks: seq<Finalized>
    ghost var input: Data
    /** The requests made to the namenode, in order. */
    var asked: seq<Request>
    /** Which blocks were ended by `Close`. */
    ghost var ends: set<nat>
    /** A block could not be finished. */
    ghost var broken: bool

    ghost function Owned(): set<object>
      reads this, blockWriter
    {
      if blockWriter == null then {}
      else if blockWriter.stream == null then {blockWriter}
      else {blockWriter, blockWriter.stream}
    }

    ghost function Pending(): Data
      reads this, blockWriter
    {
      if blockWriter == null then [] else blockWriter.data
    }

    ghost predicate Valid()
      reads this, Owned()
    {
      && blockSize > 0
      && (blockWriter != null ==>
            && blockWriter.crc == crc && blockWriter.blockSize == blockSize && blockWriter.net == net && blockWriter.Valid()
            && blockWriter.base == (if blocks == [] then first else 0))
      && (blockWriter == null && blocks == [] ==> first == 0)
      && Lengths(blocks, first, blockSize, ends, !broken)
      && (Whole() || |Contents(blocks)| + |Pending()| < |input|)
      && (!broken ==> Whole() && (blockWriter != null ==> blockWriter.IsOpen()))
    }

    /** The finalized blocks and the current one have every byte written so far. */
    ghost predicate Whole()
      reads this, blockWriter
    {
      Contents(blocks) + Pending() == input
    }

    /** The current block is open and none of its packets was lost. */
    predicate Clean()
      reads this, Owned()
    {
      blockWriter == null || (blockWriter.IsOpen() && blockWriter.Clean())
    }

    /** The namenode was asked for each block once, and told its length once; for the current block only asked. */
    predicate Tidy()
      reads this
    {
      asked == Requests(blocks) + if blockWriter == null then [] else [AddBlock(Previous(|blocks|))]
    }

    /** The current block has bytes, unless nothing at all has been written. */
    ghost predicate Begun()
      reads this, blockWriter
    {
      blockWriter != null && blockWriter.data == [] ==> input == []
    }

    lemma HealthyIsClean()
      requires Valid() && !broken && net.Healthy()
      ensures Clean() && forall from: nat, to: nat :: net.Held(from, to)
    {
      if blockWriter != null && blockWriter.stream != null {
        blockWriter.stream.HealthyStored();
      }
    }

    lemma Facts()
      requires Valid()
      ensures Lengths(blocks, first, blockSize, ends, !broken)
      ensures blockWriter == null ==> (Whole() <==> Contents(blocks) == input)
    {
      if blockWriter == null {
        assert Contents(blocks) + [] == Contents(blocks);
      }
    }

    lemma IsSound()
      requires Valid() && !broken
      ensures Whole() && !Damaged()
    {
    }

    /** The current block was closed, without success, and some of its bytes are still buffered or were not stored. */
    predicate Damaged()
      reads this, Owned()
    {
      blockWriter != null && !blockWriter.IsOpen() && !blockWriter.Intact()
    }

    /** A new file, or with `partial` an append to a last block that is not full. */
    constructor (crc: B.Checksum, blockSize: nat, partial: bool, base: nat, net: B.Network)
      requires blockSize > 0 && base < blockSize
      ensures this.blockSize == blockSize && this.net == net && first == if partial then base else 0
      ensures Valid() && fresh(Owned()) && input == [] && blocks == [] && ends == {} && !broken
      ensures Clean() && Begun() && asked == [] && (!partial ==> blockWriter == null && Tidy())
    {
      this.crc, this.blockSize, this.net, first := crc, blockSize, net, if partial then base else 0;
      blocks, input, ends, broken, asked := [], [], {}, false, [];
      blockWriter := null;
      new;
      if partial {
        blockWriter := new BlockWriter(crc, blockSize, base, net);
      }
    }

    /** Between closing the current block and forgetting it. */
    ghost predicate Closing(byClose: bool, short: bool)
      reads this, Owned()
    {
      && blockSize > 0 && blockWriter != null && blockWriter.Valid() && blockWriter.blockSize == blockSize
      && blockWriter.base == (if blocks == [] then first else 0) && (byClose || blockWriter.offset == blockSize)
      && Lengths(blocks, first, blockSize, ends, !broken)
      && (Whole() || |Contents(blocks)| + |Pending()| < |input|)
      && (if short then |blockWriter.Sent()| < |blockWriter.data| else blockWriter.Sent() == blockWriter.data)
      && (!broken ==> Whole() && !short)
    }

    /** The current block becomes the next finalized one. */
    method Record(ghost byClose: bool, ghost short: bool)
      requires Closing(byClose, short)
      modifies this`blockWriter, this`blocks, this`ends
      ensures Valid() && blockWriter == null && |blocks| == |old(blocks)| + 1
      ensures Whole() <==> old(Whole()) && !short
      ensures ends == if byClose then old(ends) + {|old(blocks)|} else old(ends)
      ensures blocks == old(blocks) + [blocks[|old(blocks)|]] && blocks[|old(blocks)|].numBytes == old(blockWriter.offset)
      ensures !short ==> blocks[|old(blocks)|].data == old(blockWriter.data)
    {
      hide Lengths, Contents, B.Stream.Valid, B.Concat, B.Delivered, B.Intact;
      blockWriter.SentIfIntact();
      var b := Finalized(blockWriter.base, blockWriter.Sent(), blockWriter.offset);
      ContentsAppend(blocks, b);
      RecordedWhole(Contents(blocks), blockWriter.data, b.data, input, short);
      ghost var ends' := if byClose then ends + {|blocks|} else ends;
      LengthsAppend(blocks, first, blockSize, ends, !broken, b, ends');
      ends := ends';
      blocks := blocks + [b];
      blockWriter := null;
    }

    /** The current block is closed, and the namenode told its length. */
    method CloseBlock(ghost byClose: bool) returns (ok: bool)
      requires Valid() && blockWriter != null && (byClose || blockWriter.offset == blockSize)
      modifies this`broken, this`asked, Owned(), net`calls
      ensures fresh(Owned() - old(Owned())) && (old(broken) ==> broken) && blockWriter.offset == old(blockWriter.offset)
      ensures ok ==> Closing(byClose, old(Damaged())) && broken == old(broken) && (Whole() <==> old(Whole()))
      ensures ok ==> asked == old(asked) + [Update(|blocks|, blockWriter.offset)] && blockWriter.data == old(blockWriter.data)
      ensures !ok ==> Valid() && broken
      ensures old(net.calls) <= net.calls && (old(Clean()) ==> (ok <==> net.Held(old(net.calls), net.calls)))
      ensures net.Healthy() ==> ok
    {
      hide Lengths, Contents, B.Stream.Valid, B.Concat, B.Delivered, B.Intact, B.All, B.Network.Held, Requests;
      ok := blockWriter.Close();
      if ok {
        asked := asked + [Update(|blocks|, blockWriter.offset)];
        net.HeldOneMore(old(net.calls), net.calls);
        ok := net.Call();
      }
      if !ok {
        broken := true;
        LengthsWeaken(blocks, first, blockSize, ends, !old(broken));
      }
    }

    /** `finalizeBlock`: the namenode learns the length, which is that of the bytes given to the block. */
    method FinalizeBlock(ghost byClose: bool) returns (ok: bool)
      requires Valid() && blockWriter != null && (byClose || blockWriter.offset == blockSize)
      modifies this`blockWriter, this`blocks, this`ends, this`broken, this`asked, Owned(), net`calls
      ensures Valid() && input == old(input) && (old(broken) ==> broken) && fresh(Owned() - old(Owned()))
      ensures ok ==> blockWriter == null && |blocks| == |old(blocks)| + 1 && broken == old(broken)
      ensures ok ==> blocks == old(blocks) + [blocks[|old(blocks)|]]
      ensures ok ==> asked == old(asked) + [Update(|old(blocks)|, blocks[|old(blocks)|].numBytes)]
      ensures ok && old(!Damaged()) ==> blocks[|old(blocks)|].data == old(blockWriter.data)
      ensures old(net.calls) <= net.calls && (old(Clean()) ==> (ok <==> net.Held(old(net.calls), net.calls)))
      ensures ok ==> (Whole() <==> old(Whole() && !Damaged()))
      ensures !ok ==> blockWriter == old(blockWriter) && blocks == old(blocks) && broken
      ensures ends == if byClose && ok then old(ends) + {|old(blocks)|} else old(ends)
      ensures net.Healthy() ==> ok
    {
      hide Valid, Closing, B.All, B.Network.Held, Requests, Damaged, Clean, Whole;
      ok := CloseBlock(byClose);
      if ok {
        Record(byClose, old(Damaged()));
      }
    }

    method Ask(r: Request) returns (ok: bool)
      requires Valid()
      modifies this`asked, net`calls
      ensures Valid() && Owned() == old(Owned()) && asked == old(asked) + [r]
      ensures ok == net.up(old(net.calls)) && net.calls == old(net.calls) + 1
    {
      hide Lengths, Contents;
      asked := asked + [r];
      ok := net.Call();
    }

    method OpenBlock()
      requires Valid() && blockWriter == null
      modifies this`blockWriter
      ensures Valid() && Clean() && blockWriter != null && fresh(blockWriter) && fresh(Owned())
      ensures blockWriter.offset == 0 < blockSize
    {
      hide Lengths, Contents;
      blockWriter := new BlockWriter(crc, blockSize, 0, net);
    }

    method StartNewBlock() returns (ok: bool)
      requires Valid() && (blockWriter != null ==> blockWriter.offset == blockSize)
      modifies this`blockWriter, this`blocks, this`ends, this`broken, this`asked, Owned(), net`calls
      ensures Valid() && input == old(input) && (old(broken) ==> broken) && fresh(Owned() - old(Owned()))
      ensures old(net.calls) <= net.calls && (old(Clean()) ==> (ok <==> net.Held(old(net.calls), net.calls)))
      ensures ok ==> Clean() && (old(Tidy() && (blockWriter != null || blocks == [])) ==> Tidy())
      ensures ok ==> blockWriter != null && fresh(blockWriter) && blockWriter.offset == 0 < blockSize && broken == old(broken)
      ensures ends == old(ends)
      ensures net.Healthy() ==> ok
    {
      hide Valid, B.All, B.Network.Held, Requests;
      net.HeldNone(net.calls);
      var previous := None;
      if blockWriter != null {
        previous := Some(|blocks|);
        ok := FinalizeBlock(false);
        if !ok {
          return;
        }
        RequestsAppend(old(blocks), blocks[|old(blocks)|]);
      }
      net.HeldOneMore(old(net.calls), net.calls);
      ok := Ask(AddBlock(previous));
      if ok {
        OpenBlock();
      }
    }

    /** One call of the current block writer. */
    method Feed(b: Data) returns (k: nat, err: Error)
      requires Valid() && blockWriter != null && b != []
      modifies this`input, Owned(), net`calls
      ensures Valid() && k <= |b| && input == old(input) + b[..k] && fresh(Owned() - old(Owned()))
      ensures err.Fine? ==> k == |b|
      ensures err.EndOfBlock? ==> blockWriter.offset == blockSize && (k == 0 ==> old(blockWriter.offset) == blockSize)
      ensures old(net.calls) <= net.calls && (old(Clean()) ==> (err.Failed? <==> !net.Held(old(net.calls), net.calls)))
      ensures old(Clean()) && !err.Failed? ==> Clean()
      ensures err.Fine? ==> blockWriter.data != []
      ensures err.EndOfBlock? ==> k < |b|
    {
      hide Lengths, Contents, B.Stream.Valid, B.Concat, B.Delivered, B.Intact;
      k, err := blockWriter.Write(b);
      input := input + b[..k];
    }

    /** One turn of the loop of `Write`: it takes some bytes, or else replaces a full block. */
    method Turn(b: Data, n: nat, ghost before: Data) returns (m: nat, ok: bool)
      requires Valid() && blockWriter != null && n < |b| && input == before + b[..n]
      modifies this, Owned(), net`calls
      ensures Valid() && n <= m <= |b| && input == before + b[..m] && fresh(Owned() - old(Owned()))
      ensures ends == old(ends) && (old(broken) ==> broken)
      ensures ok ==> blockWriter != null && broken == old(broken)
      ensures ok && m == n ==> old(blockWriter.offset) == blockSize && blockWriter.offset < blockSize
      ensures old(net.calls) <= net.calls && (old(Clean()) ==> (ok <==> net.Held(old(net.calls), net.calls)))
      ensures ok && old(Clean()) ==> Clean()
      ensures ok && old(Tidy()) ==> Tidy()
      ensures ok && m == |b| ==> blockWriter.data != []
    {
      hide Valid, B.All, B.Network.Held, Requests;
      var k, err := Feed(b[n..]);
      m := n + k;
      assert b[..n] + b[n..][..k] == b[..m];
      ok := !err.Failed?;
      if err.EndOfBlock? {
        ghost var calls := net.calls;
        ok := StartNewBlock();
        net.HeldJoined(old(net.calls), calls, net.calls);
      }
    }

    /** `Write` consumes the bytes it reports, whatever fails, and all of them when nothing does. */
    method Write(b: Data) returns (n: nat, ok: bool)
      requires Valid()
      modifies this, Owned(), net`calls
      ensures Valid() && n <= |b| && input == old(input) + b[..n] && (ok ==> n == |b|)
      ensures fresh(Owned() - old(Owned()))
      ensures ends == old(ends) && (old(broken) ==> broken) && (ok ==> blockWriter != null && broken == old(broken))
      ensures old(net.calls) <= net.calls && (old(Clean()) ==> (ok <==> net.Held(old(net.calls), net.calls)))
      ensures ok && old(Clean()) ==> Clean()
      ensures ok && old(Tidy() && (blockWriter != null || blocks == [])) ==> Tidy()
      ensures net.Healthy() && !old(broken) ==> ok
      ensures ok && |b| > 0 ==> blockWriter.data != []
      ensures ok && b == [] && old(blockWriter) != null ==> blockWriter == old(blockWriter) && blockWriter.data == old(blockWriter.data)
    {
      hide Valid, B.All, B.Network.Held, Requests;
      n, ok := 0, true;
      if net.Healthy() && !broken {
        HealthyIsClean();
      }
      net.HeldNone(net.calls);
      if blockWriter == null {
        ok := StartNewBlock();
      }
      while ok && n < |b|
        invariant Valid() && (ok ==> blockWriter != null && broken == old(broken)) && n <= |b| && input == old(input) + b[..n]
        invariant fresh(Owned() - old(Owned())) && ends == old(ends) && (old(broken) ==> broken)
        invariant old(net.calls) <= net.calls && (old(Clean()) ==> (ok <==> net.Held(old(net.calls), net.calls)))
        invariant ok && old(Clean()) ==> Clean()
        invariant ok && old(Tidy() && (blockWriter != null || blocks == [])) ==> Tidy()
        invariant ok && 0 < |b| == n ==> blockWriter.data != []
        invariant b == [] && old(blockWriter) != null ==> ok && blockWriter == old(blockWriter) && blockWriter.data == old(blockWriter.data)
        decreases ok, |b| - n, if blockWriter != null && blockWriter.offset == blockSize then 1 else 0
      {
        ghost var calls := net.calls;
        n, ok := Turn(b, n, old(input));
        net.HeldJoined(old(net.calls), calls, net.calls);
      }
    }

    /** `Flush`: on success nothing is buffered. */
    method Flush() returns (ok: bool)
      requires Valid()
      modifies Owned(), net`calls
      ensures Valid() && Owned() == old(Owned())
      ensures ok && blockWriter != null && blockWriter.stream != null ==> blockWriter.stream.buf == []
      ensures old(net.calls) <= net.calls && (ok <==> net.Held(old(net.calls), net.calls))
    {
      hide Lengths, Contents, B.Stream.Valid, B.Concat, B.Delivered;
      ok := true;
      if blockWriter != null {
        ok := blockWriter.Flush();
      }
    }

    /**
     * `Close`: on success everything written is stored in finalized blocks, of the right lengths, if no earlier call
     * left a block unfinished. After one that did, a `Close` that succeeds has everything in the blocks if and only if
     * the block was left with nothing buffered and no packet lost; the missing bytes are still part of the length given
     * to the namenode.
     */
    method Close() returns (ok: bool)
      requires Valid()
      modifies this`blockWriter, this`blocks, this`ends, this`broken, this`asked, Owned(), net`calls
      ensures Valid() && input == old(input) && (old(broken) ==> broken) && fresh(Owned() - old(Owned()))
      ensures old(net.calls) <= net.calls && (old(Clean()) ==> (ok <==> net.Held(old(net.calls), net.calls)))
      ensures ok && old(Tidy()) ==>
        asked == Requests(blocks) + [Complete(if old(blockWriter) == null then None else Some(|old(blocks)|))]
      ensures ok && old(blockWriter == null) ==> blocks == old(blocks)
      ensures ok && old(blockWriter != null && !Damaged()) ==>
        |blocks| == |old(blocks)| + 1 && blocks[|old(blocks)|].data == old(blockWriter.data)
      ensures ok ==> blockWriter == null && broken == old(broken) && ends <= old(ends) + {|blocks| - 1}
      ensures ok ==> (Contents(blocks) == input <==> old(Whole() && !Damaged()))
      ensures !broken ==> old(Whole() && !Damaged())
      ensures Lengths(blocks, first, blockSize, ends, !broken)
      ensures net.Healthy() ==> ok
    {
      hide Valid, Requests, B.All, B.Network.Held, Lengths, Contents, B.Intact, Whole;
      Facts();
      if !broken {
        IsSound();
      }
      var last := None;
      net.HeldNone(net.calls);
      if blockWriter != null {
        last := Some(|blocks|);
        ok := FinalizeBlock(true);
        Facts();
        if !ok {
          return;
        }
        RequestsAppend(old(blocks), blocks[|old(blocks)|]);
      }
      net.HeldOneMore(old(net.calls), net.calls);
      ok := Ask(Complete(last));
      Facts();
    }
  }

  function Join(writes: seq<Data>): Data {
    if writes == [] then [] else Join(writes[..|writes| - 1]) + writes[|writes| - 1]
  }

  lemma JoinNone()
    ensures Join([]) == []
  {
  }

  lemma JoinNext(writes: seq<Data>, i: nat)
    requires i < |writes|
    ensures Join(writes[..i + 1]) == Join(writes[..i]) + writes[i]
  {
    assert writes[..i + 1][..i] == writes[..i];
  }

  lemma LengthsMean(blocks: seq<Finalized>, blockSize: nat, ends: set<nat>)
    requires Lengths(blocks, 0, blockSize, ends, true) && ends <= {|blocks| - 1}
    ensures forall i :: 0 <= i < |blocks| ==> blocks[i].base == 0 && blocks[i].numBytes == |blocks[i].data| <= blockSize
    ensures forall i :: 0 <= i < |blocks| - 1 ==> |blocks[i].data| == blockSize
  {
  }

  /** The last block has bytes if any block has. */
  lemma LastIsNotEmpty(blocks: seq<Finalized>)
    requires blocks != [] && Contents(blocks) == []
    ensures blocks[|blocks| - 1].data == []
  {
  }

  /**
   * A whole new file: any sequence of writes and a `Close`. It succeeds if and only if none of the calls it makes to a
   * namenode or datanode fails. Then the blocks concatenate to the input, every block but the last is exactly full and
   * the last has bytes if there are any; each was finalized with the length of its bytes; and the namenode was asked
   * for each block, told its length, and told that the file is complete, in that order and nothing else.
   */
  method WriteFile(crc: B.Checksum, blockSize: nat, writes: seq<Data>, up: nat -> bool)
    returns (blocks: seq<Finalized>, asked: seq<Request>, calls: nat, ok: bool)
    requires blockSize > 0
    ensures ok <==> forall k :: 0 <= k < calls ==> up(k)
    ensures ok ==> Contents(blocks) == Join(writes)
    ensures ok ==> forall i :: 0 <= i < |blocks| ==> blocks[i].base == 0 && blocks[i].numBytes == |blocks[i].data| <= blockSize
    ensures ok ==> forall i :: 0 <= i < |blocks| - 1 ==> |blocks[i].data| == blockSize
    ensures ok ==> (blocks == [] <==> writes == [])
    ensures ok && blocks != [] ==> (blocks[|blocks| - 1].data == [] <==> Join(writes) == [])
    ensures ok ==> asked == Requests(blocks) + [Complete(Previous(|blocks|))]
  {
    hide Writer.Valid, Lengths, Contents, Join, Requests, B.Network.Held, Writer.Clean, Writer.Tidy, Writer.Damaged,
         Writer.Whole;
    var net := new B.Network(up);
    var f := new Writer(crc, blockSize, false, 0, net);
    blocks, asked := [], [];
    net.HeldNone(0);
    ok := WriteAll(f, writes);
    if ok {
      ghost var before := net.calls;
      f.IsSound();
      ok := f.Close();
      net.HeldJoined(0, before, net.calls);
      blocks, asked := f.blocks, f.asked;
    }
    calls := net.calls;
    HeldMeans(net, calls);
    if ok {
      LengthsMean(blocks, blockSize, f.ends);
      if blocks != [] && Join(writes) == [] {
        LastIsNotEmpty(blocks);
      }
    }
  }

  /** The writes to a new file, up to the first that fails. */
  method WriteAll(f: Writer, writes: seq<Data>) returns (ok: bool)
    requires f.Valid() && f.first == 0 && f.input == [] && f.blocks == [] && f.blockWriter == null && !f.broken && f.ends == {}
    requires f.Clean() && f.Tidy() && f.Begun() && f.asked == [] && f.net.calls == 0
    modifies f, f.net`calls
    ensures ok <==> f.net.Held(0, f.net.calls)
    ensures f.Valid() && fresh(f.Owned())
    ensures ok ==> f.input == Join(writes) && !f.broken && f.ends == {} && f.Clean() && f.Tidy() && f.Begun()
    ensures ok ==> if writes == [] then f.blockWriter == null && f.blocks == [] else f.blockWriter != null
  {
    hide Writer.Valid, Join, Requests, B.All, B.Network.Held, Writer.Clean, Writer.Tidy;
    ghost var net := f.net;
    ok := true;
    JoinNone();
    net.HeldNone(0);
    for i := 0 to |writes|
      invariant f.Valid() && fresh(f.Owned()) && f.input == Join(writes[..i]) && !f.broken && f.ends == {}
      invariant f.Clean() && f.Tidy() && f.Begun() && net.Held(0, net.calls)
      invariant if i == 0 then f.blockWriter == null && f.blocks == [] && f.input == [] else f.blockWriter != null
    {
      JoinNext(writes, i);
      var n;
      ghost var before := net.calls;
      n, ok := f.Write(writes[i]);
      net.HeldJoined(0, before, net.calls);
      if !ok {
        return;
      }
      assert writes[i][..n] == writes[i];
    }
    assert writes[..|writes|] == writes;
  }

  lemma HeldMeans(net: B.Network, calls: nat)
    ensures net.Held(0, calls) <==> forall k :: 0 <= k < calls ==> net.up(k)
  {
  }
}
