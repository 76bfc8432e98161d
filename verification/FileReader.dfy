/**
 * Reading a file across its blocks (`file_reader.go`): a block reader is
 * opened at the current position, used until it gives nothing more, and
 * replaced.
 */
module FileReader {
  import opened Bytes
  import opened PacketStream
  import BlockReader

  datatype Block = Block(start: nat, data: Data, locs: seq<string>) {
    function End(): nat {
      start + |data|
    }
  }

  /** A block starts where the one before it ends. */
  predicate Follows(blocks: seq<Block>, i: nat) {
    i < |blocks| && blocks[i].start == if i == 0 then 0 else blocks[i - 1].End()
  }

  /** The blocks make up the file, one after the other. */
  ghost predicate Layout(file: Data, blocks: seq<Block>) {
    && (forall i :: 0 <= i < |blocks| ==> blocks[i].End() <= |file| && file[blocks[i].start..blocks[i].End()] == blocks[i].data)
    && (forall i :: 0 <= i < |blocks| ==> Follows(blocks, i))
    && |file| == if blocks == [] then 0 else blocks[|blocks| - 1].End()
  }

  /** Any position before the end of the first blocks lies in one of them. */
  lemma {:induction false} SomeBlock(file: Data, blocks: seq<Block>, off: nat, k: nat)
    requires Layout(file, blocks) && k < |blocks| && off < blocks[k].End()
    ensures exists i :: 0 <= i <= k && blocks[i].start <= off < blocks[i].End()
    decreases k
  {
    if off < blocks[k].start {
      assert Follows(blocks, k);
      SomeBlock(file, blocks, off, k - 1);
    }
  }

  lemma BlockBytes(file: Data, blocks: seq<Block>, i: nat, p: nat, q: nat)
    requires Layout(file, blocks) && i < |blocks| && p <= q <= |blocks[i].data|
    ensures blocks[i].start + q <= |file| && blocks[i].data[p..q] == file[blocks[i].start + p..blocks[i].start + q]
  {
    Slice(file, blocks[i].start, blocks[i].End(), p, q);
  }

  lemma Slice(s: Data, a: nat, b: nat, p: nat, q: nat)
    requires a <= b <= |s| && p <= q <= b - a
    ensures s[a..b][p..q] == s[a + p..a + q]
  {
    forall i | 0 <= i < q - p ensures s[a..b][p..q][i] == s[a + p..a + q][i] {
    }
  }

  /** The number of the first block, from the i-th on, that holds a position. */
  function BlockAt(blocks: seq<Block>, off: nat, i: nat): nat
    decreases |blocks| - i
  {
    if i >= |blocks| || blocks[i].start <= off < blocks[i].End() then i else BlockAt(blocks, off, i + 1)
  }

  /** Any position of the file lies in a block. */
  lemma BlockFound(file: Data, blocks: seq<Block>, off: nat, i: nat, k: nat)
    requires Layout(file, blocks) && i <= k < |blocks| && blocks[k].start <= off < blocks[k].End()
    ensures var b := BlockAt(blocks, off, i); b < |blocks| && blocks[b].start <= off < blocks[b].End()
    decreases k - i
  {
    if !(blocks[i].start <= off < blocks[i].End()) {
      BlockFound(file, blocks, off, i + 1, k);
    }
  }

  lemma HoldsPosition(file: Data, blocks: seq<Block>, off: nat)
    requires Layout(file, blocks) && off < |file|
    ensures var b := BlockAt(blocks, off, 0); b < |blocks| && blocks[b].start <= off < blocks[b].End()
  {
    SomeBlock(file, blocks, off, |blocks| - 1);
    var k :| 0 <= k < |blocks| && blocks[k].start <= off < blocks[k].End();
    BlockFound(file, blocks, off, 0, k);
  }

  /** What datanodes send is of the blocks. */
  ghost predicate Conforms(net: BlockReader.Network, blocks: seq<Block>) {
    forall b: nat, r: nat, c: nat, at: nat :: b < |blocks| && at <= |blocks[b].data| ==>
      BlockReader.Serves(net(BlockReader.Ask(b, r, c, at)), blocks[b].data, at)
  }

  /** Nothing fails: readers can be set up, and every datanode asked answers over a connection that holds. */
  ghost predicate Sound(net: BlockReader.Network, setUp: nat -> bool, blocks: seq<Block>) {
    && (forall r: nat :: setUp(r))
    && forall b: nat, r: nat, c: nat, at: nat :: b < |blocks| && at <= |blocks[b].data| ==>
         BlockReader.Healthy(net(BlockReader.Ask(b, r, c, at)))
  }

  /** The connection that the r-th reader, opened at this position, uses: the first to reach it. */
  function Used(net: BlockReader.Network, blocks: seq<Block>, r: nat, off: nat): nat {
    var b := BlockAt(blocks, off, 0);
    if b < |blocks| && blocks[b].start <= off
    then BlockReader.FirstReached(net, b, r, |blocks[b].locs|, 0, off - blocks[b].start)
    else 0
  }

  /** The r-th reader, opened at this position of the file, would get there. */
  predicate ReachedAt(net: BlockReader.Network, blocks: seq<Block>, r: nat, off: nat) {
    var b := BlockAt(blocks, off, 0);
    b < |blocks| && blocks[b].start <= off && Used(net, blocks, r, off) < |blocks[b].locs|
  }

  /** It would get there, and then nothing. */
  predicate StarvedAt(net: BlockReader.Network, blocks: seq<Block>, r: nat, off: nat) {
    && ReachedAt(net, blocks, r, off)
    && var b := BlockAt(blocks, off, 0);
       var at := off - blocks[b].start;
       BlockReader.Starves(net(BlockReader.Ask(b, r, Used(net, blocks, r, off), at)), at)
  }

  /** It would get there, and then bytes. */
  predicate ServedAt(net: BlockReader.Network, blocks: seq<Block>, r: nat, off: nat) {
    ReachedAt(net, blocks, r, off) && !StarvedAt(net, blocks, r, off)
  }

  /** All these readers would get to the position, and then nothing. */
  ghost predicate AllStarved(net: BlockReader.Network, blocks: seq<Block>, from: nat, to: int, off: nat) {
    forall k: nat :: from <= k < to ==> StarvedAt(net, blocks, k, off)
  }

  lemma NoneStarved(net: BlockReader.Network, blocks: seq<Block>, from: nat, off: nat)
    ensures AllStarved(net, blocks, from, from, off)
  {
  }

  lemma OneMoreStarved(net: BlockReader.Network, blocks: seq<Block>, from: nat, to: nat, off: nat, to': nat)
    requires AllStarved(net, blocks, from, to, off) && (to' == to || (to' == to + 1 && StarvedAt(net, blocks, to, off)))
    ensures AllStarved(net, blocks, from, to', off)
  {
  }

  lemma FirstIsStarved(net: BlockReader.Network, blocks: seq<Block>, from: nat, to: int, off: nat)
    requires AllStarved(net, blocks, from, to, off)
    ensures from < to ==> StarvedAt(net, blocks, from, off)
  {
  }

  lemma StarvedIsReached(net: BlockReader.Network, blocks: seq<Block>, r: nat, off: nat)
    ensures StarvedAt(net, blocks, r, off) ==> ReachedAt(net, blocks, r, off)
  {
  }

  lemma OneNotStarved(net: BlockReader.Network, blocks: seq<Block>, from: nat, to: int, off: nat, k: nat)
    requires from <= k < to && !StarvedAt(net, blocks, k, off)
    ensures !AllStarved(net, blocks, from, to, off)
  {
  }

  /** The first datanode the r-th reader connects to, opened at this position, refuses, may fail, or starves it. */
  predicate Hindered(net: BlockReader.Network, blocks: seq<Block>, r: nat, off: nat) {
    var b := BlockAt(blocks, off, 0);
    b < |blocks| && blocks[b].start <= off && blocks[b].locs != [] ==>
      var a := net(BlockReader.Ask(b, r, 0, off - blocks[b].start));
      !BlockReader.Healthy(a) || BlockReader.Starves(a, off - blocks[b].start)
  }

  ghost predicate AllHindered(net: BlockReader.Network, blocks: seq<Block>, from: nat, to: nat, off: nat) {
    forall k: nat :: from <= k < to ==> Hindered(net, blocks, k, off)
  }

  lemma NoneHindered(net: BlockReader.Network, blocks: seq<Block>, from: nat, off: nat)
    ensures AllHindered(net, blocks, from, from, off)
  {
  }

  lemma OneMoreHindered(net: BlockReader.Network, blocks: seq<Block>, from: nat, to: nat, off: nat, to': nat)
    requires AllHindered(net, blocks, from, to, off) && (to' == to || (to' == to + 1 && Hindered(net, blocks, to, off)))
    ensures AllHindered(net, blocks, from, to', off)
  {
  }

  /** Every reader opened at a position of the file gets bytes. */
  ghost predicate AlwaysServed(net: BlockReader.Network, blocks: seq<Block>, size: nat) {
    forall k: nat, off: nat :: off < size ==> ServedAt(net, blocks, k, off)
  }

  /** Every replica of the block has been connected to by this reader, at these positions, and none was of use. */
  ghost predicate AllFutile(net: BlockReader.Network, blocks: seq<Block>, b: nat, r: nat, asked: seq<nat>) {
    && b < |blocks| && |asked| == |blocks[b].locs|
    && forall c :: 0 <= c < |asked| ==>
         var a := net(BlockReader.Ask(b, r, c, asked[c]));
         !BlockReader.Healthy(a) || BlockReader.Starves(a, asked[c])
  }

  /** `More`: the rounds allowed are over and nothing has been read yet. */
  datatype Outcome = Ok | Eof | Error | More

  class Reader {
    const file: Data
    const blocks: seq<Block>
    const net: BlockReader.Network
    /** Whether the n-th attempt to set up a block reader succeeds. */
    const setUp: nat -> bool
    var offset: nat
    var blockReader: BlockReader.Reader?
    var closed: bool
    /** How often setting up a block reader has been attempted. */
    var attempts: nat
    /** The block being read. */
    ghost var at: nat
    /** The positions at which the last reader that failed had connected to its datanodes. */
    ghost var failed: seq<nat>

    ghost predicate Valid()
      reads this, blockReader, if blockReader == null then {} else blockReader.Owned()
    {
      && Layout(file, blocks) && Conforms(net, blocks) && offset <= |file|
      && (blockReader != null ==>
            && blockReader.Valid() && at < |blocks| && blockReader.block == blocks[at].data
            && blockReader.locs == blocks[at].locs && blockReader.net == net && blockReader.blockNo == at
            && blockReader.readerNo < attempts && (blockReader.closed ==> closed)
            && offset == blocks[at].start + blockReader.offset
            && (Sound(net, setUp, blocks) ==> blockReader.Streaming()))
    }

    ghost function Owned(): set<object>
      reads this, blockReader
    {
      if blockReader == null then {} else {blockReader} + blockReader.Owned()
    }

    constructor (file: Data, blocks: seq<Block>, net: BlockReader.Network, setUp: nat -> bool)
      requires Layout(file, blocks) && Conforms(net, blocks)
      ensures Valid() && this.file == file && this.blocks == blocks && this.net == net && this.setUp == setUp
      ensures offset == 0 && !closed && Owned() == {} && blockReader == null && attempts == 0
    {
      this.file, this.blocks, this.net, this.setUp := file, blocks, net, setUp;
      offset, blockReader, closed, attempts, at, failed := 0, null, false, 0, 0, [];
    }

    /** `getNewBlockReader` finds the block that holds the position; it can only fail to set up the connection. */
    method NewBlockReader() returns (br: BlockReader.Reader?)
      requires Valid() && !closed && offset < |file| && blockReader == null
      modifies this`at, this`attempts
      ensures Valid() && attempts == old(attempts) + 1 && (br != null <==> setUp(old(attempts)))
      ensures at == BlockAt(blocks, offset, 0) < |blocks| && blocks[at].start <= offset < blocks[at].End()
      ensures br != null ==>
        && fresh(br) && br.Valid() && br.Owned() == {} && !br.closed && br.datanodes == null
        && br.block == blocks[at].data && br.locs == blocks[at].locs && br.net == net
        && br.blockNo == at && br.readerNo == old(attempts) && br.offset == offset - blocks[at].start
    {
      HoldsPosition(file, blocks, offset);
      var i := 0;
      while !(blocks[i].start <= offset < blocks[i].End())
        invariant i < |blocks| && BlockAt(blocks, offset, i) == BlockAt(blocks, offset, 0)
        decreases |blocks| - i
      {
        i := i + 1;
      }
      at := i;
      attempts := attempts + 1;
      br := null;
      if setUp(attempts - 1) {
        br := new BlockReader.Reader(blocks[i].data, blocks[i].locs, offset - blocks[i].start, net, i, attempts - 1);
      }
    }

    /** Every replica of the block at the position was connected to by one reader, in vain. */
    ghost predicate GaveUp()
      reads this
    {
      && at < |blocks| && blocks[at].start <= offset < blocks[at].End()
      && exists r: nat :: r < attempts && AllFutile(net, blocks, at, r, failed)
    }

    /** The number of the reader after the last that so many rounds can open. */
    function Last(rounds: nat): int
      reads this
    {
      attempts + rounds - if blockReader == null then 0 else 1
    }

    /** A read from the current block reader, which is dropped if it gives nothing. */
    method ReadBlock(br: BlockReader.Reader, len: nat) returns (data: Data, err: PacketStream.Error)
      requires Layout(file, blocks) && Conforms(net, blocks) && len > 0
      requires br.Valid() && at < |blocks| && br.block == blocks[at].data && br.locs == blocks[at].locs && br.net == net
      requires br.blockNo == at && br.readerNo < attempts && !br.closed && offset == blocks[at].start + br.offset
      requires Sound(net, setUp, blocks) ==> br.Streaming() || (br.datanodes == null && offset < blocks[at].End())
      modifies this`offset, this`blockReader, this`failed, br, br.Owned()
      ensures Valid() && (blockReader == br || blockReader == null) && fresh(Owned() - {br} - old(br.Owned()))
      ensures |data| <= len && offset == old(offset) + |data| <= |file| && data == file[old(offset)..offset]
      ensures data == [] || err.Failed? ==> blockReader == null
      ensures err.Failed? ==> data == [] && GaveUp()
      ensures Sound(net, setUp, blocks) && old(br.Streaming()) ==> !err.Failed?
      ensures data == [] && old(br.datanodes) == null && old(offset) < blocks[at].End() && blocks[at].locs != [] ==>
        br.Futile(0, old(br.offset))
      ensures Sound(net, setUp, blocks) && old(br.Streaming()) ==> (data == [] <==> old(br.Dried()))
      ensures Sound(net, setUp, blocks) && old(br.datanodes) == null && old(offset) < blocks[at].End() ==>
        var c := BlockReader.FirstReached(net, at, br.readerNo, |blocks[at].locs|, 0, old(br.offset));
        && (err.Failed? <==> c == |blocks[at].locs|)
        && (data == [] <==> c == |blocks[at].locs| || BlockReader.Starves(br.Answered(c, old(br.offset)), old(br.offset)))
    {
      hide Layout, BlockReader.Reader.Valid;
      ghost var p := br.offset;
      data, err := br.Read(len);
      offset := offset + |data|;
      BlockBytes(file, blocks, at, p, br.offset);
      blockReader := br;
      if err.Failed? || data == [] {
        blockReader := null;
      }
      if err.Failed? {
        failed := br.asked;
        assert AllFutile(net, blocks, at, br.readerNo, failed);
      }
    }

    /**
     * One round of the loop: open a reader if there is none, and read from it. When nothing fails, a round that opens
     * a reader gives bytes if and only if the reader is served, and fails if and only if it does not get to the position.
     */
    method Round(len: nat) returns (data: Data, err: PacketStream.Error)
      requires Valid() && !closed && offset < |file| && len > 0
      modifies this`offset, this`blockReader, this`at, this`attempts, this`failed, Owned()
      ensures Valid() && fresh(Owned() - old(Owned()))
      ensures |data| <= len && offset == old(offset) + |data| <= |file| && data == file[old(offset)..offset]
      ensures data == [] || err.Failed? ==> blockReader == null
      ensures attempts == old(attempts) + if old(blockReader) == null then 1 else 0
      ensures err.Failed? ==> data == [] && ((old(blockReader) == null && !setUp(old(attempts))) || GaveUp())
      ensures old(blockReader) == null && data == [] && !err.Failed? ==>
        Hindered(net, blocks, old(attempts), old(offset))
      ensures Sound(net, setUp, blocks) && old(blockReader) != null ==>
        !err.Failed? && (data == [] <==> old(blockReader.Dried()))
      ensures Sound(net, setUp, blocks) && old(blockReader) == null ==>
        && (data != [] <==> ServedAt(net, blocks, old(attempts), old(offset)))
        && (err.Failed? <==> !ReachedAt(net, blocks, old(attempts), old(offset)))
    {
      hide Layout, Conforms, BlockAt, BlockReader.Starves, BlockReader.Reached, BlockReader.FirstReached, BlockReader.Reader.Valid,
           BlockReader.Reader.Dried, AllFutile;
      data, err := [], Failed;
      var br := blockReader;
      if br == null {
        br := NewBlockReader();
        if br == null {
          return;
        }
        BlockReader.FirstReachedIs(net, at, br.readerNo, |blocks[at].locs|, 0, br.offset);
      }
      data, err := ReadBlock(br, len);
    }

    lemma InFile()
      requires Valid()
      ensures offset <= |file|
    {
    }

    /** The loop of `Read`, for so many rounds. */
    method Rounds(len: nat, rounds: nat) returns (data: Data, r: Outcome)
      requires Valid() && !closed && offset < |file| && len > 0
      modifies this`offset, this`blockReader, this`at, this`attempts, this`failed, Owned()
      ensures Valid() && fresh(Owned() - old(Owned()))
      ensures |data| <= len && offset == old(offset) + |data| <= |file| && data == file[old(offset)..offset] && !r.Eof?
      ensures if r.Ok? then data != [] else data == []
      ensures r.More? ==>
        && attempts + (if old(blockReader) == null then 0 else 1) >= old(attempts) + rounds
        && AllHindered(net, blocks, old(attempts), attempts, old(offset))
      ensures r.Error? ==> (exists k: nat :: old(attempts) <= k < attempts && !setUp(k)) || GaveUp()
      ensures rounds == 0 ==> r.More?
      ensures Sound(net, setUp, blocks) ==>
        && (rounds >= 1 ==>
              (r.More? <==> old(blockReader == null || blockReader.Dried())
                            && AllStarved(net, blocks, old(attempts), old(Last(rounds)), old(offset))))
        && (r.Error? ==> attempts > old(attempts) && !ReachedAt(net, blocks, attempts - 1, old(offset)))
        && (rounds >= 2 && ServedAt(net, blocks, old(attempts), old(offset)) ==> r.Ok?)
    {
      NoneHindered(net, blocks, attempts, offset);
      NoneStarved(net, blocks, attempts, offset);
      hide Valid, Sound, StarvedAt, ReachedAt, GaveUp, Hindered, AllHindered, AllStarved, BlockReader.Reader.Dried;
      for k := 0 to rounds
        invariant Valid() && offset == old(offset) < |file| && fresh(Owned() - old(Owned()))
        invariant if k == 0 then attempts == old(attempts) && blockReader == old(blockReader)
                  else blockReader == null && attempts == old(Last(k))
        invariant k == 0 ==> (blockReader != null ==> blockReader.Dried() == old(blockReader.Dried()))
        invariant AllHindered(net, blocks, old(attempts), attempts, old(offset))
        invariant Sound(net, setUp, blocks) ==>
          && AllStarved(net, blocks, old(attempts), attempts, old(offset))
          && (k > 0 ==> old(blockReader == null || blockReader.Dried()))
      {
        ghost var now, kept := attempts, blockReader != null;
        if Sound(net, setUp, blocks) {
          FirstIsStarved(net, blocks, old(attempts), now, old(offset));
          StarvedIsReached(net, blocks, now, old(offset));
        }
        var err;
        data, err := Round(len);
        if Sound(net, setUp, blocks) && !kept && !StarvedAt(net, blocks, now, old(offset)) {
          OneNotStarved(net, blocks, old(attempts), old(Last(rounds)), old(offset), now);
        }
        if err.Failed? {
          assert GaveUp() || !setUp(now);
          return data, Error;
        }
        if |data| > 0 {
          return data, Ok;
        }
        OneMoreHindered(net, blocks, old(attempts), now, old(offset), attempts);
        if Sound(net, setUp, blocks) {
          OneMoreStarved(net, blocks, old(attempts), now, old(offset), attempts);
        }
      }
      if Sound(net, setUp, blocks) {
        FirstIsStarved(net, blocks, old(attempts), attempts, old(offset));
      }
      data, r := [], More;
    }

    /**
     * `Read`: exactly the bytes at the position, which moves past them, whatever datanodes fail; the end of file
     * is reported at the size of the file and nowhere else, and an error only if the reader is closed, a block reader
     * could not be set up, or one connected to every replica of the block in vain. `rounds` bounds how often a block
     * reader that gives nothing is replaced; it is used up only if the first datanode of every reader opened refused,
     * may fail or starved it. When nothing fails, it is used up if and only if the open reader, if there is one, has
     * nothing more to give and every reader that can be opened in so many rounds is starved; an error means that the
     * last one opened does not get to the position; and two rounds are enough if the first one opened is served.
     */
    method Read(len: nat, rounds: nat) returns (data: Data, r: Outcome)
      requires Valid()
      modifies this`offset, this`blockReader, this`at, this`attempts, this`failed, Owned()
      ensures Valid() && fresh(Owned() - old(Owned()))
      ensures |data| <= len && offset == old(offset) + |data| && data == file[old(offset)..offset]
      ensures r.Eof? <==> !closed && old(offset) == |file|
      ensures closed ==> r.Error?
      ensures r.Ok? && len > 0 ==> data != []
      ensures r.More? || r.Error? ==> data == []
      ensures r.More? ==>
        && attempts + (if old(blockReader) == null then 0 else 1) >= old(attempts) + rounds
        && AllHindered(net, blocks, old(attempts), attempts, old(offset))
      ensures r.Error? ==>
        closed || (exists k: nat :: old(attempts) <= k < attempts && !setUp(k)) || GaveUp()
      ensures rounds == 0 && len > 0 && !closed && old(offset) < |file| ==> r.More?
      ensures Sound(net, setUp, blocks) && !closed && old(offset) < |file| ==>
        && (len > 0 && rounds >= 1 ==>
              (r.More? <==> old(blockReader == null || blockReader.Dried())
                            && AllStarved(net, blocks, old(attempts), old(Last(rounds)), old(offset))))
        && (r.Error? ==> attempts > old(attempts) && !ReachedAt(net, blocks, attempts - 1, old(offset)))
        && (rounds >= 2 && ServedAt(net, blocks, old(attempts), old(offset)) ==> r.Ok?)
    {
      hide Valid, Sound, StarvedAt, ReachedAt, ServedAt, GaveUp, AllHindered, AllStarved, BlockReader.Reader.Dried;
      InFile();
      if closed {
        return [], Error;
      }
      if offset >= |file| {
        return [], Outcome.Eof;
      }
      if len == 0 {
        return [], Ok;
      }
      data, r := Rounds(len, rounds);
    }

    /**
     * When nothing fails and the next reader to be opened is served, the loop needs no bound: it ends with bytes, with
     * no reader opened but that one, so after at most two rounds.
     */
    method ReadSound(len: nat) returns (data: Data)
      requires Valid() && Sound(net, setUp, blocks) && !closed && offset < |file| && len > 0
      requires ServedAt(net, blocks, attempts, offset)
      modifies this`offset, this`blockReader, this`at, this`attempts, this`failed, Owned()
      ensures Valid() && fresh(Owned() - old(Owned()))
      ensures 0 < |data| <= len && offset == old(offset) + |data| && data == file[old(offset)..offset]
      ensures attempts == old(attempts) + if old(blockReader == null || blockReader.Dried()) then 1 else 0
    {
      hide Valid, Sound, StarvedAt, ReachedAt, ServedAt, GaveUp, BlockReader.Reader.Dried;
      data := [];
      while |data| == 0
        invariant Valid() && |data| <= len && offset == old(offset) + |data| <= |file| && data == file[old(offset)..offset]
        invariant fresh(Owned() - old(Owned()))
        invariant data == [] ==> attempts == old(attempts) && offset < |file|
        invariant data == [] ==> blockReader == null || (blockReader == old(blockReader) && blockReader.Dried() == old(blockReader.Dried()))
        invariant data == [] && blockReader == null ==> old(blockReader == null || blockReader.Dried())
        invariant data != [] ==> attempts == old(attempts) + if old(blockReader == null || blockReader.Dried()) then 1 else 0
        decreases |data| == 0, blockReader != null
      {
        var err;
        data, err := Round(len);
      }
    }

    /**
     * Any sequence of reads gives a contiguous piece of the file, nothing skipped and nothing repeated; it stops
     * at the first end of file or error, which mean what they mean for one read.
     */
    method ReadMany(lens: seq<nat>, rounds: nat) returns (out: Data, r: Outcome)
      requires Valid()
      modifies this`offset, this`blockReader, this`at, this`attempts, this`failed, Owned()
      ensures Valid() && fresh(Owned() - old(Owned()))
      ensures offset == old(offset) + |out| && out == file[old(offset)..offset]
      ensures r.Eof? ==> offset == |file|
      ensures r.Error? ==> closed || (exists k: nat :: k < attempts && !setUp(k)) || GaveUp()
      ensures Sound(net, setUp, blocks) && !closed && rounds >= 2 && AlwaysServed(net, blocks, |file|) ==> r.Ok? || r.Eof?
    {
      hide Layout, BlockReader.Reader.Valid, Sound, StarvedAt, ServedAt, GaveUp, AllStarved, AllHindered, BlockReader.Reader.Dried;
      out, r := [], Ok;
      var i := 0;
      while i < |lens| && (r.Ok? || r.More?)
        invariant i <= |lens| && Valid() && fresh(Owned() - old(Owned()))
        invariant old(offset) <= offset <= |file| && offset == old(offset) + |out| && out == file[old(offset)..offset]
        invariant r.Eof? ==> offset == |file|
        invariant r.Error? ==> closed || (exists k: nat :: k < attempts && !setUp(k)) || GaveUp()
        invariant Sound(net, setUp, blocks) && !closed && rounds >= 2 && AlwaysServed(net, blocks, |file|) ==> r.Ok? || r.Eof?
      {
        var data;
        data, r := Read(lens[i], rounds);
        out := out + data;
        i := i + 1;
      }
    }

    /** `Seek`; a position outside the file is refused and changes nothing. */
    method Seek(to: int, whence: int) returns (ok: bool)
      requires Valid()
      modifies this`offset, this`blockReader
      ensures Valid() && fresh(Owned() - old(Owned()))
      ensures
        var off := if whence == 0 then to else if whence == 1 then old(offset) + to else |file| + to;
        && (ok <==> !closed && 0 <= whence <= 2 && 0 <= off <= |file|)
        && offset == (if ok then off else old(offset))
        && blockReader == (if offset == old(offset) then old(blockReader) else null)
    {
      if closed || whence < 0 || whence > 2 {
        return false;
      }
      var off := if whence == 0 then to else if whence == 1 then offset + to else |file| + to;
      if off < 0 || off > |file| {
        return false;
      }
      if offset != off {
        offset := off;
        blockReader := null;
      }
      ok := true;
    }

    /** `ReadFull` at the current position: reads until there is enough, the file ends or a read fails. */
    method ReadFull(len: nat, rounds: nat) returns (data: Data, r: Outcome)
      requires Valid() && !closed
      modifies this`offset, this`blockReader, this`at, this`attempts, this`failed, Owned()
      ensures Valid() && fresh(Owned() - old(Owned())) && offset == old(offset) + |data| && data == file[old(offset)..offset]
      ensures |data| <= len && (r.Ok? <==> |data| == len) && (r.Eof? ==> offset == |file|)
      ensures r.Error? ==> (exists k: nat :: k < attempts && !setUp(k)) || GaveUp()
      ensures Sound(net, setUp, blocks) && rounds >= 2 && AlwaysServed(net, blocks, |file|) ==> r.Ok? || r.Eof?
    {
      hide Layout, BlockReader.Reader.Valid, Sound, StarvedAt, ServedAt, GaveUp, AllStarved, AllHindered, BlockReader.Reader.Dried;
      data, r := [], Ok;
      while |data| < len && r.Ok?
        invariant Valid() && fresh(Owned() - old(Owned())) && |data| <= len
        invariant old(offset) <= offset <= |file| && offset == old(offset) + |data| && data == file[old(offset)..offset]
        invariant (r.Eof? ==> offset == |file|) && (!r.Ok? ==> |data| < len)
        invariant r.Error? ==> (exists k: nat :: k < attempts && !setUp(k)) || GaveUp()
        invariant Sound(net, setUp, blocks) && rounds >= 2 && AlwaysServed(net, blocks, |file|) ==> r.Ok? || r.Eof?
        decreases r.Ok?, len - |data|
      {
        var more;
        more, r := Read(len - |data|, rounds);
        data := data + more;
      }
    }

    /**
     * `ReadAt`: bytes of the file from this position on, as many as asked for unless there is an end of file, which is
     * then what is reported, or a failure. When nothing fails and readers are served, it is all there is, up to `len`.
     */
    method ReadAt(off: int, len: nat, rounds: nat) returns (data: Data, r: Outcome)
      requires Valid()
      modifies this`offset, this`blockReader, this`at, this`attempts, this`failed, Owned()
      ensures Valid() && fresh(Owned() - old(Owned()))
      ensures closed || off < 0 || off > |file| ==> r.Error? && data == [] && offset == old(offset)
      ensures !closed && 0 <= off <= |file| ==>
        && offset == off + |data| && data == file[off..offset] && |data| <= len
        && (r.Ok? <==> |data| == len) && (r.Eof? ==> offset == |file|)
        && (r.Error? ==> (exists k: nat :: k < attempts && !setUp(k)) || GaveUp())
        && (Sound(net, setUp, blocks) && rounds >= 2 && AlwaysServed(net, blocks, |file|) ==>
              data == file[off..Min(off + len, |file|)] && r == if off + len > |file| then Outcome.Eof else Ok)
    {
      hide Valid, Sound, AlwaysServed, GaveUp;
      data, r := [], Error;
      if closed || off < 0 {
        return;
      }
      var ok := Seek(off, 0);
      if ok {
        data, r := ReadFull(len, rounds);
        InFile();
      }
    }

    /** `Close`: from then on nothing can be read. */
    method Close()
      requires Valid()
      modifies this`closed, blockReader
      ensures Valid() && closed && offset == old(offset)
    {
      closed := true;
      if blockReader != null {
        blockReader.Close();
      }
    }
  }

  // ---- a read that never ends ----

  /** Every replica, whenever asked, sends the one block as a single, not empty, last packet. */
  function OnePacket(data: Data, chunkSize: nat): BlockReader.Network {
    (ask: BlockReader.Ask) => BlockReader.Sends(0, [Packet(data, true)], chunkSize, false)
  }

  lemma OnePacketSound(data: Data, chunkSize: nat, loc: string)
    requires chunkSize > 0
    ensures
      var blocks := [Block(0, data, [loc])];
      && Layout(data, blocks) && Conforms(OnePacket(data, chunkSize), blocks)
      && Sound(OnePacket(data, chunkSize), r => true, blocks)
  {
    var blocks := [Block(0, data, [loc])];
    assert data[0..|data|] == data;
    assert Follows(blocks, 0);
    NothingLeft();
    assert Concat([Packet(data, true)]) == data + Concat([]) == data;
    assert data[0..] == data;
  }

  /** A reader opened strictly inside it gets nothing. */
  lemma OnePacketStalls(data: Data, chunkSize: nat, loc: string, p: nat)
    requires 0 < p < |data| <= chunkSize && p <= COPY
    ensures forall k: nat :: StarvedAt(OnePacket(data, chunkSize), [Block(0, data, [loc])], k, p)
  {
    var packets := [Packet(data, true)];
    var v := View([], [], false, packets);
    var r := ReadStep(v, chunkSize, Min(COPY, p));
    assert r.data == data[..p];
    ReachesStep(v, chunkSize, p, r);
    DivMod(p, chunkSize, 0, p);
    DivMod(|data| - 1, chunkSize, 0, |data| - 1);
  }

  /**
   * A file of one block of more than one byte and at most one chunk, on datanodes that do not fail and send it as one
   * last packet: from a position strictly inside it no number of rounds gives a byte, although there are more.
   */
  method ReadStalls(data: Data, chunkSize: nat, loc: string, p: nat, len: nat, rounds: nat)
    returns (ok: bool, more: Data, r: Outcome)
    requires 0 < p < |data| <= chunkSize && p <= COPY && len > 0
    ensures ok && more == [] && r.More?
  {
    var blocks := [Block(0, data, [loc])];
    OnePacketSound(data, chunkSize, loc);
    OnePacketStalls(data, chunkSize, loc, p);
    hide Reader.Valid, Sound, StarvedAt, Layout, Conforms, OnePacket;
    var f := new Reader(data, blocks, OnePacket(data, chunkSize), r => true);
    ok := f.Seek(p, 0);
    more, r := f.Read(len, rounds);
  }
}
