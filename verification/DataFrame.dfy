/**
 * The frame of a DATA response built in place (`packet.go`): the data slides up
 * nine bytes to make room for type, id and length, and the packet slides up
 * four more for the frame length. A slice is a backing array and a length; its
 * capacity is the array's.
 */
module DataFrame {
  import opened Bytes
  import opened Options
  import opened Wire
  import P = Packets

  const DATA: byte := 103
  const MAX_TX_PACKET := 32768

  /** The packet, built afresh. */
  function Packet(id: nat, data: Data): Data
    requires id < TWO32 && |data| < TWO32
  {
    [DATA] + U32(id) + U32(|data|) + data
  }

  /** `append(s, make([]byte, k)...)`: in place when the capacity suffices, else in a new array, however large. */
  method AppendZeros(a: array<byte>, n: nat, k: nat) returns (r: array<byte>)
    requires n <= a.Length
    modifies a
    ensures n + k <= r.Length && r[..n] == old(a[..n])
    ensures if n + k <= a.Length then r == a else fresh(r) && a[..] == old(a[..])
  {
    if n + k <= a.Length {
      r := a;
      var i := n;
      while i < n + k
        invariant n <= i <= n + k && r[..n] == old(a[..n])
      {
        r[i] := 0;
        i := i + 1;
      }
    } else {
      var size: nat :| size >= n + k;
      r := new byte[size];
      var i := 0;
      while i < n
        invariant i <= n && r[..i] == a[..i]
        modifies r
      {
        r[i] := a[i];
        i := i + 1;
      }
    }
  }

  /** `copy(dst[at:], src[:n])`, which is right also when the two overlap. */
  method CopyUp(dst: array<byte>, at: nat, src: array<byte>, n: nat)
    requires n <= src.Length && at + n <= dst.Length
    modifies dst
    ensures dst[at..at + n] == old(src[..n]) && dst[at + n..] == old(dst[at + n..])
  {
    var i := n;
    while i > 0
      invariant 0 <= i <= n && dst[at + i..at + n] == old(src[i..n]) && dst[at + n..] == old(dst[at + n..])
      invariant src[..i] == old(src[..i])
    {
      i := i - 1;
      dst[at + i] := src[i];
    }
  }

  /** `binary.BigEndian.PutUint32`. */
  method PutU32(a: array<byte>, at: nat, v: nat)
    requires at + 4 <= a.Length && v < TWO32
    modifies a
    ensures a[..] == old(a[..at]) + U32(v) + old(a[at + 4..])
  {
    hide U32;
    var b := U32(v);
    a[at], a[at + 1], a[at + 2], a[at + 3] := b[0], b[1], b[2], b[3];
  }

  /** `sshFxpDataPacket.MarshalBinary` on the first `n` bytes of an array. */
  method MarshalData(id: nat, a: array<byte>, n: nat) returns (r: array<byte>)
    requires id < TWO32 && n <= a.Length && n < TWO32
    modifies a
    ensures n + 9 <= r.Length && r[..n + 9] == Packet(id, old(a[..n]))
    ensures if n + 9 <= a.Length then r == a else fresh(r) && a[..] == old(a[..])
  {
    hide U32;
    ghost var data := a[..n];
    r := AppendZeros(a, n, 9);
    assert a[..n] == data;
    CopyUp(r, 9, a, n);
    assert r[9..9 + n] == data;
    ghost var slid := r[..];
    r[0] := DATA;
    ghost var typed := r[..];
    PutU32(r, 1, id);
    ghost var named := r[..];
    PutU32(r, 5, n);
    Header(slid, typed, named, r[..], id, data);
  }

  /** The three parts of the header, written over what slid up. */
  lemma Header(slid: Data, typed: Data, named: Data, done: Data, id: nat, data: Data)
    requires id < TWO32 && |data| < TWO32 && |data| + 9 <= |slid| && slid[9..9 + |data|] == data
    requires typed == slid[0 := DATA] && named == typed[..1] + U32(id) + typed[5..]
    requires done == named[..5] + U32(|data|) + named[9..]
    ensures |data| + 9 <= |done| && done[..|data| + 9] == Packet(id, data)
  {
    hide U32;
    assert named[..5] == [DATA] + U32(id);
    assert named[9..] == slid[9..];
    assert done == [DATA] + U32(id) + U32(|data|) + slid[9..];
    assert done[..|data| + 9] == [DATA] + U32(id) + U32(|data|) + slid[9..][..|data|];
  }

  /** `sendPacket`: the first `n` bytes, with their length in front. */
  method FramePacket(b: array<byte>, n: nat) returns (r: array<byte>)
    requires n <= b.Length && n < TWO32
    modifies b
    ensures n + 4 <= r.Length && r[..n + 4] == P.Frame(old(b[..n]))
    ensures if n + 4 <= b.Length then r == b else fresh(r) && b[..] == old(b[..])
  {
    hide U32;
    ghost var packet := b[..n];
    r := AppendZeros(b, n, 4);
    assert b[..n] == packet;
    CopyUp(r, 4, b, n);
    ghost var tail := r[4..];
    assert tail[..n] == packet;
    PutU32(r, 0, n);
    assert r[..] == U32(n) + tail;
    assert r[..n + 4] == U32(n) + tail[..n];
  }

  /**
   * Both slides, one after the other: for every capacity the result is the frame built afresh. With an
   * allocator page and a read of at most `MAX_TX_PACKET` bytes nothing leaves the page.
   */
  method SendData(id: nat, a: array<byte>, n: nat) returns (r: array<byte>)
    requires id < TWO32 && n <= a.Length && n + 9 < TWO32
    modifies a
    ensures n + 13 <= r.Length && r[..n + 13] == P.Frame(Packet(id, old(a[..n])))
    ensures n + 13 <= a.Length ==> r == a
    ensures n <= MAX_TX_PACKET && a.Length == P.MAX_MSG_LENGTH ==> r == a
  {
    hide U32, P.Frame, Packet;
    var b := MarshalData(id, a, n);
    r := FramePacket(b, n + 9);
  }

  /** The client takes the frame off the stream and finds the data in it, as `ReadAt` and `WriteTo` do. */
  lemma DataReceived(id: nat, data: Data, rest: Data)
    requires id < TWO32 && |data| + 9 <= P.MAX_MSG_LENGTH
    ensures var r := P.RecvPacket(P.Frame(Packet(id, data)) + rest);
      && r.Ok? && r.value.code == DATA && r.value.rest == rest
      && DecodeAll([K32, K32], r.value.body) == Some(([F32(id), F32(|data|)], data))
  {
    hide U32, DecodeAll, Kinds, EncodeAll, P.RecvPacket, P.Frame;
    var fs := [F32(id), F32(|data|)];
    P.FrameReceived(Packet(id, data), rest);
    FieldsRoundTrip(fs, data);
    P.KindsSpelled(fs);
    TwoNumbers(id, |data|);
    assert Packet(id, data)[1..] == EncodeAll(fs) + data;
  }

  lemma TwoNumbers(a: nat, b: nat)
    requires a < TWO32 && b < TWO32
    ensures AllFit([F32(a), F32(b)]) && EncodeAll([F32(a), F32(b)]) == U32(a) + U32(b)
  {
    hide U32;
    assert [F32(a), F32(b)][1..] == [F32(b)] && [F32(b)][1..] == [];
    assert EncodeAll([F32(b)]) == U32(b) + EncodeAll([]);
  }
}
