/**
 * The primitive fields of SFTP packets (`packet.go`), as sections 3 and 5 of
 * draft-ietf-secsh-filexfer-02 lay them out: big-endian integers and strings
 * with a length in front. Strings are byte strings.
 */
module Wire {
  import opened Bytes
  import opened Options

  const TWO32 := 0x1_0000_0000
  const TWO64 := 0x1_0000_0000_0000_0000

  function U32(v: nat): (r: Data)
    requires v < TWO32
    ensures |r| == 4
  {
    [v / 0x100_0000, v / 0x1_0000 % 256, v / 256 % 256, v % 256]
  }

  function GetU32(b: Data): nat
    requires |b| >= 4
  {
    var b0: int, b1: int, b2: int, b3: int := b[0], b[1], b[2], b[3];
    b3 + b2 * 0x100 + b1 * 0x1_0000 + b0 * 0x100_0000
  }

  function U64(v: nat): (r: Data)
    requires v < TWO64
    ensures |r| == 8
  {
    U32(v / TWO32) + U32(v % TWO32)
  }

  lemma U32RoundTrip(v: nat, rest: Data)
    requires v < TWO32
    ensures GetU32(U32(v) + rest) == v && (U32(v) + rest)[4..] == rest
  {
    var a, b, c, d := v / 0x100_0000, v / 0x1_0000 % 256, v / 256 % 256, v % 256;
    Bytes32(v);
    var s := U32(v) + rest;
    assert s[0] == a && s[1] == b && s[2] == c && s[3] == d;
  }

  lemma Bytes32(v: nat)
    ensures v == v / 0x100_0000 * 0x100_0000 + v / 0x1_0000 % 256 * 0x1_0000 + v / 256 % 256 * 256 + v % 256
  {
    assert v / 0x1_0000 == v / 256 / 256 && v / 0x100_0000 == v / 256 / 256 / 256;
  }

  /** Fields of a packet, and what is known of a field before it is decoded. */
  datatype Field = F32(n: nat) | F64(n: nat) | FStr(s: Data)

  datatype Kind = K32 | K64 | KStr

  function KindOf(f: Field): Kind {
    match f
    case F32(_) => K32
    case F64(_) => K64
    case FStr(_) => KStr
  }

  predicate Fits(f: Field) {
    match f
    case F32(n) => n < TWO32
    case F64(n) => n < TWO64
    case FStr(s) => |s| < TWO32
  }

  function Encode(f: Field): Data
    requires Fits(f)
  {
    match f
    case F32(n) => U32(n)
    case F64(n) => U64(n)
    case FStr(s) => U32(|s|) + s
  }

  /** `unmarshalUint32Safe` and its companions: the field and what follows it, or nothing when the packet is too short. */
  function Decode(k: Kind, b: Data): Option<(Field, Data)> {
    match k
    case K32 => if |b| < 4 then None else Some((F32(GetU32(b)), b[4..]))
    case K64 => if |b| < 8 then None else Some((F64(GetU32(b) * TWO32 + GetU32(b[4..])), b[8..]))
    case KStr =>
      if |b| < 4 || GetU32(b) > |b| - 4 then None
      else Some((FStr(b[4..4 + GetU32(b)]), b[4 + GetU32(b)..]))
  }

  lemma FieldRoundTrip(f: Field, rest: Data)
    requires Fits(f)
    ensures Decode(KindOf(f), Encode(f) + rest) == Some((f, rest))
  {
    match f
    case F32(n) =>
      U32RoundTrip(n, rest);
    case F64(n) =>
      U32RoundTrip(n / TWO32, U32(n % TWO32) + rest);
      U32RoundTrip(n % TWO32, rest);
      assert U64(n) + rest == U32(n / TWO32) + (U32(n % TWO32) + rest);
      assert (U64(n) + rest)[8..] == rest;
    case FStr(s) =>
      U32RoundTrip(|s|, s + rest);
      assert U32(|s|) + s + rest == U32(|s|) + (s + rest);
      assert (U32(|s|) + (s + rest))[4..4 + |s|] == s;
      assert (U32(|s|) + (s + rest))[4 + |s|..] == rest;
  }

  ghost predicate AllFit(fs: seq<Field>) {
    forall i :: 0 <= i < |fs| ==> Fits(fs[i])
  }

  function Kinds(fs: seq<Field>): seq<Kind> {
    if fs == [] then [] else [KindOf(fs[0])] + Kinds(fs[1..])
  }

  function EncodeAll(fs: seq<Field>): Data
    requires AllFit(fs)
  {
    if fs == [] then [] else Encode(fs[0]) + EncodeAll(fs[1..])
  }

  function DecodeAll(ks: seq<Kind>, b: Data): (r: Option<(seq<Field>, Data)>)
    ensures r.Some? ==> |r.value.0| == |ks| && forall i :: 0 <= i < |ks| ==> KindOf(r.value.0[i]) == ks[i]
  {
    if ks == [] then Some(([], b))
    else
      var x := Decode(ks[0], b);
      if x.None? then None
      else
        var y := DecodeAll(ks[1..], x.value.1);
        if y.None? then None else Some(([x.value.0] + y.value.0, y.value.1))
  }

  /** Decoding reads back exactly the fields that were encoded, and leaves what follows. */
  lemma {:induction false} FieldsRoundTrip(fs: seq<Field>, rest: Data)
    requires AllFit(fs)
    ensures DecodeAll(Kinds(fs), EncodeAll(fs) + rest) == Some((fs, rest))
  {
    if fs == [] {
      assert EncodeAll(fs) + rest == rest;
    } else {
      var more := EncodeAll(fs[1..]) + rest;
      assert EncodeAll(fs) + rest == Encode(fs[0]) + more;
      FieldRoundTrip(fs[0], more);
      FieldsRoundTrip(fs[1..], rest);
      assert Kinds(fs)[1..] == Kinds(fs[1..]);
      assert [fs[0]] + fs[1..] == fs;
    }
  }

  /** Whatever is decoded is there: encoding it again gives the bytes that were read. */
  lemma {:induction false} DecodedFieldsFit(ks: seq<Kind>, b: Data)
    requires DecodeAll(ks, b).Some?
    ensures var r := DecodeAll(ks, b).value; Kinds(r.0) == ks && AllFit(r.0) && b == EncodeAll(r.0) + r.1
    decreases ks
  {
    hide Decode, Encode, Fits, KindOf;
    if ks != [] {
      var x := Decode(ks[0], b).value;
      DecodedFieldFits(ks[0], b);
      DecodedFieldsFit(ks[1..], x.1);
      var fs := DecodeAll(ks, b).value.0;
      assert fs[1..] == DecodeAll(ks[1..], x.1).value.0;
      assert [ks[0]] + ks[1..] == ks;
    }
  }

  lemma DecodedFieldFits(k: Kind, b: Data)
    requires Decode(k, b).Some?
    ensures var r := Decode(k, b).value; KindOf(r.0) == k && Fits(r.0) && b == Encode(r.0) + r.1 && |r.1| <= |b|
  {
    hide U32, GetU32;
    GetU32RoundTrip(b);
    if k.K64? {
      GetU32RoundTrip(b[4..]);
      assert b == b[..4] + b[4..][..4] + b[8..];
    } else if k.K32? {
      assert b == b[..4] + b[4..];
    } else {
      assert b == b[..4] + b[4..4 + GetU32(b)] + b[4 + GetU32(b)..];
    }
  }

  lemma GetU32RoundTrip(b: Data)
    requires |b| >= 4
    ensures GetU32(b) < TWO32 && U32(GetU32(b)) == b[..4]
  {
    var b0: int, b1: int, b2: int, b3: int := b[0], b[1], b[2], b[3];
    var v := GetU32(b);
    assert v == (((b0 * 256) + b1) * 256 + b2) * 256 + b3;
    LastDigit(((b0 * 256) + b1) * 256 + b2, b3);
    LastDigit((b0 * 256) + b1, b2);
    LastDigit(b0, b1);
    assert v / 0x1_0000 == v / 256 / 256;
    assert v / 0x100_0000 == v / 256 / 256 / 256;
  }

  lemma LastDigit(q: nat, r: nat)
    requires r < 256
    ensures (q * 256 + r) / 256 == q && (q * 256 + r) % 256 == r
  {
  }
}
