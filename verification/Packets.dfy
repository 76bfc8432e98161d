/**
 * Request packets and their stream (`packet.go`, `packet-typing.go`): every
 * request's encoding and decoding, the length frame around it, and the loop that
 * takes a byte stream apart again.
 */
module Packets {
  import opened Bytes
  import opened Options
  import opened Wire

  const MAX_MSG_LENGTH := 256 * 1024

  const INIT: byte := 1
  const OPEN: byte := 3
  const CLOSE: byte := 4
  const READ: byte := 5
  const WRITE: byte := 6
  const LSTAT: byte := 7
  const FSTAT: byte := 8
  const SETSTAT: byte := 9
  const FSETSTAT: byte := 10
  const OPENDIR: byte := 11
  const READDIR: byte := 12
  const REMOVE: byte := 13
  const MKDIR: byte := 14
  const RMDIR: byte := 15
  const REALPATH: byte := 16
  const STAT: byte := 17
  const RENAME: byte := 18
  const READLINK: byte := 19
  const SYMLINK: byte := 20
  const EXTENDED: byte := 200

  function Ascii(s: string): (r: Data)
    requires forall i :: 0 <= i < |s| ==> s[i] < 128 as char
    ensures |r| == |s| && forall i :: 0 <= i < |s| ==> r[i] == s[i] as int
  {
    if s == [] then [] else [s[0] as int] + Ascii(s[1..])
  }

  /** Names of extended requests, "@openssh.com" being common to them. */
  function ExtendedName(s: string): (r: Data)
    requires forall i :: 0 <= i < |s| ==> s[i] < 128 as char
    ensures |r| == |s| + 12
  {
    Ascii(s + "@openssh.com")
  }

  const STATVFS_NAME := ExtendedName("statvfs")
  const POSIX_RENAME_NAME := ExtendedName("posix-rename")
  const HARDLINK_NAME := ExtendedName("hardlink")
  const FSYNC_NAME := ExtendedName("fsync")

  datatype Extension = Extension(name: Data, data: Data)

  datatype Request =
    | Init(version: nat, extensions: seq<Extension>)
    | IdString(code: byte, id: nat, str: Data)   // LSTAT, STAT, FSTAT, CLOSE, OPENDIR, READDIR, REMOVE, RMDIR, REALPATH, READLINK
    | Open(id: nat, path: Data, pflags: nat, flags: nat)
    | Read(id: nat, handle: Data, offset: nat, len: nat)
    | Write(id: nat, handle: Data, offset: nat, length: nat, data: Data)
    | Setstat(id: nat, path: Data, flags: nat, attrs: Data)
    | Fsetstat(id: nat, handle: Data, flags: nat, attrs: Data)
    | Mkdir(id: nat, path: Data, flags: nat)
    | Rename(id: nat, oldpath: Data, newpath: Data)
    | Symlink(id: nat, target: Data, link: Data)
    | StatVfs(id: nat, path: Data)
    | PosixRename(id: nat, oldpath: Data, newpath: Data)
    | Hardlink(id: nat, oldpath: Data, newpath: Data)
    | Fsync(id: nat, handle: Data)

  predicate IsIdString(code: byte) {
    code in {LSTAT, STAT, FSTAT, CLOSE, OPENDIR, READDIR, REMOVE, RMDIR, REALPATH, READLINK}
  }

  function Code(p: Request): byte {
    match p
    case Init(_, _) => INIT
    case IdString(code, _, _) => code
    case Open(_, _, _, _) => OPEN
    case Read(_, _, _, _) => READ
    case Write(_, _, _, _, _) => WRITE
    case Setstat(_, _, _, _) => SETSTAT
    case Fsetstat(_, _, _, _) => FSETSTAT
    case Mkdir(_, _, _) => MKDIR
    case Rename(_, _, _) => RENAME
    case Symlink(_, _, _) => SYMLINK
    case StatVfs(_, _) => EXTENDED
    case PosixRename(_, _, _) => EXTENDED
    case Hardlink(_, _, _) => EXTENDED
    case Fsync(_, _) => EXTENDED
  }

  /** The fields of a packet in the order in which it is marshalled. */
  function Fields(p: Request): seq<Field> {
    match p
    case Init(version, _) => [F32(version)]
    case IdString(_, id, s) => [F32(id), FStr(s)]
    case Open(id, path, pflags, flags) => [F32(id), FStr(path), F32(pflags), F32(flags)]
    case Read(id, handle, offset, len) => [F32(id), FStr(handle), F64(offset), F32(len)]
    case Write(id, handle, offset, length, _) => [F32(id), FStr(handle), F64(offset), F32(length)]
    case Setstat(id, path, flags, _) => [F32(id), FStr(path), F32(flags)]
    case Fsetstat(id, handle, flags, _) => [F32(id), FStr(handle), F32(flags)]
    case Mkdir(id, path, flags) => [F32(id), FStr(path), F32(flags)]
    case Rename(id, from, to) => [F32(id), FStr(from), FStr(to)]
    case Symlink(id, target, link) => [F32(id), FStr(target), FStr(link)]
    case StatVfs(id, path) => [F32(id), FStr(STATVFS_NAME), FStr(path)]
    case PosixRename(id, from, to) => [F32(id), FStr(POSIX_RENAME_NAME), FStr(from), FStr(to)]
    case Hardlink(id, from, to) => [F32(id), FStr(HARDLINK_NAME), FStr(from), FStr(to)]
    case Fsync(id, handle) => [F32(id), FStr(FSYNC_NAME), FStr(handle)]
  }

  function ExtensionFields(e: Extension): seq<Field> {
    [FStr(e.name), FStr(e.data)]
  }

  ghost predicate ExtensionsFit(es: seq<Extension>) {
    forall i :: 0 <= i < |es| ==> AllFit(ExtensionFields(es[i]))
  }

  function EncodeExtensions(es: seq<Extension>): Data
    requires ExtensionsFit(es)
  {
    if es == [] then [] else EncodeAll(ExtensionFields(es[0])) + EncodeExtensions(es[1..])
  }

  /** What follows the fields. */
  function Trailer(p: Request): Data
    requires p.Init? ==> ExtensionsFit(p.extensions)
  {
    match p
    case Init(_, extensions) => EncodeExtensions(extensions)
    case Write(_, _, _, _, data) => data
    case Setstat(_, _, _, attrs) => attrs
    case Fsetstat(_, _, _, attrs) => attrs
    case _ => []
  }

  /** Field values and string lengths fit their width on the wire. */
  ghost predicate Valid(p: Request) {
    && AllFit(Fields(p)) && (p.Init? ==> ExtensionsFit(p.extensions)) && (p.IdString? ==> IsIdString(p.code))
  }

  /** `MarshalBinary` of every request. */
  function Marshal(p: Request): (b: Data)
    requires Valid(p)
    ensures |b| > 0
  {
    [Code(p)] + EncodeAll(Fields(p)) + Trailer(p)
  }

  datatype Error = Eof | UnexpectedEof | LongPacket | ShortPacket | Unhandled

  /** A decoded packet; an extended request with a name not known is passed on with its id. */
  datatype Incoming = Known(p: Request) | UnknownExtended(id: nat, name: Data)

  datatype Result<T> = Ok(value: T) | Err(error: Error)

  /** The extension pairs up to the end of an INIT packet. */
  function GetExtensions(b: Data): Result<seq<Extension>>
    decreases |b|
  {
    if b == [] then Ok([])
    else
      var x := DecodeAll([KStr, KStr], b);
      if x.None? then Err(ShortPacket)
      else
        PairShortens(b);
        var y := GetExtensions(x.value.1);
        if y.Err? then y else Ok([Extension(x.value.0[0].s, x.value.0[1].s)] + y.value)
  }

  lemma PairShortens(b: Data)
    requires DecodeAll([KStr, KStr], b).Some?
    ensures |DecodeAll([KStr, KStr], b).value.1| < |b|
  {
    var x := Decode(KStr, b).value;
    assert [KStr, KStr][1..] == [KStr];
    assert DecodeAll([KStr], x.1).Some?;
    assert [KStr][1..] == [];
    assert DecodeAll([KStr], x.1).value.1 == Decode(KStr, x.1).value.1;
  }

  /** The fields of each packet type, as its `UnmarshalBinary` reads them. */
  function Schema(code: byte): Option<seq<Kind>> {
    if code == INIT then Some([K32])
    else if IsIdString(code) then Some([K32, KStr])
    else if code == OPEN then Some([K32, KStr, K32, K32])
    else if code == READ || code == WRITE then Some([K32, KStr, K64, K32])
    else if code in {SETSTAT, FSETSTAT, MKDIR} then Some([K32, KStr, K32])
    else if code == RENAME || code == SYMLINK then Some([K32, KStr, KStr])
    else if code == EXTENDED then Some([K32, KStr])
    else None
  }

  predicate HasKinds(fs: seq<Field>, ks: seq<Kind>) {
    |fs| == |ks| && forall i :: 0 <= i < |fs| ==> KindOf(fs[i]) == ks[i]
  }

  /** A plain packet from its fields and what follows them. */
  function Build(code: byte, fs: seq<Field>, rest: Data): Result<Incoming>
    requires code != EXTENDED && Schema(code).Some? && HasKinds(fs, Schema(code).value)
  {
    if code == INIT then
      var es := GetExtensions(rest);
      if es.Err? then Err(es.error) else Ok(Known(Init(fs[0].n, es.value)))
    else if IsIdString(code) then Ok(Known(IdString(code, fs[0].n, fs[1].s)))
    else if code == OPEN then Ok(Known(Open(fs[0].n, fs[1].s, fs[2].n, fs[3].n)))
    else if code == READ then Ok(Known(Read(fs[0].n, fs[1].s, fs[2].n, fs[3].n)))
    else if code == WRITE then
      if |rest| < fs[3].n then Err(ShortPacket)
      else Ok(Known(Write(fs[0].n, fs[1].s, fs[2].n, fs[3].n, rest[..fs[3].n])))
    else if code == SETSTAT then Ok(Known(Setstat(fs[0].n, fs[1].s, fs[2].n, rest)))
    else if code == FSETSTAT then Ok(Known(Fsetstat(fs[0].n, fs[1].s, fs[2].n, rest)))
    else if code == MKDIR then Ok(Known(Mkdir(fs[0].n, fs[1].s, fs[2].n)))
    else if code == RENAME then Ok(Known(Rename(fs[0].n, fs[1].s, fs[2].s)))
    else Ok(Known(Symlink(fs[0].n, fs[1].s, fs[2].s)))
  }

  /** `makePacket`. */
  function MakePacket(code: byte, b: Data): Result<Incoming> {
    var schema := Schema(code);
    if schema.None? then Err(Unhandled)
    else
      var x := DecodeAll(schema.value, b);
      if x.None? then Err(ShortPacket)
      else if code == EXTENDED then MakeExtended(x.value.0[0].n, x.value.0[1].s, b)
      else Build(code, x.value.0, x.value.1)
  }

  /** An extended packet is read again from the start, once its name is known. */
  function MakeExtended(id: nat, name: Data, b: Data): Result<Incoming> {
    if name == STATVFS_NAME then
      var x := DecodeAll([K32, KStr, KStr], b);
      if x.None? then Err(ShortPacket) else Ok(Known(StatVfs(x.value.0[0].n, x.value.0[2].s)))
    else if name == POSIX_RENAME_NAME || name == HARDLINK_NAME then
      var x := DecodeAll([K32, KStr, KStr, KStr], b);
      if x.None? then Err(ShortPacket)
      else if name == HARDLINK_NAME then Ok(Known(Hardlink(x.value.0[0].n, x.value.0[2].s, x.value.0[3].s)))
      else Ok(Known(PosixRename(x.value.0[0].n, x.value.0[2].s, x.value.0[3].s)))
    else Ok(UnknownExtended(id, name))
  }

  /** What the server makes of a request: everything comes back, but it does not know `fsync`. */
  function Expected(p: Request): Incoming {
    if p.Fsync? then UnknownExtended(p.id, FSYNC_NAME) else Known(p)
  }

  lemma PairNotEmpty(e: Extension)
    requires AllFit(ExtensionFields(e))
    ensures EncodeAll(ExtensionFields(e)) != []
  {
    hide U32;
    assert Encode(ExtensionFields(e)[0]) != [];
  }

  lemma {:induction false} ExtensionsRoundTrip(es: seq<Extension>)
    requires ExtensionsFit(es)
    ensures GetExtensions(EncodeExtensions(es)) == Ok(es)
  {
    if es != [] {
      hide EncodeAll, DecodeAll, Kinds;
      var fs, rest := ExtensionFields(es[0]), EncodeExtensions(es[1..]);
      KindsSpelled(fs);
      FieldsRoundTrip(fs, rest);
      PairNotEmpty(es[0]);
      ExtensionsRoundTrip(es[1..]);
      assert EncodeExtensions(es) == EncodeAll(fs) + rest;
      assert [es[0]] + es[1..] == es;
    }
  }

  /** The kinds of a packet's fields are those its type is read with; extended packets after their name. */
  lemma FieldKinds(p: Request)
    requires Valid(p) && Code(p) != EXTENDED
    ensures Schema(Code(p)) == Some(Kinds(Fields(p)))
  {
    KindsSpelled(Fields(p));
  }

  lemma KindsCons(f: Field, fs: seq<Field>)
    ensures Kinds([f] + fs) == [KindOf(f)] + Kinds(fs)
  {
    assert ([f] + fs)[1..] == fs;
  }

  /** The kinds of a list of up to four fields, spelled out. */
  lemma {:induction false} KindsSpelled(fs: seq<Field>)
    ensures |fs| == 1 ==> Kinds(fs) == [KindOf(fs[0])]
    ensures |fs| == 2 ==> Kinds(fs) == [KindOf(fs[0]), KindOf(fs[1])]
    ensures |fs| == 3 ==> Kinds(fs) == [KindOf(fs[0]), KindOf(fs[1]), KindOf(fs[2])]
    ensures |fs| == 4 ==> Kinds(fs) == [KindOf(fs[0]), KindOf(fs[1]), KindOf(fs[2]), KindOf(fs[3])]
  {
    assert Kinds([]) == [];
    hide Kinds, KindOf;
    if |fs| == 1 {
      KindsCons(fs[0], []);
      assert fs == [fs[0]] + [];
    } else if 2 <= |fs| <= 4 {
      KindsSpelled(fs[1..]);
      KindsCons(fs[0], fs[1..]);
      assert fs == [fs[0]] + fs[1..];
    }
  }

  lemma BuildBack(p: Request)
    requires Valid(p) && Code(p) != EXTENDED && (p.Write? ==> p.length == |p.data|)
    requires Schema(Code(p)).Some? && HasKinds(Fields(p), Schema(Code(p)).value)
    ensures Build(Code(p), Fields(p), Trailer(p)) == Ok(Known(p))
  {
    if p.Init? {
      ExtensionsRoundTrip(p.extensions);
    } else if p.Write? {
      assert p.data[..p.length] == p.data;
    }
  }

  lemma {:induction false} KindsAre(fs: seq<Field>)
    ensures HasKinds(fs, Kinds(fs))
  {
    if fs != [] {
      KindsAre(fs[1..]);
      assert forall i :: 0 < i < |fs| ==> fs[i] == fs[1..][i - 1];
    }
  }

  /** Decoding the encoding of a plain request gives it back. */
  lemma PlainRoundTrip(p: Request)
    requires Valid(p) && Code(p) != EXTENDED && (p.Write? ==> p.length == |p.data|)
    ensures MakePacket(Code(p), Marshal(p)[1..]) == Ok(Known(p))
  {
    hide Build, Schema, EncodeAll, DecodeAll, Kinds, HasKinds, Fields, Trailer, Code;
    assert Marshal(p)[1..] == EncodeAll(Fields(p)) + Trailer(p);
    FieldKinds(p);
    KindsAre(Fields(p));
    FieldsRoundTrip(Fields(p), Trailer(p));
    BuildBack(p);
  }

  /** The id and the name of an extended request are read first. */
  lemma NameFirst(p: Request)
    requires Valid(p) && Code(p) == EXTENDED
    ensures DecodeAll([K32, KStr], Marshal(p)[1..]) == Some((Fields(p)[..2], EncodeAll(Fields(p)[2..])))
  {
    hide EncodeAll, DecodeAll, Kinds, ExtendedName;
    var fs := Fields(p);
    EncodeSplit(fs, 2);
    FieldsRoundTrip(fs[..2], EncodeAll(fs[2..]));
    KindsSpelled(fs[..2]);
    assert Marshal(p)[1..] == EncodeAll(fs[..2]) + EncodeAll(fs[2..]);
  }

  lemma ExtendedRoundTrip(p: Request)
    requires Valid(p) && Code(p) == EXTENDED
    ensures MakePacket(Code(p), Marshal(p)[1..]) == Ok(Expected(p))
  {
    hide EncodeAll, DecodeAll, Kinds, ExtendedName;
    var fs := Fields(p);
    NameFirst(p);
    KindsSpelled(fs);
    FieldsRoundTrip(fs, []);
    assert Marshal(p)[1..] == EncodeAll(fs) + [];
  }

  lemma {:induction false} EncodeSplit(fs: seq<Field>, k: nat)
    requires AllFit(fs) && k <= |fs|
    ensures EncodeAll(fs) == EncodeAll(fs[..k]) + EncodeAll(fs[k..])
    decreases k
  {
    if k == 0 {
      assert fs[0..] == fs;
    } else {
      EncodeSplit(fs[1..], k - 1);
      assert fs[1..][..k - 1] == fs[..k][1..] && fs[1..][k - 1..] == fs[k..];
    }
  }

  lemma BuildOther(p: Request)
    requires p.Write? && p.length != |p.data| && HasKinds(Fields(p), Schema(WRITE).value)
    ensures Build(WRITE, Fields(p), Trailer(p)) != Ok(Known(p))
  {
  }

  /** A WRITE comes back as it was exactly when its length field is the length of its data. */
  lemma WriteRoundTrips(p: Request)
    requires Valid(p) && p.Write?
    ensures MakePacket(WRITE, Marshal(p)[1..]) == Ok(Known(p)) <==> p.length == |p.data|
  {
    hide Build, Schema, EncodeAll, DecodeAll, Kinds, HasKinds, Fields, Trailer;
    if p.length == |p.data| {
      PlainRoundTrip(p);
    } else {
      assert Marshal(p)[1..] == EncodeAll(Fields(p)) + Trailer(p);
      FieldKinds(p);
      KindsAre(Fields(p));
      FieldsRoundTrip(Fields(p), Trailer(p));
      BuildOther(p);
    }
  }

  // ---- the stream ----

  /** `sendPacket`: the length of the packet and the packet. */
  function Frame(b: Data): Data
    requires |b| < TWO32
  {
    U32(|b|) + b
  }

  datatype Received = Received(code: byte, body: Data, rest: Data)

  /** `recvPacket` on a stream of bytes that ends. */
  function RecvPacket(s: Data): (r: Result<Received>)
    ensures r.Ok? ==> |r.value.rest| < |s|
  {
    if s == [] then Err(Eof)
    else if |s| < 4 then Err(UnexpectedEof)
    else
      var length := GetU32(s);
      if length > MAX_MSG_LENGTH then Err(LongPacket)
      else if length == 0 then Err(ShortPacket)
      else if |s| == 4 then Err(Eof)
      else if |s| - 4 < length then Err(UnexpectedEof)
      else Ok(Received(s[4], s[5..4 + length], s[4 + length..]))
  }

  lemma FrameReceived(b: Data, rest: Data)
    requires 1 <= |b| <= MAX_MSG_LENGTH
    ensures RecvPacket(Frame(b) + rest) == Ok(Received(b[0], b[1..], rest))
  {
    hide U32, GetU32;
    var s := U32(|b|) + (b + rest);
    assert Frame(b) + rest == s;
    U32RoundTrip(|b|, b + rest);
    assert s[4] == b[0] && s[5..4 + |b|] == b[1..] && s[4 + |b|..] == rest;
  }

  /** Only frames of a legal length are received, and each is received whole. */
  lemma ReceivedIsFrame(s: Data)
    requires RecvPacket(s).Ok?
    ensures var r := RecvPacket(s).value; |r.body| < MAX_MSG_LENGTH && s == Frame([r.code] + r.body) + r.rest
  {
    var r := RecvPacket(s).value;
    GetU32RoundTrip(s);
    hide U32, GetU32;
    assert |[r.code] + r.body| == GetU32(s);
    assert s == s[..4] + ([s[4]] + s[5..4 + GetU32(s)]) + s[4 + GetU32(s)..];
  }

  /** What the server makes of a whole stream: the packets up to the first error, and that error. */
  function Split(s: Data): (seq<Incoming>, Error)
    decreases |s|
  {
    var r := RecvPacket(s);
    if r.Err? then ([], r.error)
    else
      var m := MakePacket(r.value.code, r.value.body);
      if m.Err? then ([], m.error)
      else
        var more := Split(r.value.rest);
        ([m.value] + more.0, more.1)
  }

  /** `serveLoop`: the packets handed on, and the error that ended the loop. */
  method ServeLoop(stream: Data) returns (pkts: seq<Incoming>, err: Error)
    ensures pkts == Split(stream).0 && err == Split(stream).1
  {
    pkts := [];
    var s := stream;
    while true
      invariant Split(stream).0 == pkts + Split(s).0 && Split(stream).1 == Split(s).1
      decreases |s|
    {
      hide MakePacket, RecvPacket;
      var r := RecvPacket(s);
      if r.Err? {
        assert Split(s).0 == [];
        return pkts, r.error;
      }
      var m := MakePacket(r.value.code, r.value.body);
      if m.Err? {
        return pkts, m.error;
      }
      pkts := pkts + [m.value];
      s := r.value.rest;
    }
  }

  /** A request that a client may send: its encoding has a legal length, and a WRITE says how much it carries. */
  ghost predicate Sendable(p: Request) {
    Valid(p) && |Marshal(p)| <= MAX_MSG_LENGTH && (p.Write? ==> p.length == |p.data|)
  }

  function SendAll(ps: seq<Request>): Data
    requires forall i :: 0 <= i < |ps| ==> Sendable(ps[i])
  {
    if ps == [] then [] else
      assert Sendable(ps[0]);
      Frame(Marshal(ps[0])) + SendAll(ps[1..])
  }

  function AllExpected(ps: seq<Request>): seq<Incoming> {
    if ps == [] then [] else [Expected(ps[0])] + AllExpected(ps[1..])
  }

  lemma RoundTrip(p: Request)
    requires Sendable(p)
    ensures MakePacket(Marshal(p)[0], Marshal(p)[1..]) == Ok(Expected(p))
  {
    if Code(p) == EXTENDED {
      ExtendedRoundTrip(p);
    } else {
      PlainRoundTrip(p);
    }
  }

  /** The stream of any sequence of requests splits into exactly those requests, in order, and then ends. */
  lemma {:induction false} StreamRoundTrip(ps: seq<Request>)
    requires forall i :: 0 <= i < |ps| ==> Sendable(ps[i])
    ensures Split(SendAll(ps)) == (AllExpected(ps), Eof)
  {
    hide MakePacket, Marshal, Expected;
    if ps == [] {
      assert RecvPacket([]) == Err(Eof);
    } else {
      var rest := SendAll(ps[1..]);
      StreamRoundTrip(ps[1..]);
      RoundTrip(ps[0]);
      FrameReceived(Marshal(ps[0]), rest);
      hide RecvPacket, Frame;
      assert SendAll(ps) == Frame(Marshal(ps[0])) + rest;
    }
  }
}
