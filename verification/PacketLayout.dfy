/**
 * The bytes of every request packet, written out, and which bytes the server
 * takes for which packet: exactly those that begin with the packet's own.
 */
module PacketLayout {
  import opened Bytes
  import opened Options
  import opened Wire
  import opened Packets
  import R = ReadDir

  // ---- the bytes ----

  function Str(s: Data): Data
    requires |s| < TWO32
  {
    U32(|s|) + s
  }

  lemma FitsEach(fs: seq<Field>)
    requires AllFit(fs)
    ensures (|fs| > 0 ==> Fits(fs[0])) && (|fs| > 1 ==> Fits(fs[1])) && (|fs| > 2 ==> Fits(fs[2])) && (|fs| > 3 ==> Fits(fs[3]))
  {
  }

  function Pairs(es: seq<Extension>): Data
    requires ExtensionsFit(es)
  {
    if es == [] then []
    else
      FitsEach(ExtensionFields(es[0]));
      Str(es[0].name) + Str(es[0].data) + Pairs(es[1..])
  }

  /** The packets of sections 4 and 6 of draft-ietf-secsh-filexfer-02, and the "@openssh.com" extended requests. */
  function Layout(p: Request): Data
    requires Valid(p)
  {
    FitsEach(Fields(p));
    match p
    case Init(version, es) => [1] + U32(version) + Pairs(es)
    case IdString(code, id, s) => [code] + (U32(id) + Str(s))
    case Open(id, path, pflags, flags) => [3] + (U32(id) + Str(path) + U32(pflags) + U32(flags))
    case Read(id, handle, offset, len) => [5] + (U32(id) + Str(handle) + U64(offset) + U32(len))
    case Write(id, handle, offset, length, data) => [6] + (U32(id) + Str(handle) + U64(offset) + U32(length)) + data
    case Setstat(id, path, flags, attrs) => [9] + (U32(id) + Str(path) + U32(flags)) + attrs
    case Fsetstat(id, handle, flags, attrs) => [10] + (U32(id) + Str(handle) + U32(flags)) + attrs
    case Mkdir(id, path, flags) => [14] + (U32(id) + Str(path) + U32(flags))
    case Rename(id, from, to) => [18] + (U32(id) + Str(from) + Str(to))
    case Symlink(id, target, link) => [20] + (U32(id) + Str(target) + Str(link))
    case StatVfs(id, path) => [200] + (U32(id) + Str(STATVFS_NAME) + Str(path))
    case PosixRename(id, from, to) => [200] + (U32(id) + Str(POSIX_RENAME_NAME) + Str(from) + Str(to))
    case Hardlink(id, from, to) => [200] + (U32(id) + Str(HARDLINK_NAME) + Str(from) + Str(to))
    case Fsync(id, handle) => [200] + (U32(id) + Str(FSYNC_NAME) + Str(handle))
  }

  /** The type codes of the packets of an id and one string. */
  lemma IdStringCodes(code: byte)
    ensures IsIdString(code) <==> code in {4, 7, 8, 11, 12, 13, 15, 16, 17, 19}
    ensures LSTAT == 7 && STAT == 17 && FSTAT == 8 && CLOSE == 4 && OPENDIR == 11 && READDIR == 12
    ensures REMOVE == 13 && RMDIR == 15 && REALPATH == 16 && READLINK == 19
  {
  }

  lemma EncodeLast(fs: seq<Field>, n: nat)
    requires AllFit(fs) && |fs| == n + 1
    ensures AllFit(fs[..n]) && EncodeAll(fs) == EncodeAll(fs[..n]) + Encode(fs[n])
  {
    EncodeSplit(fs, n);
    assert fs[n..] == [fs[n]];
    assert [fs[n]][1..] == [];
    assert EncodeAll([fs[n]]) == Encode(fs[n]) + EncodeAll([]);
  }

  /** The encoding of a list of up to four fields, spelled out. */
  lemma {:induction false} EncodeSpelled(fs: seq<Field>)
    requires AllFit(fs)
    ensures |fs| == 1 ==> EncodeAll(fs) == Encode(fs[0])
    ensures |fs| == 2 ==> EncodeAll(fs) == Encode(fs[0]) + Encode(fs[1])
    ensures |fs| == 3 ==> EncodeAll(fs) == Encode(fs[0]) + Encode(fs[1]) + Encode(fs[2])
    ensures |fs| == 4 ==> EncodeAll(fs) == Encode(fs[0]) + Encode(fs[1]) + Encode(fs[2]) + Encode(fs[3])
    decreases |fs|
  {
    assert EncodeAll([]) == [];
    hide EncodeAll, Encode, Fits;
    if 1 <= |fs| <= 4 {
      EncodeLast(fs, |fs| - 1);
      EncodeSpelled(fs[..|fs| - 1]);
    }
  }

  lemma {:induction false} PairsAreExtensions(es: seq<Extension>)
    requires ExtensionsFit(es)
    ensures EncodeExtensions(es) == Pairs(es)
  {
    if es != [] {
      hide EncodeAll;
      FitsEach(ExtensionFields(es[0]));
      EncodeSpelled(ExtensionFields(es[0]));
      PairsAreExtensions(es[1..]);
    }
  }

  /** `MarshalBinary` writes each packet as laid down. */
  lemma MarshalIsLayout(p: Request)
    requires Valid(p)
    ensures Marshal(p) == Layout(p)
  {
    hide EncodeAll, U32, U64, Ascii, ExtendedName, EncodeExtensions, Pairs;
    FitsEach(Fields(p));
    EncodeSpelled(Fields(p));
    if p.Init? {
      PairsAreExtensions(p.extensions);
    }
    var head := [Code(p)] + EncodeAll(Fields(p));
    assert head + [] == head;
  }

  /** A directory entry in a NAME packet: its attributes are the size, the owner if there is one, mode and times. */
  lemma EntryLayout(e: R.Entry)
    requires R.ValidEntry(e)
    ensures R.EncodeEntry(e) ==
            Str(e.name) + Str(e.longName) + U32(if e.owned then 0xF else 0xD)
            + (U64(e.stat.size) + (if e.owned then U32(e.stat.uid) + U32(e.stat.gid) else [])
               + (U32(e.stat.mode) + U32(e.stat.atime) + U32(e.stat.mtime)))
  {
    hide EncodeAll, U32, U64;
    var head, fs := [FStr(e.name), FStr(e.longName), F32(R.Flags(e.owned))], R.StatFields(e.stat, e.owned);
    assert AllFit(head) && AllFit(fs);
    EncodeSpelled(head);
    if e.owned {
      EncodeSplit(fs, 3);
      EncodeSpelled(fs[..3]);
      EncodeSpelled(fs[3..]);
      assert U64(e.stat.size) + U32(e.stat.uid) + U32(e.stat.gid) == U64(e.stat.size) + (U32(e.stat.uid) + U32(e.stat.gid));
    } else {
      EncodeSplit(fs, 1);
      EncodeSpelled(fs[..1]);
      EncodeSpelled(fs[1..]);
      assert U64(e.stat.size) + [] == U64(e.stat.size);
    }
  }

  // ---- what is taken for which packet ----

  /** Reads up to the end of the packet, so that nothing may follow it. */
  predicate ToTheEnd(p: Request) {
    p.Init? || p.Setstat? || p.Fsetstat?
  }

  /**
   * The bytes of a packet of this type are this request's, with anything after it where nothing more is read. `fsync` is
   * one the server does not know, and a WRITE has as much data as it says.
   */
  ghost predicate IsPacket(p: Request, code: byte, b: Data) {
    && Valid(p) && !p.Fsync? && (p.Write? ==> p.length == |p.data|)
    && Marshal(p) <= [code] + b && (ToTheEnd(p) ==> Marshal(p) == [code] + b)
  }

  lemma {:induction false} ExtensionsRead(b: Data)
    requires GetExtensions(b).Ok?
    ensures ExtensionsFit(GetExtensions(b).value) && EncodeExtensions(GetExtensions(b).value) == b
    decreases |b|
  {
    if b != [] {
      var x := DecodeAll([KStr, KStr], b).value;
      DecodedFieldsFit([KStr, KStr], b);
      PairShortens(b);
      hide DecodeAll, EncodeAll;
      ExtensionsRead(x.1);
      var es, more := GetExtensions(b).value, GetExtensions(x.1).value;
      assert x.0 == ExtensionFields(es[0]);
      assert es[1..] == more;
      forall i | 0 <= i < |es| ensures AllFit(ExtensionFields(es[i])) {
        assert i > 0 ==> es[i] == more[i - 1];
      }
    }
  }

  /** A plain packet has the fields it is built from, and its trailer begins what follows them. */
  lemma BuiltFrom(code: byte, fs: seq<Field>, rest: Data, p: Request)
    requires code != EXTENDED && Schema(code).Some? && HasKinds(fs, Schema(code).value) && AllFit(fs)
    requires Build(code, fs, rest) == Ok(Known(p))
    ensures Code(p) == code && Fields(p) == fs && Valid(p) && Trailer(p) <= rest && (ToTheEnd(p) ==> Trailer(p) == rest)
    ensures p.Write? ==> p.length == |p.data|
  {
    hide GetExtensions;
    if code == INIT {
      ExtensionsRead(rest);
    }
  }

  lemma PlainAccepted(p: Request, code: byte, b: Data)
    requires code != EXTENDED && MakePacket(code, b) == Ok(Known(p))
    ensures IsPacket(p, code, b)
  {
    hide Build, Schema, EncodeAll, DecodeAll, Fields, Trailer, Code;
    var x := DecodeAll(Schema(code).value, b).value;
    DecodedFieldsFit(Schema(code).value, b);
    BuiltFrom(code, x.0, x.1, p);
    NotFsync(p);
    assert [code] + b == [code] + EncodeAll(x.0) + x.1;
  }

  lemma NotFsync(p: Request)
    requires Code(p) != EXTENDED
    ensures !p.Fsync?
  {
  }

  lemma {:induction false} DecodeFirst(ks: seq<Kind>, more: seq<Kind>, b: Data)
    requires DecodeAll(ks + more, b).Some?
    ensures DecodeAll(ks, b).Some? && DecodeAll(ks + more, b).value.0[..|ks|] == DecodeAll(ks, b).value.0
    decreases ks
  {
    if ks == [] {
      assert ks + more == more;
    } else {
      assert (ks + more)[1..] == ks[1..] + more;
      DecodeFirst(ks[1..], more, Decode(ks[0], b).value.1);
    }
  }

  /** The fields of an extended packet, once its name is known. */
  lemma ExtendedFields(more: seq<Kind>, b: Data)
    requires DecodeAll([K32, KStr] + more, b).Some?
    ensures DecodeAll([K32, KStr], b).Some?
    ensures var fs := DecodeAll([K32, KStr] + more, b).value;
      fs.0[..2] == DecodeAll([K32, KStr], b).value.0 && AllFit(fs.0) && b == EncodeAll(fs.0) + fs.1
  {
    hide DecodeAll;
    DecodeFirst([K32, KStr], more, b);
    DecodedFieldsFit([K32, KStr] + more, b);
  }

  /** The fields an extended packet is read with after its id and name. */
  function Rest(p: Request): seq<Kind> {
    if p.StatVfs? then [KStr] else [KStr, KStr]
  }

  /** An extended packet has the fields it was read with, its name in place of the second. */
  lemma MadeExtended(id: nat, name: Data, b: Data, p: Request)
    requires MakeExtended(id, name, b) == Ok(Known(p))
    ensures (p.StatVfs? || p.PosixRename? || p.Hardlink?) && DecodeAll([K32, KStr] + Rest(p), b).Some?
    ensures Fields(p) == DecodeAll([K32, KStr] + Rest(p), b).value.0[1 := FStr(name)]
  {
    assert [K32, KStr] + [KStr] == [K32, KStr, KStr] && [K32, KStr] + [KStr, KStr] == [K32, KStr, KStr, KStr];
    hide DecodeAll, ExtendedName;
  }

  lemma ExtendedAccepted(p: Request, b: Data)
    requires MakePacket(EXTENDED, b) == Ok(Known(p))
    ensures IsPacket(p, EXTENDED, b)
  {
    hide EncodeAll, DecodeAll, Fields, MakeExtended, Rest, ExtendedName;
    var first := DecodeAll([K32, KStr], b).value.0;
    MadeExtended(first[0].n, first[1].s, b, p);
    ExtendedFields(Rest(p), b);
    var x := DecodeAll([K32, KStr] + Rest(p), b).value;
    assert x.0[..2][1] == x.0[1];
    assert Fields(p) == x.0;
    assert [EXTENDED] + b == [EXTENDED] + EncodeAll(x.0) + x.1;
  }

  lemma BuildsBack(p: Request, rest: Data)
    requires Valid(p) && Code(p) != EXTENDED && (p.Write? ==> p.length == |p.data|)
    requires Schema(Code(p)).Some? && HasKinds(Fields(p), Schema(Code(p)).value)
    requires Trailer(p) <= rest && (ToTheEnd(p) ==> Trailer(p) == rest)
    ensures Build(Code(p), Fields(p), rest) == Ok(Known(p))
  {
    if p.Init? {
      ExtensionsRoundTrip(p.extensions);
    } else if p.Write? {
      assert rest[..p.length] == p.data;
    }
  }

  /** What follows the first field bytes of a packet that begins with this request's bytes. */
  lemma AfterFields(p: Request, code: byte, b: Data) returns (rest: Data)
    requires IsPacket(p, code, b)
    ensures code == Code(p) && b == EncodeAll(Fields(p)) + rest && Trailer(p) <= rest && (ToTheEnd(p) ==> Trailer(p) == rest)
  {
    hide EncodeAll, Fields, Trailer, Code;
    var m, all := Marshal(p), [code] + b;
    assert all[0] == m[0];
    var fields := EncodeAll(Fields(p));
    assert m == [code] + (fields + Trailer(p));
    assert all[1..] == b && m[1..] == fields + Trailer(p);
    rest := b[|fields|..];
    assert b[..|m| - 1] == m[1..];
    assert b[..|fields|] == fields;
    assert rest[..|Trailer(p)|] == Trailer(p);
  }

  lemma PlainTaken(p: Request, code: byte, b: Data)
    requires IsPacket(p, code, b) && Code(p) != EXTENDED
    ensures MakePacket(code, b) == Ok(Known(p))
  {
    hide Build, Schema, EncodeAll, DecodeAll, Kinds, HasKinds, Fields, Trailer, Code, ToTheEnd;
    var rest := AfterFields(p, code, b);
    FieldKinds(p);
    KindsAre(Fields(p));
    FieldsRoundTrip(Fields(p), rest);
    BuildsBack(p, rest);
  }

  lemma ExtendedTaken(p: Request, code: byte, b: Data)
    requires IsPacket(p, code, b) && Code(p) == EXTENDED
    ensures MakePacket(code, b) == Ok(Known(p))
  {
    hide EncodeAll, DecodeAll, Kinds, ExtendedName;
    var rest := AfterFields(p, code, b);
    var fs := Fields(p);
    KindsSpelled(fs);
    FieldsRoundTrip(fs, rest);
    assert [K32, KStr] + Rest(p) == Kinds(fs);
    ExtendedFields(Rest(p), b);
    assert fs[..2][0] == fs[0] && fs[..2][1] == fs[1];
  }

  /** The server takes bytes for a request if and only if they are that request's. */
  lemma AcceptedIff(p: Request, code: byte, b: Data)
    ensures MakePacket(code, b) == Ok(Known(p)) <==> IsPacket(p, code, b)
  {
    hide MakePacket, IsPacket;
    if MakePacket(code, b) == Ok(Known(p)) {
      if code == EXTENDED {
        ExtendedAccepted(p, b);
      } else {
        PlainAccepted(p, code, b);
      }
    }
    if IsPacket(p, code, b) {
      if Code(p) == EXTENDED {
        ExtendedTaken(p, code, b);
      } else {
        PlainTaken(p, code, b);
      }
    }
  }

  /** An extended packet that begins with this id and name, the name not being one the server knows. */
  predicate IsUnknown(id: nat, name: Data, code: byte, b: Data) {
    && id < TWO32 && |name| < TWO32 && name !in {STATVFS_NAME, POSIX_RENAME_NAME, HARDLINK_NAME}
    && [200] + (U32(id) + Str(name)) <= [code] + b
  }

  lemma TwoFields(id: nat, name: Data)
    requires id < TWO32 && |name| < TWO32
    ensures AllFit([F32(id), FStr(name)]) && EncodeAll([F32(id), FStr(name)]) == U32(id) + Str(name)
    ensures Kinds([F32(id), FStr(name)]) == [K32, KStr]
  {
    var fs := [F32(id), FStr(name)];
    assert AllFit(fs);
    EncodeSpelled(fs);
    KindsSpelled(fs);
  }

  /** The server passes on an unknown extended request if and only if the bytes begin with its id and name. */
  lemma UnknownIff(id: nat, name: Data, code: byte, b: Data)
    ensures MakePacket(code, b) == Ok(UnknownExtended(id, name)) <==> IsUnknown(id, name, code, b)
  {
    hide EncodeAll, DecodeAll, ExtendedName, U32, GetExtensions, Kinds;
    if MakePacket(code, b) == Ok(UnknownExtended(id, name)) {
      var x := DecodeAll([K32, KStr], b).value;
      DecodedFieldsFit([K32, KStr], b);
      FitsEach(x.0);
      assert x.0 == [F32(id), FStr(name)];
      TwoFields(id, name);
      assert [code] + b == [code] + (U32(id) + Str(name)) + x.1;
    }
    if IsUnknown(id, name, code, b) {
      TwoFields(id, name);
      var head := U32(id) + Str(name);
      assert ([code] + b)[..1 + |head|] == [200] + head;
      assert ([200] + head)[1..] == head;
      assert b[..|head|] == head && b == head + b[|head|..];
      assert code == ([200] + head)[0];
      FieldsRoundTrip([F32(id), FStr(name)], b[|head|..]);
    }
  }

  lemma {:induction false} ExtensionsRefused(b: Data)
    requires GetExtensions(b).Err?
    ensures GetExtensions(b).error == ShortPacket
    decreases |b|
  {
    var x := DecodeAll([KStr, KStr], b);
    if x.Some? {
      PairShortens(b);
      ExtensionsRefused(x.value.1);
    }
  }

  /** Any other bytes are refused: as unhandled if the type is none of these, as too short otherwise. */
  lemma Refused(code: byte, b: Data)
    requires MakePacket(code, b).Err?
    ensures MakePacket(code, b).error == if code == 1 || 3 <= code <= 20 || code == 200 then ShortPacket else Unhandled
  {
    hide DecodeAll, ExtendedName, GetExtensions;
    if code == INIT && DecodeAll([K32], b).Some? {
      ExtensionsRefused(DecodeAll([K32], b).value.1);
    }
  }
}
