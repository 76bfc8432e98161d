/**
 * Listing a directory (`request.go`, `lister.go`, `packet.go`, `attrs.go`,
 * `client.go`): the server hands out the entries in batches, each encoded in a
 * NAME packet; the client asks until it gets the end-of-file status and decodes
 * what came. Entry names have no slash, so that `path.Base` leaves them alone.
 */
module ReadDir {
  import opened Bytes
  import opened Options
  import opened Wire
  import P = Paths

  const MAX_FILELIST := 100
  const ATTR_SIZE := 0x1
  const ATTR_UIDGID := 0x2
  const ATTR_PERMISSIONS := 0x4
  const ATTR_ACMODTIME := 0x8
  const ATTR_EXTENDED := 0x8000_0000

  datatype Extended = Extended(typ: Data, data: Data)

  datatype FileStat = FileStat(size: nat, mode: nat, mtime: nat, atime: nat, uid: nat, gid: nat, extended: seq<Extended>)

  /** A directory entry; only some carry an owner. */
  datatype Entry = Entry(name: Data, longName: Data, stat: FileStat, owned: bool)

  ghost predicate ValidEntry(e: Entry) {
    && e.stat.size < TWO64 && e.stat.mode < TWO32 && e.stat.mtime < TWO32 && e.stat.atime < TWO32
    && e.stat.uid < TWO32 && e.stat.gid < TWO32 && |e.name| < TWO32 && |e.longName| < TWO32
    && e.stat.extended == [] && (!e.owned ==> e.stat.uid == 0 && e.stat.gid == 0)
  }

  predicate Has(flags: nat, bit: nat)
    requires bit > 0
  {
    flags / bit % 2 == 1
  }

  function Flags(owned: bool): nat {
    ATTR_SIZE + (if owned then ATTR_UIDGID else 0) + ATTR_PERMISSIONS + ATTR_ACMODTIME
  }

  /** The attributes that `marshalFileInfo` writes after the flags. */
  function StatFields(s: FileStat, owned: bool): seq<Field> {
    [F64(s.size)] + (if owned then [F32(s.uid), F32(s.gid)] else []) + [F32(s.mode), F32(s.atime), F32(s.mtime)]
  }

  /** An `sshFxpNameAttr`. */
  function EncodeEntry(e: Entry): Data
    requires ValidEntry(e)
  {
    EncodeAll([FStr(e.name), FStr(e.longName), F32(Flags(e.owned))]) + EncodeAll(StatFields(e.stat, e.owned))
  }

  /** A number read without looking at the error: too short a packet gives zero and leaves nothing. */
  function Number(k: Kind, b: Data): (nat, Data)
    requires !k.KStr?
  {
    var x := Decode(k, b);
    if x.None? then (0, []) else (x.value.0.n, x.value.1)
  }

  function Text(b: Data): (Data, Data) {
    var x := Decode(KStr, b);
    if x.None? then ([], []) else (x.value.0.s, x.value.1)
  }

  function Extendeds(count: nat, b: Data): (seq<Extended>, Data)
    decreases count
  {
    if count == 0 then ([], b)
    else
      var t := Text(b);
      var d := Text(t.1);
      var more := Extendeds(count - 1, d.1);
      ([Extended(t.0, d.0)] + more.0, more.1)
  }

  /** `getFileStat`: whichever attributes the flags announce, in their order. */
  function GetFileStat(flags: nat, b: Data): (FileStat, Data) {
    var size := if Has(flags, ATTR_SIZE) then Number(K64, b) else (0, b);
    var uid := if Has(flags, ATTR_UIDGID) then Number(K32, size.1) else (0, size.1);
    var gid := if Has(flags, ATTR_UIDGID) then Number(K32, uid.1) else (0, uid.1);
    var mode := if Has(flags, ATTR_PERMISSIONS) then Number(K32, gid.1) else (0, gid.1);
    var atime := if Has(flags, ATTR_ACMODTIME) then Number(K32, mode.1) else (0, mode.1);
    var mtime := if Has(flags, ATTR_ACMODTIME) then Number(K32, atime.1) else (0, atime.1);
    if Has(flags, ATTR_EXTENDED) then
      var count := Number(K32, mtime.1);
      var es := Extendeds(count.0, count.1);
      (FileStat(size.0, mode.0, mtime.0, atime.0, uid.0, gid.0, es.0), es.1)
    else (FileStat(size.0, mode.0, mtime.0, atime.0, uid.0, gid.0, []), mtime.1)
  }

  lemma NumberRoundTrip(f: Field, rest: Data)
    requires Fits(f) && !f.FStr?
    ensures Number(KindOf(f), Encode(f) + rest) == (f.n, rest)
  {
    FieldRoundTrip(f, rest);
  }

  lemma TextRoundTrip(s: Data, rest: Data)
    requires |s| < TWO32
    ensures Text(Encode(FStr(s)) + rest) == (s, rest)
  {
    FieldRoundTrip(FStr(s), rest);
  }

  lemma Peel(fs: seq<Field>, rest: Data)
    requires AllFit(fs) && fs != [] && !fs[0].FStr?
    ensures Number(KindOf(fs[0]), EncodeAll(fs) + rest) == (fs[0].n, EncodeAll(fs[1..]) + rest)
  {
    hide Encode, Number;
    NumberRoundTrip(fs[0], EncodeAll(fs[1..]) + rest);
    assert EncodeAll(fs) + rest == Encode(fs[0]) + (EncodeAll(fs[1..]) + rest);
  }

  /** The attributes come back as they were written. */
  lemma StatRoundTrip(e: Entry, rest: Data)
    requires ValidEntry(e)
    ensures GetFileStat(Flags(e.owned), EncodeAll(StatFields(e.stat, e.owned)) + rest) == (e.stat, rest)
  {
    hide Number, EncodeAll, Has;
    var s := e.stat;
    FlagBits(e.owned);
    NoneLeft(rest);
    Peel(StatFields(s, e.owned), rest);
    if e.owned {
      assert StatFields(s, true)[1..] == [F32(s.uid), F32(s.gid)] + Times(s);
      Peel([F32(s.uid), F32(s.gid)] + Times(s), rest);
      assert ([F32(s.uid), F32(s.gid)] + Times(s))[1..] == [F32(s.gid)] + Times(s);
      Peel([F32(s.gid)] + Times(s), rest);
      assert ([F32(s.gid)] + Times(s))[1..] == Times(s);
    } else {
      assert StatFields(s, false)[1..] == Times(s);
    }
    Peel(Times(s), rest);
    assert Times(s)[1..] == [F32(s.atime), F32(s.mtime)];
    Peel([F32(s.atime), F32(s.mtime)], rest);
    assert [F32(s.atime), F32(s.mtime)][1..] == [F32(s.mtime)];
    Peel([F32(s.mtime)], rest);
    assert [F32(s.mtime)][1..] == [];
  }

  function Times(s: FileStat): seq<Field> {
    [F32(s.mode), F32(s.atime), F32(s.mtime)]
  }

  lemma FlagBits(owned: bool)
    ensures Has(Flags(owned), ATTR_SIZE) && Has(Flags(owned), ATTR_PERMISSIONS) && Has(Flags(owned), ATTR_ACMODTIME)
    ensures !Has(Flags(owned), ATTR_EXTENDED) && (Has(Flags(owned), ATTR_UIDGID) <==> owned)
  {
  }

  lemma NoneLeft(rest: Data)
    ensures EncodeAll([]) + rest == rest
  {
  }

  // ---- NAME packets ----

  ghost predicate ValidEntries(es: seq<Entry>) {
    forall i :: 0 <= i < |es| ==> ValidEntry(es[i])
  }

  function EncodeEntries(es: seq<Entry>): Data
    requires ValidEntries(es)
  {
    if es == [] then [] else EncodeEntry(es[0]) + EncodeEntries(es[1..])
  }

  /** The body of a NAME packet. */
  function NameBody(id: nat, es: seq<Entry>): Data
    requires id < TWO32 && |es| < TWO32 && ValidEntries(es)
  {
    U32(id) + U32(|es|) + EncodeEntries(es)
  }

  /** What the client keeps of an entry. */
  datatype Info = Info(name: Data, stat: FileStat)

  /** The listing a caller is to see: every entry in order, but for "." and "..". */
  function Listing(es: seq<Entry>): seq<Info> {
    if es == [] then [] else Kept(es[0]) + Listing(es[1..])
  }

  function Kept(e: Entry): seq<Info> {
    if e.name == P.DOT || e.name == P.DOT_DOT then [] else [Info(e.name, e.stat)]
  }

  /** One entry as the client reads it, and what follows it. */
  function DecodeEntry(b: Data): (Info, Data) {
    var name := Text(b);
    var longName := Text(name.1);
    var flags := Number(K32, longName.1);
    var stat := GetFileStat(flags.0, flags.1);
    (Info(name.0, stat.0), stat.1)
  }

  lemma EntryRoundTrip(e: Entry, rest: Data)
    requires ValidEntry(e)
    ensures DecodeEntry(EncodeEntry(e) + rest) == (Info(e.name, e.stat), rest)
  {
    hide GetFileStat, Encode, EncodeAll, Decode, Text, Number;
    var name, longName, flags := FStr(e.name), FStr(e.longName), F32(Flags(e.owned));
    var more := EncodeAll(StatFields(e.stat, e.owned)) + rest;
    ThreeFields(name, longName, flags);
    TextRoundTrip(e.name, Encode(longName) + (Encode(flags) + more));
    TextRoundTrip(e.longName, Encode(flags) + more);
    NumberRoundTrip(flags, more);
    assert EncodeEntry(e) + rest == Encode(name) + (Encode(longName) + (Encode(flags) + more));
    StatRoundTrip(e, rest);
  }

  lemma ThreeFields(a: Field, b: Field, c: Field)
    requires Fits(a) && Fits(b) && Fits(c)
    ensures AllFit([a, b, c]) && EncodeAll([a, b, c]) == Encode(a) + Encode(b) + Encode(c)
  {
    hide Encode;
    assert [a, b, c][1..] == [b, c] && [b, c][1..] == [c] && [c][1..] == [];
    assert EncodeAll([c]) == Encode(c) + EncodeAll([]);
    assert EncodeAll([b, c]) == Encode(b) + EncodeAll([c]);
  }

  /** The client's loop over the entries of one NAME packet. */
  method DecodeNames(body: Data, id: nat, ghost es: seq<Entry>) returns (r: Option<seq<Info>>)
    requires id < TWO32 && |es| < TWO32 && ValidEntries(es) && body == NameBody(id, es)
    ensures r == Some(Listing(es))
  {
    hide U32, GetU32, DecodeEntry, EncodeEntry, ValidEntry;
    assert body == U32(id) + (U32(|es|) + EncodeEntries(es));
    U32RoundTrip(id, U32(|es|) + EncodeEntries(es));
    U32RoundTrip(|es|, EncodeEntries(es));
    if GetU32(body) != id {
      return None;
    }
    var count := GetU32(body[4..]);
    var data := body[4..][4..];
    var infos: seq<Info> := [];
    var i := 0;
    assert es[0..] == es;
    while i < count
      invariant i <= count == |es| && data == EncodeEntries(es[i..]) && infos + Listing(es[i..]) == Listing(es)
    {
      assert es[i..][1..] == es[i + 1..];
      EntryRoundTrip(es[i], EncodeEntries(es[i + 1..]));
      var x := DecodeEntry(data);
      data := x.1;
      if x.0.name != P.DOT && x.0.name != P.DOT_DOT {
        infos := infos + [x.0];
      }
      i := i + 1;
    }
    assert es[count..] == [];
    assert infos + [] == infos;
    r := Some(infos);
  }

  // ---- batches ----

  /** The listing of an open directory handle, and how much of it was sent. */
  class Lister {
    const entries: seq<Entry>
    var lsoffset: nat

    constructor (entries: seq<Entry>)
      ensures this.entries == entries && lsoffset == 0
    {
      this.entries, lsoffset := entries, 0;
    }

    /** `ListAt`: up to `len` entries from `offset` on; the end of file when that is not a full batch. */
    method ListAt(len: nat, offset: nat) returns (batch: seq<Entry>, eof: bool)
      ensures eof <==> offset >= |entries| || |batch| < len
      ensures batch == if offset >= |entries| then [] else entries[offset..if offset + len < |entries| then offset + len else |entries|]
    {
      if offset >= |entries| {
        return [], true;
      }
      var maxlen := offset + len;
      if maxlen > |entries| {
        maxlen := |entries|;
      }
      batch := [];
      var i := offset;
      while i < maxlen
        invariant offset <= i <= maxlen && batch == entries[offset..i]
      {
        batch := batch + [entries[i]];
        i := i + 1;
      }
      eof := |batch| < len;
    }

    /** `filelist`: the next batch as a NAME body, or the end-of-file status when there is none. */
    method FileList(id: nat) returns (body: Option<Data>, ghost batch: seq<Entry>)
      requires id < TWO32 && ValidEntries(entries) && lsoffset <= |entries|
      modifies this
      ensures body.None? <==> old(lsoffset) == |entries|
      ensures lsoffset == old(lsoffset) + |batch| <= |entries| && batch == entries[old(lsoffset)..lsoffset]
      ensures |batch| == Min(MAX_FILELIST, |entries| - old(lsoffset))
      ensures body.Some? ==> batch != [] && ValidEntries(batch) && body.value == NameBody(id, batch)
    {
      var offset := lsoffset;
      var finfo, eof := ListAt(MAX_FILELIST, offset);
      lsoffset := lsoffset + |finfo|;
      batch := finfo;
      if eof && |finfo| == 0 {
        return None, batch;
      }
      body := Some(NameBody(id, finfo));
    }
  }

  lemma ListingStep(es: seq<Entry>)
    ensures Listing(es) == if es == [] then [] else Kept(es[0]) + Listing(es[1..])
  {
  }

  lemma {:induction false} ListingCat(a: seq<Entry>, b: seq<Entry>)
    ensures Listing(a + b) == Listing(a) + Listing(b)
  {
    hide Listing, Kept;
    ListingStep(a);
    ListingStep(a + b);
    if a == [] {
      assert a + b == b;
    } else {
      ListingCat(a[1..], b);
      assert (a + b)[1..] == a[1..] + b;
    }
  }

  /**
   * `Client.ReadDir` against the server's batches: every entry exactly once, in order, without "." and "..", and
   * then the end of file, with as few requests as batches of that size allow and one more. Request ids go up from `id`.
   */
  method ReadDir(lister: Lister, id: nat) returns (infos: seq<Info>, requests: nat)
    requires ValidEntries(lister.entries) && lister.lsoffset == 0 && id + |lister.entries| + 1 < TWO32
    modifies lister
    ensures infos == Listing(lister.entries)
    ensures requests >= 1 && |lister.entries| <= (requests - 1) * MAX_FILELIST < |lister.entries| + MAX_FILELIST
  {
    hide Listing, ValidEntry, ValidEntries, NameBody;
    infos, requests := [], 0;
    ListingStep([]);
    assert lister.entries[..0] == [];
    while true
      invariant lister.lsoffset == Min(requests * MAX_FILELIST, |lister.entries|) && requests <= lister.lsoffset
      invariant requests * MAX_FILELIST < |lister.entries| + MAX_FILELIST
      invariant infos == Listing(lister.entries[..lister.lsoffset])
      decreases |lister.entries| - lister.lsoffset
    {
      ghost var sent := lister.entries[..lister.lsoffset];
      var body, batch := lister.FileList(id + requests);
      requests := requests + 1;
      if body.None? {
        assert lister.entries[..|lister.entries|] == lister.entries;
        return;
      }
      ListingCat(sent, batch);
      assert lister.entries[..lister.lsoffset] == sent + batch;
      var names := DecodeNames(body.value, id + requests - 1, batch);
      infos := infos + names.value;
    }
  }
}
