/**
 * The SCP tree protocol (`serv/scp.go`): the downloader turns a directory tree
 * into a stream of messages and file contents; the uploader reads such a stream
 * and creates directories and files. Both are run with the recursive flag.
 */
module Scp {
  import opened Bytes
  import opened Decimal
  import opened Options
  import opened Paths

  const SPACE: byte := 32
  const NEWLINE: byte := 10
  const LETTER_C: byte := 67
  const LETTER_D: byte := 68
  const LETTER_E: byte := 69
  const LETTER_T: byte := 84

  // ---- text ----

  /** The pieces between the separators. */
  function Split(s: Data, sep: byte): (r: seq<Data>)
    ensures |r| > 0
    decreases |s|
  {
    if s == [] then [[]]
    else
      var more := Split(s[1..], sep);
      if s[0] == sep then [[]] + more else [[s[0]] + more[0]] + more[1..]
  }

  lemma {:induction false} SplitNone(s: Data, sep: byte)
    requires sep !in s
    ensures Split(s, sep) == [s]
  {
    if s != [] {
      assert s[0] in s && forall x :: x in s[1..] ==> x in s;
      SplitNone(s[1..], sep);
      assert [s[0]] + s[1..] == s;
    }
  }

  lemma {:induction false} SplitFirst(a: Data, sep: byte, b: Data)
    requires sep !in a
    ensures Split(a + [sep] + b, sep) == [a] + Split(b, sep)
  {
    var s := a + [sep] + b;
    if a == [] {
      assert s[1..] == b;
    } else {
      assert a[0] in a && forall x :: x in a[1..] ==> x in a;
      SplitFirst(a[1..], sep, b);
      assert s[1..] == a[1..] + [sep] + b;
      assert [s[0]] + a[1..] == a;
    }
  }

  /** The text up to the first newline, and what follows it. */
  function Line(s: Data): (r: Option<(Data, Data)>)
    ensures r.Some? ==> |r.value.1| < |s|
    decreases |s|
  {
    if s == [] then None
    else if s[0] == NEWLINE then Some(([], s[1..]))
    else
      var more := Line(s[1..]);
      if more.None? then None else Some(([s[0]] + more.value.0, more.value.1))
  }

  lemma {:induction false} LineOf(t: Data, rest: Data)
    requires NEWLINE !in t
    ensures Line(t + [NEWLINE] + rest) == Some((t, rest))
  {
    var s := t + [NEWLINE] + rest;
    if t == [] {
      assert s[1..] == rest;
    } else {
      assert t[0] in t && forall x :: x in t[1..] ==> x in t;
      LineOf(t[1..], rest);
      assert s[1..] == t[1..] + [NEWLINE] + rest;
      assert [t[0]] + t[1..] == t;
    }
  }

  // ---- numbers ----

  const MAX_INT64 := 0x7fff_ffff_ffff_ffff

  /** `strconv.ParseInt(s, 10, 64)`. */
  function ParseInt(s: Data): Option<int> {
    var negative := s != [] && s[0] == 45;
    var digits := if s != [] && (s[0] == 45 || s[0] == 43) then s[1..] else s;
    if digits == [] || !AllDigits(digits) then None
    else
      var v: int := Value(digits);
      if v > MAX_INT64 + (if negative then 1 else 0) then None else Some(if negative then -v else v)
  }

  lemma SizeRoundTrip(n: nat)
    requires n <= MAX_INT64
    ensures ParseInt(Digits(n)) == Some(n)
  {
    ValueOfDigits(n);
    assert IsDigit(Digits(n)[0]);
  }

  // ---- the tree and its messages ----

  datatype Tree =
    | File(name: Data, mode: Data, mtime: nat, content: Data)
    | Dir(name: Data, mode: Data, mtime: nat, children: seq<Tree>)

  predicate CleanName(n: Data) {
    n != [] && SPACE !in n && SLASH !in n && NEWLINE !in n && n != DOT && n != DOT_DOT
  }

  /** Names that the messages can carry, different from each other within a directory, and modes without blanks. */
  ghost predicate ValidTree(t: Tree)
    decreases t
  {
    && CleanName(t.name) && SPACE !in t.mode && NEWLINE !in t.mode
    && if t.File? then |t.content| <= MAX_INT64 else ValidTrees(t.children)
  }

  ghost predicate ValidTrees(ts: seq<Tree>)
    decreases ts
  {
    && (forall i :: 0 <= i < |ts| ==> ValidTree(ts[i]))
    && (forall i, j :: 0 <= i < j < |ts| ==> ts[i].name != ts[j].name)
  }

  /** The time message, sent with the `-p` flag. */
  function TimeMessage(times: bool, mtime: nat): Data {
    if times then [LETTER_T] + Digits(mtime) + [SPACE, 48, SPACE] + Digits(mtime) + [SPACE, 48, NEWLINE] else []
  }

  /** A message that announces a file or a directory. */
  function Announce(letter: byte, mode: Data, size: nat, name: Data): Data {
    [letter] + mode + [SPACE] + Digits(size) + [SPACE] + name
  }

  /** `handleDownload` on a file or directory: all it writes to the channel. */
  function Send(t: Tree, times: bool): Data
    decreases t
  {
    match t
    case File(name, mode, mtime, content) =>
      TimeMessage(times, mtime) + Announce(LETTER_C, mode, |content|, name) + [NEWLINE] + content + [0]
    case Dir(name, mode, mtime, children) =>
      TimeMessage(times, mtime) + Announce(LETTER_D, mode, 0, name) + [NEWLINE]
      + SendFiles(children, times) + SendDirs(children, times) + [LETTER_E, NEWLINE]
  }

  /** First all files of a directory, */
  function SendFiles(ts: seq<Tree>, times: bool): Data
    decreases ts
  {
    if ts == [] then [] else (if ts[0].File? then Send(ts[0], times) else []) + SendFiles(ts[1..], times)
  }

  /** then its directories. */
  function SendDirs(ts: seq<Tree>, times: bool): Data
    decreases ts
  {
    if ts == [] then [] else (if ts[0].Dir? then Send(ts[0], times) else []) + SendDirs(ts[1..], times)
  }

  /** One step of the two passes. */
  lemma SendStep(ts: seq<Tree>, times: bool)
    ensures ts == [] ==> SendFiles(ts, times) == [] && SendDirs(ts, times) == []
    ensures ts != [] ==> SendFiles(ts, times) == (if ts[0].File? then Send(ts[0], times) else []) + SendFiles(ts[1..], times)
    ensures ts != [] ==> SendDirs(ts, times) == (if ts[0].Dir? then Send(ts[0], times) else []) + SendDirs(ts[1..], times)
  {
  }

  lemma {:induction false} SendNext(ts: seq<Tree>, t: Tree, times: bool)
    ensures SendFiles(ts + [t], times) == SendFiles(ts, times) + (if t.File? then Send(t, times) else [])
    ensures SendDirs(ts + [t], times) == SendDirs(ts, times) + (if t.Dir? then Send(t, times) else [])
    decreases |ts|
  {
    hide Send, SendFiles, SendDirs;
    SendStep(ts, times);
    SendStep(ts + [t], times);
    if ts == [] {
      assert (ts + [t])[1..] == [];
      SendStep([], times);
    } else {
      assert (ts + [t])[1..] == ts[1..] + [t];
      SendNext(ts[1..], t, times);
    }
  }

  /** The copying loop of `sendDownloadFileData`: it goes on until a read gives nothing. */
  method SendContent(content: Data) returns (out: Data)
    ensures out == content
  {
    out := [];
    var readed := 0;
    while true
      invariant 0 <= readed <= |content| && out == content[..readed]
      decreases |content| - readed
    {
      var n := Min(32768, |content| - readed);
      if n == 0 {
        return;
      }
      out := out + content[readed..readed + n];
      readed := readed + n;
    }
  }

  /** `handleDownload` and `handleRecursiveDownload`: the files of a directory as they come, its directories after them. */
  method Download(t: Tree, times: bool) returns (out: Data)
    ensures out == Send(t, times)
    decreases t
  {
    out := TimeMessage(times, t.mtime);
    if t.File? {
      var data := SendContent(t.content);
      out := out + Announce(LETTER_C, t.mode, |t.content|, t.name) + [NEWLINE] + data + [0];
    } else {
      hide SendFiles, SendDirs;
      out := out + Announce(LETTER_D, t.mode, 0, t.name) + [NEWLINE];
      var files, dirs := SendChildren(t, times);
      out := out + files + dirs + [LETTER_E, NEWLINE];
    }
  }

  method SendChildren(t: Tree, times: bool) returns (files: Data, dirs: Data)
    requires t.Dir?
    ensures files == SendFiles(t.children, times) && dirs == SendDirs(t.children, times)
    decreases t, 0
  {
    hide Send, SendFiles, SendDirs;
    files, dirs := [], [];
    var later: seq<nat> := [];
    SendStep([], times);
    for i := 0 to |t.children|
      invariant files == SendFiles(t.children[..i], times) && AllDirs(t.children, later)
      invariant SendDirs(t.children[..i], times) == SendDirs(Pick(t.children, later), times)
    {
      SendNext(t.children[..i], t.children[i], times);
      assert t.children[..i + 1] == t.children[..i] + [t.children[i]];
      if t.children[i].File? {
        var out := Download(t.children[i], times);
        files := files + out;
      } else {
        PickNext(t.children, later, i, times);
        later := later + [i];
      }
    }
    assert t.children[..|t.children|] == t.children;
    for i := 0 to |later|
      invariant AllDirs(t.children, later) && dirs == SendDirs(Pick(t.children, later[..i]), times)
    {
      assert later[..i + 1] == later[..i] + [later[i]];
      PickNext(t.children, later[..i], later[i], times);
      var out := Download(t.children[later[i]], times);
      dirs := dirs + out;
    }
    assert later[..|later|] == later;
  }

  predicate AllDirs(ts: seq<Tree>, at: seq<nat>) {
    forall k :: 0 <= k < |at| ==> at[k] < |ts| && ts[at[k]].Dir?
  }

  /** The children at these places. */
  function Pick(ts: seq<Tree>, at: seq<nat>): (r: seq<Tree>)
    requires AllDirs(ts, at)
    ensures |r| == |at| && forall k :: 0 <= k < |at| ==> r[k] == ts[at[k]]
  {
    seq(|at|, k requires 0 <= k < |at| => ts[at[k]])
  }

  lemma PickNext(ts: seq<Tree>, at: seq<nat>, i: nat, times: bool)
    requires AllDirs(ts, at) && i < |ts| && ts[i].Dir?
    ensures AllDirs(ts, at + [i])
    ensures SendDirs(Pick(ts, at + [i]), times) == SendDirs(Pick(ts, at), times) + Send(ts[i], times)
  {
    hide Send, SendFiles, SendDirs;
    assert Pick(ts, at + [i]) == Pick(ts, at) + [ts[i]];
    SendNext(Pick(ts, at), ts[i], times);
  }

  // ---- the uploader ----

  datatype Entry = AFile(content: Data) | ADir

  type Disk = map<Path, Entry>

  predicate IsDirAt(d: Disk, p: Path) {
    p == [] || (p in d && d[p].ADir?)
  }

  /** `path.Join` of a clean path and a name: dots are followed, empty components dropped. */
  function Join(p: Path, name: Data): Path {
    Walk(p, Split(name, SLASH))
  }

  function Walk(p: Path, parts: seq<Data>): Path
    decreases |parts|
  {
    if parts == [] then p
    else if parts[0] == [] || parts[0] == DOT then Walk(p, parts[1..])
    else if parts[0] == DOT_DOT then Walk(Parent(p), parts[1..])
    else Walk(p + [parts[0]], parts[1..])
  }

  /** The next message, time messages being skipped. */
  function NextMessage(s: Data): (r: Option<(Data, Data)>)
    ensures r.Some? ==> |r.value.1| < |s|
    decreases |s|
  {
    var l := Line(s);
    if l.None? then None else if [LETTER_T] <= l.value.0 then NextMessage(l.value.1) else l
  }

  /** `parseUploadMessage`: size and name out of three words. */
  function Parse(m: Data): Option<(int, Data)> {
    if !([LETTER_C] <= m || [LETTER_D] <= m) then None
    else
      var parts := Split(m, SPACE);
      if |parts| != 3 then None
      else
        var size := ParseInt(parts[1]);
        if size.None? || parts[2] == [] then None else Some((size.value, parts[2]))
  }

  function MkDir(d: Disk, p: Path): Option<Disk> {
    if p == [] || p in d || !IsDirAt(d, Parent(p)) then None else Some(d[p := ADir])
  }

  predicate CanWrite(d: Disk, p: Path) {
    !IsDirAt(d, p) && IsDirAt(d, Parent(p))
  }

  function WriteFile(d: Disk, p: Path, content: Data): Option<Disk> {
    if CanWrite(d, p) then Some(d[p := AFile(content)]) else None
  }

  /** The contents of a file and the confirmation after it: exactly the announced bytes are taken off the stream. */
  function TakeFile(s: Data, size: int): (r: Option<(Data, Data)>)
    ensures r.Some? ==> |r.value.1| < |s|
  {
    var n := if size > 0 then size else 0;
    if |s| <= n || s[n] == 1 || s[n] == 2 then None else Some((s[..n], s[n + 1..]))
  }

  /** What a file has been given of its announced contents when the stream ends or breaks off. */
  function Received(s: Data, size: int): Data {
    if size > 0 then s[..Min(size, |s|)] else []
  }

  /** In either case with what is on disk then. */
  datatype Outcome = Done(disk: Disk, rest: Data) | Failed(disk: Disk)

  /** `handleRecursiveUpload` from one turn of its loop on. */
  function Upload(s: Data, numDirs: int, dest: Path, d: Disk): Outcome
    decreases |s|
  {
    var m := NextMessage(s);
    if m.None? then Failed(d)
    else if [LETTER_E] <= m.value.0 then
      if numDirs - 1 == 0 then Done(d, m.value.1) else Upload(m.value.1, numDirs - 1, Parent(dest), d)
    else
      var x := Parse(m.value.0);
      if x.None? then Failed(d)
      else if [LETTER_D] <= m.value.0 then
        var p := Join(dest, x.value.1);
        var e := MkDir(d, p);
        if e.None? then Failed(d)
        else if numDirs + 1 == 0 then Done(e.value, m.value.1)
        else Upload(m.value.1, numDirs + 1, p, e.value)
      else
        var p := Join(dest, x.value.1);
        var f := TakeFile(m.value.1, x.value.0);
        if !CanWrite(d, p) then Failed(d)
        else if f.None? then Failed(d[p := AFile(Received(m.value.1, x.value.0))])
        else
          var e := d[p := AFile(f.value.0)];
          if numDirs == 0 then Done(e, f.value.1) else Upload(f.value.1, numDirs, dest, e)
  }

  /** Every entry is still there, and every directory still one. */
  ghost predicate Kept(before: Disk, after: Disk) {
    forall p :: p in before ==> p in after && (before[p].ADir? ==> after[p].ADir?)
  }

  lemma KeptPut(d: Disk, p: Path, e: Entry)
    requires p in d && d[p].ADir? ==> e.ADir?
    ensures Kept(d, d[p := e])
  {
  }

  lemma KeptSame(d: Disk)
    ensures Kept(d, d)
  {
  }

  lemma KeptOn(a: Disk, b: Disk, c: Disk)
    requires Kept(a, b) && Kept(b, c)
    ensures Kept(a, c)
  {
  }

  /** A failed upload, like a successful one, leaves every entry that was there, and every directory a directory. */
  lemma {:induction false} UploadKeeps(s: Data, numDirs: int, dest: Path, d: Disk)
    ensures Kept(d, Upload(s, numDirs, dest, d).disk)
    decreases |s|, 0
  {
    hide Kept, Parse, Join, NextMessage, MkDir, TakeFile, CanWrite, Received;
    KeptSame(d);
    var m := NextMessage(s);
    if m.None? {
      return;
    }
    var x := Parse(m.value.0);
    if [LETTER_E] <= m.value.0 {
      if numDirs - 1 != 0 {
        UploadKeeps(m.value.1, numDirs - 1, Parent(dest), d);
      }
    } else if x.Some? {
      var p := Join(dest, x.value.1);
      if [LETTER_D] <= m.value.0 {
        DirKeeps(m.value.1, numDirs + 1, p, d);
      } else {
        FileKeeps(m.value.1, numDirs, dest, p, x.value.0, d);
      }
    }
  }

  lemma {:induction false} DirKeeps(s: Data, numDirs: int, p: Path, d: Disk)
    ensures MkDir(d, p).Some? ==> Kept(d, MkDir(d, p).value) && Kept(d, Upload(s, numDirs, p, MkDir(d, p).value).disk)
    decreases |s|, 1
  {
    hide Kept, Upload;
    if MkDir(d, p).Some? {
      KeptPut(d, p, ADir);
      UploadKeeps(s, numDirs, p, MkDir(d, p).value);
      KeptOn(d, MkDir(d, p).value, Upload(s, numDirs, p, MkDir(d, p).value).disk);
    }
  }

  lemma {:induction false} FileKeeps(s: Data, numDirs: int, dest: Path, p: Path, size: int, d: Disk)
    ensures CanWrite(d, p) ==> Kept(d, d[p := AFile(Received(s, size))])
    ensures CanWrite(d, p) && TakeFile(s, size).Some? ==>
      var f := TakeFile(s, size).value;
      Kept(d, d[p := AFile(f.0)]) && Kept(d, Upload(f.1, numDirs, dest, d[p := AFile(f.0)]).disk)
    decreases |s|, 1
  {
    hide Kept, Upload, Received, TakeFile;
    if CanWrite(d, p) {
      KeptPut(d, p, AFile(Received(s, size)));
      if TakeFile(s, size).Some? {
        var f := TakeFile(s, size).value;
        KeptPut(d, p, AFile(f.0));
        UploadKeeps(f.1, numDirs, dest, d[p := AFile(f.0)]);
        KeptOn(d, d[p := AFile(f.0)], Upload(f.1, numDirs, dest, d[p := AFile(f.0)]).disk);
      }
    }
  }

  /** The bytes coming in; a read returns some of what is asked for, at least one while there are any. */
  class Channel {
    var input: Data

    constructor (input: Data)
      ensures this.input == input
    {
      this.input := input;
    }

    method Read(len: nat) returns (data: Data, ok: bool)
      requires len > 0
      modifies this
      ensures ok <==> old(input) != []
      ensures ok ==> 0 < |data| <= len
      ensures old(input) == data + input && (!ok ==> data == [])
    {
      if input == [] {
        return [], false;
      }
      var n: nat :| 0 < n <= len && n <= |input|;
      data, input, ok := input[..n], input[n..], true;
    }

    /** `readProtocolMessage`, byte by byte. */
    method ReadMessage() returns (command: Data, ok: bool)
      modifies this
      ensures ok <==> Line(old(input)).Some?
      ensures ok ==> Line(old(input)) == Some((command, input))
    {
      command, ok := [], true;
      while true
        invariant var l := Line(old(input)); var m := Line(input);
          (l.Some? <==> m.Some?) && (m.Some? ==> l.value.0 == command + m.value.0 && l.value.1 == m.value.1)
        decreases |input|
      {
        ghost var before := input;
        var b;
        b, ok := Read(1);
        if !ok {
          return;
        }
        assert before[0] == b[0] && before[1..] == input;
        if b[0] == NEWLINE {
          assert command + [] == command;
          return;
        }
        command := command + b;
      }
    }

    /** `getNextUploadProtocolMessage`. */
    method NextUploadMessage() returns (command: Data, ok: bool)
      modifies this
      ensures ok <==> NextMessage(old(input)).Some?
      ensures ok ==> NextMessage(old(input)) == Some((command, input))
    {
      while true
        invariant NextMessage(old(input)) == NextMessage(input)
        decreases |input|
      {
        command, ok := ReadMessage();
        if !ok || !([LETTER_T] <= command) {
          return;
        }
      }
    }

    /** `getUploadFileData`: exactly the announced bytes, however the channel splits them, and the confirmation. */
    method FileData(size: int) returns (content: Data, ok: bool)
      modifies this
      ensures ok <==> TakeFile(old(input), size).Some?
      ensures ok ==> TakeFile(old(input), size) == Some((content, input))
      ensures content == Received(old(input), size)
    {
      content := [];
      var remaining := size;
      if size > 0 {
        var len := Min(32768, size);
        while remaining > 0
          invariant 0 <= remaining <= size && 0 < len && (remaining > 0 ==> len <= remaining)
          invariant |content| == size - remaining && old(input) == content + input
        {
          var data;
          data, ok := Read(len);
          if !ok {
            return;
          }
          content := content[..size - remaining] + data;
          remaining := remaining - |data|;
          if remaining > 0 && remaining < len {
            len := remaining;
          }
        }
      }
      ghost var before := input;
      var b;
      b, ok := Read(1);
      if ok {
        assert before[0] == b[0] && before[1..] == input;
        ok := b[0] != 1 && b[0] != 2;
      }
    }
  }

  /** `handleRecursiveUpload`. */
  method HandleUpload(ch: Channel, start: Path, d: Disk) returns (r: Outcome)
    modifies ch
    ensures r == Upload(old(ch.input), 0, start, d)
    ensures r.Done? ==> r.rest == ch.input
  {
    var numDirs, dest, disk := 0, start, d;
    while true
      invariant Upload(old(ch.input), 0, start, d) == Upload(ch.input, numDirs, dest, disk)
      decreases |ch.input|
    {
      var command, ok := ch.NextUploadMessage();
      if !ok {
        return Failed(disk);
      }
      if [LETTER_E] <= command {
        numDirs := numDirs - 1;
        if numDirs == 0 {
          return Done(disk, ch.input);
        }
        dest := Parent(dest);
      } else {
        var parsed := Parse(command);
        if parsed.None? {
          return Failed(disk);
        }
        var size, name := parsed.value.0, parsed.value.1;
        if [LETTER_D] <= command {
          numDirs := numDirs + 1;
          dest := Join(dest, name);
          var made := MkDir(disk, dest);
          if made.None? {
            return Failed(disk);
          }
          disk := made.value;
        } else {
          var p := Join(dest, name);
          if !CanWrite(disk, p) {
            return Failed(disk);
          }
          var content;
          content, ok := ch.FileData(size);
          disk := disk[p := AFile(content)];
          if !ok {
            return Failed(disk);
          }
        }
        if numDirs == 0 {
          return Done(disk, ch.input);
        }
      }
    }
  }

  // ---- one message ----

  lemma NoNewline(n: nat)
    ensures NEWLINE !in Digits(n) && SPACE !in Digits(n)
  {
    assert forall i :: 0 <= i < |Digits(n)| ==> IsDigit(Digits(n)[i]);
  }

  lemma AnnounceLine(letter: byte, mode: Data, size: nat, name: Data)
    requires NEWLINE !in mode && NEWLINE !in name && letter != NEWLINE
    ensures NEWLINE !in Announce(letter, mode, size, name) && [letter] <= Announce(letter, mode, size, name)
  {
    NoNewline(size);
  }

  lemma TimeSkipped(times: bool, mtime: nat, rest: Data)
    ensures NextMessage(TimeMessage(times, mtime) + rest) == NextMessage(rest)
  {
    if times {
      hide Digits;
      NoNewline(mtime);
      var t := [LETTER_T] + Digits(mtime) + [SPACE, 48, SPACE] + Digits(mtime) + [SPACE, 48];
      assert TimeMessage(times, mtime) + rest == t + [NEWLINE] + rest;
      LineOf(t, rest);
    } else {
      assert TimeMessage(times, mtime) + rest == rest;
    }
  }

  lemma MessageRead(times: bool, mtime: nat, letter: byte, mode: Data, size: nat, name: Data, rest: Data)
    requires NEWLINE !in mode && NEWLINE !in name && letter != NEWLINE && letter != LETTER_T
    ensures NextMessage(TimeMessage(times, mtime) + (Announce(letter, mode, size, name) + [NEWLINE] + rest))
         == Some((Announce(letter, mode, size, name), rest))
  {
    hide Announce, TimeMessage;
    AnnounceLine(letter, mode, size, name);
    LineOf(Announce(letter, mode, size, name), rest);
    TimeSkipped(times, mtime, Announce(letter, mode, size, name) + [NEWLINE] + rest);
  }

  lemma ParsedBack(letter: byte, mode: Data, size: nat, name: Data)
    requires letter == LETTER_C || letter == LETTER_D
    requires SPACE !in mode && CleanName(name) && size <= MAX_INT64
    ensures Parse(Announce(letter, mode, size, name)) == Some((size, name))
  {
    hide Digits;
    NoNewline(size);
    SizeRoundTrip(size);
    var a := [letter] + mode;
    assert Announce(letter, mode, size, name) == a + [SPACE] + (Digits(size) + [SPACE] + name);
    SplitFirst(a, SPACE, Digits(size) + [SPACE] + name);
    SplitFirst(Digits(size), SPACE, name);
    SplitNone(name, SPACE);
  }

  lemma JoinName(p: Path, name: Data)
    requires CleanName(name)
    ensures Join(p, name) == p + [name]
  {
    SplitNone(name, SLASH);
    assert [name][1..] == [];
    assert Walk(p + [name], []) == p + [name];
  }

  // ---- one turn of the uploader ----

  lemma FileTurn(t: Tree, times: bool, rest: Data, numDirs: nat, dest: Path, d: Disk)
    requires ValidTree(t) && t.File? && IsDirAt(d, dest) && !IsDirAt(d, dest + [t.name])
    ensures var e := d[dest + [t.name] := AFile(t.content)];
      Upload(Send(t, times) + rest, numDirs, dest, d) == if numDirs == 0 then Done(e, rest) else Upload(rest, numDirs, dest, e)
  {
    hide NextMessage, Announce, TimeMessage, Parse, Join;
    var m := Announce(LETTER_C, t.mode, |t.content|, t.name);
    var after := t.content + [0] + rest;
    assert Send(t, times) + rest == TimeMessage(times, t.mtime) + (m + [NEWLINE] + after);
    MessageRead(times, t.mtime, LETTER_C, t.mode, |t.content|, t.name, after);
    AnnounceLine(LETTER_C, t.mode, |t.content|, t.name);
    ParsedBack(LETTER_C, t.mode, |t.content|, t.name);
    JoinName(dest, t.name);
    assert m[0] == LETTER_C;
    assert after[..|t.content|] == t.content && after[|t.content|] == 0 && after[|t.content| + 1..] == rest;
    assert Parent(dest + [t.name]) == dest;
  }

  lemma DirTurn(t: Tree, times: bool, rest: Data, numDirs: nat, dest: Path, d: Disk)
    requires ValidTree(t) && t.Dir? && IsDirAt(d, dest) && dest + [t.name] !in d
    ensures Upload(TimeMessage(times, t.mtime) + (Announce(LETTER_D, t.mode, 0, t.name) + [NEWLINE] + rest), numDirs, dest, d)
         == Upload(rest, numDirs + 1, dest + [t.name], d[dest + [t.name] := ADir])
  {
    hide NextMessage, Announce, TimeMessage, Parse, Join, ValidTrees;
    MessageRead(times, t.mtime, LETTER_D, t.mode, 0, t.name, rest);
    AnnounceLine(LETTER_D, t.mode, 0, t.name);
    ParsedBack(LETTER_D, t.mode, 0, t.name);
    JoinName(dest, t.name);
    assert Announce(LETTER_D, t.mode, 0, t.name)[0] == LETTER_D;
    assert Parent(dest + [t.name]) == dest;
  }

  lemma EndTurn(rest: Data, numDirs: nat, dest: Path, d: Disk)
    requires numDirs > 0
    ensures Upload([LETTER_E, NEWLINE] + rest, numDirs, dest, d)
         == if numDirs == 1 then Done(d, rest) else Upload(rest, numDirs - 1, Parent(dest), d)
  {
    LineOf([LETTER_E], rest);
    assert [LETTER_E, NEWLINE] + rest == [LETTER_E] + [NEWLINE] + rest;
  }

  // ---- what a tree looks like on disk ----

  function Get(d: Disk, p: Path): Option<Entry> {
    if p in d then Some(d[p]) else None
  }

  /** The child of that name. */
  function Find(ts: seq<Tree>, name: Data): Option<Tree> {
    if ts == [] then None else if ts[0].name == name then Some(ts[0]) else Find(ts[1..], name)
  }

  /** What lies at a path inside a tree. */
  function Lookup(t: Tree, rel: Path): Option<Entry>
    decreases |rel|
  {
    if rel == [] then Some(if t.File? then AFile(t.content) else ADir)
    else if t.File? then None
    else
      var c := Find(t.children, rel[0]);
      if c.None? then None else Lookup(c.value, rel[1..])
  }

  /** Files and directories made one after the other, in the order of the messages. */
  function Create(d: Disk, t: Tree, dest: Path): Disk
    decreases t
  {
    var p := dest + [t.name];
    if t.File? then d[p := AFile(t.content)]
    else CreateDirs(CreateFiles(d[p := ADir], t.children, p), t.children, p)
  }

  function CreateFiles(d: Disk, ts: seq<Tree>, dest: Path): Disk
    decreases ts
  {
    if ts == [] then d else CreateFiles(if ts[0].File? then Create(d, ts[0], dest) else d, ts[1..], dest)
  }

  function CreateDirs(d: Disk, ts: seq<Tree>, dest: Path): Disk
    decreases ts
  {
    if ts == [] then d else CreateDirs(if ts[0].Dir? then Create(d, ts[0], dest) else d, ts[1..], dest)
  }

  /** Nothing is there yet, at or below the path. */
  ghost predicate Free(d: Disk, p: Path) {
    forall q :: q in d ==> !(p <= q)
  }

  /** The child of the directory at `dest` through which a path goes. */
  function Through(ts: seq<Tree>, dest: Path, p: Path): Option<Tree> {
    if dest < p then Find(ts, p[|dest|]) else None
  }

  /** Nothing is there yet of these children, or at least of the directories among them. */
  ghost predicate FreeFor(d: Disk, dest: Path, ts: seq<Tree>, dirsOnly: bool) {
    forall q :: q in d ==> var t := Through(ts, dest, q); t.None? || (dirsOnly && t.value.File?)
  }

  lemma {:induction false} FoundOnce(ts: seq<Tree>, name: Data)
    requires ValidTrees(ts)
    ensures Find(ts, name).Some? ==> Find(ts, name).value in ts && Find(ts, name).value.name == name
    ensures ts != [] ==> Find(ts[1..], ts[0].name).None? && ValidTree(ts[0]) && ValidTrees(ts[1..])
  {
    if ts != [] {
      FoundOnce(ts[1..], name);
      if Find(ts[1..], ts[0].name).Some? {
        FoundOnce(ts[1..], ts[0].name);
      }
    }
  }

  lemma {:induction false} FilesAt(d: Disk, ts: seq<Tree>, dest: Path, p: Path)
    requires ValidTrees(ts) && FreeFor(d, dest, ts, false)
    ensures var t := Through(ts, dest, p);
      Get(CreateFiles(d, ts, dest), p) == if t.Some? && t.value.File? then Lookup(t.value, p[|dest| + 1..]) else Get(d, p)
    decreases ts
  {
    if ts != [] {
      var t, rest := ts[0], ts[1..];
      FoundOnce(ts, t.name);
      var d' := if t.File? then Create(d, t, dest) else d;
      FilesAt(d', rest, dest, p);
      if dest < p && |p| == |dest| + 1 {
        assert p == dest + [p[|dest|]];
      }
    }
  }

  lemma {:induction false} DirsAt(d: Disk, ts: seq<Tree>, dest: Path, p: Path)
    requires ValidTrees(ts) && FreeFor(d, dest, ts, true)
    ensures var t := Through(ts, dest, p);
      Get(CreateDirs(d, ts, dest), p) == if t.Some? && t.value.Dir? then Lookup(t.value, p[|dest| + 1..]) else Get(d, p)
    decreases ts
  {
    if ts != [] {
      var t, rest := ts[0], ts[1..];
      FoundOnce(ts, t.name);
      var d' := if t.Dir? then Create(d, t, dest) else d;
      if t.Dir? {
        OneFree(d, ts, dest);
        TreeAt(d, t, dest, p);
        forall q | q in d' ensures q in d || dest + [t.name] <= q {
          TreeAt(d, t, dest, q);
          assert Get(d', q).Some?;
        }
      }
      RestFree(d, d', ts, dest);
      DirsAt(d', rest, dest, p);
      Goes(dest, t.name, p);
    }
  }

  lemma Goes(dest: Path, name: Data, p: Path)
    ensures dest + [name] <= p <==> dest < p && p[|dest|] == name
  {
  }

  lemma OneFree(d: Disk, ts: seq<Tree>, dest: Path)
    requires ts != [] && ts[0].Dir? && FreeFor(d, dest, ts, true)
    ensures Free(d, dest + [ts[0].name])
  {
    forall q | q in d ensures !(dest + [ts[0].name] <= q) {
      Goes(dest, ts[0].name, q);
      assert Through(ts, dest, q).None? || Through(ts, dest, q).value.File?;
    }
  }

  lemma RestFree(d: Disk, d': Disk, ts: seq<Tree>, dest: Path)
    requires ValidTrees(ts) && ts != [] && FreeFor(d, dest, ts, true)
    requires forall q :: q in d' ==> q in d || dest + [ts[0].name] <= q
    ensures FreeFor(d', dest, ts[1..], true)
  {
    FoundOnce(ts, ts[0].name);
    forall q | q in d' ensures var t := Through(ts[1..], dest, q); t.None? || t.value.File? {
      Goes(dest, ts[0].name, q);
      if q in d {
        assert Through(ts, dest, q).None? || Through(ts, dest, q).value.File?;
      }
    }
  }

  /** Creating a tree puts at each path below its own what the tree has there, and changes nothing else. */
  lemma {:induction false} TreeAt(d: Disk, t: Tree, dest: Path, p: Path)
    requires ValidTree(t) && Free(d, dest + [t.name])
    ensures Get(Create(d, t, dest), p) == if dest + [t.name] <= p then Lookup(t, p[|dest| + 1..]) else Get(d, p)
    decreases t
  {
    var q := dest + [t.name];
    if t.Dir? {
      var d1 := d[q := ADir];
      assert FreeFor(d1, q, t.children, false);
      var d2 := CreateFiles(d1, t.children, q);
      FilesLeaveDirs(d1, d2, t.children, q);
      DirsAt(d2, t.children, q, p);
      FilesAt(d1, t.children, q, p);
      if q <= p {
        var rel := p[|q|..];
        assert rel != [] ==> q < p && rel[0] == p[|q|] && rel[1..] == p[|q| + 1..];
        assert rel == [] ==> p == q;
      }
    } else if q <= p {
      assert p[|q|..] == [] <==> p == q;
    }
  }

  lemma FilesLeaveDirs(d: Disk, d': Disk, ts: seq<Tree>, dest: Path)
    requires ValidTrees(ts) && FreeFor(d, dest, ts, false) && d' == CreateFiles(d, ts, dest)
    ensures FreeFor(d', dest, ts, true)
  {
    forall q | q in d' ensures var t := Through(ts, dest, q); t.None? || t.value.File? {
      FilesAt(d, ts, dest, q);
      assert Get(d', q).Some?;
      if q in d {
        assert Through(ts, dest, q).None?;
      }
    }
  }

  // ---- the uploader on the downloader's stream ----

  lemma {:induction false} RunFiles(ts: seq<Tree>, times: bool, rest: Data, numDirs: nat, dest: Path, d: Disk)
    requires ValidTrees(ts) && FreeFor(d, dest, ts, false) && IsDirAt(d, dest) && numDirs > 0
    ensures Upload(SendFiles(ts, times) + rest, numDirs, dest, d) == Upload(rest, numDirs, dest, CreateFiles(d, ts, dest))
    ensures IsDirAt(CreateFiles(d, ts, dest), dest)
    decreases ts
  {
    hide Upload;
    FilesAt(d, ts, dest, dest);
    assert Through(ts, dest, dest).None?;
    if ts == [] {
      assert SendFiles(ts, times) + rest == rest;
    } else {
      var t := ts[0];
      var more := SendFiles(ts[1..], times) + rest;
      FoundOnce(ts, t.name);
      var d' := if t.File? then Create(d, t, dest) else d;
      if t.File? {
        assert SendFiles(ts, times) + rest == Send(t, times) + more;
        Goes(dest, t.name, dest + [t.name]);
        assert Through(ts, dest, dest + [t.name]).Some?;
        FileTurn(t, times, more, numDirs, dest, d);
      } else {
        assert SendFiles(ts, times) + rest == more;
      }
      RunFiles(ts[1..], times, rest, numDirs, dest, d');
    }
  }

  lemma {:induction false} RunDirs(ts: seq<Tree>, times: bool, rest: Data, numDirs: nat, dest: Path, d: Disk)
    requires ValidTrees(ts) && FreeFor(d, dest, ts, true) && IsDirAt(d, dest) && numDirs > 0
    ensures Upload(SendDirs(ts, times) + rest, numDirs, dest, d) == Upload(rest, numDirs, dest, CreateDirs(d, ts, dest))
    decreases ts
  {
    hide Upload;
    if ts == [] {
      assert SendDirs(ts, times) + rest == rest;
    } else {
      var t := ts[0];
      var more := SendDirs(ts[1..], times) + rest;
      FoundOnce(ts, t.name);
      var d' := if t.Dir? then Create(d, t, dest) else d;
      if t.Dir? {
        OneFree(d, ts, dest);
        assert SendDirs(ts, times) + rest == Send(t, times) + more;
        RunTree(t, times, more, numDirs, dest, d);
        StillDir(d, t, dest);
        forall q | q in d' ensures q in d || dest + [t.name] <= q {
          TreeAt(d, t, dest, q);
          assert Get(d', q).Some?;
        }
      } else {
        assert SendDirs(ts, times) + rest == more;
      }
      RestFree(d, d', ts, dest);
      RunDirs(ts[1..], times, rest, numDirs, dest, d');
    }
  }

  lemma StillDir(d: Disk, t: Tree, dest: Path)
    requires ValidTree(t) && Free(d, dest + [t.name]) && IsDirAt(d, dest)
    ensures IsDirAt(Create(d, t, dest), dest)
  {
    TreeAt(d, t, dest, dest);
    assert !(dest + [t.name] <= dest);
  }

  lemma DirMessages(t: Tree, times: bool, rest: Data)
    requires t.Dir?
    ensures Send(t, times) + rest
         == TimeMessage(times, t.mtime) + (Announce(LETTER_D, t.mode, 0, t.name) + [NEWLINE]
            + (SendFiles(t.children, times) + (SendDirs(t.children, times) + ([LETTER_E, NEWLINE] + rest))))
  {
    hide SendFiles, SendDirs, Announce, TimeMessage;
  }

  lemma NewDirEmpty(d: Disk, p: Path, ts: seq<Tree>)
    requires Free(d, p)
    ensures FreeFor(d[p := ADir], p, ts, false)
  {
  }

  /** The messages of one tree make the uploader create that tree, and leave it where it was. */
  lemma {:induction false} RunTree(t: Tree, times: bool, rest: Data, numDirs: nat, dest: Path, d: Disk)
    requires ValidTree(t) && Free(d, dest + [t.name]) && IsDirAt(d, dest)
    ensures Upload(Send(t, times) + rest, numDirs, dest, d)
         == if numDirs == 0 then Done(Create(d, t, dest), rest) else Upload(rest, numDirs, dest, Create(d, t, dest))
    decreases t
  {
    hide Upload, Send, SendFiles, SendDirs, CreateFiles, CreateDirs, ValidTrees, Announce, TimeMessage, Through;
    var p := dest + [t.name];
    assert p !in d && p != [];
    if t.File? {
      FileTurn(t, times, rest, numDirs, dest, d);
    } else {
      var d1 := d[p := ADir];
      var d2 := CreateFiles(d1, t.children, p);
      var end := [LETTER_E, NEWLINE] + rest;
      var files, dirs := SendFiles(t.children, times), SendDirs(t.children, times);
      DirMessages(t, times, rest);
      DirTurn(t, times, files + (dirs + end), numDirs, dest, d);
      NewDirEmpty(d, p, t.children);
      RunFiles(t.children, times, dirs + end, numDirs + 1, p, d1);
      FilesLeaveDirs(d1, d2, t.children, p);
      RunDirs(t.children, times, end, numDirs + 1, p, d2);
      EndTurn(rest, numDirs + 1, p, CreateDirs(d2, t.children, p));
      assert Parent(p) == dest;
    }
  }

  /**
   * The uploader run on what the downloader sends for a directory tree stops at the root directory's end message,
   * having read nothing past it, and the disk then holds the tree: at every path below its place what the tree
   * has there, and everywhere else what it held before.
   */
  lemma TreeRecreated(t: Tree, times: bool, rest: Data, dest: Path, d: Disk)
    requires ValidTree(t) && t.Dir? && Free(d, dest + [t.name]) && IsDirAt(d, dest)
    ensures var r := Upload(Send(t, times) + rest, 0, dest, d);
      && r.Done? && r.rest == rest
      && forall p :: Get(r.disk, p) == if dest + [t.name] <= p then Lookup(t, p[|dest| + 1..]) else Get(d, p)
  {
    hide Upload, Create, Send;
    RunTree(t, times, rest, 0, dest, d);
    forall p ensures Get(Create(d, t, dest), p) == if dest + [t.name] <= p then Lookup(t, p[|dest| + 1..]) else Get(d, p) {
      TreeAt(d, t, dest, p);
    }
  }

  /** Downloading a tree and uploading what was sent copies it. */
  method CopyTree(t: Tree, times: bool, dest: Path, d: Disk) returns (r: Outcome)
    requires ValidTree(t) && t.Dir? && Free(d, dest + [t.name]) && IsDirAt(d, dest)
    ensures r.Done? && r.rest == []
    ensures forall p :: Get(r.disk, p) == if dest + [t.name] <= p then Lookup(t, p[|dest| + 1..]) else Get(d, p)
  {
    hide Upload, Send, Create, ValidTree;
    var sent := Download(t, times);
    var ch := new Channel(sent);
    r := HandleUpload(ch, dest, d);
    TreeRecreated(t, times, [], dest, d);
    assert Send(t, times) + [] == sent;
  }
}
