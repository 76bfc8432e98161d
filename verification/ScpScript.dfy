/**
 * What streams the SCP uploader accepts (`serv/scp.go`): exactly the scripts,
 * sequences of well-formed messages that come back to the top at their last
 * message and nowhere before, and it does on disk what the script says.
 */
module ScpScript {
  import opened Bytes
  import opened Options
  import opened Paths
  import opened Scp

  /** The size is text, as it stands in the message; a file is followed by its contents and a confirmation byte. */
  datatype Message =
    | Times(text: Data)
    | End(text: Data)
    | NewDir(mode: Data, size: Data, name: Data)
    | NewFile(mode: Data, size: Data, name: Data, content: Data, confirm: byte)

  function Words(letter: byte, mode: Data, size: Data, name: Data): Data {
    [letter] + mode + [SPACE] + size + [SPACE] + name
  }

  /** A message in the stream. */
  function Text(m: Message): Data {
    match m
    case Times(text) => [LETTER_T] + text + [NEWLINE]
    case End(text) => [LETTER_E] + text + [NEWLINE]
    case NewDir(mode, size, name) => Words(LETTER_D, mode, size, name) + [NEWLINE]
    case NewFile(mode, size, name, content, confirm) => Words(LETTER_C, mode, size, name) + [NEWLINE] + (content + [confirm])
  }

  /** A word of a message. */
  predicate IsWord(w: Data) {
    SPACE !in w && NEWLINE !in w
  }

  predicate Spelled(mode: Data, size: Data, name: Data) {
    IsWord(mode) && IsWord(size) && IsWord(name) && name != [] && ParseInt(size).Some?
  }

  predicate Proper(m: Message) {
    match m
    case Times(text) => NEWLINE !in text
    case End(text) => NEWLINE !in text
    case NewDir(mode, size, name) => Spelled(mode, size, name)
    case NewFile(mode, size, name, content, confirm) =>
      && Spelled(mode, size, name) && confirm != 1 && confirm != 2
      && |content| == if ParseInt(size).value > 0 then ParseInt(size).value else 0
  }

  function Stream(ms: seq<Message>): Data {
    if ms == [] then [] else Text(ms[0]) + Stream(ms[1..])
  }

  predicate AllProper(ms: seq<Message>) {
    forall i :: 0 <= i < |ms| ==> Proper(ms[i])
  }

  /** The disk when the messages are over, if each can be followed and only the last one leads back to the top. */
  function Plays(ms: seq<Message>, depth: int, dest: Path, d: Disk): Option<Disk>
    decreases |ms|, 0
  {
    if ms == [] then None
    else
      match ms[0]
      case Times(_) => Plays(ms[1..], depth, dest, d)
      case End(_) => PlaysOn(ms[1..], depth - 1, Parent(dest), d)
      case NewDir(_, _, name) =>
        var p := Join(dest, name);
        if MkDir(d, p).None? then None else PlaysOn(ms[1..], depth + 1, p, MkDir(d, p).value)
      case NewFile(_, _, name, content, _) =>
        var p := Join(dest, name);
        if CanWrite(d, p) then PlaysOn(ms[1..], depth, dest, d[p := AFile(content)]) else None
  }

  function PlaysOn(ms: seq<Message>, depth: int, dest: Path, d: Disk): Option<Disk>
    decreases |ms|, 1
  {
    if depth != 0 then Plays(ms, depth, dest, d) else if ms == [] then Some(d) else None
  }

  // ---- reading messages back ----

  lemma {:induction false} LineIs(s: Data)
    requires Line(s).Some?
    ensures s == Line(s).value.0 + [NEWLINE] + Line(s).value.1 && NEWLINE !in Line(s).value.0
    decreases |s|
  {
    if s[0] != NEWLINE {
      LineIs(s[1..]);
      assert s == [s[0]] + s[1..];
    }
  }

  /** The pieces with the separators between them again. */
  function Unsplit(parts: seq<Data>, sep: byte): Data
    requires parts != []
  {
    if |parts| == 1 then parts[0] else parts[0] + [sep] + Unsplit(parts[1..], sep)
  }

  predicate NoneHas(parts: seq<Data>, sep: byte) {
    forall i :: 0 <= i < |parts| ==> sep !in parts[i]
  }

  lemma {:induction false} SplitIs(s: Data, sep: byte)
    ensures Unsplit(Split(s, sep), sep) == s && NoneHas(Split(s, sep), sep)
    decreases |s|
  {
    if s != [] {
      SplitIs(s[1..], sep);
      var more, parts := Split(s[1..], sep), Split(s, sep);
      assert s == [s[0]] + s[1..];
      if s[0] == sep {
        assert parts[1..] == more;
      } else {
        assert parts[1..] == more[1..];
      }
    }
  }

  lemma ThreeParts(m: Data)
    requires |Split(m, SPACE)| == 3
    ensures var p := Split(m, SPACE); m == p[0] + [SPACE] + p[1] + [SPACE] + p[2] && NoneHas(p, SPACE)
  {
    SplitIs(m, SPACE);
    var p := Split(m, SPACE);
    assert p[1..] == [p[1], p[2]] && p[1..][1..] == [p[2]];
    assert Unsplit(p, SPACE) == p[0] + [SPACE] + Unsplit(p[1..], SPACE);
    assert Unsplit(p[1..], SPACE) == p[1] + [SPACE] + Unsplit([p[2]], SPACE);
  }

  lemma FirstByte(a: Data, sep: byte, b: Data)
    ensures (a + [sep] + b)[0] == if a == [] then sep else a[0]
  {
  }

  /** A message that parses has three words, the second a number, the third the name. */
  lemma ParsedIs(m: Data) returns (mode: Data, size: Data)
    requires Parse(m).Some? && NEWLINE !in m
    ensures var name := Parse(m).value.1;
      && m == Words(m[0], mode, size, name) && (m[0] == LETTER_C || m[0] == LETTER_D)
      && Spelled(mode, size, name) && ParseInt(size) == Some(Parse(m).value.0)
  {
    hide Split, ParseInt;
    ThreeParts(m);
    var p := Split(m, SPACE);
    assert m == p[0] + [SPACE] + (p[1] + [SPACE] + p[2]);
    FirstByte(p[0], SPACE, p[1] + [SPACE] + p[2]);
    assert m[0] == p[0][0];
    mode, size := p[0][1..], p[1];
    assert p[0] == [m[0]] + mode;
    assert forall x :: x in p[0] || x in p[1] || x in p[2] ==> x in m;
  }

  /** Which message it is, by its letter. */
  predicate Begins(m: Data, letter: byte) {
    && ([LETTER_T] <= m <==> letter == LETTER_T) && ([LETTER_E] <= m <==> letter == LETTER_E)
    && ([LETTER_D] <= m <==> letter == LETTER_D) && ([LETTER_C] <= m <==> letter == LETTER_C)
  }

  lemma OneLetter(m: Data, letter: byte)
    requires [letter] <= m
    ensures Begins(m, letter)
  {
    assert m[0] == letter;
  }

  lemma WordsParse(letter: byte, mode: Data, size: Data, name: Data)
    requires (letter == LETTER_C || letter == LETTER_D) && Spelled(mode, size, name)
    ensures Parse(Words(letter, mode, size, name)) == Some((ParseInt(size).value, name))
    ensures NEWLINE !in Words(letter, mode, size, name) && Begins(Words(letter, mode, size, name), letter)
  {
    hide ParseInt;
    var a := [letter] + mode;
    assert Words(letter, mode, size, name) == a + [SPACE] + (size + [SPACE] + name);
    SplitFirst(a, SPACE, size + [SPACE] + name);
    SplitFirst(size, SPACE, name);
    SplitNone(name, SPACE);
    OneLetter(Words(letter, mode, size, name), letter);
  }

  // ---- scripts are accepted ----

  lemma TimeIsSkipped(text: Data, rest: Data, depth: int, dest: Path, d: Disk)
    requires NEWLINE !in text
    ensures Upload([LETTER_T] + text + [NEWLINE] + rest, depth, dest, d) == Upload(rest, depth, dest, d)
  {
    LineOf([LETTER_T] + text, rest);
  }

  lemma EndIsRead(text: Data, rest: Data, depth: int, dest: Path, d: Disk)
    requires NEWLINE !in text
    ensures Upload([LETTER_E] + text + [NEWLINE] + rest, depth, dest, d)
         == if depth - 1 == 0 then Done(d, rest) else Upload(rest, depth - 1, Parent(dest), d)
  {
    LineOf([LETTER_E] + text, rest);
  }

  lemma WordsRead(letter: byte, mode: Data, size: Data, name: Data, rest: Data)
    requires (letter == LETTER_C || letter == LETTER_D) && Spelled(mode, size, name)
    ensures NextMessage(Words(letter, mode, size, name) + [NEWLINE] + rest) == Some((Words(letter, mode, size, name), rest))
  {
    hide Words, Parse;
    WordsParse(letter, mode, size, name);
    LineOf(Words(letter, mode, size, name), rest);
  }

  lemma DirIsRead(mode: Data, size: Data, name: Data, rest: Data, depth: int, dest: Path, d: Disk)
    requires Spelled(mode, size, name) && MkDir(d, Join(dest, name)).Some?
    ensures var p := Join(dest, name); var e := MkDir(d, p).value;
      Upload(Words(LETTER_D, mode, size, name) + [NEWLINE] + rest, depth, dest, d)
        == if depth + 1 == 0 then Done(e, rest) else Upload(rest, depth + 1, p, e)
  {
    hide Words, Parse, NextMessage, Join, MkDir;
    WordsRead(LETTER_D, mode, size, name, rest);
    WordsParse(LETTER_D, mode, size, name);
  }

  lemma FileIsRead(m: Message, rest: Data, depth: int, dest: Path, d: Disk)
    requires m.NewFile? && Proper(m) && CanWrite(d, Join(dest, m.name))
    ensures var e := d[Join(dest, m.name) := AFile(m.content)];
      Upload(Text(m) + rest, depth, dest, d) == if depth == 0 then Done(e, rest) else Upload(rest, depth, dest, e)
  {
    hide Words, Parse, NextMessage, Join, CanWrite, ParseInt;
    var after := m.content + [m.confirm] + rest;
    assert Text(m) + rest == Words(LETTER_C, m.mode, m.size, m.name) + [NEWLINE] + after;
    WordsRead(LETTER_C, m.mode, m.size, m.name, after);
    WordsParse(LETTER_C, m.mode, m.size, m.name);
    var n := |m.content|;
    assert after[..n] == m.content && after[n] == m.confirm && after[n + 1..] == rest;
  }

  /** The uploader follows every script to its end, reads nothing past it, and leaves what the script says. */
  lemma {:induction false} ScriptAccepted(ms: seq<Message>, rest: Data, depth: int, dest: Path, d: Disk)
    requires AllProper(ms) && Plays(ms, depth, dest, d).Some?
    ensures Upload(Stream(ms) + rest, depth, dest, d) == Done(Plays(ms, depth, dest, d).value, rest)
    decreases |ms|, 0
  {
    hide Upload, Words, Join, MkDir, CanWrite, Spelled, ParseInt;
    var m, more := ms[0], ms[1..];
    var after := Stream(more) + rest;
    assert Stream(ms) + rest == Text(m) + after;
    assert Proper(m);
    match m {
      case Times(text) =>
        TimeIsSkipped(text, after, depth, dest, d);
        ScriptAccepted(more, rest, depth, dest, d);
      case End(text) =>
        EndIsRead(text, after, depth, dest, d);
        ScriptGoesOn(more, rest, depth - 1, Parent(dest), d);
      case NewDir(mode, size, name) =>
        DirIsRead(mode, size, name, after, depth, dest, d);
        ScriptGoesOn(more, rest, depth + 1, Join(dest, name), MkDir(d, Join(dest, name)).value);
      case NewFile(_, _, name, content, _) =>
        FileIsRead(m, after, depth, dest, d);
        ScriptGoesOn(more, rest, depth, dest, d[Join(dest, name) := AFile(content)]);
    }
  }

  lemma {:induction false} ScriptGoesOn(ms: seq<Message>, rest: Data, depth: int, dest: Path, d: Disk)
    requires AllProper(ms) && PlaysOn(ms, depth, dest, d).Some?
    ensures (if depth == 0 then Done(d, Stream(ms) + rest) else Upload(Stream(ms) + rest, depth, dest, d))
         == Done(PlaysOn(ms, depth, dest, d).value, rest)
    decreases |ms|, 1
  {
    hide Upload, Plays;
    if depth == 0 {
      assert Stream(ms) + rest == rest;
    } else {
      ScriptAccepted(ms, rest, depth, dest, d);
    }
  }

  // ---- nothing else is ----

  /** What the uploader has accepted begins with a script, and what follows it is what it has not read. */
  lemma {:induction false} AcceptedIsScript(s: Data, depth: int, dest: Path, d: Disk) returns (ms: seq<Message>)
    requires Upload(s, depth, dest, d).Done?
    ensures Tells(ms, s, depth, dest, d, Upload(s, depth, dest, d))
    decreases |s|, 1
  {
    HasLine(s, depth, dest, d);
    hide Upload, Tells, Line;
    var l := Line(s).value.0;
    if [LETTER_T] <= l {
      ms := AcceptedTime(s, depth, dest, d);
    } else if [LETTER_E] <= l {
      ms := AcceptedEnd(s, depth, dest, d);
    } else if [LETTER_D] <= l {
      ms := AcceptedDir(s, depth, dest, d);
    } else {
      ms := AcceptedFile(s, depth, dest, d);
    }
  }

  /** The messages are what was read of the stream, and lead to this outcome. */
  predicate Tells(ms: seq<Message>, s: Data, depth: int, dest: Path, d: Disk, r: Outcome) {
    r.Done? && AllProper(ms) && s == Stream(ms) + r.rest && Plays(ms, depth, dest, d) == Some(r.disk)
  }

  lemma HasLine(s: Data, depth: int, dest: Path, d: Disk)
    requires Upload(s, depth, dest, d).Done?
    ensures Line(s).Some?
  {
    hide Line, Parse, MkDir, Join, CanWrite;
  }

  lemma {:induction false} AcceptedTime(s: Data, depth: int, dest: Path, d: Disk) returns (ms: seq<Message>)
    requires Upload(s, depth, dest, d).Done? && Line(s).Some? && [LETTER_T] <= Line(s).value.0
    ensures Tells(ms, s, depth, dest, d, Upload(s, depth, dest, d))
    decreases |s|, 0
  {
    hide Upload;
    var l := Line(s).value;
    LineIs(s);
    var text := l.0[1..];
    assert l.0 == [LETTER_T] + text && s == Text(Times(text)) + l.1;
    hide Text, Stream, Line;
    TimeIsSkipped(text, l.1, depth, dest, d);
    assert Proper(Times(text));
    var more := AcceptedIsScript(l.1, depth, dest, d);
    ms := [Times(text)] + more;
    StreamOf(Times(text), more, Upload(s, depth, dest, d).rest);
  }

  lemma {:induction false} AcceptedEnd(s: Data, depth: int, dest: Path, d: Disk) returns (ms: seq<Message>)
    requires Upload(s, depth, dest, d).Done? && Line(s).Some? && [LETTER_E] <= Line(s).value.0
    ensures Tells(ms, s, depth, dest, d, Upload(s, depth, dest, d))
    decreases |s|, 0
  {
    hide Upload;
    var l := Line(s).value;
    LineIs(s);
    var text := l.0[1..];
    assert l.0 == [LETTER_E] + text && s == Text(End(text)) + l.1;
    hide Text, Stream, Line;
    EndIsRead(text, l.1, depth, dest, d);
    assert Proper(End(text));
    var more := Goes(l.1, depth - 1, Parent(dest), d);
    ms := [End(text)] + more;
    StreamOf(End(text), more, Upload(s, depth, dest, d).rest);
  }

  lemma StreamOf(m: Message, ms: seq<Message>, rest: Data)
    ensures Stream([m] + ms) + rest == Text(m) + (Stream(ms) + rest) && ([m] + ms)[1..] == ms && ([m] + ms)[0] == m
    ensures Proper(m) && AllProper(ms) ==> AllProper([m] + ms)
  {
    assert ([m] + ms)[1..] == ms;
  }

  /** The rest of an accepted stream, after one message. */
  lemma {:induction false} Goes(s: Data, depth: int, dest: Path, d: Disk) returns (ms: seq<Message>)
    requires depth != 0 ==> Upload(s, depth, dest, d).Done?
    ensures var r := if depth == 0 then Done(d, s) else Upload(s, depth, dest, d);
      AllProper(ms) && s == Stream(ms) + r.rest && PlaysOn(ms, depth, dest, d) == Some(r.disk)
    decreases |s|, 2
  {
    hide Upload, Plays;
    if depth == 0 {
      ms := [];
    } else {
      ms := AcceptedIsScript(s, depth, dest, d);
    }
  }

  lemma DirNeeds(s: Data, depth: int, dest: Path, d: Disk)
    requires Upload(s, depth, dest, d).Done? && Line(s).Some? && [LETTER_D] <= Line(s).value.0
    ensures var x := Parse(Line(s).value.0); x.Some? && MkDir(d, Join(dest, x.value.1)).Some?
  {
    hide Line, Parse, MkDir, Join;
    OneLetter(Line(s).value.0, LETTER_D);
  }

  lemma {:induction false} AcceptedDir(s: Data, depth: int, dest: Path, d: Disk) returns (ms: seq<Message>)
    requires Upload(s, depth, dest, d).Done? && Line(s).Some? && [LETTER_D] <= Line(s).value.0
    ensures Tells(ms, s, depth, dest, d, Upload(s, depth, dest, d))
    decreases |s|, 0
  {
    hide Upload, Parse, Join, MkDir, ParseInt, Spelled, Words, Line;
    var l := Line(s).value;
    LineIs(s);
    DirNeeds(s, depth, dest, d);
    var mode, size := ParsedIs(l.0);
    var name := Parse(l.0).value.1;
    var p := Join(dest, name);
    DirIsRead(mode, size, name, l.1, depth, dest, d);
    hide Stream;
    var more := Goes(l.1, depth + 1, p, MkDir(d, p).value);
    var m := NewDir(mode, size, name);
    ms := [m] + more;
    StreamOf(m, more, Upload(s, depth, dest, d).rest);
  }

  lemma FileNeeds(s: Data, depth: int, dest: Path, d: Disk)
    requires Upload(s, depth, dest, d).Done? && Line(s).Some?
    requires !([LETTER_T] <= Line(s).value.0) && !([LETTER_E] <= Line(s).value.0) && !([LETTER_D] <= Line(s).value.0)
    ensures var x := Parse(Line(s).value.0);
      && x.Some? && [LETTER_C] <= Line(s).value.0 && CanWrite(d, Join(dest, x.value.1))
      && TakeFile(Line(s).value.1, x.value.0).Some?
  {
    hide Line, Split, CanWrite, Join, ParseInt, TakeFile, Received;
  }

  lemma {:induction false} AcceptedFile(s: Data, depth: int, dest: Path, d: Disk) returns (ms: seq<Message>)
    requires Upload(s, depth, dest, d).Done? && Line(s).Some?
    requires !([LETTER_T] <= Line(s).value.0) && !([LETTER_E] <= Line(s).value.0) && !([LETTER_D] <= Line(s).value.0)
    ensures Tells(ms, s, depth, dest, d, Upload(s, depth, dest, d))
    decreases |s|, 0
  {
    hide Upload, Parse, Join, CanWrite, ParseInt, Spelled, Words, Line;
    var l := Line(s).value;
    LineIs(s);
    FileNeeds(s, depth, dest, d);
    var mode, size := ParsedIs(l.0);
    var name := Parse(l.0).value.1;
    var f := TakeFile(l.1, Parse(l.0).value.0).value;
    var n := |f.0|;
    var m := NewFile(mode, size, name, f.0, l.1[n]);
    assert l.1 == f.0 + [l.1[n]] + f.1;
    assert s == Text(m) + f.1 && Proper(m);
    hide Text, Stream, TakeFile, Proper;
    FileIsRead(m, f.1, depth, dest, d);
    var more := Goes(f.1, depth, dest, d[Join(dest, name) := AFile(f.0)]);
    ms := [m] + more;
    StreamOf(m, more, Upload(s, depth, dest, d).rest);
  }
}
