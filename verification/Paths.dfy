/**
 * Clean absolute paths as the sequence of their components: "/" is the empty
 * sequence. The lemmas tie the tests that `request-example.go` makes on path
 * strings to the component view.
 */
module Paths {
  import opened Bytes

  type Path = seq<Data>

  const SLASH: byte := 47
  const DOT: Data := [46]
  const DOT_DOT: Data := [46, 46]

  predicate ValidName(n: Data) {
    n != [] && SLASH !in n
  }

  ghost predicate ValidPath(p: Path) {
    forall i :: 0 <= i < |p| ==> ValidName(p[i])
  }

  function Parent(p: Path): Path {
    if p == [] then [] else p[..|p| - 1]
  }

  /** "/a/b" for the components a and b; nothing for the root, whose string is "/". */
  function Text(p: Path): Data {
    if p == [] then [] else Text(p[..|p| - 1]) + [SLASH] + p[|p| - 1]
  }

  /** The name a directory goes by. */
  function NameText(p: Path): Data {
    if p == [] then [SLASH] else Text(p)
  }

  /** Where a path goes when the subtree at `from` is moved to `to`. */
  function Rebase(p: Path, from: Path, to: Path): Path {
    if from <= p then to + p[|from|..] else p
  }

  lemma {:induction false} TextCat(p: Path, q: Path)
    ensures Text(p + q) == Text(p) + Text(q)
  {
    if q == [] {
      assert p + q == p;
    } else {
      TextCat(p, q[..|q| - 1]);
      assert (p + q)[..|p + q| - 1] == p + q[..|q| - 1];
    }
  }

  /** The characters up to the first slash. */
  function Head(s: Data): Data {
    if s == [] || s[0] == SLASH then [] else [s[0]] + Head(s[1..])
  }

  lemma {:induction false} HeadOfName(n: Data, rest: Data)
    requires SLASH !in n && (rest == [] || rest[0] == SLASH)
    ensures Head(n + rest) == n
  {
    if n == [] {
      assert n + rest == rest;
    } else {
      assert n[0] in n;
      HeadOfName(n[1..], rest);
      assert (n + rest)[1..] == n[1..] + rest;
    }
  }

  lemma TextStart(p: Path)
    requires p != []
    ensures Text(p) == [SLASH] + p[0] + Text(p[1..])
  {
    TextCat([p[0]], p[1..]);
    assert [p[0]] + p[1..] == p;
    var one: Path := [p[0]];
    assert one[..0] == [];
    assert Text([p[0]]) == Text([]) + [SLASH] + p[0];
    assert Text([p[0]]) == [SLASH] + p[0];
  }

  lemma TextSlash(p: Path)
    ensures p != [] ==> Text(p) != [] && Text(p)[0] == SLASH
  {
    if p != [] {
      TextStart(p);
    }
  }

  /**
   * `strings.HasPrefix(name, dir + "/")` holds exactly for the names below the directory, except that it holds for
   * none when the directory is the root: no name begins with two slashes.
   */
  lemma {:induction false} PrefixIsSubtree(dir: Path, p: Path)
    requires ValidPath(dir) && ValidPath(p)
    ensures NameText(dir) + [SLASH] <= Text(p) <==> dir != [] && dir < p
    decreases dir
  {
    if dir == [] {
      if p != [] {
        TextStart(p);
        assert ValidName(p[0]);
        assert p[0][0] in p[0];
        assert Text(p)[1] == p[0][0];
      }
      return;
    }
    if dir < p {
      var rest := p[|dir|..];
      assert dir + rest == p;
      TextCat(dir, rest);
      TextStart(rest);
    }
    if Text(dir) + [SLASH] <= Text(p) {
      Prefixes(dir, p);
    }
  }

  lemma SameHead(x: Data, a: Data, y: Data, b: Data)
    requires SLASH !in x && SLASH !in y && (a == [] || a[0] == SLASH) && (b == [] || b[0] == SLASH) && x + a == y + b
    ensures x == y && a == b
  {
    HeadOfName(x, a);
    HeadOfName(y, b);
    assert a == (x + a)[|x|..] && b == (y + b)[|y|..];
  }

  lemma {:induction false} Prefixes(dir: Path, p: Path)
    requires ValidPath(dir) && ValidPath(p) && Text(dir) + [SLASH] <= Text(p)
    ensures dir < p
    decreases dir
  {
    assert p != [];
    if dir != [] {
      hide Text;
      TextStart(dir);
      TextStart(p);
      TextSlash(dir[1..]);
      TextSlash(p[1..]);
      OneLess(dir[0], Text(dir[1..]), p[0], Text(p[1..]));
      Prefixes(dir[1..], p[1..]);
      assert dir == [dir[0]] + dir[1..] && p == [p[0]] + p[1..];
    }
  }

  lemma OneLess(x: Data, a: Data, y: Data, b: Data)
    requires SLASH !in x && SLASH !in y && (a == [] || a[0] == SLASH) && (b == [] || b[0] == SLASH)
    requires [SLASH] + x + a + [SLASH] <= [SLASH] + y + b
    ensures x == y && a + [SLASH] <= b
  {
    var l, r := [SLASH] + x + a + [SLASH], [SLASH] + y + b;
    var rest := r[|l|..];
    assert r == l + rest;
    assert r[1..] == y + b;
    assert r[1..] == x + (a + [SLASH] + rest);
    SameHead(x, a + [SLASH] + rest, y, b);
  }

  /** Putting the new directory in front of the trimmed name is what `Rebase` does. */
  lemma TrimAndJoin(p: Path, from: Path, to: Path)
    requires from < p
    ensures Text(from) <= Text(p) && Text(to) + Text(p)[|Text(from)|..] == Text(Rebase(p, from, to))
  {
    var rest := p[|from|..];
    assert from + rest == p;
    TextCat(from, rest);
    TextCat(to, rest);
    assert Text(p)[|Text(from)|..] == Text(rest);
  }
}
