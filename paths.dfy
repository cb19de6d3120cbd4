/**
  The part of Python's `pathlib.PurePosixPath` that the converter relies on:
  parsing a path string, `joinpath`, `.parent`, `.name` and `.stem`.

  A path is held the way pathlib holds it: whether it is anchored at the root,
  and its list of components, with empty and "." components already dropped.
 */
module Paths {

  datatype PurePath = PurePath(absolute: bool, parts: seq<string>)

  /** The path `PurePath('/')`. */
  const Root := PurePath(true, [])

  /** A component pathlib keeps after parsing. */
  predicate IsComponent(s: string) {
    s != "" && s != "." && '/' !in s
  }

  ghost predicate Canonical(p: PurePath) {
    forall i :: 0 <= i < |p.parts| ==> IsComponent(p.parts[i])
  }

  // ---------------------------------------------------------------------------
  // Splitting on '/' (Python's `str.split('/')`) and joining back.

  function Split(s: string): (r: seq<string>)
    ensures |r| >= 1
    ensures forall i :: 0 <= i < |r| ==> '/' !in r[i]
  {
    if s == [] then [[]]
    else
      var rest := Split(s[1..]);
      if s[0] == '/' then [[]] + rest
      else [[s[0]] + rest[0]] + rest[1..]
  }

  function JoinSep(xs: seq<string>): string {
    if xs == [] then []
    else if |xs| == 1 then xs[0]
    else xs[0] + "/" + JoinSep(xs[1..])
  }

  /** Joining the pieces of a split with '/' gives back the original string. */
  lemma {:induction false} JoinSplit(s: string)
    ensures JoinSep(Split(s)) == s
  {
    if s != [] {
      var rest := Split(s[1..]);
      JoinSplit(s[1..]);
      if s[0] == '/' {
        assert Split(s) == [[]] + rest;
        assert JoinSep(Split(s)) == [] + "/" + JoinSep(rest);
      } else if |rest| == 1 {
        assert Split(s) == [[s[0]] + rest[0]];
      } else {
        assert Split(s) == [[s[0]] + rest[0]] + rest[1..];
        assert JoinSep(rest) == rest[0] + "/" + JoinSep(rest[1..]);
        assert JoinSep(Split(s)) == ([s[0]] + rest[0]) + "/" + JoinSep(rest[1..]);
      }
    }
  }

  /** Splitting `a + t`, where `a` holds no separator, glues `a` onto the first piece of `t`. */
  lemma {:induction false} SplitPrefix(a: string, t: string)
    requires '/' !in a
    ensures Split(a + t) == [a + Split(t)[0]] + Split(t)[1..]
  {
    if a != [] {
      assert (a + t)[1..] == a[1..] + t;
      assert (a + t)[0] == a[0];
      SplitPrefix(a[1..], t);
      assert [a[0]] + (a[1..] + Split(t)[0]) == a + Split(t)[0];
    } else {
      var r := Split(t);
      assert a + t == t && a + r[0] == r[0];
      assert [r[0]] + r[1..] == r;
    }
  }

  /** Splitting pieces joined with '/' gives the pieces back. */
  lemma {:induction false} SplitJoin(xs: seq<string>)
    requires |xs| >= 1
    requires forall i :: 0 <= i < |xs| ==> '/' !in xs[i]
    ensures Split(JoinSep(xs)) == xs
  {
    if |xs| == 1 {
      SplitPrefix(xs[0], []);
      assert xs[0] + [] == xs[0];
    } else {
      var tail := JoinSep(xs[1..]);
      SplitJoin(xs[1..]);
      assert JoinSep(xs) == xs[0] + ("/" + tail);
      SplitPrefix(xs[0], "/" + tail);
      assert ("/" + tail)[1..] == tail;
      assert Split("/" + tail) == [[]] + xs[1..];
      assert xs[0] + [] == xs[0];
    }
  }

  // ---------------------------------------------------------------------------
  // Parsing and printing.

  /** The pieces that pathlib keeps: neither empty nor ".". */
  function Components(segments: seq<string>): (r: seq<string>)
    ensures forall i :: 0 <= i < |r| ==> IsComponent(r[i])
    ensures |r| <= |segments|
  {
    if segments == [] then []
    else if IsComponent(segments[0]) then [segments[0]] + Components(segments[1..])
    else Components(segments[1..])
  }

  lemma {:induction false} ComponentsKeepsAll(xs: seq<string>)
    requires forall i :: 0 <= i < |xs| ==> IsComponent(xs[i])
    ensures Components(xs) == xs
  {
    if xs != [] {
      ComponentsKeepsAll(xs[1..]);
    }
  }

  /** `PurePosixPath(s)` */
  function Parse(s: string): (p: PurePath)
    ensures Canonical(p)
    ensures p.absolute <==> |s| > 0 && s[0] == '/'
  {
    PurePath(|s| > 0 && s[0] == '/', Components(Split(s)))
  }

  /** `str(p)` */
  function Text(p: PurePath): string {
    if p.absolute then "/" + JoinSep(p.parts)
    else if p.parts == [] then "."
    else JoinSep(p.parts)
  }

  /** Printing a canonical path and parsing the text gives the same path back. */
  lemma ParseText(p: PurePath)
    requires Canonical(p)
    ensures Parse(Text(p)) == p
  {
    ComponentsKeepsAll(p.parts);
    if p.parts != [] {
      SplitJoin(p.parts);
    }
    if p.absolute {
      var j := JoinSep(p.parts);
      assert ("/" + j)[1..] == j;
      if p.parts == [] {
        assert "/" + j == "/";
        assert Split("/"[1..]) == [[]];
        assert Split("/") == [[], []];
      } else {
        assert Split("/" + j) == [[]] + p.parts;
      }
    } else if p.parts != [] {
      var j := JoinSep(p.parts);
      if |p.parts| > 1 {
        assert j == p.parts[0] + ("/" + JoinSep(p.parts[1..]));
      }
      assert j[0] == p.parts[0][0];
    } else {
      SplitNoSeparator(".");
    }
  }

  /** Two canonical paths print the same only if they are the same path, so a
      set of paths records which spellings have been written. */
  lemma TextInjective(p: PurePath, q: PurePath)
    requires Canonical(p) && Canonical(q)
    ensures Text(p) == Text(q) <==> p == q
  {
    if Text(p) == Text(q) {
      ParseText(p);
      ParseText(q);
    }
  }

  // ---------------------------------------------------------------------------
  // joinpath, parent, name, stem.

  /** `a.joinpath(b)`: an absolute `b` replaces `a` altogether. */
  function Join(a: PurePath, b: PurePath): PurePath {
    if b.absolute then b else PurePath(a.absolute, a.parts + b.parts)
  }

  lemma {:induction false} JoinSepAppend(xs: seq<string>, ys: seq<string>)
    requires xs != [] && ys != []
    ensures JoinSep(xs + ys) == JoinSep(xs) + "/" + JoinSep(ys)
  {
    if |xs| == 1 {
      assert (xs + ys)[1..] == ys;
    } else {
      JoinSepAppend(xs[1..], ys);
      assert (xs + ys)[1..] == xs[1..] + ys;
    }
  }

  /** Joining a relative path onto a path puts a separator between their texts:
      `str(a.joinpath(b)) == str(a) + '/' + str(b)` when both have components. */
  lemma JoinText(a: PurePath, b: PurePath)
    requires !b.absolute && a.parts != [] && b.parts != []
    ensures Text(Join(a, b)) == Text(a) + "/" + Text(b)
  {
    JoinSepAppend(a.parts, b.parts);
  }

  /** `joinpath` with several arguments joins them one at a time, and grouping
      does not matter: `a.joinpath(b, c)` is both `(a / b) / c` and `a / (b / c)`. */
  lemma JoinAssoc(a: PurePath, b: PurePath, c: PurePath)
    ensures Join(Join(a, b), c) == Join(a, Join(b, c))
  {
    if !b.absolute && !c.absolute {
      assert a.parts + b.parts + c.parts == a.parts + (b.parts + c.parts);
    }
  }

  /** `p.parent`; the parent of a path with no components is the path itself. */
  function Parent(p: PurePath): PurePath {
    if p.parts == [] then p else PurePath(p.absolute, p.parts[..|p.parts| - 1])
  }

  /** `p.name`: the last component, or "" when there is none. */
  function Name(p: PurePath): string {
    if p.parts == [] then "" else p.parts[|p.parts| - 1]
  }

  lemma {:induction false} SplitNoSeparator(c: string)
    requires '/' !in c
    ensures Split(c) == [c]
  {
    SplitPrefix(c, []);
    assert c + [] == c;
  }

  /** A path is its parent joined with its name. */
  lemma ParentJoinName(p: PurePath)
    requires Canonical(p) && p.parts != []
    ensures Join(Parent(p), Parse(Name(p))) == p
  {
    var n := Name(p);
    SplitNoSeparator(n);
    assert Components([n]) == [n];
    assert p.parts[..|p.parts| - 1] + [n] == p.parts;
  }

  /** The index of the last occurrence of `c` in `s`, or -1 (`str.rfind`). */
  function RFind(s: string, c: char): (i: int)
    ensures -1 <= i < |s|
    ensures 0 <= i ==> s[i] == c
    ensures forall j :: i < j < |s| ==> s[j] != c
  {
    if s == [] then -1
    else if s[|s| - 1] == c then |s| - 1
    else RFind(s[..|s| - 1], c)
  }

  /** True when pathlib sees a suffix at the dot at index `i` of `name`: the dot
      is neither the first nor the last character. */
  predicate SuffixDot(name: string, i: int) {
    0 < i < |name| - 1
  }

  /** `PurePath(name).suffix` */
  function Suffix(name: string): string {
    var i := RFind(name, '.');
    if SuffixDot(name, i) then name[i..] else ""
  }

  /** `PurePath(name).stem`: the name without its final suffix. */
  function Stem(name: string): string {
    var i := RFind(name, '.');
    if SuffixDot(name, i) then name[..i] else name
  }

  /** The stem and the suffix together make up the name, and the suffix is
      either empty or a dot followed by at least one character that is not a dot. */
  lemma StemSuffix(name: string)
    ensures Stem(name) + Suffix(name) == name
    ensures Suffix(name) == "" || (|Suffix(name)| >= 2 && Suffix(name)[0] == '.' && '.' !in Suffix(name)[1..])
    ensures Suffix(name) != "" ==> Stem(name) != ""
  {
    var i := RFind(name, '.');
    if SuffixDot(name, i) {
      assert name[..i] + name[i..] == name;
      assert forall j :: 0 <= j < |name[i..][1..]| ==> name[i..][1..][j] == name[i + 1 + j];
    }
  }

  /** A base name followed by a dot and an extension without dots has that base
      name as its stem: 'JPN_P1_02.mat' has stem 'JPN_P1_02'. */
  lemma StemOfExtension(base: string, ext: string)
    requires base != "" && ext != "" && '.' !in ext
    ensures Stem(base + "." + ext) == base
    ensures Suffix(base + "." + ext) == "." + ext
  {
    var name := base + "." + ext;
    var i := RFind(name, '.');
    assert name[|base|] == '.';
    assert i == |base|;
    assert name[..i] == base;
    assert name[i..] == "." + ext;
  }

  /** The edge cases of the suffix rule: a leading dot or a trailing dot is not a suffix. */
  lemma StemEdgeCases()
    ensures Stem(".mat") == ".mat"
    ensures Stem("take.") == "take."
    ensures Stem("a.b.mat") == "a.b"
    ensures Stem("noext") == "noext"
  {
    assert ".mat"[..3] == ".ma" && ".ma"[..2] == ".m" && ".m"[..1] == ".";
    assert RFind(".mat", '.') == 0;
    assert RFind("take.", '.') == 4;
    StemOfExtension("a.b", "mat");
    assert "a.b" + "." + "mat" == "a.b.mat";
    assert RFind("noext", '.') == -1;
  }
}
