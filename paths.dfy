/**
  The `os.path` operations the orchestrator uses to derive file names, as the
  POSIX implementation defines them: `join` of two components, `basename`,
  `dirname`, and the root part of `splitext`.
*/
module PathOps {

  import opened Text

  /** True when `p` starts with the separator, that is, `p` is absolute. */
  predicate IsAbsolute(p: string)
  {
    |p| > 0 && p[0] == '/'
  }

  /** What `join(a, b)` puts in front of a relative `b`: nothing after an empty
      `a` or one that already ends in a separator, a separator otherwise. */
  function JoinHead(a: string): string
  {
    if a == [] || a[|a| - 1] == '/' then a else a + "/"
  }

  /** `os.path.join(a, b)`: an absolute `b` replaces `a`; otherwise `b` is
      appended to `a` with exactly one separator between them. */
  function Join(a: string, b: string): (p: string)
    ensures |b| <= |p| && p[|p| - |b|..] == b
    ensures IsAbsolute(b) ==> p == b
    ensures !IsAbsolute(b) ==> p[..|p| - |b|] == JoinHead(a)
  {
    if IsAbsolute(b) then b else JoinHead(a) + b
  }

  /** Text appended to a joined relative name extends the name. */
  lemma JoinAppend(dir: string, name: string, suffix: string)
    requires |name| > 0 && name[0] != '/'
    ensures Join(dir, name) + suffix == Join(dir, name + suffix)
  {
    assert (name + suffix)[0] == name[0];
    assert JoinHead(dir) + name + suffix == JoinHead(dir) + (name + suffix);
  }

  /** For a fixed directory, joining tells relative names apart. */
  lemma JoinInjective(a: string, b1: string, b2: string)
    requires !IsAbsolute(b1) && !IsAbsolute(b2)
    requires Join(a, b1) == Join(a, b2)
    ensures b1 == b2
  {
    var h := JoinHead(a);
    assert b1 == (h + b1)[|h|..];
    assert b2 == (h + b2)[|h|..];
  }

  /** Joining tells relative names apart, stated for distinct names. */
  lemma JoinDistinctNames(a: string, b1: string, b2: string)
    requires !IsAbsolute(b1) && !IsAbsolute(b2) && b1 != b2
    ensures Join(a, b1) != Join(a, b2)
  {
    if Join(a, b1) == Join(a, b2) {
      JoinInjective(a, b1, b2);
    }
  }

  /** The same relative name under two directories that do not end in a
      separator gives two different paths. */
  lemma JoinDistinctDirs(d1: string, d2: string, name: string)
    requires d1 != d2 && d1 != [] && d2 != [] && d1[|d1| - 1] != '/' && d2[|d2| - 1] != '/'
    requires !IsAbsolute(name)
    ensures Join(d1, name) != Join(d2, name)
  {
    var p1 := Join(d1, name);
    var p2 := Join(d2, name);
    assert p1 == d1 + "/" + name && p2 == d2 + "/" + name;
    assert p1[..|d1|] == d1 && p2[..|d2|] == d2;
  }

  /** `os.path.basename(p)`: everything after the last separator. */
  function Basename(p: string): (name: string)
    ensures '/' !in name
    ensures |name| <= |p| && name == p[|p| - |name|..]
    ensures |name| < |p| ==> p[|p| - |name| - 1] == '/'
  {
    if p == [] || p[|p| - 1] == '/' then []
    else Basename(p[..|p| - 1]) + [p[|p| - 1]]
  }

  /** The base name of anything ending in a separator followed by `name` is
      `name`: a longer suffix would take in the separator, a shorter one would
      be preceded by a character of `name`. */
  lemma BasenameAfterSeparator(head: string, name: string)
    requires '/' !in name
    requires head == [] || head[|head| - 1] == '/'
    ensures Basename(head + name) == name
  {
    var p := head + name;
    assert Basename(p) == p[|head|..];
  }

  /** `basename(join(dir, name)) == name` for a name without separators. */
  lemma BasenameOfJoin(dir: string, name: string)
    requires '/' !in name
    ensures Basename(Join(dir, name)) == name
  {
    if name != [] {
      assert !IsAbsolute(name);
      BasenameAfterSeparator(JoinHead(dir), name);
    } else if dir == [] || dir[|dir| - 1] == '/' {
      BasenameAfterSeparator(dir, name);
    } else {
      BasenameAfterSeparator(dir + "/", name);
    }
  }

  /** Index of the last `c` in `s`, or -1 (Python's `s.rfind(c)`). */
  function LastIndexOf(s: string, c: char): (i: int)
    ensures -1 <= i < |s|
    ensures 0 <= i ==> s[i] == c
    ensures forall k :: i < k < |s| ==> s[k] != c
  {
    if s == [] then -1
    else if s[|s| - 1] == c then |s| - 1
    else LastIndexOf(s[..|s| - 1], c)
  }

  /** Appending text without `c` after a `c` leaves that `c` the last one. */
  lemma {:induction false} LastIndexOfAfter(a: string, b: string, c: char)
    requires a != [] && a[|a| - 1] == c && c !in b
    ensures LastIndexOf(a + b, c) == |a| - 1
  {
    if b == [] {
      assert a + b == a;
    } else {
      var init := b[..|b| - 1];
      assert (a + b)[..|a + b| - 1] == a + init;
      assert (a + b)[|a + b| - 1] == b[|b| - 1];
      LastIndexOfAfter(a, init, c);
    }
  }

  /** There is no last `c` when `s` has none. */
  lemma LastIndexOfAbsent(s: string, c: char)
    requires c !in s
    ensures LastIndexOf(s, c) == -1
  {
  }

  predicate AllDots(s: string)
  {
    forall k :: 0 <= k < |s| ==> s[k] == '.'
  }

  /** Where `os.path.splitext(p)` cuts `p`: at the last dot of the last
      component, unless every character of that component before the dot is
      itself a dot (so `.profile` has no extension); `|p|` when it does not cut. */
  function ExtensionStart(p: string): (i: nat)
    ensures i <= |p|
    ensures i < |p| ==> p[i] == '.'
    ensures forall k :: i < k < |p| ==> p[k] != '.' && p[k] != '/'
  {
    var sep := LastIndexOf(p, '/');
    var dot := LastIndexOf(p, '.');
    if dot > sep && !AllDots(p[sep + 1..dot]) then dot else |p|
  }

  /** `os.path.splitext(p)[0]`: `p` without its extension. */
  function SplitextRoot(p: string): (root: string)
    ensures |root| <= |p| && root == p[..|root|]
    ensures |root| < |p| ==> p[|root|] == '.'
  {
    p[..ExtensionStart(p)]
  }

  /** The last dot of `stem.ext` is the one before `ext` when `ext` has none. */
  lemma LastDotOfName(stem: string, ext: string)
    requires '.' !in ext
    ensures LastIndexOf(stem + "." + ext, '.') == |stem|
  {
    LastIndexOfAfter(stem + ".", ext, '.');
  }

  /** A file name built from separator-free parts has no separator. */
  lemma NoSeparatorInName(stem: string, ext: string)
    requires '/' !in stem && '/' !in ext
    ensures LastIndexOf(stem + "." + ext, '/') == -1
  {
    CharNotInAppend('/', stem, ".");
    CharNotInAppend('/', stem + ".", ext);
    LastIndexOfAbsent(stem + "." + ext, '/');
  }

  /** `splitext(stem + "." + ext)[0] == stem` for a plain file name whose stem
      is not all dots and whose extension has no dot. */
  lemma SplitextRootOfName(stem: string, ext: string)
    requires '/' !in stem && '/' !in ext && '.' !in ext
    requires exists k :: 0 <= k < |stem| && stem[k] != '.'
    ensures SplitextRoot(stem + "." + ext) == stem
  {
    var p := stem + "." + ext;
    LastDotOfName(stem, ext);
    NoSeparatorInName(stem, ext);
    var k :| 0 <= k < |stem| && stem[k] != '.';
    assert p[0..|stem|][k] == stem[k];
    assert ExtensionStart(p) == |stem|;
    assert p[..|stem|] == stem;
  }

  /** `s.rstrip(c)`. */
  function RStrip(s: string, c: char): (r: string)
    ensures |r| <= |s| && r == s[..|r|]
    ensures r == [] || r[|r| - 1] != c
    ensures forall k :: |r| <= k < |s| ==> s[k] == c
  {
    if s == [] || s[|s| - 1] != c then s else RStrip(s[..|s| - 1], c)
  }

  /** `os.path.dirname(p)`: everything up to the last separator, without
      trailing separators unless it consists of separators only. */
  function Dirname(p: string): (d: string)
    ensures |d| <= |p| && d == p[..|d|]
  {
    var head := p[..LastIndexOf(p, '/') + 1];
    if head != [] && exists k :: 0 <= k < |head| && head[k] != '/' then RStrip(head, '/') else head
  }

  /** `dirname(join(dir, name)) == dir` for a plain name and a directory that
      does not end in a separator. */
  lemma DirnameOfJoin(dir: string, name: string)
    requires '/' !in name && dir != [] && dir[|dir| - 1] != '/'
    ensures Dirname(Join(dir, name)) == dir
  {
    var p := Join(dir, name);
    assert p == dir + "/" + name;
    LastIndexOfAfter(dir + "/", name, '/');
    var head := p[..|dir| + 1];
    assert head == dir + "/";
    assert head[|dir| - 1] != '/';
    assert RStrip(head, '/') == RStrip(dir, '/');
  }

}
