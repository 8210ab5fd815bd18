/** Discovery's include and exclude globs over browse paths. How one glob fits one name is a parameter. */
module Filters {

  /** `**`, any number of path segments, or a glob for one. */
  datatype Segment = AnyDepth | Glob(text: string)

  type Pattern = seq<Segment>

  type Path = seq<string>

  /** fits(name, glob) */
  type Fits = (string, string) -> bool

  /** `path` matches `pattern` whole. */
  predicate Match(fits: Fits, pattern: Pattern, path: Path)
    decreases |pattern|
  {
    if pattern == [] then path == []
    else if pattern[0].AnyDepth? then exists i :: 0 <= i <= |path| && Match(fits, pattern[1..], path[i..])
    else path != [] && fits(path[0], pattern[0].text) && Match(fits, pattern[1..], path[1..])
  }

  /** Some path at or below `path` can match `pattern`. */
  predicate Below(fits: Fits, pattern: Pattern, path: Path)
    decreases |pattern|
  {
    if path == [] || (pattern != [] && pattern[0].AnyDepth?) then true
    else pattern != [] && fits(path[0], pattern[0].text) && Below(fits, pattern[1..], path[1..])
  }

  /** Where each segment of the pattern begins and ends in the path, from `a` to its end: a glob takes one name it fits,
      `**` any number of names, none included. */
  ghost predicate Cuts(fits: Fits, pattern: Pattern, path: Path, a: nat, cuts: seq<nat>) {
    && |cuts| == |pattern| + 1 && cuts[0] == a && cuts[|pattern|] == |path|
    && forall i :: 0 <= i < |pattern| ==> Takes(fits, pattern[i], path, cuts[i], cuts[i + 1])
  }

  predicate Takes(fits: Fits, segment: Segment, path: Path, a: nat, b: nat) {
    a <= b <= |path| && (segment.Glob? ==> b == a + 1 && fits(path[a], segment.text))
  }

  /** What a match means: the path cut into what each segment of the pattern takes. */
  lemma MatchIff(fits: Fits, pattern: Pattern, path: Path)
    ensures Match(fits, pattern, path) <==> exists cuts :: Cuts(fits, pattern, path, 0, cuts)
  {
    assert path[0..] == path;
    if Match(fits, pattern, path) {
      var cuts := CutsOf(fits, pattern, path, 0);
    }
    if cuts :| Cuts(fits, pattern, path, 0, cuts) {
      CutsMatch(fits, pattern, path, 0, cuts);
    }
  }

  lemma {:induction false} CutsOf(fits: Fits, pattern: Pattern, path: Path, a: nat) returns (cuts: seq<nat>)
    requires a <= |path| && Match(fits, pattern, path[a..])
    ensures Cuts(fits, pattern, path, a, cuts)
    decreases |pattern|
  {
    if pattern == [] {
      cuts := [a];
    } else {
      var n := 1;
      if pattern[0].AnyDepth? {
        n :| 0 <= n <= |path[a..]| && Match(fits, pattern[1..], path[a..][n..]);
      }
      assert path[a..][n..] == path[a + n..];
      var rest := CutsOf(fits, pattern[1..], path, a + n);
      cuts := [a] + rest;
      CutsOn(fits, pattern, path, a, rest);
    }
  }

  lemma CutsOn(fits: Fits, pattern: Pattern, path: Path, a: nat, rest: seq<nat>)
    requires pattern != [] && rest != [] && Cuts(fits, pattern[1..], path, rest[0], rest)
    requires Takes(fits, pattern[0], path, a, rest[0])
    ensures Cuts(fits, pattern, path, a, [a] + rest)
  {
    var cuts := [a] + rest;
    forall i | 0 <= i < |pattern|
      ensures Takes(fits, pattern[i], path, cuts[i], cuts[i + 1])
    {
      if i > 0 {
        assert Takes(fits, pattern[1..][i - 1], path, rest[i - 1], rest[i]);
      }
    }
  }

  lemma {:induction false} CutsMatch(fits: Fits, pattern: Pattern, path: Path, a: nat, cuts: seq<nat>)
    requires a <= |path| && Cuts(fits, pattern, path, a, cuts)
    ensures Match(fits, pattern, path[a..])
    decreases |pattern|
  {
    if pattern != [] {
      var b := cuts[1];
      assert Takes(fits, pattern[0], path, a, b);
      forall i | 0 <= i < |pattern[1..]|
        ensures Takes(fits, pattern[1..][i], path, cuts[1..][i], cuts[1..][i + 1])
      {
        assert Takes(fits, pattern[i + 1], path, cuts[i + 1], cuts[i + 2]);
      }
      CutsMatch(fits, pattern[1..], path, b, cuts[1..]);
      assert path[a..][b - a..] == path[b..];
    }
  }

  /** A match splits where the pattern does. */
  lemma {:induction false} MatchSplits(fits: Fits, p: Pattern, q: Pattern, path: Path)
    ensures Match(fits, p + q, path) <==> exists k :: 0 <= k <= |path| && Match(fits, p, path[..k]) && Match(fits, q, path[k..])
    decreases |p|
  {
    if p == [] {
      assert p + q == q && path[0..] == path && path[..0] == [];
    } else {
      assert (p + q)[1..] == p[1..] + q;
      if p[0].AnyDepth? {
        SplitsAnyDepth(fits, p, q, path);
      } else {
        SplitsGlob(fits, p, q, path);
      }
    }
  }

  lemma SplitsGlob(fits: Fits, p: Pattern, q: Pattern, path: Path)
    requires p != [] && p[0].Glob? && (p + q)[1..] == p[1..] + q
    ensures Match(fits, p + q, path) <==> exists k :: 0 <= k <= |path| && Match(fits, p, path[..k]) && Match(fits, q, path[k..])
    decreases |p|, 0
  {
    if path != [] {
      MatchSplits(fits, p[1..], q, path[1..]);
      if Match(fits, p + q, path) {
        var k :| 0 <= k <= |path[1..]| && Match(fits, p[1..], path[1..][..k]) && Match(fits, q, path[1..][k..]);
        assert path[..k + 1][1..] == path[1..][..k] && path[k + 1..] == path[1..][k..];
        assert Match(fits, p, path[..k + 1]);
      }
      if k :| 0 <= k <= |path| && Match(fits, p, path[..k]) && Match(fits, q, path[k..]) {
        assert path[..k][1..] == path[1..][..k - 1] && path[1..][k - 1..] == path[k..];
      }
    }
  }

  lemma SplitsAnyDepth(fits: Fits, p: Pattern, q: Pattern, path: Path)
    requires p != [] && p[0].AnyDepth? && (p + q)[1..] == p[1..] + q
    ensures Match(fits, p + q, path) <==> exists k :: 0 <= k <= |path| && Match(fits, p, path[..k]) && Match(fits, q, path[k..])
    decreases |p|, 0
  {
    if Match(fits, p + q, path) {
      var i :| 0 <= i <= |path| && Match(fits, (p + q)[1..], path[i..]);
      MatchSplits(fits, p[1..], q, path[i..]);
      var k :| 0 <= k <= |path[i..]| && Match(fits, p[1..], path[i..][..k]) && Match(fits, q, path[i..][k..]);
      assert path[..i + k][i..] == path[i..][..k] && path[i + k..] == path[i..][k..];
      assert Match(fits, p, path[..i + k]);
    }
    if k :| 0 <= k <= |path| && Match(fits, p, path[..k]) && Match(fits, q, path[k..]) {
      var i :| 0 <= i <= k && Match(fits, p[1..], path[..k][i..]);
      assert path[..k][i..] == path[i..][..k - i] && path[k..] == path[i..][k - i..];
      MatchSplits(fits, p[1..], q, path[i..]);
    }
  }

  /** What matches is worth browsing towards: every path above a match is below its pattern. */
  lemma {:induction false} MatchBelow(fits: Fits, pattern: Pattern, path: Path, suffix: Path)
    requires Match(fits, pattern, path + suffix)
    ensures Below(fits, pattern, path)
    decreases |pattern|
  {
    if path != [] && !(pattern != [] && pattern[0].AnyDepth?) {
      assert (path + suffix)[1..] == path[1..] + suffix;
      MatchBelow(fits, pattern[1..], path[1..], suffix);
    }
  }

  /** Every glob of the pattern fits some name. */
  ghost predicate Satisfiable(fits: Fits, pattern: Pattern) {
    forall s :: s in pattern && s.Glob? ==> exists name :: fits(name, s.text)
  }

  /** A path that matches `pattern`. */
  lemma {:induction false} SomeMatch(fits: Fits, pattern: Pattern) returns (path: Path)
    requires Satisfiable(fits, pattern)
    ensures Match(fits, pattern, path)
  {
    if pattern == [] {
      path := [];
    } else {
      var rest := SomeMatch(fits, pattern[1..]);
      if pattern[0].AnyDepth? {
        assert rest[0..] == rest;
        path := rest;
      } else {
        var name :| fits(name, pattern[0].text);
        path := [name] + rest;
      }
    }
  }

  /** Pruning is exact: a branch is worth browsing exactly when something at or below it can match. */
  lemma {:induction false} BelowIff(fits: Fits, pattern: Pattern, path: Path)
    requires Satisfiable(fits, pattern)
    ensures Below(fits, pattern, path) <==> exists suffix :: Match(fits, pattern, path + suffix)
    decreases |pattern|
  {
    if suffix :| Match(fits, pattern, path + suffix) {
      MatchBelow(fits, pattern, path, suffix);
    }
    if Below(fits, pattern, path) {
      if path == [] {
        var suffix := SomeMatch(fits, pattern);
        assert path + suffix == suffix;
      } else if pattern[0].AnyDepth? {
        var suffix := SomeMatch(fits, pattern[1..]);
        assert (path + suffix)[|path|..] == suffix;
        assert Match(fits, pattern, path + suffix);
      } else {
        BelowIff(fits, pattern[1..], path[1..]);
        var suffix :| Match(fits, pattern[1..], path[1..] + suffix);
        assert (path + suffix)[1..] == path[1..] + suffix;
      }
    }
  }

  datatype PathFilter = PathFilter(includes: seq<Pattern>, excludes: seq<Pattern>)
  {
    predicate Excluded(fits: Fits, path: Path) {
      exists p :: p in excludes && Match(fits, p, path)
    }

    /** It, or a branch above it, matches an include. */
    predicate Included(fits: Fits, path: Path) {
      includes == [] || exists p, n :: p in includes && 1 <= n <= |path| && Match(fits, p, path[..n])
    }

    /** Worth browsing below: an include can still match there. */
    predicate Reachable(fits: Fits, path: Path) {
      includes == [] || exists p :: p in includes && Below(fits, p, path)
    }
  }

  /** Some pattern matches the path whole. */
  ghost predicate Hit(fits: Fits, patterns: seq<Pattern>, path: Path) {
    exists p, cuts :: p in patterns && Cuts(fits, p, path, 0, cuts)
  }

  lemma ExcludedIff(f: PathFilter, fits: Fits, path: Path)
    ensures f.Excluded(fits, path) <==> Hit(fits, f.excludes, path)
  {
    forall p | p in f.excludes
      ensures Match(fits, p, path) <==> exists cuts :: Cuts(fits, p, path, 0, cuts)
    {
      MatchIff(fits, p, path);
    }
  }

  /** Included: everything without includes, else what an include matches, or a branch above it. */
  lemma IncludedIff(f: PathFilter, fits: Fits, path: Path)
    ensures f.Included(fits, path) <==> f.includes == [] || exists n :: 1 <= n <= |path| && Hit(fits, f.includes, path[..n])
  {
    forall p, n | p in f.includes && 1 <= n <= |path|
      ensures Match(fits, p, path[..n]) <==> exists cuts :: Cuts(fits, p, path[..n], 0, cuts)
    {
      MatchIff(fits, p, path[..n]);
    }
    if n :| 1 <= n <= |path| && Hit(fits, f.includes, path[..n]) {
      var p, cuts :| p in f.includes && Cuts(fits, p, path[..n], 0, cuts);
      assert Match(fits, p, path[..n]);
    }
  }

  /** Worth browsing: with globs that fit some name each, exactly when an include can match there or below. */
  lemma ReachableIff(f: PathFilter, fits: Fits, path: Path)
    requires forall p :: p in f.includes ==> Satisfiable(fits, p)
    ensures f.Reachable(fits, path) <==> f.includes == [] || exists suffix :: Hit(fits, f.includes, path + suffix)
  {
    forall p | p in f.includes
      ensures Below(fits, p, path) <==> exists suffix :: Match(fits, p, path + suffix)
    {
      BelowIff(fits, p, path);
    }
    forall p, suffix | p in f.includes
      ensures Match(fits, p, path + suffix) <==> exists cuts :: Cuts(fits, p, path + suffix, 0, cuts)
    {
      MatchIff(fits, p, path + suffix);
    }
    if f.includes != [] && f.Reachable(fits, path) {
      var p :| p in f.includes && Below(fits, p, path);
      var suffix :| Match(fits, p, path + suffix);
      var cuts :| Cuts(fits, p, path + suffix, 0, cuts);
      assert Hit(fits, f.includes, path + suffix);
    }
    if suffix :| Hit(fits, f.includes, path + suffix) {
      var p, cuts :| p in f.includes && Cuts(fits, p, path + suffix, 0, cuts);
      assert Match(fits, p, path + suffix);
    }
  }

  /** `**` takes no name as well: a pattern that begins or ends with it matches the branch itself. */
  lemma NoneIncluded(fits: Fits)
    requires fits("Temp", "Temp") && fits("Plant", "Plant")
    ensures Match(fits, [AnyDepth, Glob("Temp")], ["Temp"]) && Match(fits, [Glob("Plant"), AnyDepth], ["Plant"])
  {
    var p, q := [AnyDepth, Glob("Temp")], [Glob("Plant"), AnyDepth];
    assert Cuts(fits, p, ["Temp"], 0, [0, 0, 1]);
    MatchIff(fits, p, ["Temp"]);
    assert Cuts(fits, q, ["Plant"], 0, [0, 1, 1]);
    MatchIff(fits, q, ["Plant"]);
  }

  /** An included branch takes its whole subtree. */
  lemma IncludedBelow(f: PathFilter, fits: Fits, path: Path, suffix: Path)
    requires f.Included(fits, path)
    ensures f.Included(fits, path + suffix)
  {
    if f.includes != [] {
      var p, n :| p in f.includes && 1 <= n <= |path| && Match(fits, p, path[..n]);
      assert (path + suffix)[..n] == path[..n];
    }
  }

  /** Every branch above an included path is included itself or worth browsing. */
  lemma IncludedAbove(f: PathFilter, fits: Fits, path: Path, suffix: Path)
    requires f.Included(fits, path + suffix)
    ensures f.Included(fits, path) || f.Reachable(fits, path)
  {
    if f.includes != [] {
      var p, n :| p in f.includes && 1 <= n <= |path + suffix| && Match(fits, p, (path + suffix)[..n]);
      if n <= |path| {
        assert (path + suffix)[..n] == path[..n];
      } else {
        assert (path + suffix)[..n] == path + suffix[..n - |path|];
        MatchBelow(fits, p, path, suffix[..n - |path|]);
      }
    }
  }
}
