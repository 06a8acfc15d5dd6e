/** packages/adapter-utils/src/exclude-patterns.ts: which relative paths an exclude list removes.

    The code decides with raw prefix, suffix and substring tests. What the patterns mean is a statement about
    path segments. The two are proved equal on every pair of strings, malformed ones included. */
module ExcludePatterns {
  import opened Text

  function IsRelativePathOrDescendant(relative: string, candidate: string): bool {
    relative == candidate || StartsWith(relative, candidate + "/")
  }

  function PathContainsSegmentOrDescendant(relative: string, segment: string): bool {
    relative == segment
    || StartsWith(relative, segment + "/")
    || EndsWith(relative, "/" + segment)
    || Includes(relative, "/" + segment + "/")
  }

  /** `slice(2, -2)`: on a text shorter than four characters the two ends cross and the slice is empty. */
  function SliceInner(pattern: string): string
    requires |pattern| >= 2
  {
    if |pattern| < 4 then "" else pattern[2..|pattern| - 2]
  }

  function ExcludePatternMatches(relative: string, pattern: string): bool {
    if StartsWith(pattern, "*/") && EndsWith(pattern, "/*") then
      PathContainsSegmentOrDescendant(relative, SliceInner(pattern))
    else if StartsWith(pattern, "*/") then
      PathContainsSegmentOrDescendant(relative, pattern[2..])
    else if EndsWith(pattern, "/*") then
      StartsWith(relative, pattern[..|pattern| - 2] + "/")
    else
      IsRelativePathOrDescendant(relative, pattern)
  }

  predicate ShouldExcludePath(relative: string, exclude: seq<string>) {
    exists k :: 0 <= k < |exclude| && ExcludePatternMatches(relative, exclude[k])
  }

  // ---------- what the patterns mean, on lists of segments ----------

  type Path = seq<string>

  function Segments(s: string): Path {
    Split(s, '/')
  }

  predicate RunAt(path: Path, run: Path, i: int) {
    0 <= i && i + |run| <= |path| && path[i..i + |run|] == run
  }

  predicate ContainsRun(path: Path, run: Path) {
    exists i :: 0 <= i <= |path| && RunAt(path, run, i)
  }

  /** A leading or trailing `*` segment is a wildcard; a pattern of two wildcards leaves one empty segment. */
  predicate SegmentsMatch(path: Path, pattern: Path)
    requires pattern != []
  {
    var last := |pattern| - 1;
    if last == 0 then pattern <= path
    else if pattern[0] == "*" && pattern[last] == "*" then
      ContainsRun(path, if last == 1 then [""] else pattern[1..last])
    else if pattern[0] == "*" then ContainsRun(path, pattern[1..])
    else if pattern[last] == "*" then pattern[..last] < path
    else pattern <= path
  }

  // ---------- the string tests, one at a time ----------

  lemma SegmentsInjective(a: string, b: string)
    ensures Segments(a) == Segments(b) <==> a == b
  {
    JoinSplit(a, '/');
    JoinSplit(b, '/');
  }

  /** Every non-empty slice of a path's segments is itself the segments of some text. */
  lemma SliceText(relative: string, lo: nat, hi: nat) returns (s: string)
    requires lo < hi <= |Segments(relative)|
    ensures Segments(s) == Segments(relative)[lo..hi]
  {
    var slice := Segments(relative)[lo..hi];
    forall piece | piece in slice
      ensures '/' !in piece
    {
      assert piece in Segments(relative);
    }
    s := Join(slice, '/');
    SplitJoin(slice, '/');
  }

  lemma PrefixTest(relative: string, q: string)
    ensures StartsWith(relative, q + "/") <==> Segments(q) < Segments(relative)
  {
    if StartsWith(relative, q + "/") {
      var rest := relative[|q| + 1..];
      assert relative == q + ['/'] + rest;
      SplitConcat(q, rest, '/');
    }
    if Segments(q) < Segments(relative) {
      var tail := Segments(relative)[|Segments(q)|..];
      var rest := SliceText(relative, |Segments(q)|, |Segments(relative)|);
      assert Segments(relative) == Segments(q) + tail;
      SplitConcat(q, rest, '/');
      SegmentsInjective(relative, q + ['/'] + rest);
      assert relative[..|q| + 1] == q + "/";
    }
  }

  lemma SuffixTest(relative: string, q: string)
    ensures EndsWith(relative, "/" + q) <==>
            |Segments(q)| < |Segments(relative)|
            && Segments(relative)[|Segments(relative)| - |Segments(q)|..] == Segments(q)
  {
    var n := |Segments(relative)| - |Segments(q)|;
    if EndsWith(relative, "/" + q) {
      SuffixFound(relative, q);
    }
    if n > 0 && Segments(relative)[n..] == Segments(q) {
      SuffixRun(relative, q, n);
    }
  }

  lemma SuffixFound(relative: string, q: string)
    requires EndsWith(relative, "/" + q)
    ensures |Segments(q)| < |Segments(relative)|
    ensures Segments(relative)[|Segments(relative)| - |Segments(q)|..] == Segments(q)
  {
    hide Split;
    var rest := relative[..|relative| - |q| - 1];
    assert relative == rest + ['/'] + q;
    SplitConcat(rest, q, '/');
  }

  lemma SuffixRun(relative: string, q: string, n: nat)
    requires 0 < n <= |Segments(relative)| && Segments(relative)[n..] == Segments(q)
    ensures EndsWith(relative, "/" + q)
  {
    hide Split;
    var p := Segments(relative);
    var rest := SliceText(relative, 0, n);
    assert p == p[..n] + p[n..];
    SplitConcat(rest, q, '/');
    SegmentsInjective(relative, rest + ['/'] + q);
    assert relative[|relative| - |q| - 1..] == "/" + q;
  }

  lemma InfixTest(relative: string, q: string)
    ensures Includes(relative, "/" + q + "/") <==>
            exists i :: 0 < i < |Segments(relative)| - |Segments(q)| && RunAt(Segments(relative), Segments(q), i)
  {
    var p, n := Segments(relative), |Segments(q)|;
    if Includes(relative, "/" + q + "/") {
      var at :| 0 <= at <= |relative| && OccursAt(relative, "/" + q + "/", at);
      InfixFound(relative, q, at);
    }
    if exists i :: 0 < i < |p| - n && RunAt(p, Segments(q), i) {
      var i :| 0 < i < |p| - n && RunAt(p, Segments(q), i);
      InfixRun(relative, q, i);
    }
  }

  lemma InfixFound(relative: string, q: string, at: nat)
    requires OccursAt(relative, "/" + q + "/", at)
    ensures exists i :: 0 < i < |Segments(relative)| - |Segments(q)| && RunAt(Segments(relative), Segments(q), i)
  {
    var mark := "/" + q + "/";
    var left, right := relative[..at], relative[at + |mark|..];
    assert relative == left + ['/'] + (q + ['/'] + right);
    SplitConcat(left, q + ['/'] + right, '/');
    SplitConcat(q, right, '/');
    var p, i := Segments(relative), |Segments(left)|;
    assert p == Segments(left) + Segments(q) + Segments(right);
    assert RunAt(p, Segments(q), i);
  }

  lemma InfixRun(relative: string, q: string, i: nat)
    requires 0 < i < |Segments(relative)| - |Segments(q)| && RunAt(Segments(relative), Segments(q), i)
    ensures Includes(relative, "/" + q + "/")
  {
    hide Split, Includes;
    var p, n := Segments(relative), |Segments(q)|;
    var left := SliceText(relative, 0, i);
    var right := SliceText(relative, i + n, |p|);
    var text := left + ['/'] + (q + ['/'] + right);
    assert relative == text by {
      SplitConcat(q, right, '/');
      SplitConcat(left, q + ['/'] + right, '/');
      assert Segments(text) == p;
      SegmentsInjective(relative, text);
    }
    Surrounded(left, "/" + q + "/", right);
    assert text == left + ("/" + q + "/") + right;
  }

  lemma Surrounded(left: string, mark: string, right: string)
    ensures Includes(left + mark + right, mark)
  {
    assert OccursAt(left + mark + right, mark, |left|);
  }

  /** The four-way string test finds a segment run exactly where the segment list holds it. */
  lemma ContainsTest(relative: string, q: string)
    ensures PathContainsSegmentOrDescendant(relative, q) <==> ContainsRun(Segments(relative), Segments(q))
  {
    var p, run := Segments(relative), Segments(q);
    SegmentsInjective(relative, q);
    PrefixTest(relative, q);
    SuffixTest(relative, q);
    InfixTest(relative, q);
    if PathContainsSegmentOrDescendant(relative, q) {
      if relative == q || StartsWith(relative, q + "/") {
        assert RunAt(p, run, 0);
      } else if EndsWith(relative, "/" + q) {
        assert RunAt(p, run, |p| - |run|);
      }
    }
    if ContainsRun(p, run) {
      var i :| 0 <= i <= |p| && RunAt(p, run, i);
      if i == 0 && |run| == |p| {
        assert p == run;
      } else if i == 0 {
        assert run < p;
      } else if i == |p| - |run| {
        assert p[i..] == run;
      }
    }
  }

  // ---------- pattern text and pattern segments ----------

  lemma LeadingWildcard(pattern: string)
    ensures StartsWith(pattern, "*/") <==> |Segments(pattern)| >= 2 && Segments(pattern)[0] == "*"
    ensures StartsWith(pattern, "*/") ==> Segments(pattern[2..]) == Segments(pattern)[1..]
  {
    SplitSingle("*", '/');
    PrefixTest(pattern, "*");
    if StartsWith(pattern, "*/") {
      assert pattern == "*" + ['/'] + pattern[2..];
      SplitConcat("*", pattern[2..], '/');
    }
  }

  lemma TrailingWildcard(pattern: string)
    ensures EndsWith(pattern, "/*") <==> |Segments(pattern)| >= 2 && Segments(pattern)[|Segments(pattern)| - 1] == "*"
    ensures EndsWith(pattern, "/*") ==>
              Segments(pattern[..|pattern| - 2]) == Segments(pattern)[..|Segments(pattern)| - 1]
  {
    SplitSingle("*", '/');
    hide Split;
    var p := Segments(pattern);
    SuffixTest(pattern, "*");
    assert p[|p| - 1..] == [p[|p| - 1]];
    if EndsWith(pattern, "/*") {
      assert pattern == pattern[..|pattern| - 2] + ['/'] + "*";
      SplitConcat(pattern[..|pattern| - 2], "*", '/');
    }
  }

  lemma BothWildcards(pattern: string)
    requires StartsWith(pattern, "*/") && EndsWith(pattern, "/*")
    ensures var p := Segments(pattern);
            |p| >= 2 && Segments(SliceInner(pattern)) == if |p| == 2 then [""] else p[1..|p| - 1]
  {
    LeadingWildcard(pattern);
    SplitSingle("*", '/');
    SplitSingle("", '/');
    if |pattern| < 4 {
      assert pattern == "*" + ['/'] + "*";
      SplitConcat("*", "*", '/');
    } else {
      var inner := SliceInner(pattern);
      assert pattern == "*" + ['/'] + (inner + ['/'] + "*");
      SplitConcat("*", inner + ['/'] + "*", '/');
      SplitConcat(inner, "*", '/');
    }
  }

  /** The string tests refine the segment meaning, for every path text and every pattern text. */
  lemma MatchesMeansSegments(relative: string, pattern: string)
    ensures ExcludePatternMatches(relative, pattern) <==> SegmentsMatch(Segments(relative), Segments(pattern))
  {
    var path, p := Segments(relative), Segments(pattern);
    LeadingWildcard(pattern);
    TrailingWildcard(pattern);
    if StartsWith(pattern, "*/") && EndsWith(pattern, "/*") {
      BothWildcards(pattern);
      ContainsTest(relative, SliceInner(pattern));
    } else if StartsWith(pattern, "*/") {
      ContainsTest(relative, pattern[2..]);
    } else if EndsWith(pattern, "/*") {
      PrefixTest(relative, pattern[..|pattern| - 2]);
    } else {
      PrefixTest(relative, pattern);
      SegmentsInjective(relative, pattern);
      assert p <= path <==> p == path || p < path;
    }
  }

  lemma MatchExtends(path: Path, tail: Path, pattern: Path)
    requires pattern != [] && SegmentsMatch(path, pattern)
    ensures SegmentsMatch(path + tail, pattern)
  {
    forall run | ContainsRun(path, run)
      ensures ContainsRun(path + tail, run)
    {
      var i :| 0 <= i <= |path| && RunAt(path, run, i);
      assert (path + tail)[i..i + |run|] == path[i..i + |run|];
      assert RunAt(path + tail, run, i);
    }
  }

  /** Pruning is sound: once a directory is excluded, so is everything below it. */
  lemma ExclusionClosedUnderDescendants(relative: string, below: string, exclude: seq<string>)
    requires ShouldExcludePath(relative, exclude)
    ensures ShouldExcludePath(relative + "/" + below, exclude)
  {
    var k :| 0 <= k < |exclude| && ExcludePatternMatches(relative, exclude[k]);
    var deeper := relative + ['/'] + below;
    assert relative + "/" + below == deeper;
    SplitConcat(relative, below, '/');
    MatchesMeansSegments(relative, exclude[k]);
    MatchesMeansSegments(deeper, exclude[k]);
    MatchExtends(Segments(relative), Segments(below), Segments(exclude[k]));
  }

  /** The pattern of two bare wildcards excludes no path whose segments are all non-empty. */
  lemma BareWildcardsMatchNothing(relative: string)
    requires "" !in Segments(relative)
    ensures !ExcludePatternMatches(relative, "*/*")
  {
    ContainsTest(relative, "");
    SplitSingle("", '/');
    var path := Segments(relative);
    forall i | 0 <= i < |path|
      ensures path[i..i + 1] == [path[i]] && !RunAt(path, [""], i)
    {
      assert path[i] in path;
    }
  }
}
