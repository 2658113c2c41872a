/** The parts of Go's `strings` and `path` packages and of Go's string
    ordering that the scraper relies on. Strings are sequences of Unicode
    scalar values; Go compares the UTF-8 bytes of its strings, and UTF-8
    preserves the order of scalar values, so `Less` agrees with Go's `<`. */
module GoStrings {

  /** strings.HasPrefix */
  predicate HasPrefix(s: string, prefix: string) {
    |prefix| <= |s| && s[..|prefix|] == prefix
  }

  /** strings.HasSuffix */
  predicate HasSuffix(s: string, suffix: string) {
    |suffix| <= |s| && s[|s| - |suffix|..] == suffix
  }

  /** strings.Contains: `sub` occurs somewhere in `s`. */
  predicate Contains(s: string, sub: string)
    decreases |s|
  {
    HasPrefix(s, sub) || (|s| > 0 && Contains(s[1..], sub))
  }

  /** Whatever surrounds `sub`, the result contains it. */
  lemma {:induction false} ContainsInfix(a: string, sub: string, b: string)
    ensures Contains(a + sub + b, sub)
    decreases |a|
  {
    var s := a + sub + b;
    if |a| == 0 {
      assert s[..|sub|] == sub;
    } else {
      ContainsInfix(a[1..], sub, b);
      assert s[1..] == a[1..] + sub + b;
    }
  }

  /** strings.TrimPrefix */
  function TrimPrefix(s: string, prefix: string): (r: string)
    ensures HasPrefix(s, prefix) ==> s == prefix + r
    ensures !HasPrefix(s, prefix) ==> r == s
  {
    if HasPrefix(s, prefix) then s[|prefix|..] else s
  }

  /** strings.Split with a one-character separator: the maximal pieces of
      `s` between occurrences of `sep`, always at least one. */
  function Split(s: string, sep: char): (parts: seq<string>)
    ensures |parts| >= 1
    ensures forall i :: 0 <= i < |parts| ==> sep !in parts[i]
    ensures sep !in s ==> parts == [s]
    ensures |parts| == 1 ==> parts == [s]
    decreases |s|
  {
    if |s| == 0 then [""]
    else if s[0] == sep then [""] + Split(s[1..], sep)
    else
      var rest := Split(s[1..], sep);
      assert s == [s[0]] + s[1..];
      [[s[0]] + rest[0]] + rest[1..]
  }

  /** strings.Join with a one-character separator. */
  function Join(parts: seq<string>, sep: char): string
    decreases |parts|
  {
    if |parts| == 0 then ""
    else if |parts| == 1 then parts[0]
    else parts[0] + [sep] + Join(parts[1..], sep)
  }

  /** Splitting at a separator splits the two sides independently. */
  lemma {:induction false} SplitConcat(a: string, sep: char, b: string)
    ensures Split(a + [sep] + b, sep) == Split(a, sep) + Split(b, sep)
    decreases |a|
  {
    if |a| == 0 {
      assert a + [sep] + b == [sep] + b;
      assert ([sep] + b)[1..] == b;
    } else {
      assert (a + [sep] + b)[0] == a[0];
      assert (a + [sep] + b)[1..] == a[1..] + [sep] + b;
      SplitConcat(a[1..], sep, b);
    }
  }

  /** Joining is the inverse of splitting. */
  lemma {:induction false} JoinSplit(s: string, sep: char)
    ensures Join(Split(s, sep), sep) == s
    decreases |s|
  {
    if |s| > 0 {
      var rest := Split(s[1..], sep);
      JoinSplit(s[1..], sep);
      if s[0] == sep {
        JoinEmptyFirst(rest, sep);
      } else {
        JoinExtendFirst(s[0], rest, sep);
      }
      assert s == [s[0]] + s[1..];
    }
  }

  /** An empty first piece puts a separator in front. */
  lemma JoinEmptyFirst(parts: seq<string>, sep: char)
    requires |parts| >= 1
    ensures Join([""] + parts, sep) == [sep] + Join(parts, sep)
  {
    assert ([""] + parts)[1..] == parts;
  }

  /** A character in front of the first piece is in front of the join. */
  lemma JoinExtendFirst(c: char, parts: seq<string>, sep: char)
    requires |parts| >= 1
    ensures Join([[c] + parts[0]] + parts[1..], sep) == [c] + Join(parts, sep)
  {
    var q := [[c] + parts[0]] + parts[1..];
    if |parts| > 1 {
      assert q[1..] == parts[1..];
    }
  }

  /** Joining pieces free of the separator and splitting again gives the
      pieces back. */
  lemma {:induction false} SplitJoin(parts: seq<string>, sep: char)
    requires |parts| >= 1
    requires forall i :: 0 <= i < |parts| ==> sep !in parts[i]
    ensures Split(Join(parts, sep), sep) == parts
    decreases |parts|
  {
    if |parts| > 1 {
      SplitJoin(parts[1..], sep);
      SplitConcat(parts[0], sep, Join(parts[1..], sep));
      assert parts == [parts[0]] + parts[1..];
    }
  }

  /** Joining a concatenation puts one separator between the two joins. */
  lemma {:induction false} JoinAppend(p: seq<string>, q: seq<string>, sep: char)
    requires |p| >= 1 && |q| >= 1
    ensures Join(p + q, sep) == Join(p, sep) + [sep] + Join(q, sep)
    decreases |p|
  {
    if |p| == 1 {
      assert (p + q)[1..] == q;
    } else {
      assert (p + q)[1..] == p[1..] + q;
      JoinAppend(p[1..], q, sep);
    }
  }

  /** Two pieces join around one separator. */
  lemma JoinPair(x: string, y: string, sep: char)
    ensures Join([x, y], sep) == x + [sep] + y
  {
    assert [x, y][1..] == [y];
  }

  /** Joining all pieces is joining all but the last two, then the last
      two, each after a separator. */
  lemma JoinLastTwo(s: seq<string>, sep: char)
    requires |s| >= 3
    ensures Join(s[..|s| - 2], sep) + [sep] + s[|s| - 2] + [sep] + s[|s| - 1] == Join(s, sep)
  {
    var n := |s|;
    var init, x, y := s[..n - 2], s[n - 2], s[n - 1];
    assert s == init + [x, y];
    JoinAppend(init, [x, y], sep);
    JoinPair(x, y, sep);
    var a := Join(init, sep) + [sep];
    assert Join(s, sep) == a + ((x + [sep]) + y);
    ConcatAssoc(a, x + [sep], y);
    ConcatAssoc(a, x, [sep]);
  }

  /** Concatenation is associative. */
  lemma ConcatAssoc<T>(a: seq<T>, b: seq<T>, c: seq<T>)
    ensures a + (b + c) == (a + b) + c
  {
  }

  /** The last piece of `s` split at `sep`: what follows the last `sep`,
      or all of `s` when it holds none. */
  function LastSegment(s: string, sep: char): (r: string)
    ensures HasSuffix(s, r)
    ensures sep !in r
    ensures |r| < |s| ==> s[|s| - |r| - 1] == sep
    ensures sep !in s ==> r == s
  {
    var parts := Split(s, sep);
    SplitLast(s, sep);
    parts[|parts| - 1]
  }

  lemma {:induction false} SplitLast(s: string, sep: char)
    ensures var parts := Split(s, sep);
      var r := parts[|parts| - 1];
      HasSuffix(s, r) && (|r| < |s| ==> s[|s| - |r| - 1] == sep)
    decreases |s|
  {
    if |s| > 0 {
      SplitLast(s[1..], sep);
      SplitLastPiece(s, sep);
      var rest := Split(s[1..], sep);
      var r := rest[|rest| - 1];
      if s[0] == sep || |rest| > 1 {
        var t := s[1..];
        assert s[|s| - |r|..] == t[|t| - |r|..];
        if |r| < |t| {
          assert s[|s| - |r| - 1] == t[|t| - |r| - 1];
        }
      }
    }
  }

  /** The last piece of a non-empty string is the last piece of its tail,
      unless the first character extends the tail's only piece. */
  lemma SplitLastPiece(s: string, sep: char)
    requires |s| > 0
    ensures var parts, rest := Split(s, sep), Split(s[1..], sep);
      if s[0] != sep && |rest| == 1 then parts == [s] else parts[|parts| - 1] == rest[|rest| - 1]
  {
  }

  /** The first piece of `s` split at `sep`: what precedes the first `sep`,
      or all of `s` when it holds none. */
  function FirstSegment(s: string, sep: char): (r: string)
    ensures HasPrefix(s, r)
    ensures sep !in r
    ensures |r| < |s| ==> s[|r|] == sep
    ensures sep !in s ==> r == s
  {
    SplitFirst(s, sep);
    Split(s, sep)[0]
  }

  lemma {:induction false} SplitFirst(s: string, sep: char)
    ensures var r := Split(s, sep)[0];
      HasPrefix(s, r) && (|r| < |s| ==> s[|r|] == sep)
    decreases |s|
  {
    if |s| > 0 && s[0] != sep {
      SplitFirst(s[1..], sep);
      var r := Split(s[1..], sep)[0];
      assert Split(s, sep)[0] == [s[0]] + r;
      assert s[..|r| + 1] == [s[0]] + s[1..][..|r|];
    }
  }

  /** A prefix free of `sep` that is followed by `sep` (or is everything) is
      the first piece. */
  lemma FirstSegmentOf(s: string, sep: char, a: string, b: string)
    requires sep !in a
    requires s == a + [sep] + b
    ensures FirstSegment(s, sep) == a
  {
    SplitConcat(a, sep, b);
  }

  /** A suffix free of `sep` that is preceded by `sep` is the last piece. */
  lemma LastSegmentOf(s: string, sep: char, a: string, b: string)
    requires sep !in b
    requires s == a + [sep] + b
    ensures LastSegment(s, sep) == b
  {
    SplitConcat(a, sep, b);
  }

  /** `s` with its trailing `/` characters removed. */
  function TrimTrailingSlashes(s: string): (r: string)
    ensures HasPrefix(s, r)
    ensures |r| > 0 ==> r[|r| - 1] != '/'
    ensures forall i :: |r| <= i < |s| ==> s[i] == '/'
    decreases |s|
  {
    if |s| > 0 && s[|s| - 1] == '/' then TrimTrailingSlashes(s[..|s| - 1]) else s
  }

  /** path.Base: the last element of a slash-separated path, ignoring
      trailing slashes; "." for the empty path and "/" for a path of
      slashes only. */
  function PathBase(p: string): (r: string)
    ensures r != ""
    ensures p == "" ==> r == "."
    ensures (forall i :: 0 <= i < |p| ==> p[i] == '/') && p != "" ==> r == "/"
    ensures (exists i :: 0 <= i < |p| && p[i] != '/') ==> '/' !in r && Contains(p, r)
    ensures (exists i :: 0 <= i < |p| && p[i] != '/') ==>
      var t := TrimTrailingSlashes(p);
      HasSuffix(t, r) && (|r| < |t| ==> t[|t| - |r| - 1] == '/')
  {
    if p == "" then "."
    else
      var t := TrimTrailingSlashes(p);
      if t == "" then "/"
      else
        var r := LastSegment(t, '/');
        assert r != "";
        HasPrefixContains(p[|t| - |r|..], r);
        SuffixContains(p, p[|t| - |r|..], |t| - |r|);
        r
  }

  lemma HasPrefixContains(s: string, sub: string)
    requires HasPrefix(s, sub)
    ensures Contains(s, sub)
  {
  }

  lemma {:induction false} SuffixContains(s: string, t: string, k: nat)
    requires k <= |s| && t == s[k..]
    ensures forall sub :: Contains(t, sub) ==> Contains(s, sub)
    decreases k
  {
    if k > 0 {
      SuffixContains(s[1..], t, k - 1);
      assert s[1..][k - 1..] == s[k..];
    }
  }

  /** The base of `dir/name/`, for a non-empty `name` free of `/`, is `name`. */
  lemma PathBaseOfDirectory(dir: string, name: string)
    requires name != "" && '/' !in name
    ensures PathBase(dir + "/" + name + "/") == name
  {
    var p := dir + "/" + name + "/";
    assert p[|p| - 1] == '/';
    assert TrimTrailingSlashes(p) == TrimTrailingSlashes(p[..|p| - 1]);
    assert p[..|p| - 1] == dir + "/" + name;
    assert name[|name| - 1] != '/' by { assert name[|name| - 1] in name; }
    LastSegmentOf(dir + "/" + name, '/', dir, name);
  }

  /** Go's `<` on strings: lexicographic order, a proper prefix first. */
  predicate Less(a: string, b: string)
    decreases |a|
  {
    |b| > 0 && (|a| == 0 || a[0] < b[0] || (a[0] == b[0] && Less(a[1..], b[1..])))
  }

  lemma {:induction false} LessIrreflexive(a: string)
    ensures !Less(a, a)
    decreases |a|
  {
    if |a| > 0 { LessIrreflexive(a[1..]); }
  }

  lemma {:induction false} LessTransitive(a: string, b: string, c: string)
    requires Less(a, b) && Less(b, c)
    ensures Less(a, c)
    decreases |a|
  {
    if |a| > 0 && a[0] == b[0] == c[0] {
      LessTransitive(a[1..], b[1..], c[1..]);
    }
  }

  lemma {:induction false} LessTotal(a: string, b: string)
    ensures a == b || Less(a, b) || Less(b, a)
    decreases |a|
  {
    if |a| > 0 && |b| > 0 && a[0] == b[0] {
      LessTotal(a[1..], b[1..]);
      if a[1..] == b[1..] {
        assert a == [a[0]] + a[1..] && b == [b[0]] + b[1..];
      }
    }
  }

  /** Not-less is transitive too: Go's `>=` is a total preorder. */
  lemma NotLessTransitive(a: string, b: string, c: string)
    requires !Less(a, b) && !Less(b, c)
    ensures !Less(a, c)
  {
    LessTotal(a, b);
    LessTotal(b, c);
    if Less(b, a) && Less(c, b) { LessTransitive(c, b, a); LessAsymmetric(a, c); }
    else if a == b { }
    else if b == c { }
  }

  lemma LessAsymmetric(a: string, b: string)
    requires Less(b, a)
    ensures !Less(a, b)
  {
    if Less(a, b) { LessTransitive(a, b, a); LessIrreflexive(a); }
  }

  /** Two strings neither of which is less than the other are equal. */
  lemma LessAntisymmetric(a: string, b: string)
    requires !Less(a, b) && !Less(b, a)
    ensures a == b
  {
    LessTotal(a, b);
  }
}
