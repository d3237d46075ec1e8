/** JavaScript string operations the index relies on: the `<` comparison that
    orders keys in the store and in the overlap test, and `split`/`join` on a
    one-character delimiter, which the query uses to take keys apart. */
module Strings {

  /** JavaScript's `a < b` on two strings: lexicographic comparison of their
      characters, where a proper prefix is smaller. */
  predicate Less(a: string, b: string)
    decreases |a|
  {
    if |b| == 0 then false
    else if |a| == 0 then true
    else if a[0] != b[0] then a[0] < b[0]
    else Less(a[1..], b[1..])
  }

  lemma {:induction false} LessIrreflexive(a: string)
    ensures !Less(a, a)
    decreases |a|
  {
    if |a| > 0 { LessIrreflexive(a[1..]); }
  }

  lemma {:induction false} LessAsymmetric(a: string, b: string)
    ensures Less(a, b) ==> !Less(b, a)
    decreases |a|
  {
    if |a| > 0 && |b| > 0 && a[0] == b[0] { LessAsymmetric(a[1..], b[1..]); }
  }

  lemma {:induction false} LessTransitive(a: string, b: string, c: string)
    requires Less(a, b) && Less(b, c)
    ensures Less(a, c)
    decreases |a|
  {
    if |a| > 0 && a[0] == b[0] && b[0] == c[0] { LessTransitive(a[1..], b[1..], c[1..]); }
  }

  /** Any two strings are equal or ordered one way or the other. */
  lemma {:induction false} LessTotal(a: string, b: string)
    ensures a == b || Less(a, b) || Less(b, a)
    decreases |a|
  {
    if |a| > 0 && |b| > 0 && a[0] == b[0] {
      LessTotal(a[1..], b[1..]);
      if a[1..] == b[1..] {
        assert a == [a[0]] + a[1..] && b == [b[0]] + b[1..];
      }
    }
  }

  /** Two strings that start alike compare like their remainders. */
  lemma {:induction false} LessCommonPrefix(p: string, s: string, t: string)
    ensures Less(p + s, p + t) == Less(s, t)
    decreases |p|
  {
    if |p| > 0 {
      assert (p + s)[1..] == p[1..] + s && (p + t)[1..] == p[1..] + t;
      LessCommonPrefix(p[1..], s, t);
      assert (p + s)[0] == (p + t)[0];
      assert Less(p + s, p + t) == Less(p[1..] + s, p[1..] + t);
    } else {
      assert p + s == s && p + t == t;
    }
  }

  /** When neither of `x` and `y` is a prefix of the other, whatever follows
      them does not change how they compare. */
  lemma {:induction false} LessDiverge(x: string, y: string, s: string, t: string)
    requires !(x <= y) && !(y <= x)
    ensures Less(x + s, y + t) == Less(x, y)
    decreases |x|
  {
    if x[0] == y[0] {
      assert (x + s)[1..] == x[1..] + s && (y + t)[1..] == y[1..] + t;
      LessDiverge(x[1..], y[1..], s, t);
    }
  }

  /** `a` is a prefix of `b` (possibly equal to it). */
  predicate IsPrefix(a: string, b: string) {
    a <= b
  }

  /** JavaScript's `s.split(d)` for a one-character delimiter `d`: the pieces
      between occurrences of `d`; always at least one piece. */
  function Split(s: string, d: char): (parts: seq<string>)
    ensures |parts| >= 1
    decreases |s|
  {
    if |s| == 0 then [""]
    else
      var rest := Split(s[1..], d);
      if s[0] == d then [""] + rest
      else [[s[0]] + rest[0]] + rest[1..]
  }

  /** JavaScript's `parts.join(d)`; the empty array joins to the empty string. */
  function Join(parts: seq<string>, d: char): string
    decreases |parts|
  {
    if |parts| == 0 then ""
    else if |parts| == 1 then parts[0]
    else parts[0] + [d] + Join(parts[1..], d)
  }

  /** JavaScript's `parts.slice(from, to)` for non-negative indexes: both ends
      are clamped to the length. */
  function Slice<T>(s: seq<T>, from: nat, to: nat): (r: seq<T>)
    ensures from <= to && to <= |s| ==> r == s[from..to]
    ensures from <= |s| <= to ==> r == s[from..]
    ensures |s| <= from || to <= from ==> r == []
    ensures |r| <= |s|
  {
    var lo := if from < |s| then from else |s|;
    var hi := if to < |s| then to else |s|;
    if lo <= hi then s[lo..hi] else []
  }

  /** JavaScript's `parts.slice(from)`. */
  function SliceFrom<T>(s: seq<T>, from: nat): (r: seq<T>)
    ensures from <= |s| ==> r == s[from..]
    ensures from >= |s| ==> r == []
  {
    if from < |s| then s[from..] else []
  }

  /** No piece produced by `split` contains the delimiter. */
  lemma {:induction false} SplitPiecesFree(s: string, d: char)
    ensures forall i :: 0 <= i < |Split(s, d)| ==> d !in Split(s, d)[i]
    decreases |s|
  {
    if |s| > 0 { SplitPiecesFree(s[1..], d); }
  }

  /** `join` undoes `split`. */
  lemma {:induction false} JoinSplit(s: string, d: char)
    ensures Join(Split(s, d), d) == s
    decreases |s|
  {
    if |s| > 0 {
      var rest := Split(s[1..], d);
      JoinSplit(s[1..], d);
      if s[0] == d {
        assert Split(s, d) == [""] + rest;
        assert ([""] + rest)[1..] == rest;
        assert Join(Split(s, d), d) == "" + [d] + Join(rest, d);
        assert s == [s[0]] + s[1..];
      } else if |rest| == 1 {
        assert s == [s[0]] + s[1..];
      } else {
        assert Split(s, d)[1..] == rest[1..];
        assert Join(rest, d) == rest[0] + [d] + Join(rest[1..], d);
        assert s == [s[0]] + s[1..];
      }
    }
  }

  /** Prefixing a delimiter-free string and a delimiter adds exactly one piece. */
  lemma {:induction false} SplitCons(a: string, d: char, b: string)
    requires d !in a
    ensures Split(a + [d] + b, d) == [a] + Split(b, d)
    decreases |a|
  {
    if |a| == 0 {
      assert a + [d] + b == [d] + b;
      assert ([d] + b)[1..] == b;
    } else {
      assert (a + [d] + b)[1..] == a[1..] + [d] + b;
      SplitCons(a[1..], d, b);
      assert a == [a[0]] + a[1..];
    }
  }

  /** `split` undoes `join` when no piece contains the delimiter. */
  lemma {:induction false} SplitJoin(parts: seq<string>, d: char)
    requires |parts| >= 1
    requires forall i :: 0 <= i < |parts| ==> d !in parts[i]
    ensures Split(Join(parts, d), d) == parts
    decreases |parts|
  {
    if |parts| == 1 {
      SplitFree(parts[0], d);
    } else {
      SplitJoin(parts[1..], d);
      SplitCons(parts[0], d, Join(parts[1..], d));
      assert parts == [parts[0]] + parts[1..];
    }
  }

  /** A string without the delimiter splits into itself. */
  lemma {:induction false} SplitFree(s: string, d: char)
    requires d !in s
    ensures Split(s, d) == [s]
    decreases |s|
  {
    if |s| > 0 {
      SplitFree(s[1..], d);
      assert s == [s[0]] + s[1..];
    }
  }

  /** The strings strictly between `p` and `p + [c]` are exactly the strings
      that extend `p` with a next character below `c`. */
  lemma {:induction false} BetweenPrefixAndNext(p: string, c: char, k: string)
    ensures Less(p, k) && Less(k, p + [c]) <==> |k| > |p| && k[..|p|] == p && k[|p|] < c
    decreases |p|
  {
    if |p| > 0 && |k| > 0 && k[0] == p[0] {
      BetweenPrefixAndNext(p[1..], c, k[1..]);
      assert (p + [c])[1..] == p[1..] + [c];
      assert (p + [c])[0] == p[0];
      if |k| > |p| {
        assert k[..|p|] == [k[0]] + k[1..][..|p| - 1];
        assert p == [p[0]] + p[1..];
      }
    } else if |p| == 0 {
      assert p + [c] == [c];
    }
  }
}
