/** Jaro and Jaro-Winkler similarity of two strings. */
module Similarity {
  import opened Integers

  // ----- matched characters -----

  function Count(flags: seq<bool>): nat {
    if flags == [] then 0 else Count(flags[..|flags| - 1]) + (if flags[|flags| - 1] then 1 else 0)
  }

  /** The flagged characters, in order. */
  function Picked(s: string, flags: seq<bool>): string
    requires |s| == |flags|
    decreases |s|
  {
    if s == [] then []
    else Picked(s[..|s| - 1], flags[..|s| - 1]) + (if flags[|s| - 1] then [s[|s| - 1]] else [])
  }

  /** In how many places two strings of the same length differ. */
  function Mismatches(x: string, y: string): nat
    requires |x| == |y|
    decreases |x|
  {
    if x == [] then 0
    else Mismatches(x[..|x| - 1], y[..|x| - 1]) + (if x[|x| - 1] != y[|x| - 1] then 1 else 0)
  }

  lemma {:induction false} PickedLength(s: string, flags: seq<bool>)
    requires |s| == |flags|
    ensures |Picked(s, flags)| == Count(flags) <= |flags|
    decreases |s|
  {
    if s != [] {
      PickedLength(s[..|s| - 1], flags[..|s| - 1]);
    }
  }

  lemma {:induction false} MismatchBound(x: string, y: string)
    requires |x| == |y|
    ensures Mismatches(x, y) <= |x| && (Mismatches(x, y) == 0 <==> x == y)
    decreases |x|
  {
    if x != [] {
      var n := |x| - 1;
      MismatchBound(x[..n], y[..n]);
      assert x == x[..n] + [x[n]] && y == y[..n] + [y[n]];
    }
  }

  /** Setting one more flag. */
  lemma {:induction false} CountSet(flags: seq<bool>, i: nat)
    requires i < |flags| && !flags[i]
    ensures Count(flags[i := true]) == Count(flags) + 1
    decreases |flags|
  {
    var n := |flags| - 1;
    if i < n {
      CountSet(flags[..n], i);
      assert flags[i := true][..n] == flags[..n][i := true];
    } else {
      assert flags[i := true][..n] == flags[..n];
    }
  }

  lemma {:induction false} CountPrefix(flags: seq<bool>, k: nat)
    requires k <= |flags|
    ensures Count(flags[..k]) <= Count(flags)
    ensures k < |flags| && flags[k] ==> Count(flags[..k]) < Count(flags)
    decreases |flags|
  {
    if k < |flags| {
      var n := |flags| - 1;
      CountPrefix(flags[..n], k);
      assert flags[..n][..k] == flags[..k];
      if k == n {
        assert flags[..k] == flags[..n];
      }
    } else {
      assert flags[..k] == flags;
    }
  }

  lemma CountStep(flags: seq<bool>, k: nat)
    requires k < |flags|
    ensures Count(flags[..k + 1]) == Count(flags[..k]) + (if flags[k] then 1 else 0)
  {
    assert flags[..k + 1][..k] == flags[..k];
  }

  lemma PickedStep(s: string, flags: seq<bool>, k: nat)
    requires |s| == |flags| && k < |s|
    ensures flags[k] ==> Picked(s[..k + 1], flags[..k + 1]) == Picked(s[..k], flags[..k]) + [s[k]]
    ensures !flags[k] ==> Picked(s[..k + 1], flags[..k + 1]) == Picked(s[..k], flags[..k])
  {
    assert s[..k + 1][..k] == s[..k] && flags[..k + 1][..k] == flags[..k];
    assert Picked(s[..k], flags[..k]) + [] == Picked(s[..k], flags[..k]);
  }

  lemma {:induction false} PickedSet(s: string, flags: seq<bool>, i: nat)
    requires |s| == |flags| && i < |s| && !flags[i]
    ensures multiset(Picked(s, flags[i := true])) == multiset(Picked(s, flags)) + multiset{s[i]}
    decreases |s|
  {
    var n := |s| - 1;
    if i < n {
      PickedSet(s[..n], flags[..n], i);
      assert flags[i := true][..n] == flags[..n][i := true];
    } else {
      assert flags[i := true][..n] == flags[..n];
    }
  }

  // ----- the matching -----

  datatype Matching = Matching(a: seq<bool>, b: seq<bool>)

  function Distance(a: string, b: string): nat {
    Max(Max(|a|, |b|) / 2 - 1, 0)
  }

  /** The first unmatched character of `b` from `j` on that equals `c`, or `end`. */
  function FindFrom(c: char, b: string, taken: seq<bool>, j: nat, end: nat): (r: nat)
    requires j <= end <= |b| == |taken|
    ensures j <= r <= end && (r < end ==> !taken[r] && b[r] == c)
    ensures forall k :: j <= k < r ==> taken[k] || b[k] != c
    decreases end - j
  {
    if j == end then end
    else if !taken[j] && b[j] == c then j
    else FindFrom(c, b, taken, j + 1, end)
  }

  function MatchOne(a: string, b: string, m: Matching, i: nat): (r: Matching)
    requires |m.a| == |a| && |m.b| == |b| && i < |a|
    ensures |r.a| == |a| && |r.b| == |b|
  {
    var start, end := Max(0, i - Distance(a, b)), Min(i + Distance(a, b) + 1, |b|);
    if start >= end then m
    else
      var j := FindFrom(a[i], b, m.b, start, end);
      if j < end then Matching(m.a[i := true], m.b[j := true]) else m
  }

  /** The matching after the first `i` characters of `a`. */
  function MatchUpTo(a: string, b: string, i: nat): (r: Matching)
    requires i <= |a|
    ensures |r.a| == |a| && |r.b| == |b|
  {
    if i == 0 then Matching(seq(|a|, _ => false), seq(|b|, _ => false))
    else MatchOne(a, b, MatchUpTo(a, b, i - 1), i - 1)
  }

  lemma {:induction false} CountNone(flags: seq<bool>)
    requires forall k :: 0 <= k < |flags| ==> !flags[k]
    ensures Count(flags) == 0
  {
    if flags != [] {
      CountNone(flags[..|flags| - 1]);
    }
  }

  lemma NothingPicked(s: string, flags: seq<bool>)
    requires |s| == |flags| && Count(flags) == 0
    ensures Picked(s, flags) == []
  {
    PickedLength(s, flags);
  }

  /** Both match arrays hold the same number of flags, over the same characters. */
  ghost predicate Balanced(a: string, b: string, m: Matching)
    requires |m.a| == |a| && |m.b| == |b|
  {
    Count(m.a) == Count(m.b) && multiset(Picked(a, m.a)) == multiset(Picked(b, m.b))
  }

  lemma PairBalanced(a: string, b: string, m: Matching, i: nat, j: nat)
    requires |m.a| == |a| && |m.b| == |b| && Balanced(a, b, m)
    requires i < |a| && j < |b| && !m.a[i] && !m.b[j] && a[i] == b[j]
    ensures Balanced(a, b, Matching(m.a[i := true], m.b[j := true]))
  {
    CountSet(m.a, i);
    CountSet(m.b, j);
    PickedSet(a, m.a, i);
    PickedSet(b, m.b, j);
  }

  lemma MatchOneBalanced(a: string, b: string, m: Matching, i: nat)
    requires |m.a| == |a| && |m.b| == |b| && Balanced(a, b, m) && i < |a| && !m.a[i]
    ensures Balanced(a, b, MatchOne(a, b, m, i))
  {
    var start, end := Max(0, i - Distance(a, b)), Min(i + Distance(a, b) + 1, |b|);
    if start < end {
      var j := FindFrom(a[i], b, m.b, start, end);
      if j < end {
        PairBalanced(a, b, m, i, j);
      }
    }
  }

  /** Flags of `a` not yet reached are off. */
  lemma {:induction false} LaterUnmatched(a: string, b: string, i: nat)
    requires i <= |a|
    ensures forall k :: i <= k < |a| ==> !MatchUpTo(a, b, i).a[k]
  {
    if i > 0 {
      LaterUnmatched(a, b, i - 1);
    }
  }

  lemma NothingMatchedYet(a: string, b: string)
    ensures Balanced(a, b, MatchUpTo(a, b, 0))
  {
    var m := MatchUpTo(a, b, 0);
    CountNone(m.a);
    CountNone(m.b);
    NothingPicked(a, m.a);
    NothingPicked(b, m.b);
  }

  lemma {:induction false} MatchingIsBalanced(a: string, b: string, i: nat)
    requires i <= |a|
    ensures Balanced(a, b, MatchUpTo(a, b, i))
  {
    if i == 0 {
      NothingMatchedYet(a, b);
    } else {
      MatchingIsBalanced(a, b, i - 1);
      LaterUnmatched(a, b, i - 1);
      MatchOneBalanced(a, b, MatchUpTo(a, b, i - 1), i - 1);
    }
  }

  // ----- the score -----

  function Matches(a: string, b: string): nat {
    Count(MatchUpTo(a, b, |a|).a)
  }

  lemma MatchesBound(a: string, b: string)
    ensures Matches(a, b) <= |a| && Matches(a, b) <= |b|
    ensures var m := MatchUpTo(a, b, |a|);
      |Picked(a, m.a)| == Matches(a, b) == |Picked(b, m.b)|
  {
    var m := MatchUpTo(a, b, |a|);
    MatchingIsBalanced(a, b, |a|);
    PickedLength(a, m.a);
    PickedLength(b, m.b);
  }

  /** Matched characters that stand in a different order in the two strings. */
  function Transpositions(a: string, b: string): nat {
    var m := MatchUpTo(a, b, |a|);
    MatchesBound(a, b);
    Mismatches(Picked(a, m.a), Picked(b, m.b))
  }

  lemma TranspositionsBound(a: string, b: string)
    ensures Transpositions(a, b) <= Matches(a, b)
  {
    var m := MatchUpTo(a, b, |a|);
    MatchesBound(a, b);
    MismatchBound(Picked(a, m.a), Picked(b, m.b));
  }

  function Score(aLen: nat, bLen: nat, matches: nat, transpositions: nat): real
    requires 0 < aLen && 0 < bLen && 0 < matches
  {
    (matches as real / aLen as real + matches as real / bLen as real
     + (matches as real - transpositions as real / 2.0) / matches as real) / 3.0
  }

  function JaroScore(a: string, b: string): real {
    if a == b then 1.0
    else if |a| == 0 || |b| == 0 then 0.0
    else if Matches(a, b) == 0 then 0.0
    else Score(|a|, |b|, Matches(a, b), Transpositions(a, b))
  }

  /** A quotient of two counts, of which the second is at least the first. */
  lemma Ratio(x: real, y: real)
    requires 0.0 <= x <= y && 0.0 < y
    ensures 0.0 <= x / y <= 1.0 && (x / y == 1.0 <==> x == y)
  {
    var q := x / y;
    assert q * y == x;
    assert q < 0.0 ==> q * y < 0.0;
    assert q > 1.0 ==> q * y > y;
  }

  lemma ScoreRange(aLen: nat, bLen: nat, matches: nat, transpositions: nat)
    requires 0 < matches <= aLen && matches <= bLen && transpositions <= matches
    ensures 0.0 <= Score(aLen, bLen, matches, transpositions) <= 1.0
    ensures Score(aLen, bLen, matches, transpositions) == 1.0 <==> aLen == matches == bLen && transpositions == 0
  {
    Ratio(matches as real, aLen as real);
    Ratio(matches as real, bLen as real);
    Ratio(matches as real - transpositions as real / 2.0, matches as real);
  }

  lemma {:induction false} AllPicked(s: string, flags: seq<bool>)
    requires |s| == |flags| == Count(flags)
    ensures Picked(s, flags) == s
    decreases |s|
  {
    if s != [] {
      var n := |s| - 1;
      PickedLength(s[..n], flags[..n]);
      AllPicked(s[..n], flags[..n]);
      assert s == s[..n] + [s[n]];
    }
  }

  /** The score lies between 0 and 1, and is 1 for equal strings only. */
  lemma JaroRange(a: string, b: string)
    ensures 0.0 <= JaroScore(a, b) <= 1.0
    ensures JaroScore(a, b) == 1.0 <==> a == b
  {
    if a != b && |a| > 0 && |b| > 0 && Matches(a, b) > 0 {
      MatchesBound(a, b);
      TranspositionsBound(a, b);
      ScoreRange(|a|, |b|, Matches(a, b), Transpositions(a, b));
      if |a| == Matches(a, b) == |b| {
        var m := MatchUpTo(a, b, |a|);
        MatchingIsBalanced(a, b, |a|);
        AllPicked(a, m.a);
        AllPicked(b, m.b);
        MismatchBound(a, b);
      }
    }
  }

  // ----- the methods -----

  method Jaro(a: string, b: string) returns (score: real)
    ensures score == JaroScore(a, b)
  {
    if a == b {
      return 1.0;
    }
    var aLen, bLen := |a|, |b|;
    if aLen == 0 || bLen == 0 {
      return 0.0;
    }
    var aMatches := new bool[aLen](_ => false);
    var bMatches := new bool[bLen](_ => false);
    var matches := MarkMatches(a, b, aMatches, bMatches);
    if matches == 0 {
      return 0.0;
    }
    MatchingIsBalanced(a, b, aLen);
    var transpositions := CountTranspositions(a, b, aMatches, bMatches);
    return Score(aLen, bLen, matches, transpositions);
  }

  /** Flags, for each character of `a`, the first free equal character of `b` within the match distance. */
  method MarkMatches(a: string, b: string, aMatches: array<bool>, bMatches: array<bool>) returns (matches: nat)
    requires aMatches != bMatches && aMatches.Length == |a| && bMatches.Length == |b|
    requires forall k :: 0 <= k < |a| ==> !aMatches[k]
    requires forall k :: 0 <= k < |b| ==> !bMatches[k]
    modifies aMatches, bMatches
    ensures Matching(aMatches[..], bMatches[..]) == MatchUpTo(a, b, |a|) && matches == Matches(a, b)
  {
    matches := 0;
    CountNone(aMatches[..]);
    assert Matching(aMatches[..], bMatches[..]) == MatchUpTo(a, b, 0);
    for i := 0 to |a|
      invariant Matching(aMatches[..], bMatches[..]) == MatchUpTo(a, b, i) && matches == Count(aMatches[..])
    {
      LaterUnmatched(a, b, i);
      var found := MarkOne(a, b, i, aMatches, bMatches);
      if found {
        matches := matches + 1;
      }
    }
  }

  /** The inner loop: looks for a partner of one character of `a`. */
  method MarkOne(a: string, b: string, i: nat, aMatches: array<bool>, bMatches: array<bool>) returns (found: bool)
    requires aMatches != bMatches && aMatches.Length == |a| && bMatches.Length == |b| && i < |a| && !aMatches[i]
    modifies aMatches, bMatches
    ensures Matching(aMatches[..], bMatches[..]) == MatchOne(a, b, old(Matching(aMatches[..], bMatches[..])), i)
    ensures Count(aMatches[..]) == old(Count(aMatches[..])) + if found then 1 else 0
  {
    var matchDistance := Max(Max(|a|, |b|) / 2 - 1, 0);
    var start := Max(0, i - matchDistance);
    var end := Min(i + matchDistance + 1, |b|);
    ghost var taken := bMatches[..];
    var j := start;
    found := false;
    while j < end
      invariant start <= j && (start < end ==> j <= end) && (start >= end ==> j == start)
      invariant start < end ==> FindFrom(a[i], b, taken, start, end) == FindFrom(a[i], b, taken, j, end)
      invariant !found && aMatches[..] == old(aMatches[..]) && bMatches[..] == taken
    {
      if !(bMatches[j] || a[i] != b[j]) {
        CountSet(aMatches[..], i);
        aMatches[i] := true;
        bMatches[j] := true;
        found := true;
        break;
      }
      j := j + 1;
    }
  }

  /** As long as `a` has a flagged character left, so has `b`: the scan of `b` stops inside it. */
  lemma ScanStaysInside(m: Matching, i: nat, k: nat)
    requires Count(m.a) == Count(m.b) && i < |m.a| && m.a[i]
    requires k <= |m.b| && Count(m.b[..k]) == Count(m.a[..i])
    ensures k < |m.b|
  {
    CountPrefix(m.a, i);
    assert m.b[..|m.b|] == m.b;
  }

  lemma {:induction false} MismatchesAppend(x: string, y: string, c: char, d: char)
    requires |x| == |y|
    ensures Mismatches(x + [c], y + [d]) == Mismatches(x, y) + (if c != d then 1 else 0)
  {
    assert (x + [c])[..|x|] == x && (y + [d])[..|y|] == y;
  }

  /** The first `i` characters of `a` and the first `k` of `b` hold as many flagged ones, of which `t` differ. */
  ghost predicate InStep(a: string, b: string, m: Matching, i: nat, k: nat, t: nat)
    requires |m.a| == |a| && |m.b| == |b|
  {
    i <= |a| && k <= |b| && Count(m.a[..i]) == Count(m.b[..k])
    && |Picked(a[..i], m.a[..i])| == |Picked(b[..k], m.b[..k])|
    && t == Mismatches(Picked(a[..i], m.a[..i]), Picked(b[..k], m.b[..k]))
  }

  lemma SkipInA(a: string, b: string, m: Matching, i: nat, k: nat, t: nat)
    requires |m.a| == |a| && |m.b| == |b| && InStep(a, b, m, i, k, t) && i < |a| && !m.a[i]
    ensures InStep(a, b, m, i + 1, k, t)
  {
    CountStep(m.a, i);
    PickedStep(a, m.a, i);
  }

  lemma SkipInB(a: string, b: string, m: Matching, i: nat, k: nat, t: nat)
    requires |m.a| == |a| && |m.b| == |b| && InStep(a, b, m, i, k, t) && k < |b| && !m.b[k]
    ensures InStep(a, b, m, i, k + 1, t)
  {
    CountStep(m.b, k);
    PickedStep(b, m.b, k);
  }

  lemma Pair(a: string, b: string, m: Matching, i: nat, k: nat, t: nat)
    requires |m.a| == |a| && |m.b| == |b| && InStep(a, b, m, i, k, t) && i < |a| && m.a[i] && k < |b| && m.b[k]
    ensures InStep(a, b, m, i + 1, k + 1, t + if a[i] != b[k] then 1 else 0)
  {
    CountStep(m.a, i);
    PickedStep(a, m.a, i);
    CountStep(m.b, k);
    PickedStep(b, m.b, k);
    MismatchesAppend(Picked(a[..i], m.a[..i]), Picked(b[..k], m.b[..k]), a[i], b[k]);
  }

  /** Once all of `a` has been walked, nothing flagged is left in `b`. */
  lemma {:induction false} WalkedAll(a: string, b: string, m: Matching, k: nat, t: nat)
    requires |m.a| == |a| && |m.b| == |b| && Count(m.a) == Count(m.b) && InStep(a, b, m, |a|, k, t)
    ensures |Picked(a, m.a)| == |Picked(b, m.b)| && t == Mismatches(Picked(a, m.a), Picked(b, m.b))
    decreases |b| - k
  {
    assert a[..|a|] == a && m.a[..|a|] == m.a;
    if k < |b| {
      CountPrefix(m.b, k);
      SkipInB(a, b, m, |a|, k, t);
      WalkedAll(a, b, m, k + 1, t);
    } else {
      assert b[..k] == b && m.b[..k] == m.b;
    }
  }

  /** The flagged characters of both strings, walked in step. */
  method CountTranspositions(a: string, b: string, aMatches: array<bool>, bMatches: array<bool>) returns (transpositions: nat)
    requires aMatches.Length == |a| && bMatches.Length == |b| && Count(aMatches[..]) == Count(bMatches[..])
    ensures |Picked(a, aMatches[..])| == |Picked(b, bMatches[..])|
    ensures transpositions == Mismatches(Picked(a, aMatches[..]), Picked(b, bMatches[..]))
  {
    ghost var m := Matching(aMatches[..], bMatches[..]);
    transpositions := 0;
    var k: nat := 0;
    for i := 0 to |a|
      invariant InStep(a, b, m, i, k, transpositions)
    {
      if !aMatches[i] {
        SkipInA(a, b, m, i, k, transpositions);
        continue;
      }
      ScanStaysInside(m, i, k);
      while !bMatches[k]
        invariant k < |b| && InStep(a, b, m, i, k, transpositions)
        decreases |b| - k
      {
        SkipInB(a, b, m, i, k, transpositions);
        ScanStaysInside(m, i, k + 1);
        k := k + 1;
      }
      Pair(a, b, m, i, k, transpositions);
      if a[i] != b[k] {
        transpositions := transpositions + 1;
      }
      k := k + 1;
    }
    WalkedAll(a, b, m, k, transpositions);
  }

  // ----- Jaro-Winkler -----

  /** The length of the common prefix, at most `limit`. */
  function CommonPrefix(a: string, b: string, limit: nat): (n: nat)
    ensures n <= limit && n <= |a| && n <= |b| && a[..n] == b[..n]
    ensures n < limit && n < |a| && n < |b| ==> a[n] != b[n]
  {
    if limit == 0 || a == [] || b == [] || a[0] != b[0] then 0 else 1 + CommonPrefix(a[1..], b[1..], limit - 1)
  }

  lemma {:induction false} CommonPrefixIs(a: string, b: string, limit: nat, n: nat)
    requires n <= limit && n <= |a| && n <= |b| && a[..n] == b[..n]
    requires n < limit && n < |a| && n < |b| ==> a[n] != b[n]
    ensures CommonPrefix(a, b, limit) == n
  {
    if n > 0 {
      assert a[0] == a[..n][0] == b[..n][0] == b[0];
      assert a[1..][..n - 1] == a[..n][1..] && b[1..][..n - 1] == b[..n][1..];
      CommonPrefixIs(a[1..], b[1..], limit - 1, n - 1);
    }
  }

  function Boosted(score: real, prefix: nat): real {
    score + prefix as real * 0.1 * (1.0 - score)
  }

  function JaroWinklerScore(a: string, b: string): real {
    Boosted(JaroScore(a, b), CommonPrefix(a, b, 4))
  }

  /** A common prefix of at most four characters never lowers a score and keeps it within 1. */
  lemma BoostRaises(score: real, prefix: nat)
    requires 0.0 <= score <= 1.0 && prefix <= 4
    ensures score <= Boosted(score, prefix) <= 1.0 && (Boosted(score, prefix) == 1.0 <==> score == 1.0)
  {
    var p, gap := prefix as real * 0.1, 1.0 - score;
    ProductNonNegative(p, gap);
    ProductNonNegative(0.4 - p, gap);
  }

  lemma ProductNonNegative(x: real, y: real)
    requires 0.0 <= x && 0.0 <= y
    ensures 0.0 <= x * y
  {
  }

  /** The boosted score is at least the Jaro score, lies between 0 and 1, and is 1 for equal strings only. */
  lemma JaroWinklerRange(a: string, b: string)
    ensures 0.0 <= JaroScore(a, b) <= JaroWinklerScore(a, b) <= 1.0
    ensures JaroWinklerScore(a, b) == 1.0 <==> a == b
  {
    JaroRange(a, b);
    BoostRaises(JaroScore(a, b), CommonPrefix(a, b, 4));
  }

  method JaroWinkler(a: string, b: string) returns (score: real)
    ensures score == JaroWinklerScore(a, b)
  {
    var jaroScore := Jaro(a, b);
    var prefixLength := 0;
    var maxPrefix := Min(4, Min(|a|, |b|));
    while prefixLength < maxPrefix && a[prefixLength] == b[prefixLength]
      invariant 0 <= prefixLength <= maxPrefix && a[..prefixLength] == b[..prefixLength]
    {
      prefixLength := prefixLength + 1;
    }
    CommonPrefixIs(a, b, 4, prefixLength);
    return Boosted(jaroScore, prefixLength);
  }
}
