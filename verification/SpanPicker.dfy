// Picking the linked span that best matches a mention: the two-row dynamic program for the
// longest common substring, and the choice made with it.
module SpanPicker {
  import opened Common
  import opened Text

  // ---------- Common substrings ----------

  /** The `n` characters of `a` from `i` are the `n` characters of `b` from `j`. */
  predicate Shared(a: string, b: string, i: nat, j: nat, n: nat) {
    i + n <= |a| && j + n <= |b| && a[i..i + n] == b[j..j + n]
  }

  /** `n` is the greatest length of a string that occurs contiguously in both `a` and `b`. */
  ghost predicate IsLongestCommon(a: string, b: string, n: nat) {
    && (exists i: nat, j: nat :: Shared(a, b, i, j, n))
    && (forall i: nat, j: nat, k: nat :: Shared(a, b, i, j, k) ==> k <= n)
  }

  lemma LongestCommonIsUnique(a: string, b: string, m: nat, n: nat)
    requires IsLongestCommon(a, b, m) && IsLongestCommon(a, b, n)
    ensures m == n
  {
    var i: nat, j: nat :| Shared(a, b, i, j, m);
    var i': nat, j': nat :| Shared(a, b, i', j', n);
  }

  // ---------- The recurrence ----------

  /** The length of the longest string that ends at `i` in `a` and at `j` in `b`. */
  function Suffix(a: string, b: string, i: nat, j: nat): (n: nat)
    requires i <= |a| && j <= |b|
    ensures n <= i && n <= j
  {
    if i == 0 || j == 0 || a[i - 1] != b[j - 1] then 0 else Suffix(a, b, i - 1, j - 1) + 1
  }

  lemma SliceEnd(s: string, lo: nat, hi: nat)
    requires lo < hi <= |s|
    ensures s[lo..hi] == s[lo..hi - 1] + [s[hi - 1]]
    ensures s[lo..hi][..hi - lo - 1] == s[lo..hi - 1] && s[lo..hi][hi - lo - 1] == s[hi - 1]
  {
  }

  lemma {:induction false} SuffixIsCommon(a: string, b: string, i: nat, j: nat)
    requires i <= |a| && j <= |b|
    ensures var n := Suffix(a, b, i, j); Shared(a, b, i - n, j - n, n)
    decreases i
  {
    if i > 0 && j > 0 && a[i - 1] == b[j - 1] {
      SuffixIsCommon(a, b, i - 1, j - 1);
      var n := Suffix(a, b, i, j);
      SliceEnd(a, i - n, i);
      SliceEnd(b, j - n, j);
    }
  }

  lemma {:induction false} CommonIsSuffix(a: string, b: string, i: nat, j: nat, n: nat)
    requires Shared(a, b, i, j, n)
    ensures n <= Suffix(a, b, i + n, j + n)
    decreases n
  {
    if n > 0 {
      SliceEnd(a, i, i + n);
      SliceEnd(b, j, j + n);
      CommonIsSuffix(a, b, i, j, n - 1);
    }
  }

  /** Cell `p`, `q` lies in the first `i` rows, or in row `i + 1` among the first `j` columns. */
  predicate Filled(i: nat, j: nat, p: nat, q: nat) {
    p <= i || (p == i + 1 && q <= j)
  }

  /** `best` is the greatest of the filled cells. */
  ghost predicate BestSoFar(a: string, b: string, i: nat, j: nat, best: nat) {
    && (best == 0 || exists p: nat, q: nat :: p <= |a| && q <= |b| && Suffix(a, b, p, q) == best)
    && (forall p: nat, q: nat :: p <= |a| && q <= |b| && Filled(i, j, p, q) ==> Suffix(a, b, p, q) <= best)
  }

  lemma OneMoreCell(a: string, b: string, i: nat, j: nat, best: nat)
    requires 1 <= i <= |a| && 1 <= j <= |b| && BestSoFar(a, b, i - 1, j - 1, best)
    ensures BestSoFar(a, b, i - 1, j, Max(best, Suffix(a, b, i, j)))
  {
  }

  lemma NextRow(a: string, b: string, i: nat, best: nat)
    requires 1 <= i <= |a| && BestSoFar(a, b, i - 1, |b|, best)
    ensures BestSoFar(a, b, i, 0, best)
  {
    forall p: nat, q: nat | p <= |a| && q <= |b| && Filled(i, 0, p, q) ensures Suffix(a, b, p, q) <= best {
      assert Filled(i - 1, |b|, p, q) || q == 0;
    }
  }

  lemma BestIsLongest(a: string, b: string, best: nat)
    requires BestSoFar(a, b, |a|, 0, best)
    ensures IsLongestCommon(a, b, best)
  {
    if best == 0 {
      assert Shared(a, b, 0, 0, 0);
    } else {
      var p: nat, q: nat :| p <= |a| && q <= |b| && Suffix(a, b, p, q) == best;
      SuffixIsCommon(a, b, p, q);
      assert Shared(a, b, p - best, q - best, best);
    }
    forall i: nat, j: nat, k: nat | Shared(a, b, i, j, k) ensures k <= best {
      CommonIsSuffix(a, b, i, j, k);
    }
  }

  /** The two-row table. */
  method LongestCommonSubstring(a: string, b: string) returns (best: nat)
    ensures IsLongestCommon(a, b, best)
  {
    var n, m := |a|, |b|;
    var prev := new nat[m + 1](_ => 0);
    best := 0;
    for i := 1 to n + 1
      invariant prev.Length == m + 1
      invariant forall q :: 0 <= q <= m ==> prev[q] == Suffix(a, b, i - 1, q)
      invariant BestSoFar(a, b, i - 1, 0, best)
    {
      var curr := new nat[m + 1](_ => 0);
      for j := 1 to m + 1
        modifies curr
        invariant forall q :: 0 <= q < j ==> curr[q] == Suffix(a, b, i, q)
        invariant forall q :: j <= q <= m ==> curr[q] == 0
        invariant BestSoFar(a, b, i - 1, j - 1, best)
      {
        OneMoreCell(a, b, i, j, best);
        ghost var before := best;
        if a[i - 1] == b[j - 1] {
          curr[j] := prev[j - 1] + 1;
          if curr[j] > best {
            best := curr[j];
          }
        }
        assert curr[j] == Suffix(a, b, i, j);
        assert best == Max(before, curr[j]);
      }
      prev := curr;
      NextRow(a, b, i, best);
    }
    BestIsLongest(a, b, best);
  }

  /** Both strings are lower-cased first; equal and empty strings are settled without the table. */
  method CharOverlap(a: string, b: string) returns (best: nat)
    ensures IsLongestCommon(Lower(a), Lower(b), best)
  {
    var aLower, bLower := Lower(a), Lower(b);
    if aLower == bLower {
      assert Shared(aLower, bLower, 0, 0, |aLower|);
      return |aLower|;
    }
    if |aLower| == 0 || |bLower| == 0 {
      assert Shared(aLower, bLower, 0, 0, 0);
      return 0;
    }
    best := LongestCommonSubstring(aLower, bLower);
  }

  // ---------- The choice ----------

  /** The overlap of a span with the target. */
  ghost function Overlap(span: string, target: string): (n: nat)
    ensures IsLongestCommon(Lower(span), Lower(target), n)
  {
    SomeOverlap(span, target);
    var n: nat :| IsLongestCommon(Lower(span), Lower(target), n);
    n
  }

  lemma SomeOverlap(span: string, target: string)
    ensures exists n: nat :: IsLongestCommon(Lower(span), Lower(target), n)
  {
    var n := LongestUpTo(Lower(span), Lower(target), |span|);
  }

  /** Searches down from `n` for a common length. */
  lemma {:induction false} LongestUpTo(a: string, b: string, n: nat) returns (best: nat)
    requires forall i: nat, j: nat, k: nat :: Shared(a, b, i, j, k) ==> k <= n
    ensures IsLongestCommon(a, b, best)
    decreases n
  {
    if exists i: nat, j: nat :: Shared(a, b, i, j, n) {
      best := n;
    } else if n == 0 {
      assert Shared(a, b, 0, 0, 0);
    } else {
      best := LongestUpTo(a, b, n - 1);
    }
  }

  predicate Exact(span: string, target: string) {
    Strip(Lower(span)) == target
  }

  /** The overlap covers at least half of the target. */
  ghost predicate Qualifies(span: string, target: string) {
    Overlap(span, target) * 2 >= |target|
  }

  function Target(surfaceForm: string): string {
    Strip(Lower(surfaceForm))
  }

  /** Span `i` is the first exact match. */
  predicate FirstExact(spans: seq<string>, target: string, i: nat) {
    i < |spans| && Exact(spans[i], target) && forall j :: 0 <= j < i ==> !Exact(spans[j], target)
  }

  /** Span `i` is the first of greatest overlap among the first `n`, and it qualifies. */
  ghost predicate FirstBest(spans: seq<string>, target: string, n: nat, i: nat) {
    && i < n <= |spans| && Qualifies(spans[i], target)
    && (forall j :: 0 <= j < n ==> Overlap(spans[j], target) <= Overlap(spans[i], target))
    && (forall j :: 0 <= j < i ==> Overlap(spans[j], target) < Overlap(spans[i], target))
  }

  ghost predicate NoneQualifies(spans: seq<string>, target: string) {
    forall j :: 0 <= j < |spans| ==> !Qualifies(spans[j], target)
  }

  method FindExact(spans: seq<string>, target: string) returns (r: Option<nat>)
    ensures r.Some? ==> FirstExact(spans, target, r.value)
    ensures r.None? ==> forall j :: 0 <= j < |spans| ==> !Exact(spans[j], target)
  {
    for i := 0 to |spans|
      invariant forall j :: 0 <= j < i ==> !Exact(spans[j], target)
    {
      if Strip(Lower(spans[i])) == target {
        return Some(i);
      }
    }
    return None;
  }

  method FindBestOverlap(spans: seq<string>, target: string) returns (r: Option<nat>)
    requires target != ""
    ensures r.Some? ==> FirstBest(spans, target, |spans|, r.value)
    ensures r.None? ==> NoneQualifies(spans, target)
  {
    var best: nat := 0;
    r := None;
    for i := 0 to |spans|
      invariant r.None? ==> NoneQualifies(spans[..i], target)
      invariant r.Some? ==> FirstBest(spans, target, i, r.value) && best == Overlap(spans[r.value], target)
    {
      var overlap := CharOverlap(spans[i], target);
      LongestCommonIsUnique(Lower(spans[i]), Lower(target), overlap, Overlap(spans[i], target));
      if overlap > 0 && overlap * 2 >= |target| && (r.None? || overlap > best) {
        if r.None? {
          assert forall j :: 0 <= j < i ==> spans[..i][j] == spans[j] && !Qualifies(spans[j], target);
        }
        r, best := Some(i), overlap;
      }
    }
    assert spans[..|spans|] == spans;
  }

  /** Which span is picked, by its index: the first exact match; otherwise the first of greatest
      overlap covering half of the target; none exactly when no span is exact or covers half. */
  method PickBestSpan(spans: seq<string>, surfaceForm: string) returns (r: Option<nat>)
    ensures var target := Strip(Lower(surfaceForm));
      match r
      case None =>
        || target == ""
        || forall j :: 0 <= j < |spans| ==>
             Strip(Lower(spans[j])) != target && Overlap(spans[j], target) * 2 < |target|
      case Some(i) =>
        && target != "" && i < |spans|
        && if Strip(Lower(spans[i])) == target then forall j :: 0 <= j < i ==> Strip(Lower(spans[j])) != target
           else
             && Overlap(spans[i], target) * 2 >= |target|
             && (forall j :: 0 <= j < i ==> Overlap(spans[j], target) < Overlap(spans[i], target))
             && forall j :: 0 <= j < |spans| ==>
                  Strip(Lower(spans[j])) != target && Overlap(spans[j], target) <= Overlap(spans[i], target)
  {
    var target := Target(surfaceForm);
    if spans == [] || target == "" {
      return None;
    }
    r := FindExact(spans, target);
    if r.None? {
      r := FindBestOverlap(spans, target);
    }
  }

  // ---------- What the choice means ----------

  /** An exact match contains the whole target, so no span overlaps the target more. Preferring
      exact matches therefore never gives up overlap. */
  lemma ExactHasGreatestOverlap(span: string, surfaceForm: string)
    requires Exact(span, Target(surfaceForm))
    ensures Overlap(span, Target(surfaceForm)) == |Target(surfaceForm)|
    ensures forall other :: Overlap(other, Target(surfaceForm)) <= |Target(surfaceForm)|
  {
    var target := Target(surfaceForm);
    TargetIsLower(surfaceForm);
    var lead, trail := StripKeepsTheMiddle(Lower(span));
    assert Lower(span)[|lead|..|lead| + |target|] == target[0..0 + |target|];
    assert Shared(Lower(span), Lower(target), |lead|, 0, |target|);
    forall other ensures Overlap(other, target) <= |target| {
      var i: nat, j: nat :| Shared(Lower(other), Lower(target), i, j, Overlap(other, target));
    }
  }

  lemma TargetIsLower(surfaceForm: string)
    ensures Lower(Target(surfaceForm)) == Target(surfaceForm)
  {
    var low := Lower(surfaceForm);
    var lead, trail := StripKeepsTheMiddle(low);
    MiddleOfLower(surfaceForm, lead, Strip(low), trail);
  }

  lemma MiddleOfLower(s: string, lead: string, middle: string, trail: string)
    requires Lower(s) == lead + middle + trail
    ensures Lower(middle) == middle
  {
    forall k | 0 <= k < |middle| ensures LowerChar(middle[k]) == middle[k] {
      assert (lead + middle + trail)[|lead| + k] == middle[k];
      assert Lower(s)[|lead| + k] == LowerChar(s[|lead| + k]);
    }
  }
}
