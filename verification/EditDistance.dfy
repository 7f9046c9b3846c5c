// Word-level edit distance: the one-row, in-place dynamic program behind the
// fallback word error rate, proved to compute the least cost of an edit script
// and to be a metric on word lists.
module EditDistance {
  import opened Common

  // ---------- Specification: edit scripts ----------

  /** One edit of a script. Everything but `Keep` costs one. */
  datatype Edit<T> = Keep | Substitute(to: T) | Insert(word: T) | Delete

  /** The list a script turns `ref` into, or `None` when the script does not fit `ref` exactly. */
  function Apply<T>(script: seq<Edit<T>>, ref: seq<T>): Option<seq<T>> {
    if script == [] then
      if ref == [] then Some([]) else None
    else
      var rest := Front(script);
      match Last(script)
      case Insert(w) => Append(Apply(rest, ref), [w])
      case Delete => if ref == [] then None else Apply(rest, Front(ref))
      case Keep => if ref == [] then None else Append(Apply(rest, Front(ref)), [Last(ref)])
      case Substitute(w) => if ref == [] then None else Append(Apply(rest, Front(ref)), [w])
  }

  function Append<T>(front: Option<seq<T>>, tail: seq<T>): Option<seq<T>> {
    match front
    case None => None
    case Some(words) => Some(words + tail)
  }

  function Cost<T>(script: seq<Edit<T>>): nat {
    if script == [] then 0
    else Cost(Front(script)) + if Last(script).Keep? then 0 else 1
  }

  // ---------- The recurrence the table is filled by ----------

  function Distance<T(==)>(ref: seq<T>, hyp: seq<T>): nat
    decreases |ref| + |hyp|
  {
    if ref == [] then |hyp|
    else if hyp == [] then |ref|
    else
      var change := if Last(ref) == Last(hyp) then 0 else 1;
      Min(Min(Distance(Front(ref), hyp) + 1, Distance(ref, Front(hyp)) + 1),
          Distance(Front(ref), Front(hyp)) + change)
  }

  /** No script turning `ref` into `hyp` is cheaper than `Distance`. */
  lemma {:induction false} NoScriptIsCheaper<T>(script: seq<Edit<T>>, ref: seq<T>, hyp: seq<T>)
    requires Apply(script, ref) == Some(hyp)
    ensures Distance(ref, hyp) <= Cost(script)
    decreases |script|
  {
    if script != [] {
      var rest := Front(script);
      match Last(script)
      case Insert(w) =>
        assert Front(hyp) == Apply(rest, ref).value;
        NoScriptIsCheaper(rest, ref, Front(hyp));
        if ref == [] { DistanceBounds(ref, Front(hyp)); }
      case Delete =>
        NoScriptIsCheaper(rest, Front(ref), hyp);
      case Keep =>
        assert Front(hyp) == Apply(rest, Front(ref)).value;
        NoScriptIsCheaper(rest, Front(ref), Front(hyp));
      case Substitute(w) =>
        assert Front(hyp) == Apply(rest, Front(ref)).value;
        NoScriptIsCheaper(rest, Front(ref), Front(hyp));
    }
  }

  /** Some script attains `Distance`. */
  lemma {:induction false} SomeScriptAttains<T>(ref: seq<T>, hyp: seq<T>) returns (script: seq<Edit<T>>)
    ensures Apply(script, ref) == Some(hyp)
    ensures Cost(script) == Distance(ref, hyp)
    decreases |ref| + |hyp|
  {
    if ref == [] && hyp == [] {
      script := [];
    } else {
      var rest, edit;
      if ref == [] || (hyp != [] && Distance(ref, hyp) == Distance(ref, Front(hyp)) + 1) {
        rest := SomeScriptAttains(ref, Front(hyp));
        edit := Insert(Last(hyp));
        assert Front(hyp) + [Last(hyp)] == hyp;
      } else if hyp == [] || Distance(ref, hyp) == Distance(Front(ref), hyp) + 1 {
        rest := SomeScriptAttains(Front(ref), hyp);
        edit := Delete;
      } else {
        rest := SomeScriptAttains(Front(ref), Front(hyp));
        edit := if Last(ref) == Last(hyp) then Keep else Substitute(Last(hyp));
        assert Front(hyp) + [Last(hyp)] == hyp;
      }
      script := rest + [edit];
      assert Front(script) == rest;
    }
  }

  // ---------- The distance is a metric ----------

  lemma {:induction false} DistanceBounds<T>(ref: seq<T>, hyp: seq<T>)
    ensures |ref| - |hyp| <= Distance(ref, hyp) && |hyp| - |ref| <= Distance(ref, hyp)
    ensures Distance(ref, hyp) <= Max(|ref|, |hyp|)
    decreases |ref| + |hyp|
  {
    if ref != [] && hyp != [] {
      DistanceBounds(Front(ref), hyp);
      DistanceBounds(ref, Front(hyp));
      DistanceBounds(Front(ref), Front(hyp));
    }
  }

  lemma {:induction false} DistanceSymmetric<T>(a: seq<T>, b: seq<T>)
    ensures Distance(a, b) == Distance(b, a)
    decreases |a| + |b|
  {
    if a != [] && b != [] {
      DistanceSymmetric(Front(a), b);
      DistanceSymmetric(a, Front(b));
      DistanceSymmetric(Front(a), Front(b));
    }
  }

  lemma {:induction false} DistanceZeroIff<T>(a: seq<T>, b: seq<T>)
    ensures Distance(a, b) == 0 <==> a == b
    decreases |a|
  {
    if a != [] && b != [] {
      DistanceZeroIff(Front(a), Front(b));
      assert a == Front(a) + [Last(a)] && b == Front(b) + [Last(b)];
    }
  }

  lemma {:induction false} TriangleInequality<T>(a: seq<T>, b: seq<T>, c: seq<T>)
    ensures Distance(a, c) <= Distance(a, b) + Distance(b, c)
    decreases |a| + |b| + |c|
  {
    if a == [] || b == [] || c == [] {
      DistanceBounds(a, b);
      DistanceBounds(b, c);
      DistanceBounds(a, c);
    } else {
      var a', b', c' := Front(a), Front(b), Front(c);
      TriangleInequality(a', b, c);
      TriangleInequality(a, b, c');
      TriangleInequality(a, b', c);
      TriangleInequality(a', b', c);
      TriangleInequality(a, b', c');
      TriangleInequality(a', b', c');
    }
  }

  // ---------- The table ----------

  /** The distance between two prefixes: what the table holds at row `i`, column `j`. */
  ghost function Cell<T>(ref: seq<T>, hyp: seq<T>, i: nat, j: nat): nat
    requires i <= |ref| && j <= |hyp|
  {
    Distance(ref[..i], hyp[..j])
  }

  lemma CellStep<T>(ref: seq<T>, hyp: seq<T>, i: nat, j: nat)
    requires 1 <= i <= |ref| && 1 <= j <= |hyp|
    ensures Cell(ref, hyp, i, j) ==
      Min(Min(Cell(ref, hyp, i - 1, j) + 1, Cell(ref, hyp, i, j - 1) + 1),
          Cell(ref, hyp, i - 1, j - 1) + if ref[i - 1] == hyp[j - 1] then 0 else 1)
  {
    assert Front(ref[..i]) == ref[..i - 1] && Front(hyp[..j]) == hyp[..j - 1];
  }

  lemma CellEdges<T>(ref: seq<T>, hyp: seq<T>)
    ensures forall j :: 0 <= j <= |hyp| ==> Cell(ref, hyp, 0, j) == j
    ensures forall i :: 0 <= i <= |ref| ==> Cell(ref, hyp, i, 0) == i
    ensures Cell(ref, hyp, |ref|, |hyp|) == Distance(ref, hyp)
  {
    assert ref[..|ref|] == ref && hyp[..|hyp|] == hyp;
  }

  /** Row `i` of the table. */
  ghost function TableRow<T>(ref: seq<T>, hyp: seq<T>, i: nat): (row: seq<nat>)
    requires i <= |ref|
    ensures |row| == |hyp| + 1 && forall j :: 0 <= j <= |hyp| ==> row[j] == Cell(ref, hyp, i, j)
  {
    seq(|hyp| + 1, j requires 0 <= j <= |hyp| => Cell(ref, hyp, i, j))
  }

  /** Each cell of a row comes from the cell above it, the one to its left and the one above that. */
  ghost predicate Follows<T>(above: seq<nat>, row: seq<nat>, i: nat, word: T, hyp: seq<T>) {
    && |above| == |row| == |hyp| + 1 && row[0] == i
    && forall j :: 1 <= j <= |hyp| ==>
      row[j] == Min(Min(above[j] + 1, row[j - 1] + 1), above[j - 1] + if word == hyp[j - 1] then 0 else 1)
  }

  lemma RowStep<T>(ref: seq<T>, hyp: seq<T>, i: nat, j: nat)
    requires 1 <= i <= |ref| && 1 <= j <= |hyp|
    ensures var above, row := TableRow(ref, hyp, i - 1), TableRow(ref, hyp, i);
      row[j] == Min(Min(above[j] + 1, row[j - 1] + 1), above[j - 1] + if ref[i - 1] == hyp[j - 1] then 0 else 1)
  {
    CellStep(ref, hyp, i, j);
  }

  lemma FirstCell<T>(ref: seq<T>, hyp: seq<T>, i: nat)
    requires i <= |ref|
    ensures TableRow(ref, hyp, i)[0] == i
  {
    CellEdges(ref, hyp);
  }

  lemma RowsFollow<T>(ref: seq<T>, hyp: seq<T>, i: nat)
    requires 1 <= i <= |ref|
    ensures Follows(TableRow(ref, hyp, i - 1), TableRow(ref, hyp, i), i, ref[i - 1], hyp)
  {
    FirstCell(ref, hyp, i);
    var above, row := TableRow(ref, hyp, i - 1), TableRow(ref, hyp, i);
    forall j | 1 <= j <= |hyp|
      ensures row[j] == Min(Min(above[j] + 1, row[j - 1] + 1), above[j - 1] + if ref[i - 1] == hyp[j - 1] then 0 else 1)
    {
      RowStep(ref, hyp, i, j);
    }
  }

  /** Overwrites a row with the next one; `prev` carries the diagonal cell that is overwritten. */
  method FillRow<T(==)>(dp: array<nat>, i: nat, word: T, hyp: seq<T>, ghost row: seq<nat>)
    requires Follows(dp[..], row, i, word, hyp)
    modifies dp
    ensures dp[..] == row
  {
    ghost var above := dp[..];
    var m := |hyp|;
    var prev := dp[0];
    dp[0] := i;
    for j := 1 to m + 1
      invariant forall k :: 0 <= k < j ==> dp[k] == row[k]
      invariant forall k :: j <= k <= m ==> dp[k] == above[k]
      invariant prev == above[j - 1]
    {
      var cost := if word == hyp[j - 1] then 0 else 1;
      prev, dp[j] := dp[j], Min(Min(dp[j] + 1, dp[j - 1] + 1), prev + cost);
    }
  }

  /** The whole table in one row. */
  method EditDistanceInPlace<T(==)>(ref: seq<T>, hyp: seq<T>) returns (d: nat)
    ensures d == Distance(ref, hyp)
  {
    var n, m := |ref|, |hyp|;
    CellEdges(ref, hyp);
    var dp := new nat[m + 1](j => j);
    for i := 1 to n + 1
      invariant dp[..] == TableRow(ref, hyp, i - 1)
    {
      RowsFollow(ref, hyp, i);
      FillRow(dp, i, ref[i - 1], hyp, TableRow(ref, hyp, i));
    }
    d := dp[m];
  }

  function Rate<T(==)>(ref: seq<T>, hyp: seq<T>): real {
    if |ref| > 0 then Distance(ref, hyp) as real / |ref| as real else 0.0
  }

  lemma RateMakesDistance<T>(ref: seq<T>, hyp: seq<T>)
    ensures Multiple(|ref|, Rate(ref, hyp)) == if ref == [] then 0.0 else Distance(ref, hyp) as real
  {
    if ref != [] {
      QuotientMakes(Distance(ref, hyp) as real, |ref|);
    }
  }

  /** The word error rate of the fallback: distance over reference length, 0 for an empty reference. */
  method WordErrorRate<T(==)>(ref: seq<T>, hyp: seq<T>) returns (rate: real)
    ensures rate == Rate(ref, hyp)
    ensures Multiple(|ref|, rate) == if ref == [] then 0.0 else Distance(ref, hyp) as real
  {
    var d := EditDistanceInPlace(ref, hyp);
    RateMakesDistance(ref, hyp);
    rate := if |ref| > 0 then d as real / |ref| as real else 0.0;
  }

  /** What a rate says: it is 0 exactly for equal lists or an empty reference, and lies between
      the relative length gap and the longer length over the reference length. */
  lemma RateMeaning<T>(ref: seq<T>, hyp: seq<T>)
    ensures Rate(ref, hyp) == 0.0 <==> ref == hyp || ref == []
    ensures ref != [] ==> 0.0 <= Rate(ref, hyp) <= Max(|ref|, |hyp|) as real / |ref| as real
  {
    DistanceZeroIff(ref, hyp);
    DistanceBounds(ref, hyp);
    if ref != [] {
      QuotientOrder(Distance(ref, hyp), Max(|ref|, |hyp|), |ref|);
    }
  }

  lemma QuotientOrder(d: nat, e: nat, n: nat)
    requires n > 0 && d <= e
    ensures 0.0 <= d as real / n as real <= e as real / n as real
    ensures d as real / n as real == 0.0 <==> d == 0
  {
    var q, r := d as real / n as real, e as real / n as real;
    assert q * n as real == d as real && r * n as real == e as real;
  }
}
