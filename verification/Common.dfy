// Types shared by every module of the model.
module Common {

  /** A value that may be missing: Python's `None` or a value. */
  datatype Option<+T> = None | Some(value: T)

  function Min(a: int, b: int): int {
    if a <= b then a else b
  }

  function Max(a: int, b: int): int {
    if a <= b then b else a
  }

  function Abs(a: real): real {
    if a < 0.0 then -a else a
  }

  /** `k` times `x`, added up. */
  function Multiple(k: nat, x: real): real {
    if k == 0 then 0.0 else Multiple(k - 1, x) + x
  }

  lemma {:induction false} MultipleIsProduct(k: nat, x: real)
    ensures Multiple(k, x) == k as real * x
    decreases k
  {
    if k > 0 {
      MultipleIsProduct(k - 1, x);
      OneMoreTimes((k - 1) as real, x);
    }
  }

  lemma OneMoreTimes(x: real, y: real)
    ensures (x + 1.0) * y == x * y + y
  {
  }

  lemma QuotientMakes(sum: real, n: nat)
    requires n > 0
    ensures Multiple(n, sum / n as real) == sum
  {
    MultipleIsProduct(n, sum / n as real);
  }

  function Last<T>(s: seq<T>): T
    requires s != []
  {
    s[|s| - 1]
  }

  function Front<T>(s: seq<T>): seq<T>
    requires s != []
  {
    s[..|s| - 1]
  }

  lemma AppendParts<T>(s: seq<T>, x: T)
    ensures Front(s + [x]) == s && Last(s + [x]) == x
  {
  }

  lemma UpdateElsewhere<K, V>(m: map<K, V>, key: K, value: V)
    ensures m[key := value] - {key} == m - {key} && m[key := value].Keys == m.Keys + {key}
  {
  }

  lemma AppendConcat<T>(a: seq<T>, b: seq<T>)
    requires b != []
    ensures a + b != [] && Front(a + b) == a + Front(b) && Last(a + b) == Last(b)
  {
  }

  lemma Associates<T>(a: seq<T>, b: seq<T>, c: seq<T>)
    ensures a + b + c == a + (b + c)
  {
  }

  lemma SubsetSize<T>(a: set<T>, b: set<T>)
    requires a <= b
    ensures |a| <= |b|
  {
    assert b == a + (b - a);
  }
}
