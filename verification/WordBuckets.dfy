// Assigning timed words to segment windows: which window owns a start time, when that choice
// keeps the words in order, and that no timed word is lost.
module WordBuckets {
  import opened Common

  /** A segment window from `start` to `end`. */
  datatype Window = Window(start: real, end: real)

  /** A segment as the recogniser reports it; either time may be missing. */
  datatype RawSegment = RawSegment(start: Option<real>, end: Option<real>)

  /** A word as the recogniser reports it; an empty text stands for a missing one. */
  datatype RawWord = RawWord(text: string, start: Option<real>, end: Option<real>)

  /** Python's `value or fallback`: a missing value and 0.0 both give the fallback. */
  function OrElse(value: Option<real>, fallback: real): real {
    if value.Some? && value.value != 0.0 then value.value else fallback
  }

  function WindowOf(seg: RawSegment): Window {
    var s := OrElse(seg.start, 0.0);
    Window(s, OrElse(seg.end, s))
  }

  // ---------- Which window owns a start time ----------

  /** Window `i` holds `t`: lower bound inclusive, upper bound exclusive except for the last. */
  predicate Holds(windows: seq<Window>, i: nat, t: real)
    requires i < |windows|
  {
    windows[i].start <= t && (t < windows[i].end || (i == |windows| - 1 && t == windows[i].end))
  }

  /** How far `t` is from the nearer end of a window. */
  function Distance(w: Window, t: real): real {
    var a, b := Abs(t - w.start), Abs(t - w.end);
    if b < a then b else a
  }

  /** `i` is the first window at the least distance from `t`. */
  predicate Nearest(windows: seq<Window>, i: nat, t: real)
    requires i < |windows|
  {
    && (forall j :: 0 <= j < |windows| ==> Distance(windows[i], t) <= Distance(windows[j], t))
    && (forall j :: 0 <= j < i ==> Distance(windows[i], t) < Distance(windows[j], t))
  }

  /** `i` owns `t`: the first window that holds it or, when none does, the nearest one. */
  predicate Owns(windows: seq<Window>, i: nat, t: real)
    requires i < |windows|
  {
    if exists j: nat :: j < |windows| && Holds(windows, j, t)
    then Holds(windows, i, t) && forall j :: 0 <= j < i ==> !Holds(windows, j, t)
    else Nearest(windows, i, t)
  }

  /** The first window from `k` on that holds `t`, or `|windows|`. */
  function FirstHolding(windows: seq<Window>, t: real, k: nat): (i: nat)
    requires k <= |windows|
    ensures k <= i <= |windows|
    ensures i < |windows| ==> Holds(windows, i, t)
    ensures forall j :: k <= j < i ==> !Holds(windows, j, t)
    decreases |windows| - k
  {
    if k == |windows| || Holds(windows, k, t) then k else FirstHolding(windows, t, k + 1)
  }

  /** The first window among the first `n` at the least distance from `t`. */
  function NearestOf(windows: seq<Window>, t: real, n: nat): (i: nat)
    requires 1 <= n <= |windows|
    ensures i < n
    ensures forall j :: 0 <= j < n ==> Distance(windows[i], t) <= Distance(windows[j], t)
    ensures forall j :: 0 <= j < i ==> Distance(windows[i], t) < Distance(windows[j], t)
  {
    if n == 1 then 0
    else
      var i := NearestOf(windows, t, n - 1);
      if Distance(windows[n - 1], t) < Distance(windows[i], t) then n - 1 else i
  }

  /** The window that owns `t`. */
  function Owner(windows: seq<Window>, t: real): (i: nat)
    requires windows != []
    ensures i < |windows| && Owns(windows, i, t)
  {
    var i := FirstHolding(windows, t, 0);
    if i < |windows| then i else NearestOf(windows, t, |windows|)
  }

  lemma OwnerIsUnique(windows: seq<Window>, i: nat, j: nat, t: real)
    requires i < |windows| && j < |windows| && Owns(windows, i, t) && Owns(windows, j, t)
    ensures i == j
  {
  }

  method SegmentIndexFor(start: Option<real>, windows: seq<Window>) returns (r: Option<nat>)
    ensures start.None? ==> r == None
    ensures start.Some? ==>
      var i := FirstHolding(windows, start.value, 0);
      r == if i < |windows| then Some(i) else None
  {
    if start.None? || windows == [] {
      return None;
    }
    var last := |windows| - 1;
    for idx := 0 to |windows|
      invariant FirstHolding(windows, start.value, 0) == FirstHolding(windows, start.value, idx)
    {
      var w := windows[idx];
      if idx == last {
        if w.start <= start.value <= w.end {
          return Some(idx);
        }
      } else if w.start <= start.value < w.end {
        return Some(idx);
      }
    }
    return None;
  }

  method NearestWindow(start: real, windows: seq<Window>) returns (i: nat)
    requires windows != []
    ensures i == NearestOf(windows, start, |windows|)
  {
    i := 0;
    for k := 1 to |windows|
      invariant i == NearestOf(windows, start, k)
    {
      if Distance(windows[k], start) < Distance(windows[i], start) {
        i := k;
      }
    }
  }

  // ---------- When ownership keeps the order ----------

  /** Windows in order that do not overlap; a window may have no length. */
  predicate Ordered(windows: seq<Window>) {
    && (forall i :: 0 <= i < |windows| ==> windows[i].start <= windows[i].end)
    && (forall i, j :: 0 <= i < j < |windows| ==> windows[i].end <= windows[j].start)
  }

  /** The last window is a point at the very end of the window before it. */
  predicate EndsInPoint(windows: seq<Window>) {
    var n := |windows|;
    n >= 2 && windows[n - 2].end == windows[n - 1].start == windows[n - 1].end
  }

  ghost predicate OwnershipIsMonotone(windows: seq<Window>)
    requires windows != []
  {
    forall t, u :: t <= u ==> Owner(windows, t) <= Owner(windows, u)
  }

  /** Below its start, an owner is nearer than the window before it. */
  lemma OwnerFromBelow(windows: seq<Window>, t: real)
    requires windows != [] && Ordered(windows)
    ensures var i := Owner(windows, t);
      && (i > 0 && t < windows[i].start ==> 2.0 * t > windows[i - 1].end + windows[i].start)
      && forall j :: 0 <= j < i ==> windows[j].end <= windows[i - 1].end
  {
    var i := Owner(windows, t);
    if i > 0 && t < windows[i].start {
      assert Distance(windows[i], t) < Distance(windows[i - 1], t);
    }
  }

  /** A time at or past the start of a later window has an earlier owner only when that window is
      a point at the owner's end. */
  lemma OwnerFromAbove(windows: seq<Window>, t: real, j: nat)
    requires windows != [] && Ordered(windows)
    requires Owner(windows, t) < j < |windows|
    ensures t >= windows[j].start ==>
      windows[j].start == windows[j].end == windows[Owner(windows, t)].end && t >= windows[j].end
    ensures t < windows[j].start ==> 2.0 * t <= windows[Owner(windows, t)].end + windows[j].start
  {
    var i := Owner(windows, t);
    assert windows[i].end <= windows[j].start;
    if !Holds(windows, i, t) {
      assert Distance(windows[i], t) <= Distance(windows[j], t);
      assert !Holds(windows, j, t);
    }
  }

  lemma OwnerMonotone(windows: seq<Window>, t: real, u: real)
    requires windows != [] && Ordered(windows) && !EndsInPoint(windows) && t <= u
    ensures Owner(windows, t) <= Owner(windows, u)
  {
    var i, j := Owner(windows, t), Owner(windows, u);
    if j < i {
      OwnerFromBelow(windows, t);
      OwnerFromAbove(windows, u, i);
      if windows[i].start <= t {
        PointNeverOwns(windows, t, i, j);
      }
    }
  }

  /** A point at the end of an earlier window owns no time from there on, unless it is the last
      window right behind that one. */
  lemma PointNeverOwns(windows: seq<Window>, t: real, i: nat, j: nat)
    requires Ordered(windows) && !EndsInPoint(windows)
    requires j < i < |windows| && windows[i].start == windows[i].end == windows[j].end <= t
    ensures Owner(windows, t) != i
  {
    assert windows[j].end <= windows[i - 1].end <= windows[i].start;
    assert !Holds(windows, i, t);
    assert Distance(windows[j], t) <= Distance(windows[i], t);
  }

  /** Over ordered windows, later start times get later or equal windows, gaps, ties and the ends
      included, if and only if the last window is not a point at the end of the one before. */
  lemma OwnershipIsMonotoneIff(windows: seq<Window>)
    requires windows != [] && Ordered(windows)
    ensures OwnershipIsMonotone(windows) <==> !EndsInPoint(windows)
  {
    if EndsInPoint(windows) {
      var n := |windows|;
      var p := windows[n - 1].end;
      PointLastOwns(windows, p);
      PointLastLoses(windows, p + 1.0);
      assert Owner(windows, p) == n - 1 && Owner(windows, p + 1.0) < n - 1;
    } else {
      forall t, u | t <= u ensures Owner(windows, t) <= Owner(windows, u) {
        OwnerMonotone(windows, t, u);
      }
    }
  }

  lemma PointLastOwns(windows: seq<Window>, p: real)
    requires Ordered(windows) && EndsInPoint(windows) && p == windows[|windows| - 1].end
    ensures Owner(windows, p) == |windows| - 1
  {
    var n := |windows|;
    forall j | 0 <= j < n - 1 ensures !Holds(windows, j, p) {
      assert windows[j].end <= windows[n - 1].start;
    }
    assert Holds(windows, n - 1, p);
  }

  lemma PointLastLoses(windows: seq<Window>, t: real)
    requires Ordered(windows) && EndsInPoint(windows) && t > windows[|windows| - 1].end
    ensures Owner(windows, t) < |windows| - 1
  {
    var n := |windows|;
    forall j | 0 <= j < n ensures !Holds(windows, j, t) {
      if j < n - 1 { assert windows[j].end <= windows[n - 1].start; }
    }
    assert windows[n - 2].start <= windows[n - 2].end;
    assert Distance(windows[n - 2], t) == Distance(windows[n - 1], t);
  }

  // ---------- The buckets ----------

  predicate Timed(w: RawWord) {
    w.text != "" && w.start.Some?
  }

  /** The words that have a text and a start, in order. */
  function TimedWords(words: seq<RawWord>): seq<RawWord> {
    if words == [] then []
    else TimedWords(Front(words)) + if Timed(Last(words)) then [Last(words)] else []
  }

  /** The timed words that window `k` owns, in order. */
  function OwnedBy(words: seq<RawWord>, windows: seq<Window>, k: nat): seq<RawWord>
    requires windows != []
  {
    if words == [] then []
    else
      OwnedBy(Front(words), windows, k) +
      if Timed(Last(words)) && Owner(windows, Last(words).start.value) == k then [Last(words)] else []
  }

  function Windows(segments: seq<RawSegment>): (windows: seq<Window>)
    ensures |windows| == |segments|
  {
    seq(|segments|, i requires 0 <= i < |segments| => WindowOf(segments[i]))
  }

  /** A segment's window: from its start to its end, where a missing or zero start is 0.0 and a missing
      or zero end is the start. */
  predicate IsWindowOf(w: Window, seg: RawSegment) {
    && (seg.start.Some? && seg.start.value != 0.0 ==> w.start == seg.start.value)
    && (seg.start.None? || seg.start.value == 0.0 ==> w.start == 0.0)
    && (seg.end.Some? && seg.end.value != 0.0 ==> w.end == seg.end.value)
    && (seg.end.None? || seg.end.value == 0.0 ==> w.end == w.start)
  }

  /** Bucket `k` receives exactly the timed words whose start window `k` owns, in word order. */
  method BucketWordsIntoSegments(words: seq<RawWord>, segments: seq<RawSegment>) returns (buckets: seq<seq<RawWord>>)
    ensures |buckets| == |segments|
    ensures segments != [] ==>
      forall k :: 0 <= k < |buckets| ==> buckets[k] == OwnedBy(words, Windows(segments), k)
    ensures forall k :: 0 <= k < |segments| ==> IsWindowOf(Windows(segments)[k], segments[k])
  {
    var windows: seq<Window> := [];
    for i := 0 to |segments|
      invariant windows == Windows(segments[..i])
    {
      assert segments[..i + 1][..i] == segments[..i];
      windows := windows + [WindowOf(segments[i])];
    }
    assert segments[..|segments|] == segments;
    buckets := seq(|windows|, _ => []);
    for n := 0 to |words|
      invariant |buckets| == |windows|
      invariant windows != [] ==>
        forall k :: 0 <= k < |buckets| ==> buckets[k] == OwnedBy(words[..n], windows, k)
    {
      var w := words[n];
      assert Front(words[..n + 1]) == words[..n];
      if w.text == "" {
        continue;
      }
      var idx := SegmentIndexFor(w.start, windows);
      if idx.None? {
        if w.start.None? || windows == [] {
          continue;
        }
        var nearest := NearestWindow(w.start.value, windows);
        idx := Some(nearest);
      }
      buckets := buckets[idx.value := buckets[idx.value] + [w]];
    }
    assert words[..|words|] == words;
  }

  function Flat(buckets: seq<seq<RawWord>>): seq<RawWord> {
    if buckets == [] then [] else Flat(Front(buckets)) + Last(buckets)
  }

  function Buckets(words: seq<RawWord>, windows: seq<Window>, n: nat): seq<seq<RawWord>>
    requires windows != []
  {
    seq(n, k requires 0 <= k < n => OwnedBy(words, windows, k))
  }

  /** Whatever the order of windows and words, every word with a text and a start lands in exactly
      one bucket, and nothing else lands anywhere. */
  lemma {:induction false} EveryTimedWordLandsOnce(words: seq<RawWord>, windows: seq<Window>)
    requires windows != []
    ensures multiset(Flat(Buckets(words, windows, |windows|))) == multiset(TimedWords(words))
    ensures forall w :: w in Flat(Buckets(words, windows, |windows|)) <==>
      w in words && w.text != "" && w.start.Some?
    decreases |words|
  {
    if words == [] {
      EmptyBuckets(windows, |windows|);
    } else {
      EveryTimedWordLandsOnce(Front(words), windows);
      OneMoreWord(words, windows, |windows|);
    }
    TimedWordsAre(words);
    forall w ensures w in Flat(Buckets(words, windows, |windows|)) <==> w in TimedWords(words) {
      assert w in Flat(Buckets(words, windows, |windows|)) <==>
        w in multiset(Flat(Buckets(words, windows, |windows|)));
      assert w in TimedWords(words) <==> w in multiset(TimedWords(words));
    }
  }

  lemma {:induction false} TimedWordsAre(words: seq<RawWord>)
    ensures forall w :: w in TimedWords(words) <==> w in words && w.text != "" && w.start.Some?
    decreases |words|
  {
    if words != [] {
      TimedWordsAre(Front(words));
      assert words == Front(words) + [Last(words)];
    }
  }

  lemma {:induction false} EmptyBuckets(windows: seq<Window>, n: nat)
    requires windows != []
    ensures Flat(Buckets([], windows, n)) == []
  {
    if n > 0 {
      EmptyBuckets(windows, n - 1);
      assert Front(Buckets([], windows, n)) == Buckets([], windows, n - 1);
    }
  }

  lemma LastBucket(words: seq<RawWord>, windows: seq<Window>, n: nat)
    requires windows != [] && n > 0
    ensures Flat(Buckets(words, windows, n)) ==
      Flat(Buckets(words, windows, n - 1)) + OwnedBy(words, windows, n - 1)
  {
    assert Front(Buckets(words, windows, n)) == Buckets(words, windows, n - 1);
  }

  lemma OwnedByStep(words: seq<RawWord>, windows: seq<Window>, k: nat)
    requires windows != [] && words != []
    ensures multiset(OwnedBy(words, windows, k)) ==
      multiset(OwnedBy(Front(words), windows, k)) + IfOwned(Last(words), windows, k, k + 1)
  {
  }

  /** The word, if its owner is among the windows from `lo` up to `hi`. */
  function IfOwned(w: RawWord, windows: seq<Window>, lo: nat, hi: nat): multiset<RawWord>
    requires windows != []
  {
    if Timed(w) && lo <= Owner(windows, w.start.value) < hi then multiset{w} else multiset{}
  }

  lemma IfOwnedAdds(w: RawWord, windows: seq<Window>, n: nat)
    requires windows != []
    ensures IfOwned(w, windows, 0, n) + IfOwned(w, windows, n, n + 1) == IfOwned(w, windows, 0, n + 1)
  {
  }

  lemma ConcatAdds<T>(a: seq<T>, b: seq<T>, a': seq<T>, b': seq<T>, x: multiset<T>, y: multiset<T>)
    requires multiset(a') == multiset(a) + x && multiset(b') == multiset(b) + y
    ensures multiset(a' + b') == multiset(a + b) + (x + y)
  {
  }

  lemma {:induction false} OneMoreWord(words: seq<RawWord>, windows: seq<Window>, n: nat)
    requires windows != [] && words != []
    ensures multiset(Flat(Buckets(words, windows, n))) ==
      multiset(Flat(Buckets(Front(words), windows, n))) + IfOwned(Last(words), windows, 0, n)
    decreases n
  {
    if n > 0 {
      OneMoreWord(words, windows, n - 1);
      LastBucket(words, windows, n);
      LastBucket(Front(words), windows, n);
      OwnedByStep(words, windows, n - 1);
      IfOwnedAdds(Last(words), windows, n - 1);
      ConcatAdds(Flat(Buckets(Front(words), windows, n - 1)), OwnedBy(Front(words), windows, n - 1),
                 Flat(Buckets(words, windows, n - 1)), OwnedBy(words, windows, n - 1),
                 IfOwned(Last(words), windows, 0, n - 1), IfOwned(Last(words), windows, n - 1, n));
    }
  }

  /** The start times of the timed words do not decrease. */
  predicate StartsOrdered(words: seq<RawWord>) {
    forall i, j :: 0 <= i < j < |words| && Timed(words[i]) && Timed(words[j]) ==>
      words[i].start.value <= words[j].start.value
  }

  /** Over ordered windows that do not end in a point, words in time order come back in order:
      the buckets, one after the other, are the timed words. */
  lemma {:induction false} BucketsKeepOrder(words: seq<RawWord>, windows: seq<Window>)
    requires windows != [] && Ordered(windows) && !EndsInPoint(windows) && StartsOrdered(words)
    ensures Flat(Buckets(words, windows, |windows|)) == TimedWords(words)
    decreases |words|
  {
    if words == [] {
      EmptyBuckets(windows, |windows|);
    } else {
      var front, w := Front(words), Last(words);
      assert forall i :: 0 <= i < |front| ==> words[i] == front[i];
      BucketsKeepOrder(front, windows);
      if Timed(w) {
        var k := Owner(windows, w.start.value);
        NothingBeyond(front, windows, w.start.value);
        AppendToBucket(Buckets(front, windows, |windows|), k, w);
        TimedWordGoesToOwner(words, windows);
      } else {
        UntimedWordIsDropped(words, windows);
      }
    }
  }

  lemma TimedWordGoesToOwner(words: seq<RawWord>, windows: seq<Window>)
    requires windows != [] && words != [] && Timed(Last(words))
    ensures var front, k := Buckets(Front(words), windows, |windows|), Owner(windows, Last(words).start.value);
      Buckets(words, windows, |windows|) == front[k := front[k] + [Last(words)]]
  {
    var front, k := Buckets(Front(words), windows, |windows|), Owner(windows, Last(words).start.value);
    forall j | 0 <= j < |windows|
      ensures Buckets(words, windows, |windows|)[j] == front[k := front[k] + [Last(words)]][j]
    {
      assert OwnedBy(words, windows, j) == OwnedBy(Front(words), windows, j) + if j == k then [Last(words)] else [];
    }
  }

  lemma UntimedWordIsDropped(words: seq<RawWord>, windows: seq<Window>)
    requires windows != [] && words != [] && !Timed(Last(words))
    ensures Buckets(words, windows, |windows|) == Buckets(Front(words), windows, |windows|)
  {
    forall j: nat ensures OwnedBy(words, windows, j) == OwnedBy(Front(words), windows, j) {
      assert OwnedBy(words, windows, j) == OwnedBy(Front(words), windows, j) + [];
    }
  }

  /** No bucket past the owner of `t` holds a word that starts at or before `t`. */
  lemma {:induction false} NothingBeyond(words: seq<RawWord>, windows: seq<Window>, t: real)
    requires windows != [] && Ordered(windows) && !EndsInPoint(windows)
    requires forall i :: 0 <= i < |words| && Timed(words[i]) ==> words[i].start.value <= t
    ensures forall k :: Owner(windows, t) < k < |windows| ==> OwnedBy(words, windows, k) == []
    decreases |words|
  {
    if words != [] {
      NothingBeyond(Front(words), windows, t);
      if Timed(Last(words)) {
        OwnerMonotone(windows, Last(words).start.value, t);
      }
    }
  }

  lemma {:induction false} AppendToBucket(buckets: seq<seq<RawWord>>, k: nat, w: RawWord)
    requires k < |buckets|
    requires forall j :: k < j < |buckets| ==> buckets[j] == []
    ensures Flat(buckets[k := buckets[k] + [w]]) == Flat(buckets) + [w]
    decreases |buckets|
  {
    var after := buckets[k := buckets[k] + [w]];
    if k == |buckets| - 1 {
      assert Front(after) == Front(buckets);
      assert Flat(after) == Flat(Front(buckets)) + (buckets[k] + [w]);
    } else {
      AppendToBucket(Front(buckets), k, w);
      assert Front(after) == Front(buckets)[k := buckets[k] + [w]];
      assert Last(after) == [];
    }
  }

  /** Two words in time order that a last window of no length hands back in the wrong order. */
  lemma PointReverses(windows: seq<Window>) returns (words: seq<RawWord>)
    requires windows != [] && Ordered(windows) && EndsInPoint(windows)
    ensures StartsOrdered(words) && Flat(Buckets(words, windows, |windows|)) != TimedWords(words)
  {
    var n, p := |windows|, windows[|windows| - 1].end;
    var first, second := RawWord("a", Some(p), None), RawWord("b", Some(p + 1.0), None);
    words := [first, second];
    PointLastOwns(windows, p);
    PointLastLoses(windows, p + 1.0);
    assert Front(words) == [first] && Last(words) == second && Front([first]) == [];
    assert OwnedBy([first], windows, n - 1) == [first];
    assert OwnedBy(words, windows, n - 1) == [first];
    assert Last(TimedWords(words)) == second;
    LastBucket(words, windows, n);
    AppendParts(Flat(Buckets(words, windows, n - 1)), first);
  }

  /** Over ordered windows, every list of words in time order comes back in order if and only if the
      last window is not a point at the end of the one before. */
  lemma BucketsKeepOrderIff(windows: seq<Window>)
    requires windows != [] && Ordered(windows)
    ensures (forall words :: StartsOrdered(words) ==> Flat(Buckets(words, windows, |windows|)) == TimedWords(words))
      <==> !EndsInPoint(windows)
  {
    if EndsInPoint(windows) {
      var words := PointReverses(windows);
      assert StartsOrdered(words);
    } else {
      forall words | StartsOrdered(words) ensures Flat(Buckets(words, windows, |windows|)) == TimedWords(words) {
        BucketsKeepOrder(words, windows);
      }
    }
  }
}
