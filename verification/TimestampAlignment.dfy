// Comparing the word timings of two transcripts: the k-th occurrence of a word in one is
// matched with its k-th occurrence in the other, and the time differences are summarised.
module TimestampAlignment {
  import opened Common

  /** A transcript word: its text, stripped and lower-cased, and its start; a null start is `None`. */
  datatype TimedWord = TimedWord(text: string, start: Option<real>)

  predicate Usable(w: TimedWord) {
    w.text != "" && w.start.Some?
  }

  predicate Matches(w: TimedWord, key: string) {
    Usable(w) && w.text == key
  }

  // ---------- Occurrences ----------

  /** Where a word occurs with a start time, in order. */
  function Occurrences(words: seq<TimedWord>, key: string): (occ: seq<nat>)
    ensures forall k :: 0 <= k < |occ| ==> occ[k] < |words| && Matches(words[occ[k]], key)
    ensures forall k, l :: 0 <= k < l < |occ| ==> occ[k] < occ[l]
  {
    if words == [] then []
    else Occurrences(Front(words), key) + if Matches(Last(words), key) then [|words| - 1] else []
  }

  lemma {:induction false} EveryOccurrenceIsListed(words: seq<TimedWord>, i: nat) returns (k: nat)
    requires i < |words| && Usable(words[i])
    ensures k < |Occurrences(words, words[i].text)| && Occurrences(words, words[i].text)[k] == i
    ensures k == |Occurrences(words[..i], words[i].text)|
    decreases |words|
  {
    if i == |words| - 1 {
      assert words[..i] == Front(words);
      k := |Occurrences(Front(words), words[i].text)|;
    } else {
      assert Front(words)[..i] == words[..i];
      k := EveryOccurrenceIsListed(Front(words), i);
    }
  }

  /** The start times of those occurrences. */
  function Starts(words: seq<TimedWord>, key: string): seq<real> {
    if words == [] then []
    else Starts(Front(words), key) + if Matches(Last(words), key) then [Last(words).start.value] else []
  }

  lemma {:induction false} StartsAreOccurrences(words: seq<TimedWord>, key: string)
    ensures |Starts(words, key)| == |Occurrences(words, key)|
    ensures forall k :: 0 <= k < |Starts(words, key)| ==>
      words[Occurrences(words, key)[k]].start == Some(Starts(words, key)[k])
    decreases |words|
  {
    if words != [] {
      StartsAreOccurrences(Front(words), key);
    }
  }

  // ---------- Pairs ----------

  /** The matched pairs of positions, in the order of `dal`. */
  function Pairs(dal: seq<TimedWord>, el: seq<TimedWord>): seq<(nat, nat)> {
    if dal == [] then []
    else
      var w := Last(dal);
      var rank := |Occurrences(Front(dal), w.text)|;
      Pairs(Front(dal), el) +
      if Usable(w) && rank < |Occurrences(el, w.text)|
      then [(|dal| - 1, Occurrences(el, w.text)[rank])]
      else []
  }

  /** Position `i` of `dal` and `j` of `el` are the k-th occurrences of one word, for some k. */
  ghost predicate KthToKth(dal: seq<TimedWord>, el: seq<TimedWord>, i: nat, j: nat) {
    && i < |dal| && j < |el| && Usable(dal[i])
    && exists k: nat ::
      && k < |Occurrences(dal, dal[i].text)| && Occurrences(dal, dal[i].text)[k] == i
      && k < |Occurrences(el, dal[i].text)| && Occurrences(el, dal[i].text)[k] == j
  }

  lemma PairsStep(dal: seq<TimedWord>, el: seq<TimedWord>, i: nat, j: nat)
    requires dal != []
    ensures var key := Last(dal).text;
      var rank := |Occurrences(Front(dal), key)|;
      (i, j) in Pairs(dal, el) <==>
        || (i, j) in Pairs(Front(dal), el)
        || (i == |dal| - 1 && Usable(Last(dal)) && rank < |Occurrences(el, key)| && Occurrences(el, key)[rank] == j)
  {
  }

  lemma {:induction false} PairsInOrder(dal: seq<TimedWord>, el: seq<TimedWord>)
    ensures forall p, q :: 0 <= p < q < |Pairs(dal, el)| ==> Pairs(dal, el)[p].0 < Pairs(dal, el)[q].0
    ensures forall p :: 0 <= p < |Pairs(dal, el)| ==> Pairs(dal, el)[p].0 < |dal|
    decreases |dal|
  {
    if dal != [] {
      PairsInOrder(Front(dal), el);
    }
  }

  lemma PairsBelow(dal: seq<TimedWord>, el: seq<TimedWord>, i: nat, j: nat)
    requires (i, j) in Pairs(dal, el)
    ensures i < |dal|
  {
    PairsInOrder(dal, el);
    var p :| 0 <= p < |Pairs(dal, el)| && Pairs(dal, el)[p] == (i, j);
  }

  lemma {:induction false} PairIffKthToKth(dal: seq<TimedWord>, el: seq<TimedWord>, i: nat, j: nat)
    ensures (i, j) in Pairs(dal, el) <==> KthToKth(dal, el, i, j)
    decreases |dal|
  {
    if dal != [] {
      PairIffKthToKth(Front(dal), el, i, j);
      PairsStep(dal, el, i, j);
      KthToKthStep(dal, el, i, j);
      if (i, j) in Pairs(Front(dal), el) {
        PairsBelow(Front(dal), el, i, j);
      }
    }
  }

  /** Exactly the k-th occurrences are paired with the k-th, and each position of `dal` at most once. */
  lemma PairsAreKthToKth(dal: seq<TimedWord>, el: seq<TimedWord>)
    ensures forall i: nat, j: nat :: (i, j) in Pairs(dal, el) <==> KthToKth(dal, el, i, j)
    ensures forall p, q :: 0 <= p < q < |Pairs(dal, el)| ==> Pairs(dal, el)[p].0 < Pairs(dal, el)[q].0
    ensures forall p :: 0 <= p < |Pairs(dal, el)| ==> Pairs(dal, el)[p].0 < |dal|
  {
    PairsInOrder(dal, el);
    forall i: nat, j: nat ensures (i, j) in Pairs(dal, el) <==> KthToKth(dal, el, i, j) {
      PairIffKthToKth(dal, el, i, j);
    }
  }

  lemma KthToKthStep(dal: seq<TimedWord>, el: seq<TimedWord>, i: nat, j: nat)
    requires dal != []
    ensures i < |dal| - 1 ==> (KthToKth(dal, el, i, j) <==> KthToKth(Front(dal), el, i, j))
    ensures i == |dal| - 1 ==>
      var rank := |Occurrences(Front(dal), dal[i].text)|;
      (KthToKth(dal, el, i, j) <==>
        Usable(dal[i]) && rank < |Occurrences(el, dal[i].text)| && Occurrences(el, dal[i].text)[rank] == j)
  {
    if i < |dal| {
      var key := dal[i].text;
      var front, all := Occurrences(Front(dal), key), Occurrences(dal, key);
      assert forall k :: 0 <= k < |front| ==> all[k] == front[k];
      if i == |dal| - 1 {
        var rank := |front|;
        assert Usable(dal[i]) ==> all[rank] == i;
      } else {
        assert Front(dal)[i] == dal[i];
      }
    }
  }

  /** No occurrence of `el` is used twice. */
  lemma NoOccurrenceIsReused(dal: seq<TimedWord>, el: seq<TimedWord>, p: nat, q: nat)
    requires p < |Pairs(dal, el)| && q < |Pairs(dal, el)|
    requires Pairs(dal, el)[p].1 == Pairs(dal, el)[q].1
    ensures p == q
  {
    PairsAreKthToKth(dal, el);
    var (i, j) := Pairs(dal, el)[p];
    var (i', j') := Pairs(dal, el)[q];
    assert (i, j) in Pairs(dal, el) && (i', j') in Pairs(dal, el);
    var k: nat :| k < |Occurrences(dal, dal[i].text)| && Occurrences(dal, dal[i].text)[k] == i
      && k < |Occurrences(el, dal[i].text)| && Occurrences(el, dal[i].text)[k] == j;
    var k': nat :| k' < |Occurrences(dal, dal[i'].text)| && Occurrences(dal, dal[i'].text)[k'] == i'
      && k' < |Occurrences(el, dal[i'].text)| && Occurrences(el, dal[i'].text)[k'] == j';
    assert dal[i].text == el[j].text == dal[i'].text;
    assert k == k';
  }

  // ---------- How many words are matched ----------

  function Keys(words: seq<TimedWord>): seq<string> {
    if words == [] then []
    else Keys(Front(words)) + if Usable(Last(words)) then [Last(words).text] else []
  }

  /** The words that count: those with a text and a start. */
  lemma {:induction false} KeysAre(words: seq<TimedWord>)
    ensures forall k :: k in Keys(words) <==> k != "" && exists w :: w in words && w.text == k && w.start.Some?
    decreases |words|
  {
    if words != [] {
      KeysAre(Front(words));
      assert words == Front(words) + [Last(words)];
    }
  }

  lemma {:induction false} CountIsOccurrences(words: seq<TimedWord>, key: string)
    ensures multiset(Keys(words))[key] == |Occurrences(words, key)|
    decreases |words|
  {
    if words != [] {
      CountIsOccurrences(Front(words), key);
    }
  }

  lemma OneMoreInCommon(a: multiset<string>, b: multiset<string>, key: string)
    ensures |(a + multiset{key}) * b| == |a * b| + if a[key] < b[key] then 1 else 0
  {
    if a[key] < b[key] {
      assert (a + multiset{key}) * b == a * b + multiset{key};
    } else {
      assert (a + multiset{key}) * b == a * b;
    }
  }

  /** The number of matches is the size of the common part of the two word multisets: the sum,
      over all words, of the smaller of the two counts. */
  lemma {:induction false} MatchesAreCommonWords(dal: seq<TimedWord>, el: seq<TimedWord>)
    ensures |Pairs(dal, el)| == |multiset(Keys(dal)) * multiset(Keys(el))|
    decreases |dal|
  {
    if dal != [] {
      MatchesAreCommonWords(Front(dal), el);
      if Usable(Last(dal)) {
        MatchStep(dal, el);
      } else {
        assert Keys(dal) == Keys(Front(dal)) && Pairs(dal, el) == Pairs(Front(dal), el);
      }
    }
  }

  lemma MatchStep(dal: seq<TimedWord>, el: seq<TimedWord>)
    requires dal != [] && Usable(Last(dal))
    ensures |multiset(Keys(dal)) * multiset(Keys(el))| - |multiset(Keys(Front(dal))) * multiset(Keys(el))|
      == |Pairs(dal, el)| - |Pairs(Front(dal), el)|
  {
    var key := Last(dal).text;
    CountIsOccurrences(Front(dal), key);
    CountIsOccurrences(el, key);
    var before := multiset(Keys(Front(dal)));
    assert multiset(Keys(dal)) == before + multiset{key};
    OneMoreInCommon(before, multiset(Keys(el)), key);
  }

  // ---------- The pairing is the closest ----------

  predicate Sorted(s: seq<real>) {
    forall i, j :: 0 <= i < j < |s| ==> s[i] <= s[j]
  }

  function TotalDelta(xs: seq<real>, ys: seq<real>): real
    requires |xs| == |ys|
  {
    if xs == [] then 0.0 else Abs(xs[0] - ys[0]) + TotalDelta(xs[1..], ys[1..])
  }

  /** When a word occurs equally often in two lists in time order, pairing its occurrences in
      order has the least total time difference of all its pairings. */
  lemma {:induction false} InOrderPairingIsClosest(xs: seq<real>, ys: seq<real>, zs: seq<real>)
    requires Sorted(xs) && Sorted(ys) && |xs| == |ys| == |zs|
    requires multiset(zs) == multiset(ys)
    ensures TotalDelta(xs, ys) <= TotalDelta(xs, zs)
    decreases |xs|
  {
    if xs != [] {
      var swapped := BringFirst(xs, ys, zs);
      InOrderPairingIsClosest(xs[1..], ys[1..], swapped);
    }
  }

  /** Giving the first occurrence its own partner, and its partner's owner the rest, costs nothing. */
  lemma BringFirst(xs: seq<real>, ys: seq<real>, zs: seq<real>) returns (swapped: seq<real>)
    requires Sorted(xs) && Sorted(ys) && |xs| == |ys| == |zs| > 0
    requires multiset(zs) == multiset(ys)
    ensures |swapped| == |xs| - 1 && multiset(swapped) == multiset(ys[1..])
    ensures Abs(xs[0] - ys[0]) + TotalDelta(xs[1..], swapped) <= TotalDelta(xs, zs)
  {
    var p := FindPlace(zs, ys);
    swapped := if p == 0 then zs[1..] else zs[1..][p - 1 := zs[0]];
    RemoveOne(zs, p, swapped);
    RemoveOne(ys, 0, ys[1..]);
    if p > 0 {
      ReplaceOne(xs[1..], zs[1..], p - 1, zs[0]);
      Uncross(xs[0], xs[p], ys[0], zs[0]);
    }
  }

  lemma FindPlace(zs: seq<real>, ys: seq<real>) returns (p: nat)
    requires Sorted(ys) && |ys| == |zs| > 0 && multiset(zs) == multiset(ys)
    ensures p < |zs| && zs[p] == ys[0] <= zs[0]
  {
    assert ys[0] in multiset(zs) && zs[0] in multiset(ys);
    p :| p < |zs| && zs[p] == ys[0];
  }

  /** Crossed partners are never closer. */
  lemma Uncross(x: real, x': real, y: real, y': real)
    requires x <= x' && y <= y'
    ensures Abs(x - y) + Abs(x' - y') <= Abs(x - y') + Abs(x' - y)
  {
  }

  lemma RemoveOne(zs: seq<real>, p: nat, swapped: seq<real>)
    requires p < |zs|
    requires swapped == if p == 0 then zs[1..] else zs[1..][p - 1 := zs[0]]
    ensures multiset(swapped) == multiset(zs) - multiset{zs[p]}
  {
    assert zs == [zs[0]] + zs[1..];
  }

  lemma {:induction false} ReplaceOne(xs: seq<real>, zs: seq<real>, p: nat, z: real)
    requires |xs| == |zs| && p < |zs|
    ensures TotalDelta(xs, zs[p := z]) == TotalDelta(xs, zs) - Abs(xs[p] - zs[p]) + Abs(xs[p] - z)
    decreases |xs|
  {
    if p > 0 {
      assert zs[p := z][1..] == zs[1..][p - 1 := z];
      ReplaceOne(xs[1..], zs[1..], p - 1, z);
    } else {
      assert zs[0 := z][1..] == zs[1..];
    }
  }

  /** For one word occurring equally often in two transcripts in time order: the start times that
      `Pairs` puts together, k-th with k-th, are closest in total. */
  lemma WordPairingIsClosest(dal: seq<TimedWord>, el: seq<TimedWord>, key: string, other: seq<real>)
    requires |Occurrences(dal, key)| == |Occurrences(el, key)| == |other|
    requires Sorted(Starts(dal, key)) && Sorted(Starts(el, key))
    requires multiset(other) == multiset(Starts(el, key))
    ensures |Starts(dal, key)| == |Starts(el, key)| == |other|
    ensures TotalDelta(Starts(dal, key), Starts(el, key)) <= TotalDelta(Starts(dal, key), other)
    ensures forall k :: 0 <= k < |other| ==>
      (Occurrences(dal, key)[k], Occurrences(el, key)[k]) in Pairs(dal, el)
  {
    StartsAreOccurrences(dal, key);
    StartsAreOccurrences(el, key);
    InOrderPairingIsClosest(Starts(dal, key), Starts(el, key), other);
    PairsAreKthToKth(dal, el);
    forall k | 0 <= k < |other|
      ensures (Occurrences(dal, key)[k], Occurrences(el, key)[k]) in Pairs(dal, el)
    {
      assert KthToKth(dal, el, Occurrences(dal, key)[k], Occurrences(el, key)[k]);
    }
  }

  // ---------- The loops ----------

  /** The time difference of every matched pair, in the order of `dal`. */
  function Deltas(dal: seq<TimedWord>, el: seq<TimedWord>): seq<real> {
    if dal == [] then []
    else
      var w := Last(dal);
      var rank, starts := |Starts(Front(dal), w.text)|, Starts(el, w.text);
      Deltas(Front(dal), el) +
      if Usable(w) && rank < |starts| then [Abs(w.start.value - starts[rank])] else []
  }

  /** `d` is the time difference of the words at the positions of `pair`. */
  predicate IsDelta(dal: seq<TimedWord>, el: seq<TimedWord>, pair: (nat, nat), d: real) {
    && pair.0 < |dal| && pair.1 < |el| && dal[pair.0].start.Some? && el[pair.1].start.Some?
    && d == Abs(dal[pair.0].start.value - el[pair.1].start.value)
  }

  /** The next difference, given the starts of the word and how many came before. */
  function NextDeltas(w: TimedWord, rank: nat, starts: seq<real>): seq<real> {
    if Usable(w) && rank < |starts| then [Abs(w.start.value - starts[rank])] else []
  }

  lemma DeltasStep(dal: seq<TimedWord>, el: seq<TimedWord>)
    requires dal != []
    ensures var w := Last(dal);
      Deltas(dal, el) == Deltas(Front(dal), el) + NextDeltas(w, |Starts(Front(dal), w.text)|, Starts(el, w.text))
  {
  }

  lemma LastDelta(dal: seq<TimedWord>, el: seq<TimedWord>)
    requires dal != []
    ensures var w := Last(dal);
      var rank := |Occurrences(Front(dal), w.text)|;
      if Usable(w) && rank < |Occurrences(el, w.text)|
      then |Deltas(dal, el)| == |Deltas(Front(dal), el)| + 1
        && IsDelta(dal, el, (|dal| - 1, Occurrences(el, w.text)[rank]), Last(Deltas(dal, el)))
      else Deltas(dal, el) == Deltas(Front(dal), el)
  {
    var w := Last(dal);
    StartsAreOccurrences(Front(dal), w.text);
    StartsAreOccurrences(el, w.text);
    DeltasStep(dal, el);
    var rank := |Occurrences(Front(dal), w.text)|;
    if Usable(w) && rank < |Occurrences(el, w.text)| {
      AppendParts(Deltas(Front(dal), el), Abs(w.start.value - Starts(el, w.text)[rank]));
    }
  }

  /** The p-th difference is that of the p-th pair. */
  lemma {:induction false} DeltasArePairs(dal: seq<TimedWord>, el: seq<TimedWord>)
    ensures |Deltas(dal, el)| == |Pairs(dal, el)|
    ensures forall p :: 0 <= p < |Pairs(dal, el)| ==> IsDelta(dal, el, Pairs(dal, el)[p], Deltas(dal, el)[p])
    decreases |dal|
  {
    if dal != [] {
      DeltasArePairs(Front(dal), el);
      LastDelta(dal, el);
      forall p | 0 <= p < |Pairs(dal, el)| ensures IsDelta(dal, el, Pairs(dal, el)[p], Deltas(dal, el)[p]) {
        if p < |Pairs(Front(dal), el)| {
          assert IsDelta(Front(dal), el, Pairs(Front(dal), el)[p], Deltas(Front(dal), el)[p]);
        }
      }
    }
  }

  lemma StartsStep(words: seq<TimedWord>, key: string)
    requires words != []
    ensures |Starts(words, key)| == |Starts(Front(words), key)| + (if Matches(Last(words), key) then 1 else 0)
  {
  }

  /** The table holds the start times of exactly the words that have any. */
  ghost predicate LookupOk(lookup: map<string, seq<real>>, el: seq<TimedWord>) {
    && (forall key :: key in lookup ==> Starts(el, key) == lookup[key] != [])
    && (forall key :: key !in lookup ==> Starts(el, key) == [])
  }

  /** The lookup from a word to its start times in the second transcript. */
  method BuildLookup(el: seq<TimedWord>) returns (lookup: map<string, seq<real>>)
    ensures LookupOk(lookup, el)
  {
    lookup := map[];
    for i := 0 to |el|
      invariant LookupOk(lookup, el[..i])
    {
      var w := el[i];
      var key := w.text;
      assert Front(el[..i + 1]) == el[..i];
      if key != "" && w.start.Some? {
        lookup := lookup[key := (if key in lookup then lookup[key] else []) + [w.start.value]];
      }
    }
    assert el[..|el|] == el;
  }

  function Consumed(consumed: map<string, nat>, key: string): nat {
    if key in consumed then consumed[key] else 0
  }

  /** How many occurrences of each word of `el` are used up after the words of `dal`. */
  ghost predicate ConsumedCounts(consumed: map<string, nat>, dal: seq<TimedWord>, el: seq<TimedWord>) {
    forall key {:trigger Consumed(consumed, key)} ::
      Consumed(consumed, key) == Min(|Starts(dal, key)|, |Starts(el, key)|)
  }

  /** The next word finds an unconsumed occurrence exactly when it adds a difference. */
  lemma NextDelta(idx: nat, dal: seq<TimedWord>, el: seq<TimedWord>)
    requires dal != []
    requires idx == Min(|Starts(Front(dal), Last(dal).text)|, |Starts(el, Last(dal).text)|)
    ensures var w, starts := Last(dal), Starts(el, Last(dal).text);
      if Usable(w) && idx < |starts|
      then Deltas(dal, el) == Deltas(Front(dal), el) + [Abs(w.start.value - starts[idx])]
      else Deltas(dal, el) == Deltas(Front(dal), el)
  {
    DeltasStep(dal, el);
  }

  lemma ConsumedStep(consumed: map<string, nat>, next: map<string, nat>, dal: seq<TimedWord>, el: seq<TimedWord>)
    requires dal != [] && ConsumedCounts(consumed, Front(dal), el)
    requires var w := Last(dal);
      var idx := Consumed(consumed, w.text);
      next == if Usable(w) && idx < |Starts(el, w.text)| then consumed[w.text := idx + 1] else consumed
    ensures ConsumedCounts(next, dal, el)
  {
    forall key ensures Consumed(next, key) == Min(|Starts(dal, key)|, |Starts(el, key)|) {
      StartsStep(dal, key);
      assert Consumed(consumed, key) == Min(|Starts(Front(dal), key)|, |Starts(el, key)|);
    }
  }

  /** Takes the next unconsumed occurrence of a word, if there is one. */
  method ConsumeNext(w: TimedWord, lookup: map<string, seq<real>>, consumed: map<string, nat>,
                     ghost el: seq<TimedWord>)
    returns (found: seq<real>, next: map<string, nat>)
    requires LookupOk(lookup, el)
    ensures var starts, idx := Starts(el, w.text), Consumed(consumed, w.text);
      if Usable(w) && idx < |starts|
      then found == [Abs(w.start.value - starts[idx])] && next == consumed[w.text := idx + 1]
      else found == [] && next == consumed
  {
    found, next := [], consumed;
    if w.text != "" && w.start.Some? && w.text in lookup {
      var starts := lookup[w.text];
      var idx := Consumed(consumed, w.text);
      if idx < |starts| {
        next := consumed[w.text := idx + 1];
        found := [Abs(w.start.value - starts[idx])];
      }
    }
  }

  method CollectDeltas(dal: seq<TimedWord>, el: seq<TimedWord>) returns (deltas: seq<real>)
    ensures deltas == Deltas(dal, el)
  {
    var lookup := BuildLookup(el);
    var consumed: map<string, nat> := map[];
    deltas := [];
    for i := 0 to |dal|
      invariant deltas == Deltas(dal[..i], el)
      invariant ConsumedCounts(consumed, dal[..i], el)
    {
      var w := dal[i];
      assert Front(dal[..i + 1]) == dal[..i] && Last(dal[..i + 1]) == w;
      NextDelta(Consumed(consumed, w.text), dal[..i + 1], el);
      var found, next := ConsumeNext(w, lookup, consumed, el);
      ConsumedStep(consumed, next, dal[..i + 1], el);
      deltas, consumed := deltas + found, next;
    }
    assert dal[..|dal|] == dal;
  }

  // ---------- The summary ----------

  function Insert(x: real, s: seq<real>): (r: seq<real>)
    ensures |r| == |s| + 1
  {
    if s == [] || x <= s[0] then [x] + s else [s[0]] + Insert(x, s[1..])
  }

  /** The built-in sort, on values. */
  function Sort(s: seq<real>): (r: seq<real>)
    ensures |r| == |s|
  {
    if s == [] then [] else Insert(s[0], Sort(s[1..]))
  }

  lemma {:induction false} InsertBound(x: real, s: seq<real>, low: real)
    requires low <= x && forall j :: 0 <= j < |s| ==> low <= s[j]
    ensures forall j :: 0 <= j < |Insert(x, s)| ==> low <= Insert(x, s)[j]
    decreases |s|
  {
    if s != [] && x > s[0] {
      InsertBound(x, s[1..], low);
    }
  }

  lemma {:induction false} InsertSorts(x: real, s: seq<real>)
    requires Sorted(s)
    ensures Sorted(Insert(x, s))
    decreases |s|
  {
    if s != [] && x > s[0] {
      InsertSorts(x, s[1..]);
      InsertBound(x, s[1..], s[0]);
      PrependSorted(s[0], Insert(x, s[1..]));
    } else {
      PrependSorted(x, s);
    }
  }

  lemma {:induction false} InsertPermutes(x: real, s: seq<real>)
    ensures multiset(Insert(x, s)) == multiset(s) + multiset{x}
    decreases |s|
  {
    if s != [] && x > s[0] {
      InsertPermutes(x, s[1..]);
      assert s == [s[0]] + s[1..];
    }
  }

  lemma PrependSorted(x: real, s: seq<real>)
    requires Sorted(s) && forall j :: 0 <= j < |s| ==> x <= s[j]
    ensures Sorted([x] + s)
  {
  }

  lemma {:induction false} SortSorts(s: seq<real>)
    ensures Sorted(Sort(s)) && multiset(Sort(s)) == multiset(s)
    decreases |s|
  {
    if s != [] {
      SortSorts(s[1..]);
      InsertSorts(s[0], Sort(s[1..]));
      InsertPermutes(s[0], Sort(s[1..]));
      assert s == [s[0]] + s[1..];
    }
  }

  function Sum(s: seq<real>): real {
    if s == [] then 0.0 else Sum(Front(s)) + Last(s)
  }

  datatype Alignment = Alignment(matched: nat, mean: real, median: real, p90: real, max: real)

  function Summary(sorted: seq<real>): Alignment
    requires sorted != []
  {
    var n := |sorted|;
    Alignment(
      n,
      Sum(sorted) / n as real,
      if n % 2 == 0 then (sorted[n / 2 - 1] + sorted[n / 2]) / 2.0 else sorted[n / 2],
      sorted[9 * n / 10],
      sorted[n - 1])
  }

  /** Nothing is reported when a list is empty or no word matches. */
  method ComputeTimestampAlignment(dal: seq<TimedWord>, el: seq<TimedWord>) returns (r: Option<Alignment>)
    ensures r.None? <==> |multiset(Keys(dal)) * multiset(Keys(el))| == 0
    ensures r.Some? ==> Deltas(dal, el) != [] && r.value == Summary(Sort(Deltas(dal, el)))
    ensures r.Some? ==> r.value.matched == |multiset(Keys(dal)) * multiset(Keys(el))|
  {
    MatchesAreCommonWords(dal, el);
    DeltasArePairs(dal, el);
    if dal == [] || el == [] {
      assert Keys(dal) == [] || Keys(el) == [];
      return None;
    }
    var deltas := CollectDeltas(dal, el);
    if deltas == [] {
      return None;
    }
    r := Some(Summary(Sort(deltas)));
  }

  /** The order statistics are in order, the maximum is one of the differences, and none is greater. */
  lemma SummaryIsOrdered(deltas: seq<real>)
    requires deltas != []
    ensures var r := Summary(Sort(deltas));
      && r.median <= r.p90 <= r.max
      && r.p90 in deltas && r.max in deltas && forall d :: d in deltas ==> d <= r.max
  {
    SortSorts(deltas);
    SamePlaces(Sort(deltas), deltas);
    SortedSummary(Sort(deltas));
  }

  lemma SortedSummary(s: seq<real>)
    requires s != [] && Sorted(s)
    ensures var r := Summary(s);
      && r.median <= r.p90 <= r.max
      && r.p90 in s && r.max in s && forall d :: d in s ==> d <= r.max
  {
    var n := |s|;
    assert n / 2 <= 9 * n / 10 <= n - 1;
    var mid, ninety, last := n / 2, 9 * n / 10, n - 1;
    assert s[mid] <= s[ninety] <= s[last];
    if n % 2 == 0 {
      assert s[mid - 1] <= s[mid];
    }
    forall d | d in s ensures d <= s[last] {
      var i :| 0 <= i < n && s[i] == d;
      assert i < last ==> s[i] <= s[last];
    }
  }

  /** How many entries are less than `x`, and how many greater. */
  function Below(s: seq<real>, x: real): nat {
    if s == [] then 0 else Below(Front(s), x) + if Last(s) < x then 1 else 0
  }

  function Above(s: seq<real>, x: real): nat {
    if s == [] then 0 else Above(Front(s), x) + if Last(s) > x then 1 else 0
  }

  lemma {:induction false} OneMoreInFront(d: real, s: seq<real>, x: real)
    ensures Below([d] + s, x) == Below(s, x) + (if d < x then 1 else 0)
    ensures Above([d] + s, x) == Above(s, x) + (if d > x then 1 else 0)
    ensures Sum([d] + s) == Sum(s) + d
    decreases |s|
  {
    if s == [] {
      assert [d] + s == [d] && Front([d]) == [];
    } else {
      OneMoreInFront(d, Front(s), x);
      assert Front([d] + s) == [d] + Front(s);
    }
  }

  lemma {:induction false} InsertCounts(d: real, s: seq<real>, x: real)
    ensures Below(Insert(d, s), x) == Below(s, x) + (if d < x then 1 else 0)
    ensures Above(Insert(d, s), x) == Above(s, x) + (if d > x then 1 else 0)
    ensures Sum(Insert(d, s)) == Sum(s) + d
    decreases |s|
  {
    if s == [] || d <= s[0] {
      OneMoreInFront(d, s, x);
    } else {
      InsertCounts(d, s[1..], x);
      OneMoreInFront(s[0], Insert(d, s[1..]), x);
      OneMoreInFront(s[0], s[1..], x);
      assert s == [s[0]] + s[1..];
    }
  }

  lemma {:induction false} SortCounts(s: seq<real>, x: real)
    ensures Below(Sort(s), x) == Below(s, x) && Above(Sort(s), x) == Above(s, x) && Sum(Sort(s)) == Sum(s)
    decreases |s|
  {
    if s != [] {
      SortCounts(s[1..], x);
      InsertCounts(s[0], Sort(s[1..]), x);
      OneMoreInFront(s[0], s[1..], x);
      assert s == [s[0]] + s[1..];
    }
  }

  /** At most `k` entries are below what all entries from `k` on reach, and at most the others above
      what all entries up to `k` keep to. */
  lemma {:induction false} CountsAround(s: seq<real>, x: real, k: nat)
    requires k <= |s|
    ensures (forall i :: k <= i < |s| ==> s[i] >= x) ==> Below(s, x) <= k
    ensures (forall i :: 0 <= i < k ==> s[i] <= x) ==> Above(s, x) <= |s| - k
    decreases |s|
  {
    if s != [] {
      CountsAround(Front(s), x, if k < |s| then k else k - 1);
    }
  }

  lemma RankInSorted(s: seq<real>, k: nat)
    requires Sorted(s) && k < |s|
    ensures Below(s, s[k]) <= k && Above(s, s[k]) <= |s| - 1 - k
  {
    CountsAround(s, s[k], k);
    CountsAround(s, s[k], k + 1);
    assert forall i :: k <= i < |s| ==> s[k] <= s[i];
    assert forall i :: 0 <= i < k + 1 ==> s[i] <= s[k];
  }

  lemma {:induction false} SumBounds(s: seq<real>, low: real, high: real)
    requires forall i :: 0 <= i < |s| ==> low <= s[i] <= high
    ensures Multiple(|s|, low) <= Sum(s) <= Multiple(|s|, high)
    decreases |s|
  {
    if s != [] {
      SumBounds(Front(s), low, high);
    }
  }

  lemma {:induction false} MultipleGrows(k: nat, x: real, y: real)
    requires k > 0 && x < y
    ensures Multiple(k, x) < Multiple(k, y)
    decreases k
  {
    if k > 1 {
      MultipleGrows(k - 1, x, y);
    }
  }

  lemma QuotientBounds(sum: real, n: nat, low: real, high: real)
    requires n > 0 && Multiple(n, low) <= sum <= Multiple(n, high)
    ensures low <= sum / n as real <= high
  {
    var q := sum / n as real;
    QuotientMakes(sum, n);
    if q < low {
      MultipleGrows(n, q, low);
    } else if high < q {
      MultipleGrows(n, high, q);
    }
  }

  /** The mean is the sum of the differences over their number, and lies within every bound on them. */
  lemma MeanOfDeltas(deltas: seq<real>, low: real, high: real)
    requires deltas != []
    ensures Summary(Sort(deltas)).mean == Sum(deltas) / |deltas| as real
    ensures (forall i :: 0 <= i < |deltas| ==> low <= deltas[i] <= high) ==>
      low <= Summary(Sort(deltas)).mean <= high
  {
    SortCounts(deltas, 0.0);
    if forall i :: 0 <= i < |deltas| ==> low <= deltas[i] <= high {
      SumBounds(deltas, low, high);
      QuotientBounds(Sum(deltas), |deltas|, low, high);
    }
  }

  /** Place `k` of the sorted differences: at most `k` differences are below its entry, and at most the
      others above it. */
  lemma RankOf(deltas: seq<real>, k: nat)
    requires k < |deltas|
    ensures var x := Sort(deltas)[k];
      x in deltas && Below(deltas, x) <= k && Above(deltas, x) <= |deltas| - 1 - k
  {
    SortSorts(deltas);
    SamePlaces(Sort(deltas), deltas);
    RankInSorted(Sort(deltas), k);
    SortCounts(deltas, Sort(deltas)[k]);
  }

  /** The ranks of the order statistics among the differences as they came: p90 has at most 90% of them
      below it and at most the others above it, and the median lies in the middle of two differences
      that divide the list in halves, the same one when their number is odd. */
  lemma SummaryRanks(deltas: seq<real>) returns (lo: real, hi: real)
    requires deltas != []
    ensures var r, n := Summary(Sort(deltas)), |deltas|;
      && r.matched == n
      && Below(deltas, r.p90) <= 9 * n / 10 && Above(deltas, r.p90) <= n - 1 - 9 * n / 10
      && r.median - lo == hi - r.median && (n % 2 == 1 ==> lo == hi)
      && lo in deltas && Below(deltas, lo) <= (n - 1) / 2 && Above(deltas, lo) <= n / 2
      && hi in deltas && Below(deltas, hi) <= n / 2 && Above(deltas, hi) <= (n - 1) / 2
  {
    var s, n := Sort(deltas), |deltas|;
    lo, hi := s[(n - 1) / 2], s[n / 2];
    assert n % 2 == 1 ==> (n - 1) / 2 == n / 2;
    assert n % 2 == 0 ==> (n - 1) / 2 == n / 2 - 1;
    RankOf(deltas, (n - 1) / 2);
    RankOf(deltas, n / 2);
    RankOf(deltas, 9 * n / 10);
  }

  lemma SamePlaces(s: seq<real>, t: seq<real>)
    requires multiset(s) == multiset(t)
    ensures forall d :: d in s <==> d in t
  {
    forall d ensures d in s <==> d in t {
      assert d in s <==> d in multiset(s);
    }
  }
}
