// Splitting a transcript into chunks under a token budget: the greedy loop loses nothing,
// keeps every chunk of two or more sentences within the budget, and uses the fewest chunks
// its admission rule allows.
module Chunking {
  import opened Common
  import opened Text

  const SEPARATOR := ". "

  // ---------- Sequences ----------

  lemma MoveHead<T>(a: seq<T>, b: seq<T>)
    requires b != []
    ensures a + [b[0]] + b[1..] == a + b && [b[0]] + b[1..] == b
  {
  }

  lemma EmptyConcat<T>(a: seq<T>)
    ensures a + [] == a && [] + a == a
  {
  }

  /** Rough estimate: four characters to a token. */
  function EstimateTokens(text: string): nat {
    |text| / 4
  }

  /** The default budget: 70% of the tokens-per-minute limit, capped by the context window with
      20000 tokens left for the output. It is the greatest budget within both limits. */
  function DefaultMaxTokens(tpm: nat, contextWindow: int): (m: int)
    ensures 10 * m <= 7 * tpm && m + 20000 <= contextWindow
    ensures forall k :: 10 * k <= 7 * tpm && k + 20000 <= contextWindow ==> k <= m
  {
    Min(tpm * 7 / 10, contextWindow - 20000)
  }

  // ---------- Groups of sentences ----------

  /** The text of a group before it is stripped: every sentence followed by ". ". */
  function Piece(group: seq<string>): string {
    if group == [] then "" else Piece(Front(group)) + Last(group) + SEPARATOR
  }

  /** The length of that text. */
  function Size(group: seq<string>): nat {
    if group == [] then 0 else Size(Front(group)) + |Last(group)| + |SEPARATOR|
  }

  lemma {:induction false} PieceSize(group: seq<string>)
    ensures |Piece(group)| == Size(group)
    decreases |group|
  {
    if group != [] {
      PieceSize(Front(group));
    }
  }

  /** The admission rule: a sentence joins a group that is empty or has room for it. */
  predicate Admits(group: seq<string>, sentence: string, maxChars: int) {
    group == [] || Size(group) + |sentence| <= maxChars
  }

  /** Every sentence of the group was admitted to the ones before it. */
  ghost predicate Admissible(group: seq<string>, maxChars: int) {
    forall i :: 0 <= i < |group| ==> Admits(group[..i], group[i], maxChars)
  }

  /** The groups the loop forms from an open group and the sentences still to come. */
  function GreedyFrom(current: seq<string>, rest: seq<string>, maxChars: int): seq<seq<string>>
    decreases |rest|
  {
    if rest == [] then
      if current == [] then [] else [current]
    else if Admits(current, rest[0], maxChars) then
      GreedyFrom(current + [rest[0]], rest[1..], maxChars)
    else
      [current] + GreedyFrom([rest[0]], rest[1..], maxChars)
  }

  function Greedy(sentences: seq<string>, maxChars: int): seq<seq<string>> {
    GreedyFrom([], sentences, maxChars)
  }

  function StrippedPieces(groups: seq<seq<string>>): (pieces: seq<string>)
    ensures |pieces| == |groups|
  {
    if groups == [] then []
    else StrippedPieces(Front(groups)) + [Strip(Piece(Last(groups)))]
  }

  lemma {:induction false} StrippedPieceAt(groups: seq<seq<string>>, k: nat)
    requires k < |groups|
    ensures StrippedPieces(groups)[k] == Strip(Piece(groups[k]))
    decreases |groups|
  {
    if k < |groups| - 1 {
      StrippedPieceAt(Front(groups), k);
    }
  }

  function MaxChars(systemPrompt: string, maxTokens: int): int {
    (maxTokens - EstimateTokens(systemPrompt)) * 4
  }

  method ChunkTranscript(text: string, systemPrompt: string, maxTokens: int) returns (chunks: seq<string>)
    ensures var maxChars := MaxChars(systemPrompt, maxTokens);
      chunks == if |text| <= maxChars then [text]
                else StrippedPieces(Greedy(Split(text, SEPARATOR), maxChars))
    ensures |text| <= (maxTokens - |systemPrompt| / 4) * 4 ==> chunks == [text]
    ensures |text| > (maxTokens - |systemPrompt| / 4) * 4 ==>
      var groups := Greedy(Split(text, ". "), (maxTokens - |systemPrompt| / 4) * 4);
      |chunks| == |groups| && forall k :: 0 <= k < |chunks| ==> chunks[k] == Strip(Piece(groups[k]))
  {
    var overheadTokens := EstimateTokens(systemPrompt);
    var availableTokens := maxTokens - overheadTokens;
    var maxChars := availableTokens * 4;
    if |text| <= maxChars {
      return [text];
    }
    chunks := ChunkSentences(Split(text, SEPARATOR), maxChars);
    var groups := Greedy(Split(text, SEPARATOR), maxChars);
    forall k | 0 <= k < |groups| ensures |chunks| == |groups| && chunks[k] == Strip(Piece(groups[k])) {
      StrippedPieceAt(groups, k);
    }
  }

  /** What the loop holds after some sentences: the closed groups as chunks, the open group as text. */
  ghost predicate Holds(chunks: seq<string>, text: string, groups: seq<seq<string>>, current: seq<string>) {
    chunks == StrippedPieces(groups) && text == Piece(current) && (current == [] <==> text == "")
  }

  lemma HoldsStarted(chunks: seq<string>, text: string, groups: seq<seq<string>>, current: seq<string>, s: string)
    requires Holds(chunks, text, groups, current)
    ensures Holds(chunks + [Strip(text)], s + SEPARATOR, groups + [current], [] + [s])
  {
    OneMoreGroup(groups, current);
    OneMoreSentence([], s);
    assert "" + (s + SEPARATOR) == s + SEPARATOR;
  }

  lemma HoldsExtended(chunks: seq<string>, text: string, groups: seq<seq<string>>, current: seq<string>, s: string)
    requires Holds(chunks, text, groups, current)
    ensures Holds(chunks, text + (s + SEPARATOR), groups, current + [s])
  {
    OneMoreSentence(current, s);
  }

  method ChunkSentences(sentences: seq<string>, maxChars: int) returns (chunks: seq<string>)
    ensures chunks == StrippedPieces(Greedy(sentences, maxChars))
  {
    chunks := [];
    var currentChunkText := "";
    ghost var current: seq<string> := [];
    ghost var groups: seq<seq<string>> := [];
    for i := 0 to |sentences|
      invariant Holds(chunks, currentChunkText, groups, current)
      invariant groups + GreedyFrom(current, sentences[i..], maxChars) == Greedy(sentences, maxChars)
    {
      var sentence := sentences[i];
      GreedyStep(groups, current, sentences, i, maxChars);
      PieceSize(current);
      if |currentChunkText| + |sentence| > maxChars && currentChunkText != "" {
        HoldsStarted(chunks, currentChunkText, groups, current, sentence);
        chunks := chunks + [Strip(currentChunkText)];
        currentChunkText := sentence + SEPARATOR;
        groups, current := groups + [current], [] + [sentence];
      } else {
        HoldsExtended(chunks, currentChunkText, groups, current, sentence);
        currentChunkText := currentChunkText + (sentence + SEPARATOR);
        current := current + [sentence];
      }
    }
    assert sentences[|sentences|..] == [];
    if currentChunkText != "" {
      chunks := chunks + [Strip(currentChunkText)];
      OneMoreGroup(groups, current);
    } else {
      EmptyConcat(groups);
    }
  }

  lemma GreedyStep(groups: seq<seq<string>>, current: seq<string>, sentences: seq<string>, i: nat, maxChars: int)
    requires i < |sentences|
    ensures groups + GreedyFrom(current, sentences[i..], maxChars) ==
      if Admits(current, sentences[i], maxChars)
      then groups + GreedyFrom(current + [sentences[i]], sentences[i + 1..], maxChars)
      else groups + [current] + GreedyFrom([] + [sentences[i]], sentences[i + 1..], maxChars)
  {
    assert sentences[i..][1..] == sentences[i + 1..];
    assert [] + [sentences[i]] == [sentences[i]];
  }

  lemma OneMoreSentence(group: seq<string>, s: string)
    ensures Piece(group + [s]) == Piece(group) + (s + SEPARATOR)
    ensures Piece(group + [s]) != ""
  {
    AppendParts(group, s);
    Associates(Piece(group), s, SEPARATOR);
  }

  lemma OneMoreGroup(groups: seq<seq<string>>, group: seq<string>)
    ensures StrippedPieces(groups + [group]) == StrippedPieces(groups) + [Strip(Piece(group))]
  {
    AppendParts(groups, group);
  }

  // ---------- Nothing is lost ----------

  function Flat(groups: seq<seq<string>>): seq<string> {
    if groups == [] then [] else groups[0] + Flat(groups[1..])
  }

  function Concat(groups: seq<seq<string>>): string {
    if groups == [] then "" else Piece(groups[0]) + Concat(groups[1..])
  }

  lemma {:induction false} PieceConcat(a: seq<string>, b: seq<string>)
    ensures Piece(a + b) == Piece(a) + Piece(b)
    decreases |b|
  {
    if b == [] {
      EmptyConcat(a);
      EmptyConcat(Piece(a));
    } else {
      PieceConcat(a, Front(b));
      AppendConcat(a, b);
      Associates(Piece(a), Piece(Front(b)), Last(b));
      Associates(Piece(a), Piece(Front(b)) + Last(b), SEPARATOR);
    }
  }

  lemma {:induction false} PieceIsJoin(parts: seq<string>)
    requires parts != []
    ensures Piece(parts) == Join(parts, SEPARATOR) + SEPARATOR
    decreases |parts|
  {
    OneMoreSentence([], parts[0]);
    if |parts| > 1 {
      PieceConcat([] + [parts[0]], parts[1..]);
      assert [] + [parts[0]] + parts[1..] == parts;
      PieceIsJoin(parts[1..]);
    } else {
      assert [] + [parts[0]] == parts;
    }
  }

  lemma FirstGroup(group: seq<string>, groups: seq<seq<string>>)
    ensures Flat([group] + groups) == group + Flat(groups)
  {
    assert ([group] + groups)[1..] == groups;
  }

  lemma {:induction false} GreedyFlattens(current: seq<string>, rest: seq<string>, maxChars: int)
    ensures Flat(GreedyFrom(current, rest, maxChars)) == current + rest
    decreases |rest|
  {
    if rest == [] {
      FirstGroup(current, []);
      EmptyConcat([current]);
      EmptyConcat(current);
    } else if Admits(current, rest[0], maxChars) {
      GreedyFlattens(current + [rest[0]], rest[1..], maxChars);
      MoveHead(current, rest);
    } else {
      MoveHead(current, rest);
      GreedyFlattens([rest[0]], rest[1..], maxChars);
      FirstGroup(current, GreedyFrom([rest[0]], rest[1..], maxChars));
    }
  }

  lemma {:induction false} ConcatIsPiece(groups: seq<seq<string>>)
    ensures Concat(groups) == Piece(Flat(groups))
    decreases |groups|
  {
    if groups != [] {
      ConcatIsPiece(groups[1..]);
      PieceConcat(groups[0], Flat(groups[1..]));
    }
  }

  lemma {:induction false} GreedyGroupsNonEmpty(current: seq<string>, rest: seq<string>, maxChars: int)
    ensures forall g :: g in GreedyFrom(current, rest, maxChars) ==> g != []
    decreases |rest|
  {
    if rest != [] {
      GreedyGroupsNonEmpty(current + [rest[0]], rest[1..], maxChars);
      GreedyGroupsNonEmpty([rest[0]], rest[1..], maxChars);
    }
  }

  /** Before stripping, the chunks concatenate to the text followed by ". ". */
  lemma ChunksLoseNothing(text: string, maxChars: int)
    ensures Concat(Greedy(Split(text, SEPARATOR), maxChars)) == text + SEPARATOR
  {
    var sentences := Split(text, SEPARATOR);
    GreedyFlattens([], sentences, maxChars);
    ConcatIsPiece(Greedy(sentences, maxChars));
    assert [] + sentences == sentences;
    PieceIsJoin(sentences);
    JoinUndoesSplit(text, SEPARATOR);
  }

  // ---------- The budget ----------

  lemma {:induction false} SizeConcat(a: seq<string>, b: seq<string>)
    ensures Size(a + b) == Size(a) + Size(b)
    decreases |b|
  {
    if b == [] {
      EmptyConcat(a);
    } else {
      SizeConcat(a, Front(b));
      AppendConcat(a, b);
    }
  }

  /** A group obeys the admission rule exactly when it is a single sentence or, its last ". "
      aside, fits in `maxChars`. */
  lemma AdmissibleIff(group: seq<string>, maxChars: int)
    ensures Admissible(group, maxChars) <==> |group| <= 1 || |Piece(group)| - 2 <= maxChars
  {
    PieceSize(group);
    forall i | 0 <= i < |group| ensures Size(group[..i]) + |group[i]| + 2 <= Size(group) {
      assert Front(group[..i + 1]) == group[..i];
      SizeConcat(group[..i + 1], group[i + 1..]);
      assert group[..i + 1] + group[i + 1..] == group;
    }
    if |group| > 1 {
      var n := |group| - 1;
      assert Front(group) == group[..n];
      assert Size(group) - 2 == Size(group[..n]) + |group[n]|;
    }
  }

  lemma {:induction false} GreedyIsAdmissible(current: seq<string>, rest: seq<string>, maxChars: int)
    requires Admissible(current, maxChars)
    ensures forall g :: g in GreedyFrom(current, rest, maxChars) ==> Admissible(g, maxChars)
    decreases |rest|
  {
    if rest != [] {
      if Admits(current, rest[0], maxChars) {
        var longer := current + [rest[0]];
        forall i | 0 <= i < |longer| ensures Admits(longer[..i], longer[i], maxChars) {
          assert longer[..i] == current[..i];
        }
        assert current[..|current|] == current;
        GreedyIsAdmissible(longer, rest[1..], maxChars);
      } else {
        GreedyIsAdmissible([rest[0]], rest[1..], maxChars);
      }
    }
  }

  /** Prompt and chunk together stay within the budget for every chunk of two or more sentences:
      the two characters of the last ". " disappear in the division by four. Only a chunk of one
      sentence can exceed it, and does exactly when that sentence is too long by itself: before
      stripping with its ". ", as a chunk without the blanks it starts with and the last one. */
  lemma ChunksWithinBudget(text: string, systemPrompt: string, maxTokens: int, group: seq<string>)
    requires group in Greedy(Split(text, SEPARATOR), MaxChars(systemPrompt, maxTokens))
    ensures |group| >= 2 ==> EstimateTokens(systemPrompt) + EstimateTokens(Piece(group)) <= maxTokens
    ensures |group| >= 2 ==> EstimateTokens(systemPrompt) + EstimateTokens(Strip(Piece(group))) <= maxTokens
    ensures EstimateTokens(systemPrompt) + EstimateTokens(Piece(group)) > maxTokens
      <==> |group| == 1 && |group[0]| + 2 >= MaxChars(systemPrompt, maxTokens) + 4
    ensures EstimateTokens(systemPrompt) + EstimateTokens(Strip(Piece(group))) > maxTokens
      <==> |group| == 1 && |group[0]| - SkipSpace(group[0], 0) + 1 >= MaxChars(systemPrompt, maxTokens) + 4
  {
    var maxChars := MaxChars(systemPrompt, maxTokens);
    GreedyIsAdmissible([], Split(text, SEPARATOR), maxChars);
    GreedyGroupsNonEmpty([], Split(text, SEPARATOR), maxChars);
    AdmissibleIff(group, maxChars);
    if |group| == 1 {
      OneMoreSentence([], group[0]);
      assert [] + [group[0]] == group && Piece(group) == group[0] + SEPARATOR;
      StrippedSentence(group[0]);
    }
    QuarterBound(|Piece(group)|, maxTokens - EstimateTokens(systemPrompt));
    QuarterBound(|Strip(Piece(group))|, maxTokens - EstimateTokens(systemPrompt));
  }

  /** A sentence followed by ". " loses its leading blanks and the last space, and keeps the stop. */
  lemma StrippedSentence(sentence: string)
    ensures |Strip(sentence + SEPARATOR)| == |sentence| - SkipSpace(sentence, 0) + 1
  {
    var piece := sentence + SEPARATOR;
    var n := |sentence|;
    assert piece[n] == '.' && piece[n + 1] == ' ';
    assert TrimEnd(piece, SkipSpace(piece, 0), n + 2) == n + 1;
    var b := SkipSpace(sentence, 0);
    assert forall k :: 0 <= k < n ==> piece[k] == sentence[k];
    SkipsTo(piece, 0, b);
  }

  lemma QuarterBound(n: nat, available: int)
    ensures n / 4 <= available <==> n < 4 * available + 4
  {
  }

  // ---------- No cut uses fewer chunks ----------

  /** A way to cut the sentences into consecutive, non-empty, admissible groups. */
  ghost predicate Cut(groups: seq<seq<string>>, sentences: seq<string>, maxChars: int) {
    && Flat(groups) == sentences
    && forall g :: g in groups ==> g != [] && Admissible(g, maxChars)
  }

  /** Starting a group later never costs a chunk, and saves at most one. */
  lemma {:induction false} LaterStart(dropped: seq<string>, current: seq<string>, rest: seq<string>, maxChars: int)
    requires current != []
    ensures |GreedyFrom(current, rest, maxChars)| <= |GreedyFrom(dropped + current, rest, maxChars)|
    ensures |GreedyFrom(dropped + current, rest, maxChars)| <= 1 + |GreedyFrom(current, rest, maxChars)|
    decreases |rest|
  {
    if rest != [] {
      SizeConcat(dropped, current);
      var s := rest[0];
      assert dropped + current + [s] == dropped + (current + [s]);
      LaterStart(dropped, current + [s], rest[1..], maxChars);
      LaterStart(current, [s], rest[1..], maxChars);
    }
  }

  lemma LaterGroups(groups: seq<seq<string>>, sentences: seq<string>, maxChars: int)
    requires groups != [] && Cut(groups, sentences, maxChars)
    ensures groups[0] != [] && Admissible(groups[0], maxChars)
    ensures |groups[0]| <= |sentences| && groups[0] == sentences[..|groups[0]|]
    ensures Cut(groups[1..], sentences[|groups[0]|..], maxChars)
  {
    assert groups[0] in groups;
    assert forall g :: g in groups[1..] ==> g in groups;
  }

  lemma Regroup<T>(dropped: seq<T>, current: seq<T>, rest: seq<T>)
    requires rest != []
    ensures dropped + (current + [rest[0]]) + rest[1..] == dropped + current + rest
    ensures (dropped + current + rest)[|dropped + current|..] == rest
    ensures (dropped + current + rest)[..|dropped + current|] == dropped + current
    ensures (dropped + current + rest)[|dropped + current|] == rest[0]
  {
  }

  /** A sentence admitted to a whole group is admitted to its tail. */
  lemma TailAdmits(dropped: seq<string>, current: seq<string>, first: seq<string>, maxChars: int)
    requires current != [] && Admissible(first, maxChars)
    requires |dropped + current| < |first| && first[..|dropped + current|] == dropped + current
    ensures Admits(current, first[|dropped + current|], maxChars)
  {
    var n := |dropped + current|;
    assert Admits(first[..n], first[n], maxChars);
    SizeConcat(dropped, current);
  }

  /** The loop stays ahead: while its open group is the tail of the first group of a cut, the
      groups it still forms are no more than the groups of the cut. */
  lemma {:induction false} GreedyStaysAhead(
    dropped: seq<string>, current: seq<string>, rest: seq<string>, groups: seq<seq<string>>, maxChars: int)
    requires current != [] && Cut(groups, dropped + current + rest, maxChars)
    requires groups != [] && |groups[0]| >= |dropped + current|
    ensures |GreedyFrom(current, rest, maxChars)| <= |groups|
    decreases |rest|
  {
    if rest != [] {
      var s, first, later := rest[0], groups[0], groups[1..];
      var n := |dropped + current|;
      var all := dropped + current + rest;
      LaterGroups(groups, all, maxChars);
      Regroup(dropped, current, rest);
      if |first| > n {
        assert first[..n] == all[..n] && first[n] == all[n];
        TailAdmits(dropped, current, first, maxChars);
        GreedyStaysAhead(dropped, current + [s], rest[1..], groups, maxChars);
      } else {
        MoveHead([], rest);
        LaterGroups(later, rest, maxChars);
        GreedyStaysAhead([], [s], rest[1..], later, maxChars);
        LaterStart(current, [s], rest[1..], maxChars);
      }
    }
  }

  /** The loop forms a cut, and no cut under its admission rule has fewer groups. */
  lemma GreedyIsOptimal(sentences: seq<string>, groups: seq<seq<string>>, maxChars: int)
    requires Cut(groups, sentences, maxChars)
    ensures Cut(Greedy(sentences, maxChars), sentences, maxChars)
    ensures |Greedy(sentences, maxChars)| <= |groups|
  {
    GreedyFlattens([], sentences, maxChars);
    GreedyGroupsNonEmpty([], sentences, maxChars);
    GreedyIsAdmissible([], sentences, maxChars);
    assert [] + sentences == sentences;
    if sentences != [] {
      assert [] + [sentences[0]] == [sentences[0]];
      assert [] + [sentences[0]] + sentences[1..] == sentences;
      assert groups[0] in groups;
      GreedyStaysAhead([], [sentences[0]], sentences[1..], groups, maxChars);
    }
  }
}
