// Turning a diarized transcript into words and segments: the two passes over the raw segments
// that number the speakers separately, and the grouping of words into speaker runs.
module SpeakerSegments {
  import opened Common
  import opened Text

  /** How the transcription service names a speaker. */
  datatype SpeakerId = SpeakerId(name: string)

  /** The n-th speaker of a transcript; its text is `LabelText`. */
  datatype Label = Label(n: nat)

  /** A raw word. A missing string is "", a missing time is `None`. */
  datatype RawWord = RawWord(
    text: string, word: string,
    startTime: Option<real>, start: Option<real>, endTime: Option<real>, end: Option<real>)

  /** A raw segment. A missing or empty speaker name is `None`. */
  datatype RawSegment = RawSegment(
    speaker: Option<SpeakerId>, speakerId: Option<SpeakerId>, text: string, words: seq<RawWord>,
    startTime: Option<real>, start: Option<real>, endTime: Option<real>, end: Option<real>)

  datatype Word = Word(word: string, start: Option<real>, end: Option<real>, speaker: Option<Label>)

  datatype Segment = Segment(
    id: nat, start: real, end: real, text: string, speaker: Option<Label>, words: seq<Word>)

  /** Python's `a or b` on times: a missing time and 0.0 are both passed over. */
  function Or(a: Option<real>, b: Option<real>): Option<real> {
    if a.Some? && a.value != 0.0 then a else b
  }

  function OrElse(a: Option<real>, fallback: real): real {
    if a.Some? && a.value != 0.0 then a.value else fallback
  }

  function WithDefault(a: Option<real>, default: real): real {
    if a.Some? then a.value else default
  }

  function OrText(a: string, b: string): string {
    if a != "" then a else b
  }

  // ---------- Speaker labels ----------

  function Decimal(n: nat): string {
    if n < 10 then [('0' as int + n) as char] else Decimal(n / 10) + [('0' as int + n % 10) as char]
  }

  /** "SPEAKER_" and the number, with at least two digits. */
  function LabelText(who: Label): string {
    "SPEAKER_" + (if who.n < 10 then "0" else "") + Decimal(who.n)
  }

  lemma {:induction false} DecimalShape(n: nat)
    ensures Decimal(n) != "" && (n >= 10 ==> |Decimal(n)| >= 2)
    ensures n > 0 ==> Decimal(n)[0] != '0'
    decreases n
  {
    if n >= 10 {
      DecimalShape(n / 10);
    }
  }

  lemma {:induction false} DecimalInjective(m: nat, n: nat)
    requires Decimal(m) == Decimal(n)
    ensures m == n
    decreases m
  {
    DecimalShape(m);
    DecimalShape(n);
    if m >= 10 && n >= 10 {
      assert Front(Decimal(m)) == Decimal(m / 10) && Front(Decimal(n)) == Decimal(n / 10);
      assert Last(Decimal(m)) == ('0' as int + m % 10) as char && Last(Decimal(n)) == ('0' as int + n % 10) as char;
      DecimalInjective(m / 10, n / 10);
    }
  }

  lemma LabelTextParts(who: Label)
    ensures who.n < 10 ==> LabelText(who)[8] == '0' && LabelText(who)[9..] == Decimal(who.n)
    ensures who.n >= 10 ==> LabelText(who)[8] != '0' && LabelText(who)[8..] == Decimal(who.n)
  {
    DecimalShape(who.n);
  }

  /** Different speakers never share a label text. */
  lemma LabelTextInjective(k: Label, l: Label)
    ensures LabelText(k) == LabelText(l) <==> k == l
  {
    LabelTextParts(k);
    LabelTextParts(l);
    if Decimal(k.n) == Decimal(l.n) {
      DecimalInjective(k.n, l.n);
    }
  }

  function RawSpeaker(seg: RawSegment): Option<SpeakerId> {
    if seg.speaker.Some? then seg.speaker else seg.speakerId
  }

  type Mapping = map<SpeakerId, Label>

  /** The mapping after one more segment: a new speaker gets the next number. */
  function MapNext(mapping: Mapping, seg: RawSegment): Mapping {
    var raw := RawSpeaker(seg);
    if raw.Some? && raw.value !in mapping then mapping[raw.value := Label(|mapping| + 1)] else mapping
  }

  /** The mapping after the first `n` segments. */
  function MappingAfter(segs: seq<RawSegment>, n: nat): Mapping
    requires n <= |segs|
  {
    if n == 0 then map[] else MapNext(MappingAfter(segs, n - 1), segs[n - 1])
  }

  /** The label of segment `k`, by the speakers heard up to it. */
  function LabelOf(segs: seq<RawSegment>, k: nat): Option<Label>
    requires k < |segs|
  {
    var raw := RawSpeaker(segs[k]);
    if raw.Some? then Some(MappingAfter(segs, k + 1)[raw.value]) else None
  }

  /** Speakers are numbered from 1 without repetition. */
  predicate Numbered(m: Mapping) {
    && (forall s :: s in m ==> 1 <= m[s].n <= |m|)
    && (forall s, t :: s in m && t in m && m[s] == m[t] ==> s == t)
  }

  lemma {:induction false} MappingIsNumbered(segs: seq<RawSegment>, n: nat)
    requires n <= |segs|
    ensures Numbered(MappingAfter(segs, n))
    decreases n
  {
    if n > 0 {
      MappingIsNumbered(segs, n - 1);
      var m, next := MappingAfter(segs, n - 1), MappingAfter(segs, n);
      if next != m {
        assert |next| == |m| + 1;
      }
    }
  }

  lemma {:induction false} MappingGrows(segs: seq<RawSegment>, k: nat, n: nat)
    requires k <= n <= |segs|
    ensures forall s :: s in MappingAfter(segs, k) ==>
      s in MappingAfter(segs, n) && MappingAfter(segs, n)[s] == MappingAfter(segs, k)[s]
    decreases n
  {
    if k < n {
      MappingGrows(segs, k, n - 1);
    }
  }

  /** A speaker keeps one label throughout: two segments have the same label exactly when they name
      the same speaker, by `speaker` or, where that is missing, by `speakerId`. */
  lemma {:induction false} SameLabelIffSameSpeaker(segs: seq<RawSegment>, k: nat, l: nat)
    requires k < |segs| && l < |segs|
    ensures LabelOf(segs, k) == LabelOf(segs, l) <==>
      (if segs[k].speaker.Some? then segs[k].speaker else segs[k].speakerId) ==
      (if segs[l].speaker.Some? then segs[l].speaker else segs[l].speakerId)
    ensures LabelOf(segs, k).None? <==> segs[k].speaker.None? && segs[k].speakerId.None?
  {
    MappingGrows(segs, k + 1, |segs|);
    MappingGrows(segs, l + 1, |segs|);
    MappingIsNumbered(segs, |segs|);
    assert LabelOf(segs, k).Some? ==> RawSpeaker(segs[k]).value in MappingAfter(segs, k + 1);
    assert LabelOf(segs, l).Some? ==> RawSpeaker(segs[l]).value in MappingAfter(segs, l + 1);
  }

  // ---------- First pass: words ----------

  function WordOf(w: RawWord, speaker: Option<Label>): Word {
    Word(OrText(w.text, w.word), Or(w.startTime, w.start), Or(w.endTime, w.end), speaker)
  }

  function WordsUnder(raw: seq<RawWord>, speaker: Option<Label>): (words: seq<Word>)
    ensures |words| == |raw|
  {
    if raw == [] then [] else WordsUnder(Front(raw), speaker) + [WordOf(Last(raw), speaker)]
  }

  lemma {:induction false} WordsUnderLabel(raw: seq<RawWord>, speaker: Option<Label>, k: nat)
    requires k < |raw|
    ensures WordsUnder(raw, speaker)[k] == WordOf(raw[k], speaker)
    decreases |raw|
  {
    if k < |raw| - 1 {
      WordsUnderLabel(Front(raw), speaker, k);
    }
  }

  /** What one segment emits: its words or, without words, its text as a single word. */
  function WordsOf(seg: RawSegment, speaker: Option<Label>): seq<Word> {
    if seg.words != [] then WordsUnder(seg.words, speaker)
    else if seg.text != "" then [Word(seg.text, Or(seg.startTime, seg.start), Or(seg.endTime, seg.end), speaker)]
    else []
  }

  function EmittedBy(segs: seq<RawSegment>, k: nat): seq<Word>
    requires k < |segs|
  {
    WordsOf(segs[k], LabelOf(segs, k))
  }

  /** All words emitted for the first `n` segments. */
  function Emitted(segs: seq<RawSegment>, n: nat): seq<Word>
    requires n <= |segs|
  {
    if n == 0 then [] else Emitted(segs, n - 1) + EmittedBy(segs, n - 1)
  }

  /** How many words the first `n` segments emit. */
  function WordCount(segs: seq<RawSegment>, n: nat): nat
    requires n <= |segs|
  {
    if n == 0 then 0
    else WordCount(segs, n - 1) + OwnCount(segs[n - 1])
  }

  /** One word for each raw word or, without any, one for a text. */
  function OwnCount(seg: RawSegment): nat {
    if seg.words != [] then |seg.words| else if seg.text != "" then 1 else 0
  }

  lemma OwnCountIs(seg: RawSegment, speaker: Option<Label>)
    ensures |WordsOf(seg, speaker)| == OwnCount(seg)
  {
  }

  lemma {:induction false} EmittedCount(segs: seq<RawSegment>, n: nat)
    requires n <= |segs|
    ensures |Emitted(segs, n)| == WordCount(segs, n)
    decreases n
  {
    if n > 0 {
      EmittedCount(segs, n - 1);
      OwnCountIs(segs[n - 1], LabelOf(segs, n - 1));
    }
  }

  /** The word stands for a raw entry with these fields: the first time of each kind that is present
      and not 0.0, or else the second; and the first text that is not empty, or else the second. */
  predicate StandsFor(w: Word, text: string, word: string, startTime: Option<real>, start: Option<real>,
                      endTime: Option<real>, end: Option<real>)
  {
    && w.word == (if text != "" then text else word)
    && w.start == (if startTime.Some? && startTime.value != 0.0 then startTime else start)
    && w.end == (if endTime.Some? && endTime.value != 0.0 then endTime else end)
  }

  /** Raw word `i` of segment `k` is in its place, under the segment's label. */
  predicate WordStands(segs: seq<RawSegment>, words: seq<Word>, k: nat, i: nat)
    requires k < |segs| && i < |segs[k].words|
  {
    var raw, place := segs[k].words[i], WordCount(segs, k) + i;
    && place < |words| && words[place].speaker == LabelOf(segs, k)
    && StandsFor(words[place], raw.text, raw.word, raw.startTime, raw.start, raw.endTime, raw.end)
  }

  /** A segment without words is in its place as one word of its text, under its label. */
  predicate TextStands(segs: seq<RawSegment>, words: seq<Word>, k: nat)
    requires k < |segs|
  {
    var raw, place := segs[k], WordCount(segs, k);
    && place < |words| && words[place].speaker == LabelOf(segs, k)
    && StandsFor(words[place], raw.text, raw.text, raw.startTime, raw.start, raw.endTime, raw.end)
  }

  /** The `i`-th word of segment `k` follows the words of the segments before. */
  lemma EmittedAt(segs: seq<RawSegment>, k: nat, i: nat)
    requires k < |segs| && i < OwnCount(segs[k])
    ensures i < |EmittedBy(segs, k)| && WordCount(segs, k) + i < |Emitted(segs, |segs|)|
    ensures Emitted(segs, |segs|)[WordCount(segs, k) + i] == EmittedBy(segs, k)[i]
  {
    EmittedCount(segs, k);
    EmittedPrefix(segs, k + 1, |segs|);
    OwnCountIs(segs[k], LabelOf(segs, k));
    assert Emitted(segs, k + 1)[WordCount(segs, k) + i] == EmittedBy(segs, k)[i];
  }

  lemma RawWordStands(segs: seq<RawSegment>, k: nat, i: nat)
    requires k < |segs| && i < |segs[k].words|
    ensures WordStands(segs, Emitted(segs, |segs|), k, i)
  {
    EmittedAt(segs, k, i);
    WordsUnderLabel(segs[k].words, LabelOf(segs, k), i);
  }

  lemma RawTextStands(segs: seq<RawSegment>, k: nat)
    requires k < |segs| && segs[k].words == [] && segs[k].text != ""
    ensures TextStands(segs, Emitted(segs, |segs|), k)
  {
    EmittedAt(segs, k, 0);
  }

  /** The first pass: every segment's words, in order, under the segment's label, each with its own
      text and times; a segment without words has its text as a single word, or none. */
  method ParseWords(segs: seq<RawSegment>) returns (words: seq<Word>)
    ensures words == Emitted(segs, |segs|) && |words| == WordCount(segs, |segs|)
    ensures forall k: nat, i: nat :: k < |segs| && i < |segs[k].words| ==> WordStands(segs, words, k, i)
    ensures forall k: nat :: k < |segs| && segs[k].words == [] && segs[k].text != "" ==> TextStands(segs, words, k)
  {
    words := ParseEach(segs);
    EmittedCount(segs, |segs|);
    forall k: nat, i: nat | k < |segs| && i < |segs[k].words| ensures WordStands(segs, words, k, i) {
      RawWordStands(segs, k, i);
    }
    forall k: nat | k < |segs| && segs[k].words == [] && segs[k].text != "" ensures TextStands(segs, words, k) {
      RawTextStands(segs, k);
    }
  }

  /** The loop of the first pass. */
  method ParseEach(segs: seq<RawSegment>) returns (words: seq<Word>)
    ensures words == Emitted(segs, |segs|)
  {
    words := [];
    var speakerMapping: Mapping := map[];
    for k := 0 to |segs|
      invariant words == Emitted(segs, k)
      invariant speakerMapping == MappingAfter(segs, k)
    {
      var raw := RawSpeaker(segs[k]);
      var speaker: Option<Label> := None;
      if raw.Some? {
        if raw.value !in speakerMapping {
          speakerMapping := speakerMapping[raw.value := Label(|speakerMapping| + 1)];
        }
        speaker := Some(speakerMapping[raw.value]);
      }
      assert speakerMapping == MappingAfter(segs, k + 1) && speaker == LabelOf(segs, k);
      words := words + WordsOf(segs[k], speaker);
    }
  }

  // ---------- Second pass: segments ----------

  /** How many words the second pass asks for at a segment. */
  function Wanted(seg: RawSegment): nat {
    if seg.words != [] then |seg.words| else 1
  }

  /** How many of `total` words the second pass has handed out before segment `k`. */
  function TakenBefore(segs: seq<RawSegment>, total: nat, k: nat): (taken: nat)
    requires k <= |segs|
    ensures taken <= total
  {
    if k == 0 then 0 else Min(total, TakenBefore(segs, total, k - 1) + Wanted(segs[k - 1]))
  }

  lemma TakenGrows(segs: seq<RawSegment>, total: nat, k: nat)
    requires k < |segs|
    ensures TakenBefore(segs, total, k) <= TakenBefore(segs, total, k + 1)
  {
  }

  /** The words the second pass puts into segment `k`. */
  function Received(segs: seq<RawSegment>, words: seq<Word>, k: nat): seq<Word>
    requires k < |segs|
  {
    TakenGrows(segs, |words|, k);
    words[TakenBefore(segs, |words|, k)..TakenBefore(segs, |words|, k + 1)]
  }

  function StartOf(seg: RawSegment): real {
    OrElse(seg.startTime, WithDefault(seg.start, 0.0))
  }

  function EndOf(seg: RawSegment): real {
    OrElse(seg.endTime, WithDefault(seg.end, StartOf(seg)))
  }

  /** The times of a built segment: the first of its kind that is present and not 0.0, or else the
      second; a missing start is 0.0 and a missing end is the start. */
  predicate TimesOf(seg: RawSegment, start: real, end: real) {
    && (seg.startTime.Some? && seg.startTime.value != 0.0 ==> start == seg.startTime.value)
    && (seg.startTime.None? || seg.startTime.value == 0.0 ==>
          start == if seg.start.Some? then seg.start.value else 0.0)
    && (seg.endTime.Some? && seg.endTime.value != 0.0 ==> end == seg.endTime.value)
    && (seg.endTime.None? || seg.endTime.value == 0.0 ==>
          end == if seg.end.Some? then seg.end.value else start)
  }

  function Built(segs: seq<RawSegment>, words: seq<Word>, k: nat): Segment
    requires k < |segs|
  {
    Segment(k, StartOf(segs[k]), EndOf(segs[k]), Strip(segs[k].text), LabelOf(segs, k), Received(segs, words, k))
  }

  /** Takes the next `wanted` words, or as many as are left. */
  method TakeWords(words: seq<Word>, first: nat, wanted: nat) returns (taken: seq<Word>, wordIdx: nat)
    requires first <= |words|
    ensures wordIdx == Min(|words|, first + wanted)
    ensures taken == words[first..wordIdx]
  {
    taken, wordIdx := [], first;
    for n := 0 to wanted
      invariant wordIdx == Min(|words|, first + n)
      invariant taken == words[first..wordIdx]
    {
      if wordIdx < |words| {
        taken := taken + [words[wordIdx]];
        wordIdx := wordIdx + 1;
      }
    }
  }

  /** Looks a segment's speaker up in the second pass's own map, numbering a new one. */
  method LabelSegment(mapping: Mapping, segs: seq<RawSegment>, k: nat)
    returns (speakerMapping: Mapping, speaker: Option<Label>)
    requires k < |segs| && mapping == MappingAfter(segs, k)
    ensures speakerMapping == MappingAfter(segs, k + 1) && speaker == LabelOf(segs, k)
  {
    speakerMapping, speaker := mapping, None;
    var raw := RawSpeaker(segs[k]);
    if raw.Some? {
      if raw.value !in speakerMapping {
        speakerMapping := speakerMapping[raw.value := Label(|speakerMapping| + 1)];
      }
      speaker := Some(speakerMapping[raw.value]);
    }
  }

  method BuildFromRaw(words: seq<Word>, segs: seq<RawSegment>) returns (segments: seq<Segment>)
    ensures |segments| == |segs|
    ensures forall k :: 0 <= k < |segs| ==> segments[k] == Built(segs, words, k)
  {
    segments := [];
    var speakerMapping: Mapping := map[];
    var wordIdx := 0;
    for k := 0 to |segs|
      invariant |segments| == k
      invariant wordIdx == TakenBefore(segs, |words|, k)
      invariant speakerMapping == MappingAfter(segs, k)
      invariant forall l :: 0 <= l < k ==> segments[l] == Built(segs, words, l)
    {
      var seg := segs[k];
      var speaker;
      speakerMapping, speaker := LabelSegment(speakerMapping, segs, k);
      var segWords;
      segWords, wordIdx := TakeWords(words, wordIdx, Wanted(seg));
      var built := Segment(k, StartOf(seg), EndOf(seg), Strip(seg.text), speaker, segWords);
      assert built == Built(segs, words, k);
      segments := segments + [built];
    }
  }

  // ---------- When the two passes agree ----------

  predicate Silent(seg: RawSegment) {
    seg.words == [] && seg.text == ""
  }

  /** Every segment receives exactly the words that were emitted for it. */
  ghost predicate Aligned(segs: seq<RawSegment>) {
    forall k :: 0 <= k < |segs| ==> Received(segs, Emitted(segs, |segs|), k) == EmittedBy(segs, k)
  }

  /** No segment without words and text comes before one that has either. */
  predicate SilenceLast(segs: seq<RawSegment>) {
    forall i, j :: 0 <= i < j < |segs| && Silent(segs[i]) ==> Silent(segs[j])
  }

  /** The second pass realigns the words of the first if and only if silent segments come last;
      otherwise the first of them takes a word of a later segment. In particular it does whenever
      every segment has words or text. */
  lemma {:induction false} AlignedIffSilenceLast(segs: seq<RawSegment>)
    ensures Aligned(segs) <==> SilenceLast(segs)
  {
    if SilenceLast(segs) {
      forall k | 0 <= k < |segs| ensures Received(segs, Emitted(segs, |segs|), k) == EmittedBy(segs, k) {
        SilenceLastAligns(segs, k);
      }
    } else {
      var i, j :| 0 <= i < j < |segs| && Silent(segs[i]) && !Silent(segs[j]);
      var first := FirstSilent(segs, i);
      SilentTakesAWord(segs, first, j);
    }
  }

  lemma {:induction false} SpokenLater(segs: seq<RawSegment>, first: nat, j: nat)
    requires first < j < |segs| && !Silent(segs[j])
    ensures |Emitted(segs, |segs|)| > |Emitted(segs, first)|
  {
    EmittedPrefix(segs, first, j);
    EmittedGrows(segs, j + 1);
    assert |Emitted(segs, j + 1)| == |Emitted(segs, j)| + |EmittedBy(segs, j)|;
    assert |EmittedBy(segs, j)| > 0;
  }

  lemma {:induction false} SilentTakesAWord(segs: seq<RawSegment>, first: nat, j: nat)
    requires first < j < |segs| && Silent(segs[first]) && !Silent(segs[j])
    requires forall k :: 0 <= k < first ==> !Silent(segs[k])
    ensures |Received(segs, Emitted(segs, |segs|), first)| == 1 && EmittedBy(segs, first) == []
  {
    SpeakingBefore(segs, first);
    SpokenLater(segs, first, j);
    var total := |Emitted(segs, |segs|)|;
    assert TakenBefore(segs, total, first + 1) == TakenBefore(segs, total, first) + 1;
  }

  lemma {:induction false} FirstSilent(segs: seq<RawSegment>, i: nat) returns (first: nat)
    requires i < |segs| && Silent(segs[i])
    ensures first <= i && Silent(segs[first])
    ensures forall k :: 0 <= k < first ==> !Silent(segs[k])
    decreases i
  {
    first := i;
    if k: nat :| k < i && Silent(segs[k]) {
      first := FirstSilent(segs, k);
    }
  }

  /** The emitted words of a prefix are a prefix of the emitted words. */
  lemma {:induction false} EmittedGrows(segs: seq<RawSegment>, k: nat)
    requires k <= |segs|
    ensures Emitted(segs, k) <= Emitted(segs, |segs|)
  {
    EmittedPrefix(segs, k, |segs|);
  }

  lemma {:induction false} EmittedPrefix(segs: seq<RawSegment>, k: nat, n: nat)
    requires k <= n <= |segs|
    ensures Emitted(segs, k) <= Emitted(segs, n)
    decreases n
  {
    if k < n {
      EmittedPrefix(segs, k, n - 1);
    }
  }

  /** Up to the first silent segment the second pass has handed out what was emitted. */
  lemma {:induction false} SpeakingBefore(segs: seq<RawSegment>, k: nat)
    requires k <= |segs| && forall i :: 0 <= i < k ==> !Silent(segs[i])
    ensures TakenBefore(segs, |Emitted(segs, |segs|)|, k) == |Emitted(segs, k)|
    decreases k
  {
    EmittedGrows(segs, k);
    if k > 0 {
      SpeakingBefore(segs, k - 1);
      assert |EmittedBy(segs, k - 1)| == Wanted(segs[k - 1]);
    }
  }

  /** After it, when only silent segments follow, every word is handed out. */
  lemma {:induction false} SilentAfter(segs: seq<RawSegment>, first: nat, k: nat)
    requires first <= k <= |segs| && forall i :: 0 <= i < first ==> !Silent(segs[i])
    requires forall i :: first <= i < |segs| ==> Silent(segs[i])
    ensures TakenBefore(segs, |Emitted(segs, |segs|)|, k) == |Emitted(segs, |segs|)|
    decreases k - first
  {
    if k == first {
      SpeakingBefore(segs, first);
      NothingAfter(segs, first, |segs|);
    } else {
      SilentAfter(segs, first, k - 1);
    }
  }

  lemma {:induction false} NothingAfter(segs: seq<RawSegment>, first: nat, n: nat)
    requires first <= n <= |segs| && forall i :: first <= i < n ==> Silent(segs[i])
    ensures Emitted(segs, n) == Emitted(segs, first)
    decreases n
  {
    if first < n {
      NothingAfter(segs, first, n - 1);
      assert EmittedBy(segs, n - 1) == [];
    }
  }

  lemma {:induction false} SilenceLastAligns(segs: seq<RawSegment>, k: nat)
    requires SilenceLast(segs) && k < |segs|
    ensures Received(segs, Emitted(segs, |segs|), k) == EmittedBy(segs, k)
  {
    if Silent(segs[k]) {
      SilentReceivesNothing(segs, k);
    } else {
      SpeakingReceives(segs, k);
    }
  }

  lemma {:induction false} SilentReceivesNothing(segs: seq<RawSegment>, k: nat)
    requires SilenceLast(segs) && k < |segs| && Silent(segs[k])
    ensures Received(segs, Emitted(segs, |segs|), k) == []
  {
    var first := FirstSilent(segs, k);
    SilentAfter(segs, first, k);
    SilentAfter(segs, first, k + 1);
  }

  lemma {:induction false} SpeakingReceives(segs: seq<RawSegment>, k: nat)
    requires k < |segs| && forall i :: 0 <= i <= k ==> !Silent(segs[i])
    ensures Received(segs, Emitted(segs, |segs|), k) == EmittedBy(segs, k)
  {
    Offsets(segs, k);
    EmittedMiddle(segs, k);
  }

  lemma {:induction false} Offsets(segs: seq<RawSegment>, k: nat)
    requires k < |segs| && forall i :: 0 <= i <= k ==> !Silent(segs[i])
    ensures TakenBefore(segs, |Emitted(segs, |segs|)|, k) == |Emitted(segs, k)|
    ensures TakenBefore(segs, |Emitted(segs, |segs|)|, k + 1) == |Emitted(segs, k)| + |EmittedBy(segs, k)|
  {
    SpeakingBefore(segs, k);
    SpeakingBefore(segs, k + 1);
  }

  lemma {:induction false} EmittedMiddle(segs: seq<RawSegment>, k: nat)
    requires k < |segs|
    ensures |Emitted(segs, k)| + |EmittedBy(segs, k)| <= |Emitted(segs, |segs|)|
    ensures Emitted(segs, |segs|)[|Emitted(segs, k)|..|Emitted(segs, k)| + |EmittedBy(segs, k)|] == EmittedBy(segs, k)
  {
    EmittedGrows(segs, k + 1);
    SliceOfPrefix(Emitted(segs, |segs|), Emitted(segs, k), EmittedBy(segs, k), Emitted(segs, k + 1));
  }

  lemma SliceOfPrefix(all: seq<Word>, before: seq<Word>, own: seq<Word>, after: seq<Word>)
    requires after == before + own && after <= all
    ensures all[|before|..|after|] == own
  {
  }

  /** In an aligned transcript the words of a segment all carry the segment's own label. */
  lemma {:induction false} AlignedWordsCarryLabel(segs: seq<RawSegment>, k: nat)
    requires SilenceLast(segs) && k < |segs|
    ensures forall w :: w in Received(segs, Emitted(segs, |segs|), k) ==> w.speaker == LabelOf(segs, k)
  {
    SilenceLastAligns(segs, k);
    EmittedCarryLabel(segs[k], LabelOf(segs, k));
  }

  lemma EmittedCarryLabel(seg: RawSegment, speaker: Option<Label>)
    ensures forall w :: w in WordsOf(seg, speaker) ==> w.speaker == speaker
  {
    forall w | w in WordsOf(seg, speaker) ensures w.speaker == speaker {
      if seg.words != [] {
        var k :| 0 <= k < |seg.words| && WordsUnder(seg.words, speaker)[k] == w;
        WordsUnderLabel(seg.words, speaker, k);
      }
    }
  }

  // ---------- Speaker runs ----------

  function Flat(groups: seq<seq<Word>>): seq<Word> {
    if groups == [] then [] else Flat(Front(groups)) + Last(groups)
  }

  predicate OneSpeaker(group: seq<Word>) {
    group != [] && forall i :: 0 <= i < |group| ==> group[i].speaker == group[0].speaker
  }

  /** A cut of the words into maximal runs of one speaker. */
  predicate RunCut(groups: seq<seq<Word>>, words: seq<Word>) {
    && Flat(groups) == words
    && (forall g :: 0 <= g < |groups| ==> OneSpeaker(groups[g]))
    && (forall g :: 0 < g < |groups| ==> groups[g - 1][0].speaker != groups[g][0].speaker)
  }

  /** The last run of the words starts at `n`. */
  predicate LastRunStart(words: seq<Word>, n: nat) {
    && n < |words|
    && (forall i :: n <= i < |words| ==> words[i].speaker == words[n].speaker)
    && (n > 0 ==> words[n - 1].speaker != words[n].speaker)
  }

  lemma LastRunStartIsUnique(words: seq<Word>, m: nat, n: nat)
    requires LastRunStart(words, m) && LastRunStart(words, n)
    ensures m == n
  {
  }

  lemma {:induction false} LastGroup(groups: seq<seq<Word>>, words: seq<Word>)
    requires RunCut(groups, words)
    ensures groups == [] <==> words == []
    ensures groups != [] ==>
      var n := |words| - |Last(groups)|;
      LastRunStart(words, n) && Last(groups) == words[n..] && RunCut(Front(groups), words[..n])
  {
    if groups != [] {
      var n := |words| - |Last(groups)|;
      assert OneSpeaker(groups[|groups| - 1]);
      assert words == Flat(Front(groups)) + Last(groups);
      assert forall i :: n <= i < |words| ==> words[i] == Last(groups)[i - n];
      if |groups| > 1 {
        var front := Front(groups);
        assert OneSpeaker(groups[|groups| - 2]) && Last(front) == groups[|groups| - 2];
        assert groups[|groups| - 2][0].speaker != groups[|groups| - 1][0].speaker;
        assert words[n - 1] == Last(Last(front));
      }
    }
  }

  /** There is only one such cut. */
  lemma {:induction false} RunCutIsUnique(a: seq<seq<Word>>, b: seq<seq<Word>>, words: seq<Word>)
    requires RunCut(a, words) && RunCut(b, words)
    ensures a == b
    decreases |words|
  {
    LastGroup(a, words);
    LastGroup(b, words);
    if words != [] {
      var n := |words| - |Last(a)|;
      LastRunStartIsUnique(words, n, |words| - |Last(b)|);
      RunCutIsUnique(Front(a), Front(b), words[..n]);
      assert a == Front(a) + [Last(a)] && b == Front(b) + [Last(b)];
    }
  }

  /** The spoken text of a run: its non-empty words joined by spaces, stripped. */
  function SpokenText(group: seq<Word>): string {
    Strip(Join(NonEmpty(group), " "))
  }

  function NonEmpty(group: seq<Word>): seq<string> {
    if group == [] then []
    else NonEmpty(Front(group)) + if Last(group).word != "" then [Last(group).word] else []
  }

  function RunStart(group: seq<Word>, previousEnd: real): real
    requires group != []
  {
    OrElse(group[0].start, previousEnd)
  }

  function RunEnd(group: seq<Word>, start: real): real
    requires group != []
  {
    OrElse(Last(group).end, OrElse(Last(group).start, start))
  }

  function Groups(segments: seq<Segment>): seq<seq<Word>> {
    seq(|segments|, k requires 0 <= k < |segments| => segments[k].words)
  }

  /** Segment `k` describes its own run; it starts where its first word starts, or else where the
      previous segment ended. */
  predicate Describes(segments: seq<Segment>, k: nat)
    requires k < |segments|
  {
    var seg := segments[k];
    && seg.words != []
    && seg.id == k
    && seg.speaker == seg.words[0].speaker
    && seg.text == SpokenText(seg.words)
    && seg.start == RunStart(seg.words, if k == 0 then 0.0 else segments[k - 1].end)
    && seg.end == RunEnd(seg.words, seg.start)
  }

  /** The times of a run, from those of its first and its last word: a start missing or 0.0 is where
      the segment before ended, or 0.0 for the first; an end missing or 0.0 is the last word's start,
      or else the run's own. */
  predicate Spans(segments: seq<Segment>, k: nat)
    requires k < |segments|
  {
    var seg := segments[k];
    seg.words != [] &&
    var first, last := seg.words[0], seg.words[|seg.words| - 1];
    && (first.start.Some? && first.start.value != 0.0 ==> seg.start == first.start.value)
    && (first.start.None? || first.start.value == 0.0 ==> seg.start == if k == 0 then 0.0 else segments[k - 1].end)
    && (last.end.Some? && last.end.value != 0.0 ==> seg.end == last.end.value)
    && (last.end.None? || last.end.value == 0.0 ==>
          seg.end == if last.start.Some? && last.start.value != 0.0 then last.start.value else seg.start)
  }

  /** The text of a run, word by word: an empty word adds nothing, any other follows the ones before it
      after one space; the whole is stripped. */
  lemma SpokenTextGrows(group: seq<Word>, w: Word)
    ensures SpokenText([]) == ""
    ensures var before, after := Join(NonEmpty(group), " "), Join(NonEmpty(group + [w]), " ");
      && SpokenText(group + [w]) == Strip(after)
      && after == if w.word == "" then before
                  else if forall v :: v in group ==> v.word == "" then w.word
                  else before + " " + w.word
  {
    AppendParts(group, w);
    NoneSpoken(group);
    assert NonEmpty(group + [w]) == NonEmpty(group) + if w.word != "" then [w.word] else [];
    if w.word == "" {
      assert NonEmpty(group + [w]) == NonEmpty(group);
    } else if NonEmpty(group) == [] {
      assert NonEmpty(group + [w]) == [w.word];
    } else {
      JoinAppend(NonEmpty(group), w.word, " ");
    }
  }

  lemma {:induction false} NoneSpoken(group: seq<Word>)
    ensures NonEmpty(group) == [] <==> forall v :: v in group ==> v.word == ""
    decreases |group|
  {
    if group != [] {
      NoneSpoken(Front(group));
      assert group == Front(group) + [Last(group)];
    }
  }

  function PreviousEnd(segments: seq<Segment>): real {
    if segments == [] then 0.0 else Last(segments).end
  }

  /** The loop after `i` words: the closed segments and the open run cut the words so far. */
  ghost predicate OpenRun(segments: seq<Segment>, run: seq<Word>, start: real, words: seq<Word>, i: nat) {
    && i <= |words| && run != []
    && RunCut(Groups(segments) + [run], words[..i])
    && start == RunStart(run, PreviousEnd(segments))
    && forall k :: 0 <= k < |segments| ==> Describes(segments, k)
  }

  function Closed(segments: seq<Segment>, run: seq<Word>, start: real): Segment
    requires run != []
  {
    Segment(|segments|, start, RunEnd(run, start), SpokenText(run), run[0].speaker, run)
  }

  /** The grouping by speaker changes, as the ElevenLabs transcriber does it and as the Dalston
      transcriber does without raw segments. */
  method GroupBySpeaker(words: seq<Word>) returns (segments: seq<Segment>)
    ensures RunCut(Groups(segments), words)
    ensures forall k :: 0 <= k < |segments| ==> Describes(segments, k) && Spans(segments, k)
  {
    segments := [];
    if words == [] {
      return;
    }
    var segmentId := 0;
    var currentSpeaker := words[0].speaker;
    var currentWords: seq<Word> := [];
    var segmentStart := OrElse(words[0].start, 0.0);
    for i := 0 to |words|
      invariant segmentId == |segments|
      invariant if i == 0 then segments == [] && currentWords == [] && segmentStart == OrElse(words[0].start, 0.0)
                else OpenRun(segments, currentWords, segmentStart, words, i)
      invariant currentSpeaker == (if i == 0 then words[0] else currentWords[0]).speaker
    {
      var word := words[i];
      if word.speaker != currentSpeaker && currentWords != [] {
        var segmentEnd := RunEnd(currentWords, segmentStart);
        StartRun(segments, currentWords, segmentStart, words, i);
        segments := segments + [
          Segment(segmentId, segmentStart, segmentEnd, SpokenText(currentWords), currentSpeaker, currentWords)];
        segmentId := segmentId + 1;
        currentSpeaker := word.speaker;
        currentWords := [];
        segmentStart := OrElse(word.start, segmentEnd);
      } else if i > 0 {
        ExtendRun(segments, currentWords, segmentStart, words, i);
      } else {
        FirstRun(words);
      }
      currentWords := currentWords + [word];
    }
    CloseRun(segments, currentWords, segmentStart, words, |words|);
    var segmentEnd := RunEnd(currentWords, segmentStart);
    segments := segments + [
      Segment(segmentId, segmentStart, segmentEnd, SpokenText(currentWords), currentSpeaker, currentWords)];
    assert words[..|words|] == words;
    forall k | 0 <= k < |segments| ensures Spans(segments, k) {
      assert Describes(segments, k);
    }
  }

  /** Raw segments decide when there are any; otherwise the words are grouped by speaker. */
  method BuildSegments(words: seq<Word>, segs: seq<RawSegment>) returns (segments: seq<Segment>)
    ensures segs != [] ==> |segments| == |segs|
    ensures segs != [] ==> forall k :: 0 <= k < |segs| ==> segments[k] == Built(segs, words, k)
    ensures segs != [] ==> forall k :: 0 <= k < |segs| ==>
      && segments[k].id == k && segments[k].text == Strip(segs[k].text)
      && TimesOf(segs[k], segments[k].start, segments[k].end)
    ensures segs == [] ==> RunCut(Groups(segments), words)
    ensures segs == [] ==> forall k :: 0 <= k < |segments| ==> Describes(segments, k) && Spans(segments, k)
  {
    if segs != [] {
      segments := BuildFromRaw(words, segs);
    } else {
      segments := GroupBySpeaker(words);
    }
  }

  lemma {:induction false} FirstRun(words: seq<Word>)
    requires words != []
    ensures OpenRun([], [] + [words[0]], OrElse(words[0].start, 0.0), words, 1)
  {
    var groups := Groups([]) + [[] + [words[0]]];
    assert Front(groups) == [] && Last(groups) == words[..1];
  }

  lemma {:induction false} CloseRun(segments: seq<Segment>, run: seq<Word>, start: real, words: seq<Word>, i: nat)
    requires OpenRun(segments, run, start, words, i)
    ensures var closed := segments + [Closed(segments, run, start)];
      && Groups(closed) == Groups(segments) + [run]
      && forall k :: 0 <= k < |closed| ==> Describes(closed, k)
  {
    var closed := segments + [Closed(segments, run, start)];
    forall k | 0 <= k < |closed| ensures Describes(closed, k) {
      if k < |segments| {
        assert Describes(segments, k);
      }
    }
  }

  lemma {:induction false} StartRun(segments: seq<Segment>, run: seq<Word>, start: real, words: seq<Word>, i: nat)
    requires i < |words| && OpenRun(segments, run, start, words, i)
    requires words[i].speaker != run[0].speaker
    ensures OpenRun(segments + [Closed(segments, run, start)], [] + [words[i]],
                    OrElse(words[i].start, RunEnd(run, start)), words, i + 1)
  {
    CloseRun(segments, run, start, words, i);
    var before: seq<seq<Word>> := Groups(segments) + [run];
    var after := before + [[] + [words[i]]];
    assert Front(after) == before && words[..i + 1] == words[..i] + [words[i]];
  }

  lemma {:induction false} ExtendRun(segments: seq<Segment>, run: seq<Word>, start: real, words: seq<Word>, i: nat)
    requires i < |words| && OpenRun(segments, run, start, words, i)
    requires words[i].speaker == run[0].speaker
    ensures OpenRun(segments, run + [words[i]], start, words, i + 1)
  {
    var front := Groups(segments);
    var before: seq<seq<Word>> := front + [run];
    var after: seq<seq<Word>> := front + [run + [words[i]]];
    assert Front(before) == front && Front(after) == front;
    assert Last(before) == run && OneSpeaker(before[|front|]);
    assert words[..i + 1] == words[..i] + [words[i]];
    assert Flat(after) == Flat(front) + (run + [words[i]]);
    forall g | 0 <= g < |after| ensures OneSpeaker(after[g]) {
      assert OneSpeaker(before[g]);
    }
    forall g | 0 < g < |after| ensures after[g - 1][0].speaker != after[g][0].speaker {
      assert before[g - 1][0].speaker != before[g][0].speaker;
    }
  }
}
