// The facts files: podcast and episode facts printed as Markdown and read back.
module FactsMarkdown {
  import opened Common
  import opened Text

  predicate SingleLine(s: string) {
    '\n' !in s
  }

  /** Text that survives the trip: not empty, no blanks at its ends, on one line. */
  predicate Plain(s: string) {
    s != "" && Trimmed(s) && SingleLine(s)
  }

  predicate AllPlain(items: seq<string>) {
    forall i :: 0 <= i < |items| ==> Plain(items[i])
  }

  lemma StripSingleLine(s: string)
    requires SingleLine(s)
    ensures SingleLine(Strip(s))
  {
  }

  // ---------- Sections ----------

  type Sections = map<string, seq<string>>

  /** The state of the section scan: saved sections, the section being read and its items. */
  datatype Scan = Scan(saved: Sections, current: Option<string>, items: seq<string>)

  /** A stripped line `## text`. */
  predicate IsHeader(line: string) {
    |line| > 2 && line[0] == '#' && line[1] == '#' && IsSpace(line[2])
  }

  function HeaderKey(line: string): string
    requires IsHeader(line)
  {
    Lower(Strip(line[2..]))
  }

  /** A stripped line `- text`. */
  predicate IsItem(line: string) {
    |line| >= 2 && line[0] == '-' && line[1] == ' '
  }

  function Saved(scan: Scan): Sections {
    if scan.current.Some? then scan.saved[scan.current.value := scan.items] else scan.saved
  }

  function ScanLine(scan: Scan, rawLine: string): Scan {
    var line := Strip(rawLine);
    if IsHeader(line) then Scan(Saved(scan), Some(HeaderKey(line)), [])
    else if IsItem(line) && scan.current.Some? then scan.(items := scan.items + [Strip(line[2..])])
    else scan
  }

  function ScanLines(scan: Scan, lines: seq<string>): Scan
    decreases |lines|
  {
    if lines == [] then scan else ScanLine(ScanLines(scan, Front(lines)), Last(lines))
  }

  const NOTHING := Scan(map[], None, [])

  function ParseSections(content: string): Sections {
    Saved(ScanLines(NOTHING, Split(content, "\n")))
  }

  function Get(sections: Sections, key: string): seq<string> {
    if key in sections then sections[key] else []
  }

  method ParseMarkdownSections(content: string) returns (sections: Sections)
    ensures sections == ParseSections(content)
  {
    sections := map[];
    var currentSection: Option<string> := None;
    var currentItems: seq<string> := [];
    var lines := Split(content, "\n");
    for k := 0 to |lines|
      invariant Scan(sections, currentSection, currentItems) == ScanLines(NOTHING, lines[..k])
    {
      assert Front(lines[..k + 1]) == lines[..k] && Last(lines[..k + 1]) == lines[k];
      var line := Strip(lines[k]);
      if IsHeader(line) {
        if currentSection.Some? {
          sections := sections[currentSection.value := currentItems];
        }
        currentSection := Some(HeaderKey(line));
        currentItems := [];
      } else if IsItem(line) && currentSection.Some? {
        currentItems := currentItems + [Strip(line[2..])];
      }
    }
    assert lines[..|lines|] == lines;
    if currentSection.Some? {
      sections := sections[currentSection.value := currentItems];
    }
  }

  ghost predicate SectionsPlain(sections: Sections) {
    forall key :: key in sections ==> AllPlain(sections[key])
  }

  lemma ItemIsPlain(rawLine: string)
    requires SingleLine(rawLine) && IsItem(Strip(rawLine))
    ensures Plain(Strip(Strip(rawLine)[2..]))
  {
    StripSingleLine(rawLine);
    var line := Strip(rawLine);
    // The line ends in something other than a blank, which is past the dash and the space.
    assert !IsSpace(Last(line));
    assert line[2..] != "" && Last(line[2..]) == Last(line);
    assert !AllSpace(line[2..]) by {
      assert !IsSpace(line[2..][|line| - 3]);
    }
    StripSingleLine(line[2..]);
  }

  lemma {:induction false} ScanKeepsPlain(scan: Scan, lines: seq<string>)
    requires SectionsPlain(scan.saved) && AllPlain(scan.items)
    requires forall i :: 0 <= i < |lines| ==> SingleLine(lines[i])
    ensures SectionsPlain(ScanLines(scan, lines).saved) && AllPlain(ScanLines(scan, lines).items)
    decreases |lines|
  {
    if lines != [] {
      ScanKeepsPlain(scan, Front(lines));
      if IsItem(Strip(Last(lines))) {
        ItemIsPlain(Last(lines));
      }
    }
  }

  /** Whatever the text, every item read is plain. */
  lemma ParsedItemsArePlain(content: string, key: string)
    ensures AllPlain(Get(ParseSections(content), key))
  {
    SplitPartsLackSeparator(content, '\n');
    ScanKeepsPlain(NOTHING, Split(content, "\n"));
  }

  // ---------- What the scan reads from any text ----------

  /** What a line is once the blanks around it are gone: `##`, a blank and a text, in lower case; a
      dash, a space and a text; or neither. */
  datatype Line = Heading(key: string) | Item(text: string) | Other

  function LineOf(rawLine: string): Line {
    var line := Strip(rawLine);
    if |line| > 2 && line[..2] == "##" && IsSpace(line[2]) then Heading(Lower(Strip(line[2..])))
    else if |line| >= 2 && line[..2] == "- " then Item(Strip(line[2..]))
    else Other
  }

  function LinesOf(rawLines: seq<string>): (lines: seq<Line>)
    ensures |lines| == |rawLines|
  {
    if rawLines == [] then [] else LinesOf(Front(rawLines)) + [LineOf(Last(rawLines))]
  }

  /** The items in lines `a` to `b`. */
  function ItemsBetween(lines: seq<Line>, a: nat, b: nat): seq<string>
    requires a <= b <= |lines|
  {
    if a == b then []
    else ItemsBetween(lines, a, b - 1) + if lines[b - 1].Item? then [lines[b - 1].text] else []
  }

  function Scanned(scan: Scan, line: Line): Scan {
    match line
    case Heading(key) => Scan(Saved(scan), Some(key), [])
    case Item(text) => if scan.current.Some? then scan.(items := scan.items + [text]) else scan
    case Other => scan
  }

  lemma HeaderIs(line: string)
    ensures IsHeader(line) <==> |line| > 2 && line[..2] == "##" && IsSpace(line[2])
    ensures IsItem(line) <==> |line| >= 2 && line[..2] == "- "
  {
  }

  lemma ScanLineIs(scan: Scan, rawLine: string)
    ensures ScanLine(scan, rawLine) == Scanned(scan, LineOf(rawLine))
  {
    var line := Strip(rawLine);
    HeaderIs(line);
  }

  /** The scan of the first `n` lines. */
  function ScanTo(lines: seq<Line>, n: nat): Scan
    requires n <= |lines|
  {
    if n == 0 then NOTHING else Scanned(ScanTo(lines, n - 1), lines[n - 1])
  }

  lemma {:induction false} ScanToPrefix(lines: seq<Line>, line: Line, n: nat)
    requires n <= |lines|
    ensures ScanTo(lines + [line], n) == ScanTo(lines, n)
    decreases n
  {
    if n > 0 {
      ScanToPrefix(lines, line, n - 1);
    }
  }

  lemma ScanToNext(lines: seq<Line>, line: Line)
    ensures ScanTo(lines + [line], |lines| + 1) == Scanned(ScanTo(lines, |lines|), line)
  {
    ScanToPrefix(lines, line, |lines|);
  }

  lemma {:induction false} ScanLinesAre(rawLines: seq<string>)
    ensures ScanLines(NOTHING, rawLines) == ScanTo(LinesOf(rawLines), |rawLines|)
    decreases |rawLines|
  {
    if rawLines != [] {
      var front, last := Front(rawLines), Last(rawLines);
      ScanLinesAre(front);
      ScanUnfold(NOTHING, rawLines);
      ScanLineIs(ScanLines(NOTHING, front), last);
      ScanToNext(LinesOf(front), LineOf(last));
    }
  }

  /** From its heading on, a section gathers its items. */
  lemma {:induction false} SectionGathers(lines: seq<Line>, h: nat, n: nat, key: string)
    requires h < n <= |lines| && lines[h] == Heading(key) && forall i :: h < i < n ==> !lines[i].Heading?
    ensures ScanTo(lines, n).current == Some(key) && ScanTo(lines, n).items == ItemsBetween(lines, h + 1, n)
    decreases n
  {
    if n > h + 1 {
      SectionGathers(lines, h, n - 1, key);
    }
  }

  /** After the next heading it is saved, until a later heading of the same name. */
  lemma {:induction false} SectionIsSaved(lines: seq<Line>, h: nat, e: nat, n: nat, key: string)
    requires h < e < n <= |lines| && lines[h] == Heading(key) && lines[e].Heading?
    requires forall i :: h < i < e ==> !lines[i].Heading?
    requires forall i :: e <= i < n ==> lines[i] != Heading(key)
    ensures var scan := ScanTo(lines, n);
      && key in scan.saved && scan.saved[key] == ItemsBetween(lines, h + 1, e)
      && scan.current.Some? && scan.current != Some(key)
    decreases n
  {
    if n == e + 1 {
      SectionGathers(lines, h, e, key);
    } else {
      SectionIsSaved(lines, h, e, n - 1, key);
    }
  }

  lemma {:induction false} NotHeadedYet(lines: seq<Line>, n: nat, key: string)
    requires n <= |lines| && forall i :: 0 <= i < n ==> lines[i] != Heading(key)
    ensures key !in ScanTo(lines, n).saved && ScanTo(lines, n).current != Some(key)
    decreases n
  {
    if n > 0 {
      NotHeadedYet(lines, n - 1, key);
    }
  }

  /** Which section a text has under a name: the items between its last heading of that name and the
      next heading, whatever stands before or among them. */
  lemma SectionIs(content: string, lines: seq<Line>, h: nat, e: nat, key: string)
    requires lines == LinesOf(Split(content, "\n"))
    requires h < e <= |lines| && lines[h] == Heading(key)
    requires (forall i :: h < i < e ==> !lines[i].Heading?) && (e < |lines| ==> lines[e].Heading?)
    requires forall i :: e <= i < |lines| ==> lines[i] != Heading(key)
    ensures key in ParseSections(content) && ParseSections(content)[key] == ItemsBetween(lines, h + 1, e)
  {
    ScanLinesAre(Split(content, "\n"));
    if e == |lines| {
      SectionGathers(lines, h, e, key);
    } else {
      SectionIsSaved(lines, h, e, |lines|, key);
    }
  }

  /** And a name without a heading has no section. */
  lemma NoSectionWithoutHeading(content: string, key: string)
    requires Heading(key) !in LinesOf(Split(content, "\n"))
    ensures key !in ParseSections(content)
  {
    var lines := LinesOf(Split(content, "\n"));
    ScanLinesAre(Split(content, "\n"));
    NotHeadedYet(lines, |lines|, key);
  }

  lemma {:induction false} ScanConcat(scan: Scan, a: seq<string>, b: seq<string>)
    ensures ScanLines(scan, a + b) == ScanLines(ScanLines(scan, a), b)
    decreases |b|
  {
    if b == [] {
      assert a + b == a;
    } else {
      assert Front(a + b) == a + Front(b) && Last(a + b) == Last(b);
      ScanConcat(scan, a, Front(b));
    }
  }

  // ---------- Printed sections ----------

  datatype Block = Block(header: string, items: seq<string>)

  function ItemLine(item: string): string {
    "- " + item
  }

  function ItemLines(items: seq<string>): seq<string> {
    seq(|items|, i requires 0 <= i < |items| => ItemLine(items[i]))
  }

  /** An empty section is not printed. */
  function BlockLines(block: Block): seq<string> {
    if block.items == [] then [] else ["## " + block.header] + ItemLines(block.items) + [""]
  }

  function BlocksLines(blocks: seq<Block>): seq<string>
    decreases |blocks|
  {
    if blocks == [] then [] else BlocksLines(Front(blocks)) + BlockLines(Last(blocks))
  }

  lemma ScanItemLine(scan: Scan, item: string)
    requires Plain(item) && scan.current.Some?
    ensures ScanLine(scan, ItemLine(item)) == scan.(items := scan.items + [item])
  {
    var line := ItemLine(item);
    assert Last(line) == Last(item);
    assert Strip(line) == line && line[2..] == item;
  }

  lemma ItemLinesEnd(items: seq<string>)
    requires items != []
    ensures ItemLines(items) != []
    ensures Front(ItemLines(items)) == ItemLines(Front(items))
    ensures Last(ItemLines(items)) == ItemLine(Last(items))
  {
  }

  lemma ScanUnfold(scan: Scan, lines: seq<string>)
    requires lines != []
    ensures ScanLines(scan, lines) == ScanLine(ScanLines(scan, Front(lines)), Last(lines))
  {
  }

  lemma {:induction false} ScanItemLines(saved: Sections, key: string, items: seq<string>)
    requires AllPlain(items)
    ensures ScanLines(Scan(saved, Some(key), []), ItemLines(items)) == Scan(saved, Some(key), items)
    decreases |items|
  {
    if items != [] {
      var front, last := Front(items), Last(items);
      assert AllPlain(front) && Plain(last) && items == front + [last];
      ScanItemLines(saved, key, front);
      ItemLinesEnd(items);
      ScanUnfold(Scan(saved, Some(key), []), ItemLines(items));
      ScanItemLine(Scan(saved, Some(key), front), last);
    }
  }

  lemma ScanHeaderLine(scan: Scan, header: string)
    requires Plain(header)
    ensures ScanLine(scan, "## " + header) == Scan(Saved(scan), Some(Lower(header)), [])
  {
    var line := "## " + header;
    assert Last(line) == Last(header) && line[3] == header[0];
    assert Strip(line) == line;
    assert line[2..] == " " + header;
    StripAfterBlank(header);
  }

  lemma ScanOne(scan: Scan, line: string)
    ensures ScanLines(scan, [line]) == ScanLine(scan, line)
  {
    assert Front([line]) == [];
  }

  lemma ScanBlock(scan: Scan, block: Block)
    requires Plain(block.header) && AllPlain(block.items)
    ensures ScanLines(scan, BlockLines(block)) ==
      if block.items == [] then scan else Scan(Saved(scan), Some(Lower(block.header)), block.items)
  {
    if block.items != [] {
      var head := ["## " + block.header];
      var body := ItemLines(block.items);
      ScanConcat(scan, head + body, [""]);
      ScanConcat(scan, head, body);
      ScanOne(scan, "## " + block.header);
      ScanHeaderLine(scan, block.header);
      ScanItemLines(Saved(scan), Lower(block.header), block.items);
      ScanOne(Scan(Saved(scan), Some(Lower(block.header)), block.items), "");
    }
  }

  ghost predicate BlocksOk(blocks: seq<Block>) {
    && (forall k :: 0 <= k < |blocks| ==> Plain(blocks[k].header) && AllPlain(blocks[k].items))
    && (forall j, k :: 0 <= j < k < |blocks| ==> Lower(blocks[j].header) != Lower(blocks[k].header))
  }

  /** The section of each block is its items, and no other key has a section. */
  ghost predicate HasBlocks(sections: Sections, blocks: seq<Block>) {
    && (forall k :: 0 <= k < |blocks| ==> Get(sections, Lower(blocks[k].header)) == blocks[k].items)
    && (forall key :: key in sections ==> exists k :: 0 <= k < |blocks| && Lower(blocks[k].header) == key)
  }

  /** The sections after one more block. */
  function AddBlock(sections: Sections, block: Block): Sections {
    if block.items == [] then sections else sections[Lower(block.header) := block.items]
  }

  lemma BlockKeyIsNew(sections: Sections, blocks: seq<Block>)
    requires blocks != [] && BlocksOk(blocks) && HasBlocks(sections, Front(blocks))
    ensures Lower(Last(blocks).header) !in sections
  {
    var key := Lower(Last(blocks).header);
    forall other | other in sections ensures other != key {
      var k :| 0 <= k < |Front(blocks)| && Lower(Front(blocks)[k].header) == other;
      assert blocks[k] == Front(blocks)[k];
    }
  }

  lemma AddBlockKeeps(sections: Sections, blocks: seq<Block>, k: nat)
    requires blocks != [] && BlocksOk(blocks) && HasBlocks(sections, Front(blocks)) && k < |blocks|
    ensures Get(AddBlock(sections, Last(blocks)), Lower(blocks[k].header)) == blocks[k].items
  {
    if k < |blocks| - 1 {
      assert Front(blocks)[k] == blocks[k];
      assert Lower(blocks[k].header) != Lower(blocks[|blocks| - 1].header);
    } else {
      BlockKeyIsNew(sections, blocks);
    }
  }

  lemma AddBlockKeys(sections: Sections, blocks: seq<Block>, key: string) returns (k: nat)
    requires blocks != [] && HasBlocks(sections, Front(blocks)) && key in AddBlock(sections, Last(blocks))
    ensures k < |blocks| && Lower(blocks[k].header) == key
  {
    if key in sections {
      k :| k < |Front(blocks)| && Lower(Front(blocks)[k].header) == key;
      assert blocks[k] == Front(blocks)[k];
    } else {
      k := |blocks| - 1;
    }
  }

  lemma HasOneMoreBlock(sections: Sections, blocks: seq<Block>)
    requires blocks != [] && BlocksOk(blocks) && HasBlocks(sections, Front(blocks))
    ensures HasBlocks(AddBlock(sections, Last(blocks)), blocks)
  {
    var after := AddBlock(sections, Last(blocks));
    forall k | 0 <= k < |blocks| ensures Get(after, Lower(blocks[k].header)) == blocks[k].items {
      AddBlockKeeps(sections, blocks, k);
    }
    forall key | key in after ensures exists k :: 0 <= k < |blocks| && Lower(blocks[k].header) == key {
      var k := AddBlockKeys(sections, blocks, key);
    }
  }

  lemma {:induction false} ScanBlocks(blocks: seq<Block>)
    requires BlocksOk(blocks)
    ensures HasBlocks(Saved(ScanLines(NOTHING, BlocksLines(blocks))), blocks)
    decreases |blocks|
  {
    if blocks != [] {
      assert BlocksOk(Front(blocks));
      ScanBlocks(Front(blocks));
      ScanConcat(NOTHING, BlocksLines(Front(blocks)), BlockLines(Last(blocks)));
      var before := ScanLines(NOTHING, BlocksLines(Front(blocks)));
      ScanBlock(before, Last(blocks));
      HasOneMoreBlock(Saved(before), blocks);
    }
  }

  // ---------- Titles ----------

  datatype Kind = Podcast | Episode

  /** The first newline at or after `i`, or the end. */
  function LineEnd(text: string, i: nat): (k: nat)
    requires i <= |text|
    ensures i <= k <= |text|
    ensures SingleLine(text[i..k])
    ensures k < |text| ==> text[k] == '\n'
    decreases |text| - i
  {
    if i == |text| || text[i] == '\n' then i else LineEnd(text, i + 1)
  }

  /** What `(.+)$` captures, stripped, after a run of white space from `i` of which the pattern
      needs all up to `floor`. The run may cross lines. When nothing but white space follows, the
      pattern gives some of it back, if that leaves a character that is no newline. */
  function Capture(text: string, i: nat, floor: nat): (title: Option<string>)
    requires i <= |text|
    ensures title.Some? ==> Trimmed(title.value) && SingleLine(title.value)
  {
    var q := SkipSpace(text, i);
    if q < |text| then
      StripSingleLine(text[q..LineEnd(text, q)]);
      Some(Strip(text[q..LineEnd(text, q)]))
    else if exists k :: floor <= k < |text| && text[k] != '\n' then Some("")
    else None
  }

  /** The title pattern tried at one position. */
  function TitleAt(text: string, p: nat, kind: Kind): (title: Option<string>)
    requires p < |text|
    ensures title.Some? ==> Trimmed(title.value) && SingleLine(title.value)
  {
    if (p == 0 || text[p - 1] == '\n') && text[p] == '#' && p + 1 < |text| && IsSpace(text[p + 1]) then
      match kind
      case Podcast => Capture(text, p + 1, p + 2)
      case Episode =>
        var q := SkipSpace(text, p + 1);
        if OccursAt(text, "Episode:", q) then Capture(text, q + 8, q + 8) else None
    else
      None
  }

  function SearchTitle(text: string, p: nat, kind: Kind): (title: Option<string>)
    requires p <= |text|
    ensures title.Some? ==> Trimmed(title.value) && SingleLine(title.value)
    decreases |text| - p
  {
    if p == |text| then None
    else if TitleAt(text, p, kind).Some? then TitleAt(text, p, kind)
    else SearchTitle(text, p + 1, kind)
  }

  function UnknownTitle(kind: Kind): string {
    if kind == Podcast then "Unknown Podcast" else "Unknown Episode"
  }

  function ParseTitle(text: string, kind: Kind): string {
    var title := SearchTitle(text, 0, kind);
    if title.Some? then title.value else UnknownTitle(kind)
  }

  lemma ParsedTitleIsTidy(text: string, kind: Kind)
    ensures Trimmed(ParseTitle(text, kind)) && SingleLine(ParseTitle(text, kind))
  {
  }

  /** A line starts at `p` with `#` and a blank. */
  predicate TitleStarts(text: string, p: nat) {
    p + 1 < |text| && (p == 0 || text[p - 1] == '\n') && text[p] == '#' && IsSpace(text[p + 1])
  }

  lemma {:induction false} SearchFrom(text: string, from: nat, p: nat, kind: Kind)
    requires from <= p <= |text| && forall k :: from <= k < p ==> !TitleStarts(text, k)
    ensures SearchTitle(text, from, kind) == SearchTitle(text, p, kind)
    decreases p - from
  {
    if from < p {
      assert !TitleStarts(text, from);
      SearchFrom(text, from + 1, p, kind);
    }
  }

  lemma TitleFound(text: string, p: nat, kind: Kind, title: string)
    requires p < |text| && forall k :: 0 <= k < p ==> !TitleStarts(text, k)
    requires TitleAt(text, p, kind) == Some(title)
    ensures ParseTitle(text, kind) == title
  {
    SearchFrom(text, 0, p, kind);
  }

  /** The title of any podcast file whose first `# ` line is not blank is the text of that line, from
      its first character `q` that is no blank to its end `e`. */
  lemma PodcastTitleIs(text: string, p: nat, q: nat, e: nat)
    requires p < q < e <= |text| && TitleStarts(text, p) && forall k :: 0 <= k < p ==> !TitleStarts(text, k)
    requires AllSpace(text[p + 1..q]) && !IsSpace(text[q])
    requires (e < |text| ==> text[e] == '\n') && forall k :: q <= k < e ==> text[k] != '\n'
    ensures ParseTitle(text, Podcast) == Strip(text[q..e])
  {
    CaptureFrom(text, p + 1, q, e, p + 2);
    TitleFound(text, p, Podcast, Strip(text[q..e]));
  }

  /** Of any episode file whose first `# ` line is one of an episode: what follows `Episode:`. */
  lemma EpisodeTitleIs(text: string, p: nat, t: nat, q: nat, e: nat)
    requires p < t && t + 8 <= q < e <= |text|
    requires TitleStarts(text, p) && forall k :: 0 <= k < p ==> !TitleStarts(text, k)
    requires AllSpace(text[p + 1..t]) && OccursAt(text, "Episode:", t)
    requires AllSpace(text[t + 8..q]) && !IsSpace(text[q])
    requires (e < |text| ==> text[e] == '\n') && forall k :: q <= k < e ==> text[k] != '\n'
    ensures ParseTitle(text, Episode) == Strip(text[q..e])
  {
    EpisodeTagAt(text, p, t);
    CaptureFrom(text, t + 8, q, e, t + 8);
    TitleFound(text, p, Episode, Strip(text[q..e]));
  }

  lemma CaptureFrom(text: string, i: nat, q: nat, e: nat, floor: nat)
    requires i <= q < e <= |text| && AllSpace(text[i..q]) && !IsSpace(text[q])
    requires (e < |text| ==> text[e] == '\n') && forall k :: q <= k < e ==> text[k] != '\n'
    ensures Capture(text, i, floor) == Some(Strip(text[q..e]))
  {
    SpacesBefore(text, i, q);
    LineEndAt(text, q, e);
  }

  lemma SpacesBefore(text: string, i: nat, t: nat)
    requires i <= t <= |text| && AllSpace(text[i..t]) && (t < |text| ==> !IsSpace(text[t]))
    ensures SkipSpace(text, i) == t
  {
    forall k | i <= k < t ensures IsSpace(text[k]) {
      assert IsSpace(text[i..t][k - i]);
    }
    if t < |text| {
      SkipsTo(text, i, t);
    }
  }

  lemma EpisodeTagAt(text: string, p: nat, t: nat)
    requires p < t && OccursAt(text, "Episode:", t) && TitleStarts(text, p) && AllSpace(text[p + 1..t])
    ensures TitleAt(text, p, Episode) == Capture(text, t + 8, t + 8)
  {
    assert text[t] == text[t..t + 8][0] == 'E';
    SpacesBefore(text, p + 1, t);
  }

  /** A file without such a line has no title of its own. */
  lemma NoTitle(text: string, kind: Kind)
    requires forall k :: 0 <= k < |text| ==> !TitleStarts(text, k)
    ensures ParseTitle(text, kind) == if kind == Podcast then "Unknown Podcast" else "Unknown Episode"
  {
    SearchFrom(text, 0, |text|, kind);
  }

  lemma {:induction false} LineEndAt(text: string, i: nat, e: nat)
    requires i <= e <= |text| && (e < |text| ==> text[e] == '\n') && forall k :: i <= k < e ==> text[k] != '\n'
    ensures LineEnd(text, i) == e
    decreases e - i
  {
    if i < e {
      LineEndAt(text, i + 1, e);
    }
  }

  function TitlePrefix(kind: Kind): string {
    if kind == Podcast then "# " else "# Episode: "
  }

  lemma {:induction false} LineEndIs(text: string, i: nat, e: nat)
    requires i <= e < |text| && text[e] == '\n' && forall k :: i <= k < e ==> text[k] != '\n'
    ensures LineEnd(text, i) == e
    decreases e - i
  {
    if i < e {
      LineEndIs(text, i + 1, e);
    }
  }

  lemma CapturePlain(text: string, i: nat, floor: nat, title: string)
    requires Plain(title) && i < |text| && text[i] == ' '
    requires i + 1 + |title| < |text| && text[i + 1..i + 1 + |title|] == title && text[i + 1 + |title|] == '\n'
    ensures Capture(text, i, floor) == Some(title)
  {
    var e := i + 1 + |title|;
    assert text[i + 1] == title[0];
    assert SkipSpace(text, i) == i + 1;
    forall k | i + 1 <= k < e ensures text[k] != '\n' {
      assert text[k] == title[k - i - 1];
    }
    LineEndIs(text, i + 1, e);
  }

  lemma CaptureNonBlank(text: string, i: nat, floor: nat)
    requires i <= |text| && SkipSpace(text, i) < |text|
    ensures Capture(text, i, floor).Some? && Capture(text, i, floor).value != ""
  {
    var q := SkipSpace(text, i);
    var e := LineEnd(text, q);
    assert text[q] != '\n';
    assert e > q;
    assert !IsSpace(text[q..e][0]);
  }

  /** Where the three parts of a concatenation lie. */
  lemma ThreeParts(text: string, a: string, b: string, c: string)
    requires text == a + b + c
    ensures |text| == |a| + |b| + |c|
    ensures text[..|a|] == a && text[|a|..|a| + |b|] == b
    ensures forall k :: 0 <= k < |a| ==> text[k] == a[k]
    ensures forall k :: 0 <= k < |c| ==> text[|a| + |b| + k] == c[k]
  {
  }

  /** The text begins with a title prefix: where the captured part starts its white space. */
  predicate HasTag(text: string, kind: Kind) {
    && |text| >= |TitlePrefix(kind)| && text[0] == '#' && text[1] == ' '
    && (kind == Episode ==> SkipSpace(text, 1) == 2 && OccursAt(text, "Episode:", 2))
  }

  lemma TagOccurs(text: string, kind: Kind, title: string, rest: string)
    requires text == TitlePrefix(kind) + title + ("\n" + rest)
    ensures HasTag(text, kind) && text[|TitlePrefix(kind)| - 1] == ' '
  {
    var tag := TitlePrefix(kind);
    ThreeParts(text, tag, title, "\n" + rest);
    if kind == Episode {
      assert tag[2..10] == "Episode:";
      assert text[2..10] == tag[2..10];
      assert text[2] == 'E' && SkipSpace(text, 2) == 2;
    }
  }

  /** Behind a title prefix, what is captured is the title. */
  lemma TaggedTitle(text: string, kind: Kind)
    requires HasTag(text, kind)
    ensures var n := |TitlePrefix(kind)|;
      && TitleAt(text, 0, kind) == Capture(text, n - 1, if kind == Podcast then n else n - 1)
      && (TitleAt(text, 0, kind).Some? ==> ParseTitle(text, kind) == TitleAt(text, 0, kind).value)
  {
  }

  /** A plain title is read back from the first line. */
  lemma PlainTitleIsRead(text: string, kind: Kind, title: string, rest: string)
    requires text == TitlePrefix(kind) + title + ("\n" + rest) && Plain(title)
    ensures ParseTitle(text, kind) == title
  {
    TagOccurs(text, kind, title, rest);
    var n := |TitlePrefix(kind)|;
    ThreeParts(text, TitlePrefix(kind), title, "\n" + rest);
    assert ("\n" + rest)[0] == '\n' && text[n + |title|] == '\n';
    CapturePlain(text, n - 1, if kind == Podcast then n else n - 1, title);
    TaggedTitle(text, kind);
  }

  /** When a tagged text is not blank behind the prefix, its title is not empty. */
  lemma TitleNonBlank(text: string, kind: Kind, k: nat)
    requires HasTag(text, kind) && |TitlePrefix(kind)| <= k < |text| && !IsSpace(text[k])
    ensures ParseTitle(text, kind) != ""
  {
    var n := |TitlePrefix(kind)|;
    assert SkipSpace(text, n - 1) <= k;
    CaptureNonBlank(text, n - 1, if kind == Podcast then n else n - 1);
    TaggedTitle(text, kind);
  }

  /** Where a text that is a prefix, a newline and more is not blank. */
  lemma NonBlankTail(text: string, tag: string, rest: string) returns (k: nat)
    requires text == tag + "" + ("\n" + rest) && !AllSpace(rest)
    ensures |tag| <= k < |text| && !IsSpace(text[k])
  {
    var j :| 0 <= j < |rest| && !IsSpace(rest[j]);
    k := |tag| + (1 + j);
    assert text[k] == rest[j];
  }

  /** With an empty title, the pattern runs on to the next line that is not blank. */
  lemma EmptyTitleReadsOn(text: string, kind: Kind, rest: string)
    requires text == TitlePrefix(kind) + "" + ("\n" + rest) && !AllSpace(rest)
    ensures ParseTitle(text, kind) != ""
  {
    TagOccurs(text, kind, "", rest);
    var k := NonBlankTail(text, TitlePrefix(kind), rest);
    TitleNonBlank(text, kind, k);
  }

  /** With nothing after an empty title, an episode reads it back and a podcast does not. */
  lemma EmptyTitleAlone(text: string, kind: Kind)
    requires text == TitlePrefix(kind) + "" + ("\n" + "")
    ensures (ParseTitle(text, kind) == "") == (kind == Episode)
  {
    TagOccurs(text, kind, "", "");
    var n := |TitlePrefix(kind)|;
    ThreeParts(text, TitlePrefix(kind), "", "\n" + "");
    assert |text| == n + 1 && text[n] == '\n';
    assert SkipSpace(text, n - 1) == n + 1;
    TaggedTitle(text, kind);
    if kind == Podcast {
      assert TitleAt(text, 0, kind).None? && TitleAt(text, 1, kind).None? && TitleAt(text, 2, kind).None?;
      assert SearchTitle(text, 3, kind) == None;
      assert SearchTitle(text, 2, kind) == None;
      assert SearchTitle(text, 1, kind) == None;
    }
  }

  // ---------- Listing a mapping in order ----------

  datatype Entry<K, V> = Entry(key: K, value: V)

  /** Every entry of the map, and nothing else. */
  ghost predicate Lists<K, V>(entries: seq<Entry<K, V>>, m: map<K, V>) {
    && (forall i :: 0 <= i < |entries| ==> entries[i].key in m && entries[i].value == m[entries[i].key])
    && (forall key :: key in m ==> exists i :: 0 <= i < |entries| && entries[i].key == key)
  }

  ghost predicate InOrder<K, V>(entries: seq<Entry<K, V>>, less: (K, K) -> bool) {
    forall i, j :: 0 <= i < j < |entries| ==> less(entries[i].key, entries[j].key)
  }

  /** The entries listed so far are the map without the rest, and come before the rest. */
  ghost predicate ListedSoFar<K(!new), V>(entries: seq<Entry<K, V>>, rest: map<K, V>, m: map<K, V>,
                                          less: (K, K) -> bool)
  {
    && rest.Keys <= m.Keys && (forall key :: key in rest ==> rest[key] == m[key])
    && Lists(entries, m - rest.Keys)
    && InOrder(entries, less)
    && (forall i, key :: 0 <= i < |entries| && key in rest ==> less(entries[i].key, key))
  }

  lemma ListLeast<K(!new), V>(entries: seq<Entry<K, V>>, rest: map<K, V>, m: map<K, V>, less: (K, K) -> bool, least: K)
    requires ListedSoFar(entries, rest, m, less) && least in rest
    requires forall key :: key in rest ==> key == least || less(least, key)
    ensures ListedSoFar(entries + [Entry(least, rest[least])], rest - {least}, m, less)
  {
    var after := entries + [Entry(least, rest[least])];
    forall key | key in m - (rest - {least}).Keys ensures exists i :: 0 <= i < |after| && after[i].key == key {
      if key == least {
        assert after[|entries|].key == key;
      } else {
        assert key in m - rest.Keys;
        var i :| 0 <= i < |entries| && entries[i].key == key;
        assert after[i].key == key;
      }
    }
  }

  /** Later entries win. */
  function MapOf<K, V>(entries: seq<Entry<K, V>>): map<K, V> {
    if entries == [] then map[] else MapOf(Front(entries))[Last(entries).key := Last(entries).value]
  }

  lemma {:induction false} MapOfHolds<K, V>(entries: seq<Entry<K, V>>)
    requires forall i, j :: 0 <= i < j < |entries| ==> entries[i].key != entries[j].key
    ensures Lists(entries, MapOf(entries))
  {
    if entries != [] {
      var front := Front(entries);
      MapOfHolds(front);
      forall key | key in MapOf(entries) ensures exists i :: 0 <= i < |entries| && entries[i].key == key {
        if key in MapOf(front) {
          var i :| 0 <= i < |front| && front[i].key == key;
          assert entries[i].key == key;
        } else {
          assert entries[|entries| - 1].key == key;
        }
      }
      forall i | 0 <= i < |entries|
        ensures entries[i].key in MapOf(entries) && entries[i].value == MapOf(entries)[entries[i].key]
      {
        if i < |entries| - 1 {
          assert front[i] == entries[i];
        }
      }
    }
  }

  lemma ListingDeterminesMap<K, V>(entries: seq<Entry<K, V>>, a: map<K, V>, b: map<K, V>)
    requires Lists(entries, a) && Lists(entries, b)
    ensures a == b
  {
    forall key ensures key in a <==> key in b {
      if key in a {
        var i :| 0 <= i < |entries| && entries[i].key == key;
      }
      if key in b {
        var i :| 0 <= i < |entries| && entries[i].key == key;
      }
    }
    forall key | key in a ensures a[key] == b[key] {
      var i :| 0 <= i < |entries| && entries[i].key == key;
    }
  }

  // ---------- Speaker mappings ----------

  /** One line of the speaker section: an id and a name. */
  type Speaker = Entry<string, string>

  predicate IsDigit(c: char) {
    '0' <= c <= '9'
  }

  /** The end of the digits from `i`. */
  function DigitsEnd(s: string, i: nat): (k: nat)
    requires i <= |s|
    ensures i <= k <= |s|
    ensures forall j :: i <= j < k ==> IsDigit(s[j])
    ensures k < |s| ==> !IsDigit(s[k])
    decreases |s| - i
  {
    if i < |s| && IsDigit(s[i]) then DigitsEnd(s, i + 1) else i
  }

  const SPEAKER := "SPEAKER_"

  /** `SPEAKER_` and at least one digit. */
  predicate IsSpeakerId(id: string) {
    |id| > 8 && id[..8] == SPEAKER && DigitsEnd(id, 8) == |id|
  }

  predicate SpeakerOk(speaker: Speaker) {
    IsSpeakerId(speaker.key) && Plain(speaker.value)
  }

  function SpeakerItem(speaker: Speaker): string {
    speaker.key + ": " + speaker.value
  }

  function ParseSpeaker(item: string): (speaker: Option<Speaker>)
    requires Plain(item)
    ensures speaker.Some? ==> SpeakerOk(speaker.value)
  {
    if |item| < 8 || item[..8] != SPEAKER then None
    else
      var d := DigitsEnd(item, 8);
      if d == 8 || d == |item| || item[d] != ':' then None
      else if Strip(item[d + 1..]) == "" then None
      else
        StripSingleLine(item[d + 1..]);
        DigitsOfPrefix(item, 8, d);
        Some(Entry(item[..d], Strip(item[d + 1..])))
  }

  lemma {:induction false} DigitsOfPrefix(s: string, i: nat, d: nat)
    requires i <= d <= |s| && forall j :: i <= j < d ==> IsDigit(s[j])
    ensures DigitsEnd(s[..d], i) == d
    decreases d - i
  {
    if i < d {
      DigitsOfPrefix(s, i + 1, d);
    }
  }

  lemma {:induction false} DigitsStop(s: string, i: nat, d: nat)
    requires i <= d < |s| && !IsDigit(s[d]) && forall j :: i <= j < d ==> IsDigit(s[j])
    ensures DigitsEnd(s, i) == d
    decreases d - i
  {
    if i < d {
      DigitsStop(s, i + 1, d);
    }
  }

  /** What an item says of a speaker: an id of `SPEAKER_` and digits, a colon, and a name. */
  predicate SaysSpeaker(item: string, id: string, name: string) {
    && |id| > 8 && id[..8] == "SPEAKER_" && (forall k :: 8 <= k < |id| ==> '0' <= id[k] <= '9')
    && |id| < |item| && item[..|id|] == id && item[|id|] == ':'
    && name == Strip(item[|id| + 1..]) && name != ""
  }

  lemma SaysPrefix(item: string, id: string, name: string)
    ensures SaysSpeaker(item, id, name) ==> |item| >= 8 && item[..8] == SPEAKER
  {
    if SaysSpeaker(item, id, name) {
      assert item[..8] == item[..|id|][..8];
    }
  }

  lemma WhatIsSaidIsRead(item: string, id: string, name: string)
    requires Plain(item) && SaysSpeaker(item, id, name)
    ensures ParseSpeaker(item) == Some(Entry(id, name))
  {
    SaysPrefix(item, id, name);
    forall k | 8 <= k < |id| ensures IsDigit(item[k]) {
      assert item[..|id|][k] == id[k];
    }
    DigitsStop(item, 8, |id|);
  }

  lemma IdAndColonSay(item: string, d: nat, name: string)
    requires 8 < d < |item| && item[..8] == SPEAKER && item[d] == ':' && forall k :: 8 <= k < d ==> IsDigit(item[k])
    requires name == Strip(item[d + 1..]) && name != ""
    ensures SaysSpeaker(item, item[..d], name)
  {
    assert item[..d][..8] == item[..8];
  }

  lemma ParsedParts(item: string) returns (d: nat)
    requires Plain(item) && ParseSpeaker(item).Some?
    ensures 8 < d < |item| && item[..8] == SPEAKER && item[d] == ':' && forall k :: 8 <= k < d ==> IsDigit(item[k])
    ensures ParseSpeaker(item).value.key == item[..d]
    ensures ParseSpeaker(item).value.value == Strip(item[d + 1..]) != ""
  {
    d := DigitsEnd(item, 8);
  }

  lemma WhatIsReadIsSaid(item: string, id: string, name: string)
    requires Plain(item) && ParseSpeaker(item) == Some(Entry(id, name))
    ensures SaysSpeaker(item, id, name)
  {
    var d := ParsedParts(item);
    IdAndColonSay(item, d, name);
  }

  /** Reading an item finds exactly what it says. */
  lemma ParseSpeakerIff(item: string, id: string, name: string)
    requires Plain(item)
    ensures ParseSpeaker(item) == Some(Entry(id, name)) <==> SaysSpeaker(item, id, name)
  {
    if SaysSpeaker(item, id, name) {
      WhatIsSaidIsRead(item, id, name);
    }
    if ParseSpeaker(item) == Some(Entry(id, name)) {
      WhatIsReadIsSaid(item, id, name);
    }
  }

  lemma SpeakerItemIsPlain(speaker: Speaker)
    requires SpeakerOk(speaker)
    ensures Plain(SpeakerItem(speaker))
  {
    var item := SpeakerItem(speaker);
    assert item[0] == speaker.key[0] && speaker.key[..8][0] == 'S';
    assert Last(item) == Last(speaker.value);
    forall k | 0 <= k < |speaker.key| ensures speaker.key[k] != '\n' {
      if k < 8 {
        assert speaker.key[..8][k] == SPEAKER[k];
      }
    }
  }

  lemma SpeakerIsRead(speaker: Speaker)
    requires SpeakerOk(speaker)
    ensures Plain(SpeakerItem(speaker)) && ParseSpeaker(SpeakerItem(speaker)) == Some(speaker)
  {
    SpeakerItemIsPlain(speaker);
    var item := SpeakerItem(speaker);
    var d := |speaker.key|;
    assert item[..8] == speaker.key[..8];
    assert item[..d] == speaker.key && item[d] == ':' && item[d + 1] == ' ' && item[d + 2] == speaker.value[0];
    DigitsStop(item, 8, d);
    assert item[d + 1..] == " " + speaker.value;
    StripAfterBlank(speaker.value);
  }

  /** Later lines win. */
  function SpeakerMap(items: seq<string>): map<string, string>
    requires AllPlain(items)
    decreases |items|
  {
    if items == [] then map[]
    else
      var speaker := ParseSpeaker(Last(items));
      if speaker.Some? then SpeakerMap(Front(items))[speaker.value.key := speaker.value.value]
      else SpeakerMap(Front(items))
  }

  ghost predicate MappingOk(mapping: map<string, string>) {
    forall id :: id in mapping ==> IsSpeakerId(id) && Plain(mapping[id])
  }

  lemma {:induction false} ParsedMappingIsOk(items: seq<string>)
    requires AllPlain(items)
    ensures MappingOk(SpeakerMap(items))
    decreases |items|
  {
    if items != [] {
      ParsedMappingIsOk(Front(items));
    }
  }

  method ParseSpeakerMapping(items: seq<string>) returns (mapping: map<string, string>)
    requires AllPlain(items)
    ensures mapping == SpeakerMap(items)
  {
    mapping := map[];
    for k := 0 to |items|
      invariant mapping == SpeakerMap(items[..k])
    {
      assert Front(items[..k + 1]) == items[..k];
      var speaker := ParseSpeaker(items[k]);
      if speaker.Some? {
        mapping := mapping[speaker.value.key := speaker.value.value];
      }
    }
    assert items[..|items|] == items;
  }

  /** `a` sorts before `b`. */
  predicate Before(a: string, b: string)
    decreases |a|
  {
    b != "" && (a == "" || a[0] < b[0] || (a[0] == b[0] && Before(a[1..], b[1..])))
  }

  lemma {:induction false} BeforeIsTotal(a: string, b: string)
    ensures a == b || Before(a, b) || Before(b, a)
    decreases |a|
  {
    if a != "" && b != "" && a[0] == b[0] {
      BeforeIsTotal(a[1..], b[1..]);
      assert a == [a[0]] + a[1..] && b == [b[0]] + b[1..];
    }
  }

  lemma {:induction false} BeforeIsTransitive(a: string, b: string, c: string)
    requires Before(a, b) && Before(b, c)
    ensures Before(a, c)
    decreases |a|
  {
    if a != "" && a[0] == b[0] && b[0] == c[0] {
      BeforeIsTransitive(a[1..], b[1..], c[1..]);
    }
  }

  /** The entries of the mapping, in the order of their ids. */
  ghost predicate IsSortedListing(speakers: seq<Speaker>, mapping: map<string, string>) {
    Lists(speakers, mapping) && InOrder(speakers, Before)
  }

  function SpeakerItems(speakers: seq<Speaker>): seq<string> {
    seq(|speakers|, i requires 0 <= i < |speakers| => SpeakerItem(speakers[i]))
  }

  ghost predicate SpeakersOk(speakers: seq<Speaker>) {
    forall i :: 0 <= i < |speakers| ==> SpeakerOk(speakers[i])
  }

  lemma SpeakerItemsPlain(speakers: seq<Speaker>)
    requires SpeakersOk(speakers)
    ensures AllPlain(SpeakerItems(speakers))
  {
    forall i | 0 <= i < |speakers| ensures Plain(SpeakerItems(speakers)[i]) {
      SpeakerItemIsPlain(speakers[i]);
    }
  }

  lemma SpeakerItemsEnd(speakers: seq<Speaker>)
    requires speakers != []
    ensures SpeakerItems(speakers) != []
    ensures Front(SpeakerItems(speakers)) == SpeakerItems(Front(speakers))
    ensures Last(SpeakerItems(speakers)) == SpeakerItem(Last(speakers))
  {
  }

  lemma {:induction false} SpeakersAreRead(speakers: seq<Speaker>)
    requires SpeakersOk(speakers)
    ensures AllPlain(SpeakerItems(speakers)) && SpeakerMap(SpeakerItems(speakers)) == MapOf(speakers)
    decreases |speakers|
  {
    SpeakerItemsPlain(speakers);
    if speakers != [] {
      SpeakersAreRead(Front(speakers));
      SpeakerItemsEnd(speakers);
      SpeakerIsRead(Last(speakers));
    }
  }

  lemma {:induction false} BeforeIsStrict(a: string)
    ensures !Before(a, a)
    decreases |a|
  {
    if a != "" {
      BeforeIsStrict(a[1..]);
    }
  }

  /** Printing a mapping line by line and reading it gives the mapping. */
  lemma MappingIsRead(speakers: seq<Speaker>, mapping: map<string, string>)
    requires MappingOk(mapping) && IsSortedListing(speakers, mapping)
    ensures AllPlain(SpeakerItems(speakers)) && SpeakerMap(SpeakerItems(speakers)) == mapping
  {
    forall i, j | 0 <= i < j < |speakers| ensures speakers[i].key != speakers[j].key {
      BeforeIsStrict(speakers[i].key);
    }
    SpeakersAreRead(speakers);
    MapOfHolds(speakers);
    ListingDeterminesMap(speakers, MapOf(speakers), mapping);
  }

  /** The least id of a non-empty mapping. */
  method LeastId(mapping: map<string, string>) returns (least: string)
    requires mapping != map[]
    ensures least in mapping && forall id :: id in mapping ==> id == least || Before(least, id)
  {
    var first :| first in mapping;
    least := first;
    var todo := mapping.Keys - {least};
    while todo != {}
      invariant least in mapping && todo <= mapping.Keys
      invariant forall id :: id in mapping && id !in todo ==> id == least || Before(least, id)
      decreases |todo|
    {
      var id :| id in todo;
      todo := todo - {id};
      if Before(id, least) {
        forall k | k in mapping && k !in todo && k != id && k != least ensures Before(id, k) {
          BeforeIsTransitive(id, least, k);
        }
        least := id;
      } else {
        BeforeIsTotal(id, least);
      }
    }
  }

  /** The entries sorted by id. */
  method SortedSpeakers(mapping: map<string, string>) returns (speakers: seq<Speaker>)
    ensures IsSortedListing(speakers, mapping)
  {
    speakers := [];
    var rest := mapping;
    assert mapping - mapping.Keys == map[];
    while rest != map[]
      invariant ListedSoFar(speakers, rest, mapping, Before)
      decreases |rest|
    {
      var least := LeastId(rest);
      ListLeast(speakers, rest, mapping, Before, least);
      speakers := speakers + [Entry(least, rest[least])];
      rest := rest - {least};
    }
    assert mapping - {} == mapping;
  }

  // ---------- Whole files ----------

  function FileLines(kind: Kind, title: string, blocks: seq<Block>): seq<string> {
    [TitlePrefix(kind) + title, ""] + BlocksLines(blocks)
  }

  function FileText(kind: Kind, title: string, blocks: seq<Block>): string {
    Join(FileLines(kind, title, blocks), "\n")
  }

  predicate NoItems(blocks: seq<Block>) {
    forall k :: 0 <= k < |blocks| ==> blocks[k].items == []
  }

  lemma BlockLinesAreSingle(block: Block)
    requires Plain(block.header) && AllPlain(block.items)
    ensures forall i :: 0 <= i < |BlockLines(block)| ==> SingleLine(BlockLines(block)[i])
  {
    forall i | 0 <= i < |block.items| ensures SingleLine(ItemLines(block.items)[i]) {
      assert Plain(block.items[i]);
    }
  }

  lemma {:induction false} BlocksLinesAreSingle(blocks: seq<Block>)
    requires BlocksOk(blocks)
    ensures forall i :: 0 <= i < |BlocksLines(blocks)| ==> SingleLine(BlocksLines(blocks)[i])
    decreases |blocks|
  {
    if blocks != [] {
      BlocksLinesAreSingle(Front(blocks));
      BlockLinesAreSingle(Last(blocks));
    }
  }

  predicate StartsWithHash(line: string) {
    line != "" && line[0] == '#'
  }

  lemma FirstBlockLine(block: Block)
    ensures block.items == [] <==> BlockLines(block) == []
    ensures BlockLines(block) != [] ==> StartsWithHash(BlockLines(block)[0])
  {
  }

  /** The first printed section begins with a `#`; with no items nothing is printed. */
  lemma {:induction false} FirstSectionLine(blocks: seq<Block>)
    ensures NoItems(blocks) <==> BlocksLines(blocks) == []
    ensures BlocksLines(blocks) != [] ==> StartsWithHash(BlocksLines(blocks)[0])
    decreases |blocks|
  {
    if blocks != [] {
      var front, last := Front(blocks), Last(blocks);
      FirstSectionLine(front);
      FirstBlockLine(last);
      NoItemsAtEnd(blocks);
      var a, b := BlocksLines(front), BlockLines(last);
      assert a == [] ==> a + b == b;
    }
  }

  lemma NoItemsAtEnd(blocks: seq<Block>)
    requires blocks != []
    ensures NoItems(blocks) <==> NoItems(Front(blocks)) && Last(blocks).items == []
  {
    assert blocks == Front(blocks) + [Last(blocks)];
    if NoItems(blocks) {
      forall k | 0 <= k < |Front(blocks)| ensures Front(blocks)[k].items == [] {
        assert Front(blocks)[k] == blocks[k];
      }
    }
  }

  lemma TitleLineScans(kind: Kind, title: string)
    ensures ScanLine(NOTHING, TitlePrefix(kind) + title) == NOTHING
  {
    var line := TitlePrefix(kind) + title;
    assert line[0] == '#' && line[1] == ' ';
    assert SkipSpace(line, 0) == 0;
    assert |Strip(line)| > 1 ==> Strip(line)[1] == ' ';
  }

  lemma TitleLineIsIgnored(kind: Kind, title: string)
    ensures ScanLines(NOTHING, [TitlePrefix(kind) + title, ""]) == NOTHING
  {
    var line := TitlePrefix(kind) + title;
    TitleLineScans(kind, title);
    ScanOne(NOTHING, line);
    ScanConcat(NOTHING, [line], [""]);
    ScanOne(NOTHING, "");
    assert [line] + [""] == [line, ""];
  }

  /** Every section of a printed file is read back. */
  lemma SectionsAreRead(kind: Kind, title: string, blocks: seq<Block>)
    requires SingleLine(title) && BlocksOk(blocks)
    ensures HasBlocks(ParseSections(FileText(kind, title, blocks)), blocks)
  {
    var lines := FileLines(kind, title, blocks);
    BlocksLinesAreSingle(blocks);
    SplitUndoesJoin(lines, '\n');
    ScanConcat(NOTHING, [TitlePrefix(kind) + title, ""], BlocksLines(blocks));
    TitleLineIsIgnored(kind, title);
    ScanBlocks(blocks);
  }

  lemma JoinStart(lines: seq<string>)
    requires lines != [] && StartsWithHash(lines[0])
    ensures StartsWithHash(Join(lines, "\n"))
  {
  }

  /** Joining a first line, a blank line and a body. */
  lemma JoinAfterTitle(first: string, body: seq<string>) returns (rest: string)
    ensures Join([first, ""] + body, "\n") == first + ("\n" + rest)
    ensures body == [] ==> rest == ""
    ensures body != [] ==> rest == "\n" + Join(body, "\n")
  {
    var lines, tail := [first, ""] + body, [""] + body;
    assert lines[1..] == tail && tail[1..] == body;
    rest := Join(tail, "\n");
    assert Join(lines, "\n") == first + "\n" + rest;
    assert first + "\n" + rest == first + ("\n" + rest);
  }

  lemma FileTextSplits(kind: Kind, title: string, blocks: seq<Block>) returns (rest: string)
    ensures FileText(kind, title, blocks) == TitlePrefix(kind) + title + ("\n" + rest)
    ensures if NoItems(blocks) then rest == "" else !AllSpace(rest)
  {
    var body := BlocksLines(blocks);
    FirstSectionLine(blocks);
    rest := JoinAfterTitle(TitlePrefix(kind) + title, body);
    if body != [] {
      JoinStart(body);
      assert rest[1] == '#';
    }
  }

  /** When a tidy title is read back. */
  lemma TitleIsReadIff(kind: Kind, title: string, blocks: seq<Block>)
    requires Trimmed(title) && SingleLine(title)
    ensures ParseTitle(FileText(kind, title, blocks), kind) == title <==>
      title != "" || (kind == Episode && NoItems(blocks))
  {
    var rest := FileTextSplits(kind, title, blocks);
    if title != "" {
      PlainTitleIsRead(FileText(kind, title, blocks), kind, title, rest);
    } else if NoItems(blocks) {
      EmptyTitleAlone(FileText(kind, title, blocks), kind);
    } else {
      EmptyTitleReadsOn(FileText(kind, title, blocks), kind, rest);
    }
  }

  method ItemLinesOf(items: seq<string>) returns (lines: seq<string>)
    ensures lines == ItemLines(items)
  {
    lines := [];
    for k := 0 to |items|
      invariant lines == ItemLines(items[..k])
    {
      ItemLinesEnd(items[..k + 1]);
      assert Front(items[..k + 1]) == items[..k] && Last(items[..k + 1]) == items[k];
      lines := lines + [ItemLine(items[k])];
    }
    assert items[..|items|] == items;
  }

  lemma BlocksLinesNext(blocks: seq<Block>, k: nat)
    requires k < |blocks|
    ensures BlocksLines(blocks[..k + 1]) == BlocksLines(blocks[..k]) + BlockLines(blocks[k])
  {
    assert Front(blocks[..k + 1]) == blocks[..k];
  }

  /** A file begins with its title line and a blank line; its sections follow. */
  lemma PrintedFile(kind: Kind, title: string, blocks: seq<Block>)
    ensures FileLines(kind, title, blocks)[..2] == [(if kind == Podcast then "# " else "# Episode: ") + title, ""]
    ensures FileLines(kind, title, blocks)[2..] == BlocksLines(blocks)
  {
  }

  /** A section is its heading, a line for each item and a blank line; one without items has no lines. */
  lemma PrintedSection(block: Block)
    ensures var lines := BlockLines(block);
      if block.items == [] then lines == []
      else
        && |lines| == |block.items| + 2 && lines[0] == "## " + block.header && lines[|lines| - 1] == ""
        && forall i :: 0 <= i < |block.items| ==> lines[i + 1] == "- " + block.items[i]
  {
    if block.items != [] {
      assert |ItemLines(block.items)| == |block.items|;
      forall i | 0 <= i < |block.items| ensures BlockLines(block)[i + 1] == ItemLines(block.items)[i] {
      }
    }
  }

  method AppendSection(lines: seq<string>, block: Block) returns (all: seq<string>)
    ensures all == lines + BlockLines(block)
  {
    all := lines;
    if block.items != [] {
      var added := ItemLinesOf(block.items);
      all := all + (["## " + block.header] + added + [""]);
    }
  }

  method RenderSections(blocks: seq<Block>) returns (lines: seq<string>)
    ensures lines == BlocksLines(blocks)
  {
    lines := [];
    for k := 0 to |blocks|
      invariant lines == BlocksLines(blocks[..k])
    {
      BlocksLinesNext(blocks, k);
      lines := AppendSection(lines, blocks[k]);
    }
    assert blocks[..|blocks|] == blocks;
  }

  /** The title, a blank line, and every section that is not empty. */
  method RenderFile(kind: Kind, title: string, blocks: seq<Block>) returns (text: string)
    ensures text == FileText(kind, title, blocks)
  {
    var sections := RenderSections(blocks);
    text := Join([TitlePrefix(kind) + title, ""] + sections, "\n");
  }

  // ---------- Podcast facts ----------

  datatype PodcastFacts = PodcastFacts(
    title: string,
    hosts: seq<string>,
    recurringRoles: seq<string>,
    productionTeam: seq<string>,
    knownGuests: seq<string>,
    sponsors: seq<string>,
    keywords: seq<string>,
    styleNotes: seq<string>)

  function PodcastBlocks(facts: PodcastFacts): seq<Block> {
    [Block("Hosts", facts.hosts),
     Block("Recurring Roles", facts.recurringRoles),
     Block("Production Team", facts.productionTeam),
     Block("Known Guests", facts.knownGuests),
     Block("Sponsors/Advertisers", facts.sponsors),
     Block("Keywords & Proper Nouns", facts.keywords),
     Block("Style Notes", facts.styleNotes)]
  }

  function PodcastText(facts: PodcastFacts): string {
    FileText(Podcast, facts.title, PodcastBlocks(facts))
  }

  method RenderPodcastFacts(facts: PodcastFacts) returns (text: string)
    ensures text == PodcastText(facts)
  {
    text := RenderFile(Podcast, facts.title, PodcastBlocks(facts));
  }

  function PodcastOf(content: string): PodcastFacts {
    var sections := ParseSections(content);
    PodcastFacts(ParseTitle(content, Podcast),
                 Get(sections, "hosts"),
                 Get(sections, "recurring roles"),
                 Get(sections, "production team"),
                 Get(sections, "known guests"),
                 Get(sections, "sponsors/advertisers"),
                 Get(sections, "keywords & proper nouns"),
                 Get(sections, "style notes"))
  }

  predicate PodcastItemsPlain(facts: PodcastFacts) {
    && AllPlain(facts.hosts) && AllPlain(facts.recurringRoles) && AllPlain(facts.productionTeam)
    && AllPlain(facts.knownGuests) && AllPlain(facts.sponsors) && AllPlain(facts.keywords) && AllPlain(facts.styleNotes)
  }

  lemma LowerIs(s: string, t: string)
    requires |s| == |t| && forall i :: 0 <= i < |s| ==> LowerChar(s[i]) == t[i]
    ensures Lower(s) == t
  {
  }

  lemma HostsKey()
    ensures Plain("Hosts") && Lower("Hosts") == "hosts"
  {
    LowerIs("Hosts", "hosts");
  }

  lemma RecurringRolesKey()
    ensures Plain("Recurring Roles") && Lower("Recurring Roles") == "recurring roles"
  {
    LowerIs("Recurring Roles", "recurring roles");
  }

  lemma ProductionTeamKey()
    ensures Plain("Production Team") && Lower("Production Team") == "production team"
  {
    LowerIs("Production Team", "production team");
  }

  lemma KnownGuestsKey()
    ensures Plain("Known Guests") && Lower("Known Guests") == "known guests"
  {
    LowerIs("Known Guests", "known guests");
  }

  lemma SponsorsKey()
    ensures Plain("Sponsors/Advertisers") && Lower("Sponsors/Advertisers") == "sponsors/advertisers"
  {
    LowerIs("Sponsors/Advertisers", "sponsors/advertisers");
  }

  lemma KeywordsKey()
    ensures Plain("Keywords & Proper Nouns") && Lower("Keywords & Proper Nouns") == "keywords & proper nouns"
  {
    LowerIs("Keywords & Proper Nouns", "keywords & proper nouns");
  }

  lemma StyleNotesKey()
    ensures Plain("Style Notes") && Lower("Style Notes") == "style notes"
  {
    LowerIs("Style Notes", "style notes");
  }

  /** What the reader finds for the podcast's sections. */
  ghost predicate PodcastSectionsAre(sections: Sections, facts: PodcastFacts) {
    && Get(sections, "hosts") == facts.hosts
    && Get(sections, "recurring roles") == facts.recurringRoles
    && Get(sections, "production team") == facts.productionTeam
    && Get(sections, "known guests") == facts.knownGuests
    && Get(sections, "sponsors/advertisers") == facts.sponsors
    && Get(sections, "keywords & proper nouns") == facts.keywords
    && Get(sections, "style notes") == facts.styleNotes
  }

  lemma BlockIs(sections: Sections, blocks: seq<Block>, k: nat, header: string, items: seq<string>)
    requires HasBlocks(sections, blocks) && k < |blocks| && blocks[k] == Block(header, items)
    ensures Get(sections, Lower(header)) == items
  {
  }

  lemma PodcastHeadersPlain(facts: PodcastFacts)
    ensures forall k :: 0 <= k < 7 ==> Plain(PodcastBlocks(facts)[k].header)
  {
    HostsKey();
    RecurringRolesKey();
    ProductionTeamKey();
    KnownGuestsKey();
    SponsorsKey();
    KeywordsKey();
    StyleNotesKey();
  }

  /** No two podcast headers have the same length, except two that begin differently. */
  lemma PodcastHeadersDiffer(facts: PodcastFacts, j: nat, k: nat)
    requires j < k < 7
    ensures Lower(PodcastBlocks(facts)[j].header) != Lower(PodcastBlocks(facts)[k].header)
  {
    var lengths := [5, 15, 15, 12, 20, 23, 11];
    assert |PodcastBlocks(facts)[j].header| == lengths[j];
    assert |PodcastBlocks(facts)[k].header| == lengths[k];
    if j == 1 && k == 2 {
      assert Lower("Recurring Roles")[0] == 'r';
      assert Lower("Production Team")[0] == 'p';
    }
  }

  lemma PodcastBlocksOk(facts: PodcastFacts)
    requires PodcastItemsPlain(facts)
    ensures BlocksOk(PodcastBlocks(facts))
  {
    PodcastHeadersPlain(facts);
    forall j, k | 0 <= j < k < |PodcastBlocks(facts)|
      ensures Lower(PodcastBlocks(facts)[j].header) != Lower(PodcastBlocks(facts)[k].header)
    {
      PodcastHeadersDiffer(facts, j, k);
    }
  }

  lemma PodcastBlocksAre(sections: Sections, facts: PodcastFacts)
    requires HasBlocks(sections, PodcastBlocks(facts))
    ensures PodcastSectionsAre(sections, facts)
  {
    var blocks := PodcastBlocks(facts);
    HostsKey();
    BlockIs(sections, blocks, 0, "Hosts", facts.hosts);
    RecurringRolesKey();
    BlockIs(sections, blocks, 1, "Recurring Roles", facts.recurringRoles);
    ProductionTeamKey();
    BlockIs(sections, blocks, 2, "Production Team", facts.productionTeam);
    KnownGuestsKey();
    BlockIs(sections, blocks, 3, "Known Guests", facts.knownGuests);
    SponsorsKey();
    BlockIs(sections, blocks, 4, "Sponsors/Advertisers", facts.sponsors);
    KeywordsKey();
    BlockIs(sections, blocks, 5, "Keywords & Proper Nouns", facts.keywords);
    StyleNotesKey();
    BlockIs(sections, blocks, 6, "Style Notes", facts.styleNotes);
  }

  method ParsePodcastFacts(content: string) returns (facts: PodcastFacts)
    ensures facts == PodcastOf(content)
  {
    var sections := ParseMarkdownSections(content);
    facts := PodcastFacts(ParseTitle(content, Podcast), Get(sections, "hosts"), Get(sections, "recurring roles"),
                          Get(sections, "production team"), Get(sections, "known guests"),
                          Get(sections, "sponsors/advertisers"), Get(sections, "keywords & proper nouns"),
                          Get(sections, "style notes"));
  }

  lemma ParsedPodcastIsTidy(content: string)
    ensures PodcastItemsPlain(PodcastOf(content))
    ensures Trimmed(PodcastOf(content).title) && SingleLine(PodcastOf(content).title)
  {
    forall key ensures AllPlain(Get(ParseSections(content), key)) {
      ParsedItemsArePlain(content, key);
    }
    ParsedTitleIsTidy(content, Podcast);
  }

  /** Reading undoes printing exactly for facts whose title and items are plain. */
  lemma PodcastRoundTripIff(facts: PodcastFacts)
    ensures PodcastOf(PodcastText(facts)) == facts <==> Plain(facts.title) && PodcastItemsPlain(facts)
  {
    var text := PodcastText(facts);
    if Plain(facts.title) && PodcastItemsPlain(facts) {
      PodcastBlocksOk(facts);
      SectionsAreRead(Podcast, facts.title, PodcastBlocks(facts));
      PodcastBlocksAre(ParseSections(text), facts);
      TitleIsReadIff(Podcast, facts.title, PodcastBlocks(facts));
    } else if PodcastOf(text) == facts {
      ParsedPodcastIsTidy(text);
      TitleIsReadIff(Podcast, facts.title, PodcastBlocks(facts));
    }
  }

  /** Printing and reading again changes nothing exactly when the title first read is not empty. */
  lemma PodcastReadIsStableIff(content: string)
    ensures PodcastOf(PodcastText(PodcastOf(content))) == PodcastOf(content) <==> PodcastOf(content).title != ""
  {
    ParsedPodcastIsTidy(content);
    PodcastRoundTripIff(PodcastOf(content));
  }

  /** A heading of blanks alone is read as an empty title, so not every file is stable. */
  lemma BlankPodcastTitle()
    ensures PodcastOf("#  ").title == ""
    ensures PodcastOf(PodcastText(PodcastOf("#  "))) != PodcastOf("#  ")
  {
    var text := "#  ";
    assert SkipSpace(text, 1) == 3;
    assert text[2] != '\n';
    assert TitleAt(text, 0, Podcast) == Some("");
    PodcastReadIsStableIff(text);
  }

  // ---------- Episode facts ----------

  datatype EpisodeFacts = EpisodeFacts(
    title: string,
    speakerMapping: map<string, string>,
    guests: seq<string>,
    topicsKeywords: seq<string>,
    adSponsors: seq<string>)

  /** `speakers` lists the mapping in the order it is printed. */
  function EpisodeBlocks(facts: EpisodeFacts, speakers: seq<Speaker>): seq<Block> {
    [Block("Speaker Mapping", SpeakerItems(speakers)),
     Block("Guest(s)", facts.guests),
     Block("Topics/Keywords", facts.topicsKeywords),
     Block("Ad Sponsors This Episode", facts.adSponsors)]
  }

  function EpisodeText(facts: EpisodeFacts, speakers: seq<Speaker>): string {
    FileText(Episode, facts.title, EpisodeBlocks(facts, speakers))
  }

  method RenderEpisodeFacts(facts: EpisodeFacts) returns (text: string, speakers: seq<Speaker>)
    ensures IsSortedListing(speakers, facts.speakerMapping) && text == EpisodeText(facts, speakers)
  {
    speakers := SortedSpeakers(facts.speakerMapping);
    text := RenderFile(Episode, facts.title, EpisodeBlocks(facts, speakers));
  }

  function EpisodeOf(content: string): EpisodeFacts {
    var sections := ParseSections(content);
    ParsedItemsArePlain(content, "speaker mapping");
    EpisodeFacts(ParseTitle(content, Episode),
                 SpeakerMap(Get(sections, "speaker mapping")),
                 Get(sections, "guest(s)"),
                 Get(sections, "topics/keywords"),
                 Get(sections, "ad sponsors this episode"))
  }

  method ParseEpisodeFacts(content: string) returns (facts: EpisodeFacts)
    ensures facts == EpisodeOf(content)
  {
    var sections := ParseMarkdownSections(content);
    ParsedItemsArePlain(content, "speaker mapping");
    var speakerMapping := ParseSpeakerMapping(Get(sections, "speaker mapping"));
    facts := EpisodeFacts(ParseTitle(content, Episode), speakerMapping, Get(sections, "guest(s)"),
                          Get(sections, "topics/keywords"), Get(sections, "ad sponsors this episode"));
  }

  /** Plain items, and speakers named `SPEAKER_` and digits. */
  ghost predicate EpisodeItemsPlain(facts: EpisodeFacts) {
    && MappingOk(facts.speakerMapping)
    && AllPlain(facts.guests) && AllPlain(facts.topicsKeywords) && AllPlain(facts.adSponsors)
  }

  predicate HasNoItems(facts: EpisodeFacts) {
    facts.speakerMapping == map[] && facts.guests == [] && facts.topicsKeywords == [] && facts.adSponsors == []
  }

  /** An empty title is read back only from a file with no sections. */
  ghost predicate EpisodeNormal(facts: EpisodeFacts) {
    && EpisodeItemsPlain(facts)
    && Trimmed(facts.title) && SingleLine(facts.title)
    && (facts.title != "" || HasNoItems(facts))
  }

  lemma SpeakerMappingKey()
    ensures Plain("Speaker Mapping") && Lower("Speaker Mapping") == "speaker mapping"
  {
    LowerIs("Speaker Mapping", "speaker mapping");
  }

  lemma GuestsKey()
    ensures Plain("Guest(s)") && Lower("Guest(s)") == "guest(s)"
  {
    LowerIs("Guest(s)", "guest(s)");
  }

  lemma TopicsKey()
    ensures Plain("Topics/Keywords") && Lower("Topics/Keywords") == "topics/keywords"
  {
    LowerIs("Topics/Keywords", "topics/keywords");
  }

  lemma AdSponsorsKey()
    ensures Plain("Ad Sponsors This Episode") && Lower("Ad Sponsors This Episode") == "ad sponsors this episode"
  {
    LowerIs("Ad Sponsors This Episode", "ad sponsors this episode");
  }

  lemma EpisodeHeadersPlain(facts: EpisodeFacts, speakers: seq<Speaker>)
    ensures forall k :: 0 <= k < 4 ==> Plain(EpisodeBlocks(facts, speakers)[k].header)
  {
    SpeakerMappingKey();
    GuestsKey();
    TopicsKey();
    AdSponsorsKey();
  }

  lemma EpisodeHeadersDiffer(facts: EpisodeFacts, speakers: seq<Speaker>, j: nat, k: nat)
    requires j < k < 4
    ensures Lower(EpisodeBlocks(facts, speakers)[j].header) != Lower(EpisodeBlocks(facts, speakers)[k].header)
  {
    var lengths := [15, 8, 15, 24];
    assert |EpisodeBlocks(facts, speakers)[j].header| == lengths[j];
    assert |EpisodeBlocks(facts, speakers)[k].header| == lengths[k];
    if j == 0 && k == 2 {
      assert Lower("Speaker Mapping")[0] == 's';
      assert Lower("Topics/Keywords")[0] == 't';
    }
  }

  lemma EpisodeBlocksOk(facts: EpisodeFacts, speakers: seq<Speaker>)
    requires EpisodeItemsPlain(facts) && IsSortedListing(speakers, facts.speakerMapping)
    ensures BlocksOk(EpisodeBlocks(facts, speakers))
  {
    MappingIsRead(speakers, facts.speakerMapping);
    EpisodeHeadersPlain(facts, speakers);
    forall j, k | 0 <= j < k < |EpisodeBlocks(facts, speakers)|
      ensures Lower(EpisodeBlocks(facts, speakers)[j].header) != Lower(EpisodeBlocks(facts, speakers)[k].header)
    {
      EpisodeHeadersDiffer(facts, speakers, j, k);
    }
  }

  lemma EpisodeBlocksAre(sections: Sections, facts: EpisodeFacts, speakers: seq<Speaker>)
    requires HasBlocks(sections, EpisodeBlocks(facts, speakers))
    ensures Get(sections, "speaker mapping") == SpeakerItems(speakers)
    ensures Get(sections, "guest(s)") == facts.guests
    ensures Get(sections, "topics/keywords") == facts.topicsKeywords
    ensures Get(sections, "ad sponsors this episode") == facts.adSponsors
  {
    var blocks := EpisodeBlocks(facts, speakers);
    SpeakerMappingKey();
    BlockIs(sections, blocks, 0, "Speaker Mapping", SpeakerItems(speakers));
    GuestsKey();
    BlockIs(sections, blocks, 1, "Guest(s)", facts.guests);
    TopicsKey();
    BlockIs(sections, blocks, 2, "Topics/Keywords", facts.topicsKeywords);
    AdSponsorsKey();
    BlockIs(sections, blocks, 3, "Ad Sponsors This Episode", facts.adSponsors);
  }

  lemma NoItemsMeansNoBlocks(facts: EpisodeFacts, speakers: seq<Speaker>)
    requires IsSortedListing(speakers, facts.speakerMapping)
    ensures NoItems(EpisodeBlocks(facts, speakers)) <==> HasNoItems(facts)
  {
    var blocks := EpisodeBlocks(facts, speakers);
    assert speakers == [] <==> facts.speakerMapping == map[] by {
      if speakers != [] {
        assert speakers[0].key in facts.speakerMapping;
      }
    }
    if NoItems(blocks) {
      assert blocks[0].items == [] && blocks[1].items == [] && blocks[2].items == [] && blocks[3].items == [];
      assert |SpeakerItems(speakers)| == |speakers|;
    }
  }

  lemma ParsedEpisodeIsTidy(content: string)
    ensures EpisodeItemsPlain(EpisodeOf(content))
    ensures Trimmed(EpisodeOf(content).title) && SingleLine(EpisodeOf(content).title)
  {
    forall key ensures AllPlain(Get(ParseSections(content), key)) {
      ParsedItemsArePlain(content, key);
    }
    ParsedMappingIsOk(Get(ParseSections(content), "speaker mapping"));
    ParsedTitleIsTidy(content, Episode);
  }

  /** Reading undoes printing exactly for normal facts. */
  lemma EpisodeRoundTripIff(facts: EpisodeFacts, speakers: seq<Speaker>)
    requires IsSortedListing(speakers, facts.speakerMapping)
    ensures EpisodeOf(EpisodeText(facts, speakers)) == facts <==> EpisodeNormal(facts)
  {
    var text := EpisodeText(facts, speakers);
    NoItemsMeansNoBlocks(facts, speakers);
    if EpisodeNormal(facts) {
      EpisodeBlocksOk(facts, speakers);
      SectionsAreRead(Episode, facts.title, EpisodeBlocks(facts, speakers));
      EpisodeBlocksAre(ParseSections(text), facts, speakers);
      MappingIsRead(speakers, facts.speakerMapping);
      TitleIsReadIff(Episode, facts.title, EpisodeBlocks(facts, speakers));
    } else if EpisodeOf(text) == facts {
      ParsedEpisodeIsTidy(text);
      TitleIsReadIff(Episode, facts.title, EpisodeBlocks(facts, speakers));
    }
  }

  /** Printing and reading again changes nothing exactly when the title first read is not empty, or
      nothing else was read. */
  lemma EpisodeReadIsStableIff(content: string, speakers: seq<Speaker>)
    requires IsSortedListing(speakers, EpisodeOf(content).speakerMapping)
    ensures EpisodeOf(EpisodeText(EpisodeOf(content), speakers)) == EpisodeOf(content) <==>
      EpisodeOf(content).title != "" || HasNoItems(EpisodeOf(content))
  {
    ParsedEpisodeIsTidy(content);
    EpisodeRoundTripIff(EpisodeOf(content), speakers);
  }
}
