// The string built-ins the modelled code calls: `strip`, `lower`, `split` and `join`,
// over ASCII characters.
module Text {
  import opened Common

  predicate IsSpace(c: char) {
    9 <= c as int <= 13 || 28 <= c as int <= 32
  }

  predicate AllSpace(s: string) {
    forall i :: 0 <= i < |s| ==> IsSpace(s[i])
  }

  /** Neither end of the string is white space. */
  predicate Trimmed(s: string) {
    s == "" || (!IsSpace(s[0]) && !IsSpace(Last(s)))
  }

  /** The first position at or after `i` that is not white space. */
  function SkipSpace(s: string, i: nat): (k: nat)
    requires i <= |s|
    ensures i <= k <= |s|
    ensures forall j :: i <= j < k ==> IsSpace(s[j])
    ensures k < |s| ==> !IsSpace(s[k])
    decreases |s| - i
  {
    if i < |s| && IsSpace(s[i]) then SkipSpace(s, i + 1) else i
  }

  /** The end of the string cut at `i`, not below `lo`, without trailing white space. */
  function TrimEnd(s: string, lo: nat, i: nat): (k: nat)
    requires lo <= i <= |s|
    ensures lo <= k <= i
    ensures forall j :: k <= j < i ==> IsSpace(s[j])
    ensures k > lo ==> !IsSpace(s[k - 1])
    decreases i
  {
    if i > lo && IsSpace(s[i - 1]) then TrimEnd(s, lo, i - 1) else i
  }

  /** `str.strip()`. */
  function Strip(s: string): (r: string)
    ensures |r| <= |s| && Trimmed(r)
    ensures Trimmed(s) ==> r == s
    ensures r == "" <==> AllSpace(s)
  {
    var b := SkipSpace(s, 0);
    s[b..TrimEnd(s, b, |s|)]
  }

  /** Stripping removes a blank prefix and a blank suffix and nothing else. */
  lemma StripKeepsTheMiddle(s: string) returns (lead: string, trail: string)
    ensures s == lead + Strip(s) + trail && AllSpace(lead) && AllSpace(trail)
  {
    var b := SkipSpace(s, 0);
    var e := TrimEnd(s, b, |s|);
    lead, trail := s[..b], s[e..];
  }

  lemma {:induction false} SkipsTo(s: string, i: nat, b: nat)
    requires i <= b < |s| && !IsSpace(s[b]) && forall k :: i <= k < b ==> IsSpace(s[k])
    ensures SkipSpace(s, i) == b
    decreases b - i
  {
    if i < b {
      SkipsTo(s, i + 1, b);
    }
  }

  lemma StripAfterBlank(s: string)
    requires s != "" && Trimmed(s)
    ensures Strip(" " + s) == s
  {
    var t := " " + s;
    assert t[1] == s[0] && Last(t) == Last(s);
    assert SkipSpace(t, 0) == 1;
  }

  function LowerChar(c: char): char {
    if 'A' <= c <= 'Z' then (c as int + 32) as char else c
  }

  /** `str.lower()`. */
  function Lower(s: string): (r: string)
    ensures |r| == |s|
  {
    seq(|s|, i requires 0 <= i < |s| => LowerChar(s[i]))
  }

  predicate OccursAt(text: string, sep: string, j: nat) {
    j + |sep| <= |text| && text[j..j + |sep|] == sep
  }

  /** The least position at or after `i` where `sep` occurs, or `|text|` when it does not occur. */
  function Find(text: string, sep: string, i: nat): (k: nat)
    requires sep != "" && i <= |text|
    ensures i <= k <= |text|
    ensures k < |text| ==> OccursAt(text, sep, k)
    ensures forall j :: i <= j < k ==> !OccursAt(text, sep, j)
    decreases |text| - i
  {
    if i + |sep| > |text| then |text|
    else if OccursAt(text, sep, i) then i
    else Find(text, sep, i + 1)
  }

  /** `text.split(sep)`: cut at the leftmost, non-overlapping occurrences. */
  function Split(text: string, sep: string): (parts: seq<string>)
    requires sep != ""
    ensures parts != []
    decreases |text|
  {
    var k := Find(text, sep, 0);
    if k == |text| then [text] else [text[..k]] + Split(text[k + |sep|..], sep)
  }

  /** `sep.join(parts)`. */
  function Join(parts: seq<string>, sep: string): string {
    if parts == [] then ""
    else if |parts| == 1 then parts[0]
    else parts[0] + sep + Join(parts[1..], sep)
  }

  lemma {:induction false} JoinAppend(parts: seq<string>, part: string, sep: string)
    requires parts != []
    ensures Join(parts + [part], sep) == Join(parts, sep) + sep + part
    decreases |parts|
  {
    if |parts| > 1 {
      JoinAppend(parts[1..], part, sep);
      assert (parts + [part])[1..] == parts[1..] + [part];
    }
  }

  lemma {:induction false} JoinUndoesSplit(text: string, sep: string)
    requires sep != ""
    ensures Join(Split(text, sep), sep) == text
    decreases |text|
  {
    var k := Find(text, sep, 0);
    if k < |text| {
      JoinUndoesSplit(text[k + |sep|..], sep);
      assert Split(text, sep)[1..] == Split(text[k + |sep|..], sep);
      assert text == text[..k] + text[k..k + |sep|] + text[k + |sep|..];
    }
  }

  /** The separator does not begin inside a part: not inside the last one, nor, with the separator that
      follows, inside any other. */
  predicate CutsEverywhere(parts: seq<string>, sep: string)
    requires parts != []
  {
    && (forall i, j: nat :: 0 <= i < |parts| - 1 && j < |parts[i]| ==> !OccursAt(parts[i] + sep, sep, j))
    && forall j: nat :: j < |Last(parts)| ==> !OccursAt(Last(parts), sep, j)
  }

  /** Splitting is the one way to write the text as parts joined by the separator that cuts at every
      leftmost occurrence. */
  lemma SplitIff(text: string, sep: string, parts: seq<string>)
    requires sep != ""
    ensures parts == Split(text, sep) <==> parts != [] && Join(parts, sep) == text && CutsEverywhere(parts, sep)
  {
    JoinUndoesSplit(text, sep);
    SplitCuts(text, sep);
    if parts != [] && Join(parts, sep) == text && CutsEverywhere(parts, sep) {
      CutsAreSplit(parts, sep);
    }
  }

  lemma {:induction false} SplitCuts(text: string, sep: string)
    requires sep != ""
    ensures CutsEverywhere(Split(text, sep), sep)
    decreases |text|
  {
    var k := Find(text, sep, 0);
    if k < |text| {
      var rest := Split(text[k + |sep|..], sep);
      SplitCuts(text[k + |sep|..], sep);
      var parts := Split(text, sep);
      assert parts[0] + sep == text[..k + |sep|];
      forall j: nat | j < k ensures !OccursAt(parts[0] + sep, sep, j) {
        OccursInPrefix(text, k + |sep|, sep, j);
      }
      assert forall i :: 0 < i < |parts| ==> parts[i] == rest[i - 1];
      assert Last(parts) == Last(rest);
    }
  }

  lemma OccursInPrefix(text: string, n: nat, sep: string, j: nat)
    requires n <= |text|
    ensures OccursAt(text[..n], sep, j) <==> OccursAt(text, sep, j) && j + |sep| <= n
  {
    if j + |sep| <= n {
      assert text[..n][j..j + |sep|] == text[j..j + |sep|];
    }
  }

  lemma {:induction false} CutsAreSplit(parts: seq<string>, sep: string)
    requires sep != "" && parts != [] && CutsEverywhere(parts, sep)
    ensures Split(Join(parts, sep), sep) == parts
    decreases |parts|
  {
    var text := Join(parts, sep);
    var n := |parts[0]|;
    if |parts| == 1 {
      assert text == Last(parts);
    } else {
      var rest := Join(parts[1..], sep);
      assert text == parts[0] + sep + rest;
      assert text[..n + |sep|] == parts[0] + sep && text[n..n + |sep|] == sep && text[n + |sep|..] == rest;
      forall j: nat | j < n ensures !OccursAt(text, sep, j) {
        OccursInPrefix(text, n + |sep|, sep, j);
      }
      assert OccursAt(text, sep, n);
      assert text[..n] == parts[0];
      assert Last(parts[1..]) == Last(parts);
      CutsAreSplit(parts[1..], sep);
    }
  }

  lemma CharOccurs(text: string, c: char)
    ensures forall k: nat :: OccursAt(text, [c], k) <==> k < |text| && text[k] == c
  {
    forall k: nat | k < |text| ensures text[k..k + 1] == [text[k]] {}
  }

  lemma JoinStarts(parts: seq<string>, c: char)
    requires |parts| > 1
    ensures var text, n := Join(parts, [c]), |parts[0]|;
      n < |text| && text[..n] == parts[0] && text[n] == c && text[n + 1..] == Join(parts[1..], [c])
  {
  }

  lemma FindFirst(text: string, c: char, n: nat)
    requires n <= |text| && c !in text[..n] && (n < |text| ==> text[n] == c)
    ensures Find(text, [c], 0) == n
  {
    CharOccurs(text, c);
    forall j | 0 <= j < n ensures text[j] != c {
      assert text[..n][j] == text[j];
    }
  }

  /** Splitting on a single character undoes joining when no part contains that character. */
  lemma {:induction false} SplitUndoesJoin(parts: seq<string>, c: char)
    requires parts != []
    requires forall i :: 0 <= i < |parts| ==> c !in parts[i]
    ensures Split(Join(parts, [c]), [c]) == parts
    decreases |parts|
  {
    var text := Join(parts, [c]);
    if |parts| == 1 {
      assert text[..|text|] == parts[0];
      FindFirst(text, c, |text|);
    } else {
      JoinStarts(parts, c);
      FindFirst(text, c, |parts[0]|);
      SplitUndoesJoin(parts[1..], c);
    }
  }

  lemma {:induction false} SplitPartsLackSeparator(text: string, c: char)
    ensures forall i :: 0 <= i < |Split(text, [c])| ==> c !in Split(text, [c])[i]
    decreases |text|
  {
    var k := Find(text, [c], 0);
    CharOccurs(text, c);
    if k < |text| {
      SplitPartsLackSeparator(text[k + 1..], c);
    }
  }
}
