// Merging podcast charts: the overall chart first, then one entry per category and pass, each
// podcast once, until enough are collected or every chart is used up.
module ChartMerge {
  import opened Common

  datatype TrackId = TrackId(id: string)

  datatype Genre = Genre(name: string)

  datatype Entry = Entry(id: TrackId, name: string, artist: string)

  /** A category chart; an entry that cannot be parsed is `None`. */
  datatype Chart = Chart(genre: Genre, entries: seq<Option<Entry>>)

  datatype Row = Row(entry: Entry, genre: Option<Genre>, rank: nat)

  function Ids(rows: seq<Row>): set<TrackId> {
    set i | 0 <= i < |rows| :: rows[i].entry.id
  }

  predicate UniqueIds(rows: seq<Row>) {
    forall i, j :: 0 <= i < j < |rows| ==> rows[i].entry.id != rows[j].entry.id
  }

  /** The overall chart without unparseable entries and repeats, each with its rank. */
  function Overall(entries: seq<Option<Entry>>): seq<Row> {
    if entries == [] then []
    else
      var before, e := Overall(Front(entries)), Last(entries);
      if e.Some? && e.value.id !in Ids(before) then before + [Row(e.value, None, |entries|)] else before
  }

  predicate Unseen(entries: seq<Option<Entry>>, j: nat, ids: set<TrackId>)
    requires j < |entries|
  {
    entries[j].Some? && entries[j].value.id !in ids
  }

  /** Every parseable entry before position `n` is among the ids. */
  predicate SeenUpTo(entries: seq<Option<Entry>>, n: nat, ids: set<TrackId>) {
    forall j :: 0 <= j < n && j < |entries| ==> !Unseen(entries, j, ids)
  }

  /** The chart still has an entry that was not collected. */
  predicate HasUnseen(chart: Chart, rows: seq<Row>) {
    exists j :: 0 <= j < |chart.entries| && Unseen(chart.entries, j, Ids(rows))
  }

  /** How many rows a category contributed. */
  function Contributed(rows: seq<Row>, genre: Genre): nat {
    if rows == [] then 0
    else Contributed(Front(rows), genre) + if Last(rows).genre == Some(genre) then 1 else 0
  }

  predicate DistinctGenres(charts: seq<Chart>) {
    forall c, d :: 0 <= c < d < |charts| ==> charts[c].genre != charts[d].genre
  }

  /** A row comes from the place in a chart of its category that its rank names. */
  predicate FromChart(row: Row, charts: seq<Chart>) {
    exists c :: 0 <= c < |charts| && row.genre == Some(charts[c].genre)
      && 1 <= row.rank <= |charts[c].entries| && charts[c].entries[row.rank - 1] == Some(row.entry)
  }

  /** The first unseen entry at or after `idx`, or the end of the chart. */
  method SkipSeen(entries: seq<Option<Entry>>, ids: set<TrackId>, idx: nat) returns (j: nat)
    ensures idx <= j && (j < |entries| ==> Unseen(entries, j, ids))
    ensures j >= |entries| ==> j == Max(idx, |entries|)
    ensures forall k :: idx <= k < j && k < |entries| ==> !Unseen(entries, k, ids)
  {
    j := idx;
    while j < |entries| && !(entries[j].Some? && entries[j].value.id !in ids)
      invariant idx <= j && j <= Max(idx, |entries|)
      invariant forall k :: idx <= k < j && k < |entries| ==> !Unseen(entries, k, ids)
    {
      j := j + 1;
    }
  }

  method CollectOverall(overall: seq<Option<Entry>>) returns (rows: seq<Row>)
    ensures rows == Overall(overall)
  {
    rows := [];
    for i := 0 to |overall|
      invariant rows == Overall(overall[..i])
    {
      assert Front(overall[..i + 1]) == overall[..i];
      if overall[i].Some? && overall[i].value.id !in Ids(rows) {
        rows := rows + [Row(overall[i].value, None, i + 1)];
      }
    }
    assert overall[..|overall|] == overall;
  }

  /** The overall chart is kept in order, without repeats, and completely. */
  lemma {:induction false} OverallIsDeduplicated(entries: seq<Option<Entry>>)
    ensures UniqueIds(Overall(entries))
    ensures SeenUpTo(entries, |entries|, Ids(Overall(entries)))
    ensures forall i, j :: 0 <= i < j < |Overall(entries)| ==> Overall(entries)[i].rank < Overall(entries)[j].rank
    ensures forall i :: 0 <= i < |Overall(entries)| ==>
      var row := Overall(entries)[i];
      row.genre == None && 1 <= row.rank <= |entries| && entries[row.rank - 1] == Some(row.entry)
    decreases |entries|
  {
    if entries != [] {
      var before, e := Overall(Front(entries)), Last(entries);
      OverallIsDeduplicated(Front(entries));
      if e.Some? && e.value.id !in Ids(before) {
        OneMoreRow(before, Row(e.value, None, |entries|));
      }
      forall j | 0 <= j < |entries| ensures !Unseen(entries, j, Ids(Overall(entries))) {
        if j < |entries| - 1 {
          assert !Unseen(Front(entries), j, Ids(before));
        }
      }
    }
  }

  /** And each podcast has the rank of its first place. */
  lemma {:induction false} OverallKeepsFirst(entries: seq<Option<Entry>>, i: nat, k: nat)
    requires i < |Overall(entries)| && k + 1 < Overall(entries)[i].rank
    ensures k < |entries| && (entries[k].Some? ==> entries[k].value.id != Overall(entries)[i].entry.id)
    decreases |entries|
  {
    var before := Overall(Front(entries));
    if i < |before| {
      OverallKeepsFirst(Front(entries), i, k);
    } else {
      OverallIsDeduplicated(Front(entries));
      assert !Unseen(Front(entries), k, Ids(before));
    }
  }

  lemma OneMoreRow(rows: seq<Row>, row: Row)
    ensures Ids(rows + [row]) == Ids(rows) + {row.entry.id}
    ensures UniqueIds(rows) && row.entry.id !in Ids(rows) ==> UniqueIds(rows + [row])
  {
    var all := rows + [row];
    assert forall i :: 0 <= i < |rows| ==> all[i] == rows[i];
    assert all[|rows|] == row;
    forall i | 0 <= i < |rows| ensures rows[i].entry.id in Ids(rows) {}
    forall id | id in Ids(rows) ensures id in Ids(all) {
      var i :| 0 <= i < |rows| && rows[i].entry.id == id;
      assert all[i].entry.id == id;
    }
  }

  // ---------- Whose turn it was ----------

  /** How many rows its category had when row `i` was taken. */
  function TurnOf(rows: seq<Row>, i: nat): nat
    requires i < |rows|
  {
    if rows[i].genre.Some? then Contributed(rows[..i], rows[i].genre.value) else 0
  }

  /** Row `i` was taken from chart `c`: the first entry of the chart not collected before. */
  predicate TakenFrom(rows: seq<Row>, i: nat, chart: Chart)
    requires i < |rows|
  {
    && 1 <= rows[i].rank <= |chart.entries| && chart.entries[rows[i].rank - 1] == Some(rows[i].entry)
    && forall k :: 0 <= k < rows[i].rank - 1 ==> !Unseen(chart.entries, k, Ids(rows[..i]))
  }

  /** Row `i`, taken by chart `c`, comes before row `j`, taken by chart `d`. */
  predicate TurnsBefore(rows: seq<Row>, i: nat, c: nat, j: nat, d: nat)
    requires i < |rows| && j < |rows|
  {
    TurnOf(rows, i) < TurnOf(rows, j) || (TurnOf(rows, i) == TurnOf(rows, j) && c < d)
  }

  /** The rows from `base` on were taken in turns: all first turns in the order of the charts, then all
      second turns, and so on, each taking the first entry of its chart not collected before. */
  ghost predicate TakenInTurns(rows: seq<Row>, base: nat, charts: seq<Chart>) {
    && (forall i, c :: base <= i < |rows| && 0 <= c < |charts| && rows[i].genre == Some(charts[c].genre) ==>
          TakenFrom(rows, i, charts[c]))
    && forall i, j, c, d ::
      base <= i < j < |rows| && 0 <= c < |charts| && 0 <= d < |charts|
      && rows[i].genre == Some(charts[c].genre) && rows[j].genre == Some(charts[d].genre) ==>
        TurnsBefore(rows, i, c, j, d)
  }

  /** No turn so far is past turn `p` of the charts before `c`. */
  ghost predicate TurnsUpTo(rows: seq<Row>, base: nat, charts: seq<Chart>, p: nat, c: nat) {
    forall i, d :: base <= i < |rows| && 0 <= d < |charts| && rows[i].genre == Some(charts[d].genre) ==>
      TurnOf(rows, i) < p || (TurnOf(rows, i) == p && d < c)
  }

  lemma PrefixKeepsTurns(rows: seq<Row>, row: Row, i: nat)
    requires i < |rows|
    ensures (rows + [row])[i] == rows[i] && (rows + [row])[..i] == rows[..i]
    ensures TurnOf(rows + [row], i) == TurnOf(rows, i)
  {
  }

  lemma LastTurn(rows: seq<Row>, row: Row)
    requires row.genre.Some?
    ensures (rows + [row])[..|rows|] == rows
    ensures TurnOf(rows + [row], |rows|) == Contributed(rows, row.genre.value)
  {
  }

  /** What a row of chart `c` in its turn `p` must be, to come after `rows`. */
  predicate IsNext(rows: seq<Row>, charts: seq<Chart>, p: nat, c: nat, row: Row)
    requires c < |charts|
  {
    && row.genre == Some(charts[c].genre) && Contributed(rows, charts[c].genre) == p
    && 1 <= row.rank <= |charts[c].entries| && charts[c].entries[row.rank - 1] == Some(row.entry)
    && forall k :: 0 <= k < row.rank - 1 ==> !Unseen(charts[c].entries, k, Ids(rows))
  }

  lemma NextIsTaken(rows: seq<Row>, base: nat, charts: seq<Chart>, p: nat, c: nat, row: Row, i: nat, d: nat)
    requires DistinctGenres(charts) && c < |charts| && TakenInTurns(rows, base, charts)
    requires IsNext(rows, charts, p, c, row)
    requires base <= i <= |rows| && d < |charts| && (rows + [row])[i].genre == Some(charts[d].genre)
    ensures TakenFrom(rows + [row], i, charts[d])
  {
    if i < |rows| {
      PrefixKeepsTurns(rows, row, i);
      assert TakenFrom(rows, i, charts[d]);
    } else {
      LastTurn(rows, row);
    }
  }

  lemma NextIsUpTo(rows: seq<Row>, base: nat, charts: seq<Chart>, p: nat, c: nat, row: Row, i: nat, d: nat)
    requires DistinctGenres(charts) && c < |charts| && TurnsUpTo(rows, base, charts, p, c)
    requires IsNext(rows, charts, p, c, row)
    requires base <= i <= |rows| && d < |charts| && (rows + [row])[i].genre == Some(charts[d].genre)
    ensures TurnOf(rows + [row], i) < p || (TurnOf(rows + [row], i) == p && d <= c)
    ensures i < |rows| ==> TurnOf(rows + [row], i) < p || (TurnOf(rows + [row], i) == p && d < c)
    ensures i == |rows| ==> TurnOf(rows + [row], i) == p && d == c
  {
    if i < |rows| {
      PrefixKeepsTurns(rows, row, i);
    } else {
      LastTurn(rows, row);
    }
  }

  lemma NextIsLast(rows: seq<Row>, base: nat, charts: seq<Chart>, p: nat, c: nat, row: Row, i: nat, j: nat, a: nat,
                   b: nat)
    requires DistinctGenres(charts) && c < |charts| && TakenInTurns(rows, base, charts)
    requires TurnsUpTo(rows, base, charts, p, c) && IsNext(rows, charts, p, c, row)
    requires base <= i < j <= |rows| && a < |charts| && b < |charts|
    requires (rows + [row])[i].genre == Some(charts[a].genre) && (rows + [row])[j].genre == Some(charts[b].genre)
    ensures TurnsBefore(rows + [row], i, a, j, b)
  {
    if j < |rows| {
      PrefixKeepsTurns(rows, row, i);
      PrefixKeepsTurns(rows, row, j);
      assert TurnsBefore(rows, i, a, j, b);
    } else {
      NextIsUpTo(rows, base, charts, p, c, row, i, a);
      NextIsUpTo(rows, base, charts, p, c, row, j, b);
    }
  }

  lemma OneMoreTaken(rows: seq<Row>, base: nat, charts: seq<Chart>, p: nat, c: nat, row: Row)
    requires DistinctGenres(charts) && c < |charts| && base <= |rows|
    requires TakenInTurns(rows, base, charts) && TurnsUpTo(rows, base, charts, p, c)
    requires IsNext(rows, charts, p, c, row)
    ensures TakenInTurns(rows + [row], base, charts)
  {
    var next := rows + [row];
    forall i, d | base <= i < |next| && 0 <= d < |charts| && next[i].genre == Some(charts[d].genre)
      ensures TakenFrom(next, i, charts[d])
    {
      NextIsTaken(rows, base, charts, p, c, row, i, d);
    }
    forall i, j, a, b |
      base <= i < j < |next| && 0 <= a < |charts| && 0 <= b < |charts|
      && next[i].genre == Some(charts[a].genre) && next[j].genre == Some(charts[b].genre)
      ensures TurnsBefore(next, i, a, j, b)
    {
      NextIsLast(rows, base, charts, p, c, row, i, j, a, b);
    }
  }

  lemma OneMoreUpTo(rows: seq<Row>, base: nat, charts: seq<Chart>, p: nat, c: nat, row: Row)
    requires DistinctGenres(charts) && c < |charts| && base <= |rows|
    requires TurnsUpTo(rows, base, charts, p, c) && IsNext(rows, charts, p, c, row)
    ensures TurnsUpTo(rows + [row], base, charts, p, c + 1)
  {
    var next := rows + [row];
    forall i, d | base <= i < |next| && 0 <= d < |charts| && next[i].genre == Some(charts[d].genre)
      ensures TurnOf(next, i) < p || (TurnOf(next, i) == p && d < c + 1)
    {
      NextIsUpTo(rows, base, charts, p, c, row, i, d);
    }
  }

  lemma LaterTurns(rows: seq<Row>, base: nat, charts: seq<Chart>, p: nat, c: nat)
    requires TurnsUpTo(rows, base, charts, p, c)
    ensures TurnsUpTo(rows, base, charts, p, c + 1) && TurnsUpTo(rows, base, charts, p + 1, 0)
  {
  }

  // ---------- The round robin ----------

  /** What holds of the rows whatever the categories are called. */
  ghost predicate RowsOk(rows: seq<Row>, overall: seq<Option<Entry>>, charts: seq<Chart>, limit: nat) {
    && UniqueIds(rows)
    && Overall(overall) <= rows
    && |rows| <= Max(limit, |Overall(overall)|)
    && (forall i :: |Overall(overall)| <= i < |rows| ==> FromChart(rows[i], charts))
  }

  /** The cursors, when every category has its own: in pass `p`, after the turns of the first `c`
      charts, a chart that is not used up contributed one entry per turn it had. */
  ghost predicate CursorsOk(rows: seq<Row>, charts: seq<Chart>, cursors: map<Genre, nat>, p: nat, c: nat) {
    forall d :: 0 <= d < |charts| ==> CursorOk(rows, charts[d], cursors, if d < c then p + 1 else p)
  }

  ghost predicate CursorOk(rows: seq<Row>, chart: Chart, cursors: map<Genre, nat>, turns: nat) {
    && chart.genre in cursors
    && cursors[chart.genre] <= |chart.entries|
    && SeenUpTo(chart.entries, cursors[chart.genre], Ids(rows))
    && Contributed(rows, chart.genre) <= turns
    && (cursors[chart.genre] < |chart.entries| ==> Contributed(rows, chart.genre) == turns)
  }

  /** What holds in pass `p` after the turns of the first `c` charts, when no two share a name. */
  ghost predicate Merged(rows: seq<Row>, overall: seq<Option<Entry>>, charts: seq<Chart>, cursors: map<Genre, nat>,
                         p: nat, c: nat)
  {
    DistinctGenres(charts) ==>
      && CursorsOk(rows, charts, cursors, p, c)
      && TakenInTurns(rows, |Overall(overall)|, charts) && TurnsUpTo(rows, |Overall(overall)|, charts, p, c)
  }

  lemma TurnKeepsMerged(rows: seq<Row>, next: seq<Row>, overall: seq<Option<Entry>>, charts: seq<Chart>,
                        cursors: map<Genre, nat>, p: nat, c: nat, j: nat)
    requires Merged(rows, overall, charts, cursors, p, c) && c < |charts| && |Overall(overall)| <= |rows|
    requires var chart := charts[c];
      && chart.genre in cursors && cursors[chart.genre] <= j
      && (j >= |chart.entries| ==> j == Max(cursors[chart.genre], |chart.entries|) && next == rows)
      && (forall k :: cursors[chart.genre] <= k < j && k < |chart.entries| ==> !Unseen(chart.entries, k, Ids(rows)))
      && (j < |chart.entries| ==>
            && Unseen(chart.entries, j, Ids(rows))
            && next == rows + [Row(chart.entries[j].value, Some(chart.genre), j + 1)])
    ensures Merged(next, overall, charts,
                   cursors[charts[c].genre := if j < |charts[c].entries| then j + 1 else j], p, c + 1)
    ensures DistinctGenres(charts) && next == rows ==> j == |charts[c].entries|
  {
    if DistinctGenres(charts) {
      assert CursorOk(rows, charts[c], cursors, p);
      TurnKeepsCursors(rows, next, charts, cursors, p, c, j);
      if j < |charts[c].entries| {
        var row := Row(charts[c].entries[j].value, Some(charts[c].genre), j + 1);
        OneMoreTaken(rows, |Overall(overall)|, charts, p, c, row);
        OneMoreUpTo(rows, |Overall(overall)|, charts, p, c, row);
      } else {
        LaterTurns(rows, |Overall(overall)|, charts, p, c);
      }
    }
  }

  /** One category's turn. */
  lemma TurnKeepsCursors(rows: seq<Row>, next: seq<Row>, charts: seq<Chart>, cursors: map<Genre, nat>,
                         p: nat, c: nat, j: nat)
    requires DistinctGenres(charts) && c < |charts| && CursorsOk(rows, charts, cursors, p, c)
    requires var chart := charts[c];
      && cursors[chart.genre] <= j <= |chart.entries|
      && (forall k :: cursors[chart.genre] <= k < j ==> !Unseen(chart.entries, k, Ids(rows)))
      && (j < |chart.entries| ==>
            && Unseen(chart.entries, j, Ids(rows))
            && next == rows + [Row(chart.entries[j].value, Some(chart.genre), j + 1)])
      && (j == |chart.entries| ==> next == rows)
    ensures CursorsOk(next, charts, cursors[charts[c].genre := if j < |charts[c].entries| then j + 1 else j], p, c + 1)
  {
    var chart := charts[c];
    var cursors' := cursors[chart.genre := if j < |chart.entries| then j + 1 else j];
    if j < |chart.entries| {
      OneMoreRow(rows, Row(chart.entries[j].value, Some(chart.genre), j + 1));
      assert Front(next) == rows;
    }
    forall d | 0 <= d < |charts| ensures CursorOk(next, charts[d], cursors', if d < c + 1 then p + 1 else p) {
      assert CursorOk(rows, charts[d], cursors, if d < c then p + 1 else p);
      if d != c {
        assert charts[d].genre != chart.genre;
        MoreRowsSeen(charts[d], cursors[charts[d].genre], rows, next);
      } else {
        MoreRowsSeen(chart, cursors[chart.genre], rows, next);
        forall k | 0 <= k < cursors'[chart.genre] && k < |chart.entries|
          ensures !Unseen(chart.entries, k, Ids(next))
        {
          assert cursors[chart.genre] <= k < j ==> !Unseen(chart.entries, k, Ids(rows));
        }
      }
    }
  }

  lemma MoreRowsSeen(chart: Chart, n: nat, rows: seq<Row>, next: seq<Row>)
    requires SeenUpTo(chart.entries, n, Ids(rows)) && Ids(rows) <= Ids(next)
    ensures SeenUpTo(chart.entries, n, Ids(next))
  {
    forall j | 0 <= j < n && j < |chart.entries| ensures !Unseen(chart.entries, j, Ids(next)) {
      assert !Unseen(chart.entries, j, Ids(rows));
    }
  }

  lemma {:induction false} NoContribution(rows: seq<Row>, genre: Genre)
    requires forall i :: 0 <= i < |rows| ==> rows[i].genre == None
    ensures Contributed(rows, genre) == 0
    decreases |rows|
  {
    if rows != [] {
      NoContribution(Front(rows), genre);
    }
  }

  lemma StartCursors(overall: seq<Option<Entry>>, charts: seq<Chart>, cursors: map<Genre, nat>)
    requires forall c :: 0 <= c < |charts| ==> charts[c].genre in cursors && cursors[charts[c].genre] == 0
    ensures CursorsOk(Overall(overall), charts, cursors, 0, 0)
  {
    OverallIsDeduplicated(overall);
    forall d | 0 <= d < |charts| ensures CursorOk(Overall(overall), charts[d], cursors, 0) {
      NoContribution(Overall(overall), charts[d].genre);
    }
  }

  /** Categories that still have unseen entries differ by at most one, and nobody is more than one
      ahead of them. */
  ghost predicate Fair(rows: seq<Row>, charts: seq<Chart>) {
    forall c, d :: 0 <= c < |charts| && 0 <= d < |charts| && HasUnseen(charts[c], rows) ==>
      Contributed(rows, charts[d].genre) <= Contributed(rows, charts[c].genre) + 1
  }

  predicate AllCollected(rows: seq<Row>, charts: seq<Chart>) {
    forall c :: 0 <= c < |charts| ==> !HasUnseen(charts[c], rows)
  }

  lemma CursorsAreFair(rows: seq<Row>, charts: seq<Chart>, cursors: map<Genre, nat>, p: nat, c: nat)
    requires CursorsOk(rows, charts, cursors, p, c)
    ensures Fair(rows, charts)
  {
    forall a, b | 0 <= a < |charts| && 0 <= b < |charts| && HasUnseen(charts[a], rows)
      ensures Contributed(rows, charts[b].genre) <= Contributed(rows, charts[a].genre) + 1
    {
      assert CursorOk(rows, charts[a], cursors, if a < c then p + 1 else p);
      assert CursorOk(rows, charts[b], cursors, if b < c then p + 1 else p);
    }
  }

  lemma CursorsAtEnd(rows: seq<Row>, charts: seq<Chart>, cursors: map<Genre, nat>, p: nat, c: nat)
    requires CursorsOk(rows, charts, cursors, p, c)
    requires forall d :: 0 <= d < |charts| ==> cursors[charts[d].genre] == |charts[d].entries|
    ensures AllCollected(rows, charts)
  {
    forall d | 0 <= d < |charts| ensures !HasUnseen(charts[d], rows) {
      assert CursorOk(rows, charts[d], cursors, if d < c then p + 1 else p);
    }
  }

  /** Ids are unique; the deduplicated overall chart comes first; every other row is in a chart of
      its category at its rank; the limit is never overrun. With distinct category names the merge
      ends at the limit or with every parseable entry collected, shares are fair, and the charts took
      their turns in order. */
  method CollectChartEntries(overall: seq<Option<Entry>>, charts: seq<Chart>, limit: nat) returns (rows: seq<Row>)
    ensures RowsOk(rows, overall, charts, limit)
    ensures DistinctGenres(charts) ==> |rows| >= limit || AllCollected(rows, charts)
    ensures DistinctGenres(charts) ==> Fair(rows, charts) && TakenInTurns(rows, |Overall(overall)|, charts)
  {
    rows := CollectOverall(overall);
    OverallIsDeduplicated(overall);
    var cursors: map<Genre, nat> := map[];
    for c := 0 to |charts|
      invariant forall d :: 0 <= d < c ==> charts[d].genre in cursors
      invariant forall g :: g in cursors ==> cursors[g] == 0
    {
      cursors := cursors[charts[c].genre := 0];
    }
    StartCursors(overall, charts, cursors);
    ghost var p := 0;
    while |rows| < limit
      invariant RowsOk(rows, overall, charts, limit)
      invariant forall d :: 0 <= d < |charts| ==> charts[d].genre in cursors
      invariant Merged(rows, overall, charts, cursors, p, 0)
      decreases limit - |rows|
    {
      var progressed;
      ghost var c;
      rows, cursors, progressed, c := RunPass(overall, charts, limit, rows, cursors, p);
      if DistinctGenres(charts) {
        LaterTurns(rows, |Overall(overall)|, charts, p, c);
        CursorsAreFair(rows, charts, cursors, p, c);
        if !progressed {
          CursorsAtEnd(rows, charts, cursors, p, c);
        }
      }
      if !progressed {
        break;
      }
      if |rows| >= limit {
        break;
      }
      p := p + 1;
    }
    if DistinctGenres(charts) && |rows| >= limit && CursorsOk(rows, charts, cursors, p, 0) {
      CursorsAreFair(rows, charts, cursors, p, 0);
    }
  }

  /** One category's turn: the first entry of its chart not yet collected, if there is one. */
  method TakeTurn(overall: seq<Option<Entry>>, charts: seq<Chart>, limit: nat, rows0: seq<Row>,
                  cursors0: map<Genre, nat>, ghost p: nat, c: nat)
    returns (rows: seq<Row>, cursors: map<Genre, nat>, added: bool)
    requires RowsOk(rows0, overall, charts, limit) && |rows0| < limit && c < |charts|
    requires charts[c].genre in cursors0 && Merged(rows0, overall, charts, cursors0, p, c)
    ensures RowsOk(rows, overall, charts, limit) && Merged(rows, overall, charts, cursors, p, c + 1)
    ensures cursors.Keys == cursors0.Keys && cursors - {charts[c].genre} == cursors0 - {charts[c].genre}
    ensures if added then |rows| == |rows0| + 1 else rows == rows0
    ensures DistinctGenres(charts) && !added ==> cursors[charts[c].genre] == |charts[c].entries|
  {
    rows, added := rows0, false;
    var chart := charts[c];
    var idx := cursors0[chart.genre];
    var j := SkipSeen(chart.entries, Ids(rows), idx);
    if j < |chart.entries| {
      var row := Row(chart.entries[j].value, Some(chart.genre), j + 1);
      OneMoreRow(rows, row);
      assert FromChart(row, charts);
      rows := rows + [row];
      added := true;
    }
    TurnKeepsMerged(rows0, rows, overall, charts, cursors0, p, c, j);
    cursors := cursors0[chart.genre := if j < |chart.entries| then j + 1 else j];
    UpdateElsewhere(cursors0, chart.genre, if j < |chart.entries| then j + 1 else j);
  }

  /** One pass over the categories, cut short at the limit. */
  method RunPass(overall: seq<Option<Entry>>, charts: seq<Chart>, limit: nat, rows0: seq<Row>,
                 cursors0: map<Genre, nat>, ghost p: nat)
    returns (rows: seq<Row>, cursors: map<Genre, nat>, progressed: bool, ghost turns: nat)
    requires RowsOk(rows0, overall, charts, limit) && |rows0| < limit
    requires forall d :: 0 <= d < |charts| ==> charts[d].genre in cursors0
    requires Merged(rows0, overall, charts, cursors0, p, 0)
    ensures RowsOk(rows, overall, charts, limit)
    ensures cursors.Keys == cursors0.Keys
    ensures if progressed then |rows| > |rows0| else rows == rows0
    ensures turns <= |charts| && (turns == |charts| || |rows| >= limit)
    ensures Merged(rows, overall, charts, cursors, p, turns)
    ensures DistinctGenres(charts) && !progressed ==>
      forall d :: 0 <= d < |charts| ==> charts[d].genre in cursors && cursors[charts[d].genre] == |charts[d].entries|
  {
    rows, cursors, progressed := rows0, cursors0, false;
    turns := 0;
    for c := 0 to |charts|
      invariant RowsOk(rows, overall, charts, limit)
      invariant cursors.Keys == cursors0.Keys && turns == c
      invariant if progressed then |rows| > |rows0| else rows == rows0
      invariant Merged(rows, overall, charts, cursors, p, c)
      invariant DistinctGenres(charts) && !progressed ==>
        forall d :: 0 <= d < c ==> charts[d].genre in cursors && cursors[charts[d].genre] == |charts[d].entries|
    {
      if |rows| >= limit {
        return;
      }
      var added;
      rows, cursors, added := TakeTurn(overall, charts, limit, rows, cursors, p, c);
      progressed := progressed || added;
      turns := turns + 1;
    }
  }
}
