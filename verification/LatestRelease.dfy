/**
 The denormalised latest release of a series: two selection queries write it, one ranked audit
 query checks it.
 */
module LatestRelease {

  import opened Options

  /** One row of chapters joined with releases. Times are instants. */
  datatype Row = Row(series: int, display: string, sortNumber: Option<real>,
                     release: int, source: string, publishedAt: Option<int>, firstSeenAt: int)

  datatype Series = Series(latestNumber: string, latestSource: string, latestAt: Option<int>, integrity: string)

  ghost predicate DistinctReleases(rows: seq<Row>) {
    forall i, j :: 0 <= i < j < |rows| ==> rows[i].release != rows[j].release
  }

  function ReleaseAt(row: Row): int { if row.publishedAt.Some? then row.publishedAt.value else row.firstSeenAt }

  /** Descending, nulls last. */
  predicate Newer(a: Option<int>, b: Option<int>) { a.Some? && (b.None? || a.value > b.value) }

  // ---------------------------------------------------------------- the two selection queries

  predicate NumericBefore(a: Row, b: Row)
    requires a.sortNumber.Some? && b.sortNumber.Some?
  {
    a.sortNumber.value > b.sortNumber.value || (a.sortNumber == b.sortNumber && a.release > b.release)
  }

  predicate FallbackBefore(a: Row, b: Row) {
    Newer(a.publishedAt, b.publishedAt) || (a.publishedAt == b.publishedAt && a.release > b.release)
  }

  ghost predicate FirstNumeric(rows: seq<Row>, series: int, row: Row) {
    && row in rows && row.series == series && row.sortNumber.Some?
    && forall other :: other in rows && other.series == series && other.sortNumber.Some? && other != row ==>
      NumericBefore(row, other)
  }

  ghost predicate FirstFallback(rows: seq<Row>, series: int, row: Row) {
    && row in rows && row.series == series
    && forall other :: other in rows && other.series == series && other != row ==> FallbackBefore(row, other)
  }

  /** What the two queries select. */
  ghost predicate Selected(rows: seq<Row>, series: int, row: Row) {
    if exists r :: r in rows && r.series == series && r.sortNumber.Some?
    then FirstNumeric(rows, series, row)
    else FirstFallback(rows, series, row)
  }

  method SelectNumeric(rows: seq<Row>, series: int) returns (selected: Option<Row>)
    requires DistinctReleases(rows)
    ensures selected.None? <==> !exists r :: r in rows && r.series == series && r.sortNumber.Some?
    ensures selected.Some? ==> FirstNumeric(rows, series, selected.value)
  {
    selected := None;
    for n := 0 to |rows|
      invariant selected.None? <==> !exists r :: r in rows[..n] && r.series == series && r.sortNumber.Some?
      invariant selected.Some? ==> FirstNumeric(rows[..n], series, selected.value)
    {
      var row := rows[n];
      assert rows[..n + 1] == rows[..n] + [row];
      assert forall r :: r in rows[..n] ==> r.release != row.release;
      if row.series == series && row.sortNumber.Some? && (selected.None? || NumericBefore(row, selected.value)) {
        selected := Some(row);
      }
    }
    assert rows[..|rows|] == rows;
  }

  method SelectFallback(rows: seq<Row>, series: int) returns (selected: Option<Row>)
    requires DistinctReleases(rows)
    ensures selected.None? <==> !exists r :: r in rows && r.series == series
    ensures selected.Some? ==> FirstFallback(rows, series, selected.value)
  {
    selected := None;
    for n := 0 to |rows|
      invariant selected.None? <==> !exists r :: r in rows[..n] && r.series == series
      invariant selected.Some? ==> FirstFallback(rows[..n], series, selected.value)
    {
      var row := rows[n];
      assert rows[..n + 1] == rows[..n] + [row];
      assert forall r :: r in rows[..n] ==> r.release != row.release;
      if row.series == series && (selected.None? || FallbackBefore(row, selected.value)) {
        selected := Some(row);
      }
    }
    assert rows[..|rows|] == rows;
  }

  // ---------------------------------------------------------------- the audit

  /** Published time counts only for unnumbered chapters. */
  function UnnumberedDate(row: Row): Option<int> { if row.sortNumber.None? then row.publishedAt else None }

  /** Unnumbered last, number descending, date descending with nulls last, release id descending. */
  predicate AuditBefore(a: Row, b: Row) {
    if a.sortNumber.None? != b.sortNumber.None? then a.sortNumber.Some?
    else if a.sortNumber != b.sortNumber then a.sortNumber.value > b.sortNumber.value
    else if UnnumberedDate(a) != UnnumberedDate(b) then Newer(UnnumberedDate(a), UnnumberedDate(b))
    else a.release > b.release
  }

  /** Position 1 of the ranking: no row of the series comes before it. */
  ghost predicate RankedFirst(rows: seq<Row>, series: int, row: Row) {
    && row in rows && row.series == series
    && forall other :: other in rows && other.series == series ==> !AuditBefore(other, row)
  }

  ghost predicate HasReleases(rows: seq<Row>, series: int) { exists r :: r in rows && r.series == series }

  ghost predicate Agrees(s: Series, row: Row) {
    s.latestNumber == row.display && s.latestSource == row.source && s.latestAt == Some(ReleaseAt(row))
  }

  ghost predicate Blank(s: Series) { s.latestNumber == "" && s.latestSource == "" && s.latestAt == None }

  /** The audit's left join: compare with the top row, or expect blank fields when there is none. */
  ghost predicate Mismatch(s: Series, rows: seq<Row>, series: int) {
    if HasReleases(rows, series) then exists row :: RankedFirst(rows, series, row) && !Agrees(s, row)
    else !Blank(s)
  }

  lemma {:induction false} AuditIsTotal(a: Row, b: Row)
    ensures AuditBefore(a, b) || AuditBefore(b, a) || a.release == b.release
    ensures !(AuditBefore(a, b) && AuditBefore(b, a))
  {
  }

  /** The row the two queries write is the row the audit ranks first, and no other row is. */
  lemma {:induction false} SelectionIsRankedFirst(rows: seq<Row>, series: int, row: Row)
    requires DistinctReleases(rows)
    ensures Selected(rows, series, row) <==> RankedFirst(rows, series, row)
  {
    if Selected(rows, series, row) {
      forall other | other in rows && other.series == series ensures !AuditBefore(other, row) {
        AuditIsTotal(other, row);
      }
    }
    if RankedFirst(rows, series, row) {
      forall other | other in rows && other.series == series && other != row
        ensures other.sortNumber.Some? ==> row.sortNumber.Some? && NumericBefore(row, other)
        ensures row.sortNumber.None? ==> FallbackBefore(row, other)
      {
        SameReleaseSameRow(rows, row, other);
        AuditIsTotal(other, row);
      }
    }
  }

  lemma {:induction false} SameReleaseSameRow(rows: seq<Row>, a: Row, b: Row)
    requires DistinctReleases(rows) && a in rows && b in rows && a != b
    ensures a.release != b.release
  {
    var i :| 0 <= i < |rows| && rows[i] == a;
    var j :| 0 <= j < |rows| && rows[j] == b;
  }

  /** There is at most one top row, so the audit's verdict is unambiguous. */
  lemma {:induction false} RankedFirstIsUnique(rows: seq<Row>, series: int, a: Row, b: Row)
    requires DistinctReleases(rows) && RankedFirst(rows, series, a) && RankedFirst(rows, series, b)
    ensures a == b
  {
    if a != b {
      SameReleaseSameRow(rows, a, b);
      AuditIsTotal(a, b);
    }
  }

  // ---------------------------------------------------------------- recomputing

  function Recomputed(s: Series, row: Row): Series {
    Series(row.display, row.source, Some(ReleaseAt(row)), "healthy")
  }

  /** `after` is what recomputing makes of the series: the audit's top row, or nothing new. */
  ghost predicate Recomputes(s: Series, after: Series, rows: seq<Row>, id: int) {
    if HasReleases(rows, id) then exists row :: RankedFirst(rows, id, row) && after == Recomputed(s, row)
    else after == s
  }

  ghost function Mismatches(series: map<int, Series>, rows: seq<Row>): set<int> {
    set id | id in series && Mismatch(series[id], rows, id)
  }

  class CatalogRepository {
    var series: map<int, Series>
    var rows: seq<Row>

    constructor (series: map<int, Series>, rows: seq<Row>)
      ensures this.series == series && this.rows == rows
    {
      this.series, this.rows := series, rows;
    }

    /**
     Leaves exactly the other series' mismatches, plus this one's if it has no release but stale
     fields: those are not cleared.
     */
    method RecomputeLatest(id: int)
      requires DistinctReleases(rows)
      modifies this`series
      ensures series.Keys == old(series).Keys
      ensures forall other :: other in series && other != id ==> series[other] == old(series)[other]
      ensures id in series ==> Recomputes(old(series)[id], series[id], rows, id)
      ensures Mismatches(series, rows) == Mismatches(old(series), rows) - if HasReleases(rows, id) then {id} else {}
    {
      if id !in series {
        return;
      }
      var selected := SelectNumeric(rows, id);
      if selected.None? {
        selected := SelectFallback(rows, id);
      }
      if selected.None? {
        return;
      }
      var row := selected.value;
      assert Selected(rows, id, row);
      SelectionIsRankedFirst(rows, id, row);
      RecomputedMatches(series[id], rows, id, row);
      series := series[id := Recomputed(series[id], row)];
    }
  }

  lemma {:induction false} RecomputedMatches(s: Series, rows: seq<Row>, id: int, row: Row)
    requires DistinctReleases(rows) && RankedFirst(rows, id, row)
    ensures !Mismatch(Recomputed(s, row), rows, id)
  {
    forall other | RankedFirst(rows, id, other) ensures Agrees(Recomputed(s, row), other) {
      RankedFirstIsUnique(rows, id, row, other);
    }
  }

  /** A recomputed series is counted as a mismatch exactly when it has no release and stale fields. */
  lemma {:induction false} RecomputedMismatchExactlyWhen(s: Series, after: Series, rows: seq<Row>, id: int)
    requires DistinctReleases(rows) && Recomputes(s, after, rows, id)
    ensures Mismatch(after, rows, id) <==> !HasReleases(rows, id) && !Blank(s)
  {
    if HasReleases(rows, id) {
      var row :| RankedFirst(rows, id, row) && after == Recomputed(s, row);
      RecomputedMatches(s, rows, id, row);
    }
  }

  /** A series that lost its last release keeps its old fields when recomputed, and the audit reports it. */
  lemma {:induction false} StaleLatestSurvives(after: Series)
    requires Recomputes(Series("12", "asura", Some(0), "healthy"), after, [], 1)
    ensures after.latestNumber == "12" && Mismatch(after, [], 1)
  {
  }

  // ---------------------------------------------------------------- what the latest release is

  ghost predicate NotAfter(a: Option<int>, b: Option<int>) { a.None? || (b.Some? && a.value <= b.value) }

  /**
   The selected row has the highest number and among those the highest release id; without numbers the
   newest publication date, undated last, and then the highest release id.
   */
  lemma {:induction false} SelectedIsNewest(rows: seq<Row>, series: int, row: Row, other: Row)
    requires Selected(rows, series, row) && other in rows && other.series == series
    ensures other.sortNumber.Some? ==>
      && row.sortNumber.Some? && other.sortNumber.value <= row.sortNumber.value
      && (other.sortNumber == row.sortNumber ==> other.release <= row.release)
    ensures row.sortNumber.None? ==>
      && NotAfter(other.publishedAt, row.publishedAt)
      && (other.publishedAt == row.publishedAt ==> other.release <= row.release)
  {
  }

  /** The date of a release is its publication, or when it was first seen if that is unknown. */
  lemma {:induction false} ReleaseDate(row: Row, at: int)
    ensures ReleaseAt(row) == at <==> row.publishedAt == Some(at) || (row.publishedAt == None && row.firstSeenAt == at)
  {
  }
}
