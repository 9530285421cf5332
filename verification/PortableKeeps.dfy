/** What importing into a catalogue in use keeps: table constraints, other rows, and progress made. */
module PortableKeeps {

  import opened Options
  import opened Tables
  import opened PortableState
  import opened PortableExport

  /** The unique constraint on the aliases of a series. */
  ghost predicate UniqueNames(rows: seq<AliasRow>) {
    forall i, j :: 0 <= i < j < |rows| && rows[i].series == rows[j].series ==> rows[i].normalized != rows[j].normalized
  }

  ghost predicate Named(rows: seq<AliasRow>, series: nat, normalized: string) {
    exists i :: 0 <= i < |rows| && rows[i].series == series && rows[i].normalized == normalized
  }

  lemma {:induction false} AddAliasKeeps(rules: Rules, rows: seq<AliasRow>, series: nat, identity: Option<nat>,
                                         value: string)
    requires UniqueNames(rows)
    ensures var after := AddAlias(rules, rows, series, identity, value);
      && UniqueNames(after) && rows <= after
      && (rules.normalise(value) != "" ==> Named(after, series, rules.normalise(value)))
  {
    var after, n := AddAlias(rules, rows, series, identity, value), rules.normalise(value);
    var at := Find(rows, AliasNamed(series, n));
    if n != "" {
      assert after[at].series == series && after[at].normalized == n;
      if at == |rows| {
        forall i | 0 <= i < |rows| ensures rows[i].series == series ==> rows[i].normalized != n {
          assert !AliasNamed(series, n)(rows[i]);
        }
      }
    }
  }

  /** Aliases are only added, stay unique per series, and every meaningful one is there afterwards. */
  lemma {:induction false} AddAliasesKeep(rules: Rules, rows: seq<AliasRow>, series: nat, identity: Option<nat>,
                                          values: seq<string>, k: nat)
    requires UniqueNames(rows)
    ensures var after := AddAliases(rules, rows, series, identity, values);
      && UniqueNames(after) && rows <= after
      && (k < |values| && rules.normalise(values[k]) != "" ==> Named(after, series, rules.normalise(values[k])))
  {
    if values != [] {
      var n := |values| - 1;
      AddAliasesKeep(rules, rows, series, identity, values[..n], k);
      var before := AddAliases(rules, rows, series, identity, values[..n]);
      AddAliasKeeps(rules, before, series, identity, values[n]);
      if k < n && rules.normalise(values[k]) != "" {
        var i :| 0 <= i < |before| && before[i].series == series && before[i].normalized == rules.normalise(values[k]);
        assert AddAliases(rules, rows, series, identity, values)[i] == before[i];
      }
    }
  }

  /** Rows of other identities are untouched; only an identifier's value may change. */
  ghost predicate OthersStay(rows: seq<ExternalRow>, after: seq<ExternalRow>, identity: nat) {
    |rows| <= |after| && forall i :: 0 <= i < |rows| ==>
      (rows[i].identity != identity ==> after[i] == rows[i]) && after[i] == rows[i].(value := after[i].value)
  }

  lemma {:induction false} AddExternalKeeps(rows: seq<ExternalRow>, identity: nat, entry: (string, string))
    requires AllPairs(rows, ExternalsDiffer)
    ensures AllPairs(AddExternal(rows, identity, entry), ExternalsDiffer)
    ensures OthersStay(rows, AddExternal(rows, identity, entry), identity)
  {
    var at, taken := Find(rows, ExternalFor(identity, entry.0)), Find(rows, ExternalValue(entry.0, entry.1));
    if taken == |rows| {
      var row := ExternalRow(identity, entry.0, entry.1);
      forall i | 0 <= i < |rows| && i != at ensures ExternalsDiffer(rows[i], row) {
        assert !ExternalValue(entry.0, entry.1)(rows[i]);
        if at < |rows| {
          assert i < at ==> ExternalsDiffer(rows[i], rows[at]);
          assert at < i ==> ExternalsDiffer(rows[at], rows[i]);
        } else {
          assert !ExternalFor(identity, entry.0)(rows[i]);
        }
      }
    }
  }

  /** External identifiers stay unique by value and by provider, and nobody else's is taken over. */
  lemma {:induction false} AddExternalsKeep(rows: seq<ExternalRow>, identity: nat, entries: seq<(string, string)>)
    requires AllPairs(rows, ExternalsDiffer)
    ensures AllPairs(AddExternals(rows, identity, entries), ExternalsDiffer)
    ensures OthersStay(rows, AddExternals(rows, identity, entries), identity)
  {
    if entries != [] {
      var n := |entries| - 1;
      AddExternalsKeep(rows, identity, entries[..n]);
      AddExternalKeeps(AddExternals(rows, identity, entries[..n]), identity, entries[n]);
    }
  }

  /** Alternates are only added and stay unique. */
  lemma {:induction false} AddAlternatesKeep(rows: seq<AlternateRow>, identity: nat, s: Source, entries: seq<Alternate>)
    requires AllPairs(rows, AlternatesDiffer)
    ensures AllPairs(AddAlternates(rows, identity, s, entries), AlternatesDiffer)
    ensures rows <= AddAlternates(rows, identity, s, entries)
  {
    if entries != [] {
      var n := |entries| - 1;
      AddAlternatesKeep(rows, identity, s, entries[..n]);
      var before := AddAlternates(rows, identity, s, entries[..n]);
      forall i | 0 <= i < |before| && !AlternateNamed(s.source, entries[n].sourceId)(before[i])
        ensures AlternatesDiffer(before[i], NewAlternate(identity, s)(entries[n]))
      {
      }
    }
  }

  /** Every row keeps its chapter and never loses progress or its reading time. */
  ghost predicate OnlyRaised(rows: seq<ReadingRow>, after: seq<ReadingRow>) {
    |rows| <= |after| && forall i :: 0 <= i < |rows| ==> Raised(rows[i], after[i])
  }

  predicate Raised(a: ReadingRow, b: ReadingRow) {
    && b.series == a.series && b.number == a.number
    && ProgressRank(b.status) >= ProgressRank(a.status) && (a.readAt != None ==> b.readAt != None)
  }

  ghost predicate ReachesAtLeast(rows: seq<ReadingRow>, series: nat, number: string, status: Progress) {
    exists i :: 0 <= i < |rows|
      && ReadingFor(series, number)(rows[i]) && ProgressRank(rows[i].status) >= ProgressRank(status)
  }

  lemma {:induction false} AddReadingRaises(rules: Rules, rows: seq<ReadingRow>, series: nat, r: ReadingState)
    requires AllPairs(rows, ReadingsDiffer)
    ensures var after := AddReading(rules, rows, series, r);
      && AllPairs(after, ReadingsDiffer) && OnlyRaised(rows, after)
      && ReachesAtLeast(after, series, rules.canonical(r.chapter), r.status)
  {
    var after, number := AddReading(rules, rows, series, r), rules.canonical(r.chapter);
    var at := Find(rows, ReadingFor(series, number));
    assert ReadingFor(series, number)(after[at]) && ProgressRank(after[at].status) >= ProgressRank(r.status);
    forall i, j | 0 <= i < j < |after| ensures ReadingsDiffer(after[i], after[j]) {
      if j < |rows| {
        assert ReadingsDiffer(rows[i], rows[j]);
      } else {
        assert !ReadingFor(series, number)(rows[i]);
      }
    }
  }

  /** Importing progress only ever raises it, and chapters stay unique. */
  lemma {:induction false} AddReadingsRaise(rules: Rules, rows: seq<ReadingRow>, series: nat,
                                            entries: seq<ReadingState>)
    requires AllPairs(rows, ReadingsDiffer)
    ensures AllPairs(AddReadings(rules, rows, series, entries), ReadingsDiffer)
    ensures OnlyRaised(rows, AddReadings(rules, rows, series, entries))
  {
    if entries != [] {
      var n := |entries| - 1;
      AddReadingsRaise(rules, rows, series, entries[..n]);
      var before := AddReadings(rules, rows, series, entries[..n]);
      AddReadingRaises(rules, before, series, entries[n]);
      RaisedTransitive(rows, before, AddReadings(rules, rows, series, entries));
    }
  }

  lemma {:induction false} RaisedTransitive(a: seq<ReadingRow>, b: seq<ReadingRow>, c: seq<ReadingRow>)
    requires OnlyRaised(a, b) && OnlyRaised(b, c)
    ensures OnlyRaised(a, c)
  {
    forall i | 0 <= i < |a| ensures Raised(a[i], c[i]) {
      assert Raised(a[i], b[i]) && Raised(b[i], c[i]);
    }
  }

  /** The row of a series after several snapshots that name it were imported, in that order. */
  ghost function RefreshAll(rules: Rules, row: SeriesRow, imports: seq<Series>): SeriesRow {
    if imports == [] then row
    else Refreshed(rules, RefreshAll(rules, row, imports[..|imports| - 1]), imports[|imports| - 1])
  }

  /** The status is the local one or one of the imported ones. */
  ghost predicate SomeStatus(row: SeriesRow, imports: seq<Series>, status: Status) {
    status == row.status || exists i :: 0 <= i < |imports| && imports[i].status == status
  }

  /**
   Over any imports the status is the highest of the local one and all imported ones, so their
   order does not matter; a local title and description are never replaced.
   */
  lemma {:induction false} RefreshesTakeTheHighest(rules: Rules, row: SeriesRow, imports: seq<Series>)
    ensures var after := RefreshAll(rules, row, imports);
      && StatusRank(after.status) >= StatusRank(row.status)
      && (forall i :: 0 <= i < |imports| ==> StatusRank(after.status) >= StatusRank(imports[i].status))
      && SomeStatus(row, imports, after.status)
      && (row.title != "" ==> after.title == row.title)
      && (row.description != "" ==> after.description == row.description)
  {
    if imports != [] {
      var before, last := imports[..|imports| - 1], imports[|imports| - 1];
      RefreshesTakeTheHighest(rules, row, before);
      var status := RefreshAll(rules, row, before).status;
      if status != row.status {
        var i :| 0 <= i < |before| && before[i].status == status;
        assert imports[i].status == status;
      }
    }
  }

  /** Storing a separation leaves every other decision as it is. */
  lemma {:induction false} AddDecisionKeeps(rows: seq<DecisionRow>, pair: (nat, nat))
    ensures var after := AddDecision(rows, pair);
      && |rows| <= |after| && DecisionRow(pair.0, pair.1, true) in after
      && (forall i :: 0 <= i < |rows| && (rows[i].left, rows[i].right) != pair ==> after[i] == rows[i])
  {
    var at := Find(rows, DecisionFor(pair.0, pair.1));
    assert AddDecision(rows, pair)[at] == DecisionRow(pair.0, pair.1, true);
  }
}
