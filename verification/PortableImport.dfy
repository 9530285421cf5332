/** Importing a snapshot into an empty catalogue writes exactly the closed form. */
module PortableImport {

  import opened Options
  import opened Tables
  import opened PortableState
  import opened PortableBuild

  // ---------------------------------------------------------------- nothing clashes

  ghost predicate DistinctValues(rules: Rules, values: seq<string>) {
    forall i, j :: 0 <= i < j < |values| ==> rules.normalise(values[i]) != rules.normalise(values[j])
  }

  ghost predicate ApartValues(rules: Rules, a: seq<string>, b: seq<string>) {
    forall i, j :: 0 <= i < |a| && 0 <= j < |b| ==> rules.normalise(a[i]) != rules.normalise(b[j])
  }

  /** No alias of the series has the normal form of any of these values. */
  ghost predicate AliasesFree(rules: Rules, rows: seq<AliasRow>, series: nat, values: seq<string>) {
    forall r, j :: 0 <= r < |rows| && 0 <= j < |values| && rows[r].series == series ==>
      rows[r].normalized != rules.normalise(values[j])
  }

  ghost predicate DistinctProviders(entries: seq<(string, string)>) {
    forall i, j :: 0 <= i < j < |entries| ==> entries[i].0 != entries[j].0
  }

  ghost predicate ExternalsFree(rows: seq<ExternalRow>, entries: seq<(string, string)>) {
    forall r, j :: 0 <= r < |rows| && 0 <= j < |entries| ==> (rows[r].provider, rows[r].value) != entries[j]
  }

  ghost predicate DistinctAlternates(entries: seq<Alternate>) {
    forall i, j :: 0 <= i < j < |entries| ==> entries[i].sourceId != entries[j].sourceId
  }

  ghost predicate AlternatesFree(rows: seq<AlternateRow>, source: string, entries: seq<Alternate>) {
    forall r, j :: 0 <= r < |rows| && 0 <= j < |entries| && rows[r].source == source ==>
      rows[r].sourceId != entries[j].sourceId
  }

  ghost predicate CanonicalReading(rules: Rules, entries: seq<ReadingState>) {
    && (forall i :: 0 <= i < |entries| ==> rules.canonical(entries[i].chapter) == entries[i].chapter)
    && (forall i, j :: 0 <= i < j < |entries| ==> entries[i].chapter != entries[j].chapter)
  }

  /** Nothing a source lists repeats itself. */
  ghost predicate SourceDistinct(rules: Rules, s: Source) {
    DistinctValues(rules, s.aliases) && DistinctProviders(s.externals) && DistinctAlternates(s.alternates)
  }

  // ---------------------------------------------------------------- upserts that only append

  lemma {:induction false} AliasRowsStep(rules: Rules, series: nat, identity: Option<nat>, before: seq<string>,
                                         last: string)
    ensures AliasRows(rules, series, identity, before + [last])
      == AliasRows(rules, series, identity, before)
         + if rules.normalise(last) == "" then [] else [AliasRow(series, identity, last, rules.normalise(last))]
  {
    assert (before + [last])[..|before|] == before;
  }

  lemma {:induction false} AliasRowsFrom(rules: Rules, series: nat, identity: Option<nat>, values: seq<string>,
                                         r: nat) returns (j: nat)
    requires r < |AliasRows(rules, series, identity, values)|
    ensures j < |values| && AliasRows(rules, series, identity, values)[r]
      == AliasRow(series, identity, values[j], rules.normalise(values[j]))
  {
    var kept := Keep(values, Meaningful(rules));
    KeepMember(values, Meaningful(rules), kept[r]);
    assert kept[r] in values;
    j :| 0 <= j < |values| && values[j] == kept[r];
  }

  lemma {:induction false} NewRowsFree(rules: Rules, series: nat, identity: Option<nat>, values: seq<string>,
                                       others: seq<string>)
    requires ApartValues(rules, values, others)
    ensures AliasesFree(rules, AliasRows(rules, series, identity, values), series, others)
  {
    var rows := AliasRows(rules, series, identity, values);
    forall r, j | 0 <= r < |rows| && 0 <= j < |others| && rows[r].series == series
      ensures rows[r].normalized != rules.normalise(others[j])
    {
      var v := AliasRowsFrom(rules, series, identity, values, r);
    }
  }

  lemma {:induction false} AddAliasesAppends(rules: Rules, rows: seq<AliasRow>, series: nat, identity: Option<nat>,
                                             values: seq<string>)
    requires DistinctValues(rules, values) && AliasesFree(rules, rows, series, values)
    ensures AddAliases(rules, rows, series, identity, values) == rows + AliasRows(rules, series, identity, values)
  {
    if values != [] {
      var before, last := values[..|values| - 1], values[|values| - 1];
      AddAliasesAppends(rules, rows, series, identity, before);
      assert values == before + [last];
      AliasRowsStep(rules, series, identity, before, last);
      NewRowsFree(rules, series, identity, before, [last]);
      AliasLast(rules, rows, AliasRows(rules, series, identity, before), series, identity, last);
    }
  }

  lemma {:induction false} AliasLast(rules: Rules, rows: seq<AliasRow>, added: seq<AliasRow>, series: nat,
                                     identity: Option<nat>, last: string)
    requires forall r :: 0 <= r < |rows| && rows[r].series == series ==> rows[r].normalized != rules.normalise(last)
    requires AliasesFree(rules, added, series, [last])
    ensures AddAlias(rules, rows + added, series, identity, last)
      == rows + (added
                 + if rules.normalise(last) == "" then []
                   else [AliasRow(series, identity, last, rules.normalise(last))])
  {
    assert [last][0] == last;
    assert Find(rows + added, AliasNamed(series, rules.normalise(last))) == |rows + added|;
  }

  lemma {:induction false} ProjectStep<T, U>(before: seq<T>, last: T, f: T -> U)
    ensures Project(before + [last], f) == Project(before, f) + [f(last)]
  {
  }

  lemma {:induction false} AddExternalsAppends(rows: seq<ExternalRow>, j: nat, entries: seq<(string, string)>)
    requires DistinctProviders(entries) && ExternalsFree(rows, entries)
    requires forall r :: 0 <= r < |rows| ==> rows[r].identity != j
    ensures AddExternals(rows, j, entries) == rows + Project(entries, NewExternal(j))
  {
    if entries != [] {
      var before, last := entries[..|entries| - 1], entries[|entries| - 1];
      AddExternalsAppends(rows, j, before);
      assert entries == before + [last];
      ProjectStep(before, last, NewExternal(j));
      ExternalLast(rows, j, before, last);
    }
  }

  lemma {:induction false} ExternalLast(rows: seq<ExternalRow>, j: nat, before: seq<(string, string)>,
                                        last: (string, string))
    requires forall r :: 0 <= r < |rows| ==> rows[r].identity != j && (rows[r].provider, rows[r].value) != last
    requires forall i :: 0 <= i < |before| ==> before[i].0 != last.0
    ensures AddExternal(rows + Project(before, NewExternal(j)), j, last)
      == rows + (Project(before, NewExternal(j)) + [ExternalRow(j, last.0, last.1)])
  {
    var all := rows + Project(before, NewExternal(j));
    forall r | 0 <= r < |all| ensures !ExternalFor(j, last.0)(all[r]) && !ExternalValue(last.0, last.1)(all[r]) {
      if r >= |rows| {
        assert all[r] == NewExternal(j)(before[r - |rows|]);
      } else {
        assert all[r] == rows[r];
      }
    }
  }

  lemma {:induction false} AddAlternatesAppends(rows: seq<AlternateRow>, j: nat, s: Source, entries: seq<Alternate>)
    requires DistinctAlternates(entries) && AlternatesFree(rows, s.source, entries)
    ensures AddAlternates(rows, j, s, entries) == rows + Project(entries, NewAlternate(j, s))
  {
    if entries != [] {
      var before, last := entries[..|entries| - 1], entries[|entries| - 1];
      AddAlternatesAppends(rows, j, s, before);
      AlternateLast(rows, j, s, before, last);
      ProjectStep(before, last, NewAlternate(j, s));
      assert before + [last] == entries;
    }
  }

  lemma {:induction false} AlternateLast(rows: seq<AlternateRow>, j: nat, s: Source, before: seq<Alternate>,
                                         last: Alternate)
    requires forall r :: 0 <= r < |rows| && rows[r].source == s.source ==> rows[r].sourceId != last.sourceId
    requires forall i :: 0 <= i < |before| ==> before[i].sourceId != last.sourceId
    ensures AddAlternate(rows + Project(before, NewAlternate(j, s)), j, s, last)
      == rows + (Project(before, NewAlternate(j, s)) + [NewAlternate(j, s)(last)])
  {
    var all := rows + Project(before, NewAlternate(j, s));
    forall r | 0 <= r < |all| ensures !AlternateNamed(s.source, last.sourceId)(all[r]) {
      if r >= |rows| {
        assert all[r] == NewAlternate(j, s)(before[r - |rows|]);
      } else {
        assert all[r] == rows[r];
      }
    }
  }

  lemma {:induction false} AddReadingsAppends(rules: Rules, rows: seq<ReadingRow>, series: nat,
                                              entries: seq<ReadingState>)
    requires CanonicalReading(rules, entries) && forall r :: 0 <= r < |rows| ==> rows[r].series != series
    ensures AddReadings(rules, rows, series, entries) == rows + Project(entries, NewReading(series))
  {
    if entries != [] {
      var before, last := entries[..|entries| - 1], entries[|entries| - 1];
      AddReadingsAppends(rules, rows, series, before);
      assert entries == before + [last];
      ProjectStep(before, last, NewReading(series));
      ReadingLast(rules, rows, series, before, last);
    }
  }

  lemma {:induction false} ReadingLast(rules: Rules, rows: seq<ReadingRow>, series: nat, before: seq<ReadingState>,
                                       last: ReadingState)
    requires rules.canonical(last.chapter) == last.chapter
    requires forall r :: 0 <= r < |rows| ==> rows[r].series != series
    requires forall i :: 0 <= i < |before| ==> before[i].chapter != last.chapter
    ensures AddReading(rules, rows + Project(before, NewReading(series)), series, last)
      == rows + (Project(before, NewReading(series)) + [NewReading(series)(last)])
  {
    var all := rows + Project(before, NewReading(series));
    forall r | 0 <= r < |all| ensures !ReadingFor(series, last.chapter)(all[r]) {
      if r >= |rows| {
        assert all[r] == NewReading(series)(before[r - |rows|]);
      } else {
        assert all[r] == rows[r];
      }
    }
  }

  // ---------------------------------------------------------------- one source

  /** Importing `s` into series `series` meets no row it could collide with. */
  ghost predicate Fits(rules: Rules, c: Catalog, series: nat, s: Source) {
    && AliasesFree(rules, c.aliases, series, s.aliases)
    && ExternalsFree(c.externals, s.externals) && AlternatesFree(c.alternates, s.source, s.alternates)
  }

  lemma {:induction false} AddSourceBuilds(rules: Rules, st: Importing, series: nat, s: Source)
    requires Below(st.c) && SourceDistinct(rules, s) && Fits(rules, st.c, series, s)
    ensures AddSource(rules, st, series, s, Missing).c == BuildSource(rules, st.c, series, s)
  {
    var c, j := st.c, |st.c.identities|;
    AddSourceRows(rules, st, series, s);
    AddAliasesAppends(rules, c.aliases, series, Some(j), s.aliases);
    AddExternalsAppends(c.externals, j, s.externals);
    AddAlternatesAppends(c.alternates, j, s, s.alternates);
  }

  /** A source that resolves to nothing becomes a new identity, known and restored under its key. */
  lemma {:induction false} AddSourceRows(rules: Rules, st: Importing, series: nat, s: Source)
    ensures var next := AddSource(rules, st, series, s, Missing);
      && next.c.identities == st.c.identities + [RowOf(series, s)]
      && next.keys == st.keys[SourceKey(rules, s) := |st.c.identities|]
      && next.restored == st.restored[SourceKey(rules, s) := |st.c.identities|]
  {
    var c, j := st.c, |st.c.identities|;
    var blank := IdentityRow(series, s.source, s.sourceId, s.title, s.url, "", "");
    assert (c.identities + [blank])[j := RowOf(series, s)] == c.identities + [RowOf(series, s)];
  }

  /** What keeps two sources from touching each other's rows. */
  ghost predicate ApartLists(s: Source, t: Source) {
    && (forall i, j :: 0 <= i < |s.externals| && 0 <= j < |t.externals| ==> s.externals[i] != t.externals[j])
    && (s.source == t.source ==>
          forall i, j :: 0 <= i < |s.alternates| && 0 <= j < |t.alternates| ==>
            s.alternates[i].sourceId != t.alternates[j].sourceId)
  }

  ghost predicate ListsFree(c: Catalog, t: Source) {
    ExternalsFree(c.externals, t.externals) && AlternatesFree(c.alternates, t.source, t.alternates)
  }

  lemma {:induction false} ListsStayFree(rules: Rules, c: Catalog, series: nat, s: Source, t: Source)
    requires ListsFree(c, t) && ApartLists(s, t)
    ensures ListsFree(BuildSource(rules, c, series, s), t)
  {
    ExternalsStayFree(c.externals, |c.identities|, s, t);
    AlternatesStayFree(c.alternates, |c.identities|, s, t);
  }

  lemma {:induction false} ExternalsStayFree(rows: seq<ExternalRow>, n: nat, s: Source, t: Source)
    requires ExternalsFree(rows, t.externals) && ApartLists(s, t)
    ensures ExternalsFree(rows + Project(s.externals, NewExternal(n)), t.externals)
  {
    var all := rows + Project(s.externals, NewExternal(n));
    forall r, j | 0 <= r < |all| && 0 <= j < |t.externals| ensures (all[r].provider, all[r].value) != t.externals[j] {
      if r >= |rows| {
        assert all[r] == NewExternal(n)(s.externals[r - |rows|]);
      }
    }
  }

  lemma {:induction false} AlternatesStayFree(rows: seq<AlternateRow>, n: nat, s: Source, t: Source)
    requires AlternatesFree(rows, t.source, t.alternates) && ApartLists(s, t)
    ensures AlternatesFree(rows + Project(s.alternates, NewAlternate(n, s)), t.source, t.alternates)
  {
    var all := rows + Project(s.alternates, NewAlternate(n, s));
    forall r, j | 0 <= r < |all| && 0 <= j < |t.alternates| && all[r].source == t.source
      ensures all[r].sourceId != t.alternates[j].sourceId
    {
      if r >= |rows| {
        assert all[r] == NewAlternate(n, s)(s.alternates[r - |rows|]);
      }
    }
  }

  lemma {:induction false} AliasesStayFree(rules: Rules, c: Catalog, series: nat, s: Source, values: seq<string>)
    requires AliasesFree(rules, c.aliases, series, values) && ApartValues(rules, s.aliases, values)
    ensures AliasesFree(rules, BuildSource(rules, c, series, s).aliases, series, values)
  {
    NewRowsFree(rules, series, Some(|c.identities|), s.aliases, values);
  }

  /** A later source still fits after earlier sources of the same series were built. */
  lemma {:induction false} FitsAfterSources(rules: Rules, c: Catalog, series: nat, sources: seq<Source>, t: Source)
    requires Fits(rules, c, series, t)
    requires forall i :: 0 <= i < |sources| ==>
      ApartLists(sources[i], t) && ApartValues(rules, sources[i].aliases, t.aliases)
    ensures Fits(rules, BuildSources(rules, c, series, sources), series, t)
  {
    if sources != [] {
      var before, last := sources[..|sources| - 1], sources[|sources| - 1];
      FitsAfterSources(rules, c, series, before, t);
      var d := BuildSources(rules, c, series, before);
      ListsStayFree(rules, d, series, last, t);
      AliasesStayFree(rules, d, series, last, t.aliases);
    }
  }

  lemma {:induction false} ListsFreeAfterSources(rules: Rules, c: Catalog, series: nat, sources: seq<Source>, t: Source)
    requires ListsFree(c, t)
    requires forall i :: 0 <= i < |sources| ==> ApartLists(sources[i], t)
    ensures ListsFree(BuildSources(rules, c, series, sources), t)
  {
    if sources != [] {
      ListsFreeAfterSources(rules, c, series, sources[..|sources| - 1], t);
      ListsStayFree(rules, BuildSources(rules, c, series, sources[..|sources| - 1]), series, sources[|sources| - 1], t);
    }
  }

  // ---------------------------------------------------------------- identities by key

  /** Different keys, and not listings of the same work. */
  ghost predicate Unrelated(rules: Rules, s: Source, t: Source) {
    && SourceKey(rules, s) != SourceKey(rules, t)
    && (s.source == t.source ==> !rules.equivalent(SourceListing(s), SourceListing(t)))
  }

  /** The import state after the sources `done` were added, in that order. */
  ghost predicate Tracks(rules: Rules, st: Importing, done: seq<Source>) {
    && |st.c.identities| == |done|
    && (forall j :: 0 <= j < |done| ==> Listing(st.c.identities[j]) == SourceListing(done[j]))
    && (forall key :: key in st.keys ==> st.keys[key] < |done| && SourceKey(rules, done[st.keys[key]]) == key)
    && (forall j :: 0 <= j < |done| ==>
          SourceKey(rules, done[j]) in st.restored && st.restored[SourceKey(rules, done[j])] == j)
  }

  ghost predicate UnrelatedToAll(rules: Rules, done: seq<Source>, s: Source) {
    forall i :: 0 <= i < |done| ==> Unrelated(rules, done[i], s)
  }

  lemma {:induction false} ResolvesMissing(rules: Rules, st: Importing, done: seq<Source>, s: Source)
    requires Tracks(rules, st, done) && UnrelatedToAll(rules, done, s)
    ensures Resolve(rules, st.c, st.keys, s) == Missing
  {
    assert SourceKey(rules, s) !in st.keys;
    forall j | j in st.keys.Values && j < |st.c.identities| && st.c.identities[j].source == s.source
      ensures !rules.equivalent(Listing(st.c.identities[j]), SourceListing(s))
    {
      assert Unrelated(rules, done[j], s);
    }
    assert Matches(rules, st.c, st.keys, s) == {};
  }

  lemma {:induction false} TracksOneMore(rules: Rules, st: Importing, done: seq<Source>, series: nat, s: Source)
    requires Tracks(rules, st, done) && UnrelatedToAll(rules, done, s)
    ensures Tracks(rules, AddSource(rules, st, series, s, Missing), done + [s])
  {
    AddSourceRows(rules, st, series, s);
    forall j | 0 <= j < |done| ensures SourceKey(rules, done[j]) != SourceKey(rules, s) {
      assert Unrelated(rules, done[j], s);
    }
  }

  // ---------------------------------------------------------------- whole series

  /** What one snapshot series must satisfy for its rows not to collide with each other. */
  ghost predicate SeriesDistinct(rules: Rules, p: Series) {
    && DistinctValues(rules, p.aliases) && CanonicalReading(rules, p.reading)
    && (forall i :: 0 <= i < |p.sources| ==> SourceDistinct(rules, p.sources[i]))
    && (forall i :: 0 <= i < |p.sources| ==> ApartValues(rules, p.aliases, p.sources[i].aliases))
    && (forall i, j :: 0 <= i < j < |p.sources| ==> ApartValues(rules, p.sources[i].aliases, p.sources[j].aliases))
  }

  function Flat(series: seq<Series>): seq<Source> {
    if series == [] then [] else Flat(series[..|series| - 1]) + series[|series| - 1].sources
  }

  /** No two sources of the snapshot are related or list the same thing. */
  ghost predicate AllApart(rules: Rules, sources: seq<Source>) {
    forall i, j :: 0 <= i < j < |sources| ==>
      Unrelated(rules, sources[i], sources[j]) && ApartLists(sources[i], sources[j])
  }

  ghost predicate Importable(rules: Rules, series: seq<Series>) {
    AllApart(rules, Flat(series)) && forall i :: 0 <= i < |series| ==> SeriesDistinct(rules, series[i])
  }

  lemma {:induction false} ListsFreeAfterAll(rules: Rules, series: seq<Series>, t: Source)
    requires forall i :: 0 <= i < |Flat(series)| ==> ApartLists(Flat(series)[i], t)
    ensures ListsFree(BuildAll(rules, series), t)
  {
    if series != [] {
      var before, last := series[..|series| - 1], series[|series| - 1];
      var flat := Flat(before);
      assert forall i :: 0 <= i < |flat| ==> Flat(series)[i] == flat[i];
      assert forall i :: 0 <= i < |last.sources| ==> Flat(series)[|flat| + i] == last.sources[i];
      ListsFreeAfterAll(rules, before, t);
      var c := BuildAll(rules, before);
      ListsFreeAfterSources(rules, Opened(rules, c, last), |c.series|, last.sources, t);
    }
  }

  function AllMissing(n: nat): (r: seq<Resolution>)
    ensures |r| == n && forall i :: 0 <= i < n ==> r[i] == Missing
  {
    seq(n, i => Missing)
  }

  lemma {:induction false} MissingPrefix(sources: seq<Source>)
    requires sources != []
    ensures AllMissing(|sources|)[..|sources| - 1] == AllMissing(|sources| - 1)
  {
  }

  lemma {:induction false} AddSourcesTracks(rules: Rules, start: Importing, series: nat, done: seq<Source>,
                                            sources: seq<Source>)
    requires Tracks(rules, start, done) && AllApart(rules, done + sources)
    ensures Tracks(rules, AddSources(rules, start, series, sources, AllMissing(|sources|)), done + sources)
  {
    if sources == [] {
      assert done + sources == done;
    } else {
      var n := |sources| - 1;
      var before, last := sources[..n], sources[n];
      ApartPrefix(rules, done, sources);
      AddSourcesTracks(rules, start, series, done, before);
      MissingPrefix(sources);
      TracksOneMore(rules, AddSources(rules, start, series, before, AllMissing(n)), done + before, series, last);
      assert done + before + [last] == done + sources;
    }
  }

  /** Every source fits at the moment it is added. */
  ghost predicate FitInTurn(rules: Rules, c: Catalog, series: nat, sources: seq<Source>) {
    forall i :: 0 <= i < |sources| ==>
      SourceDistinct(rules, sources[i]) && Fits(rules, BuildSources(rules, c, series, sources[..i]), series, sources[i])
  }

  lemma {:induction false} FitInTurnPrefix(rules: Rules, c: Catalog, series: nat, sources: seq<Source>)
    requires FitInTurn(rules, c, series, sources) && sources != []
    ensures FitInTurn(rules, c, series, sources[..|sources| - 1])
  {
    var before := sources[..|sources| - 1];
    forall i | 0 <= i < |before|
      ensures SourceDistinct(rules, before[i])
      ensures Fits(rules, BuildSources(rules, c, series, before[..i]), series, before[i])
    {
      assert before[..i] == sources[..i] && before[i] == sources[i];
    }
  }

  lemma {:induction false} AddSourcesBuilds(rules: Rules, start: Importing, series: nat, sources: seq<Source>)
    requires Below(start.c) && FitInTurn(rules, start.c, series, sources)
    ensures AddSources(rules, start, series, sources, AllMissing(|sources|)).c
      == BuildSources(rules, start.c, series, sources)
  {
    if sources != [] {
      var n := |sources| - 1;
      FitInTurnPrefix(rules, start.c, series, sources);
      AddSourcesBuilds(rules, start, series, sources[..n]);
      MissingPrefix(sources);
      BuildSourcesLater(rules, start.c, series, sources[..n]);
      AddSourceBuilds(rules, AddSources(rules, start, series, sources[..n], AllMissing(n)), series, sources[n]);
    }
  }

  lemma {:induction false} ApartPrefix(rules: Rules, done: seq<Source>, sources: seq<Source>)
    requires AllApart(rules, done + sources) && sources != []
    ensures var before, last := sources[..|sources| - 1], sources[|sources| - 1];
      && AllApart(rules, done + before) && UnrelatedToAll(rules, done + before, last)
      && (forall i :: 0 <= i < |done| ==> ApartLists(done[i], last))
      && (forall i :: 0 <= i < |before| ==> ApartLists(before[i], last))
  {
    var all, n := done + sources, |done| + |sources| - 1;
    var short := done + sources[..|sources| - 1];
    assert all[n] == sources[|sources| - 1];
    assert forall i :: 0 <= i < n ==> short[i] == all[i];
    forall i | 0 <= i < |done| ensures ApartLists(done[i], all[n]) {
      assert all[i] == done[i];
    }
    forall i | 0 <= i < |sources| - 1 ensures ApartLists(sources[i], all[n]) {
      assert all[|done| + i] == sources[i];
    }
  }

  // ---------------------------------------------------------------- importing into an empty catalogue

  lemma {:induction false} OpenedFits(rules: Rules, c: Catalog, p: Series, s: Source)
    requires Refs(c) && ListsFree(c, s) && ApartValues(rules, p.aliases, s.aliases)
    ensures Fits(rules, Opened(rules, c, p), |c.series|, s)
  {
    NewRowsFree(rules, |c.series|, None, p.aliases, s.aliases);
  }

  lemma {:induction false} SourcesFitInTurn(rules: Rules, c: Catalog, p: Series)
    requires Refs(c) && SeriesDistinct(rules, p)
    requires forall i :: 0 <= i < |p.sources| ==> ListsFree(c, p.sources[i])
    requires forall i, j :: 0 <= i < j < |p.sources| ==> ApartLists(p.sources[i], p.sources[j])
    ensures FitInTurn(rules, Opened(rules, c, p), |c.series|, p.sources)
  {
    var open, series := Opened(rules, c, p), |c.series|;
    forall i | 0 <= i < |p.sources|
      ensures SourceDistinct(rules, p.sources[i])
      ensures Fits(rules, BuildSources(rules, open, series, p.sources[..i]), series, p.sources[i])
    {
      OpenedFits(rules, c, p, p.sources[i]);
      FitsAfterSources(rules, open, series, p.sources[..i], p.sources[i]);
    }
  }

  lemma {:induction false} AllResolveMissing(rules: Rules, st: Importing, done: seq<Source>, sources: seq<Source>)
    requires Tracks(rules, st, done) && AllApart(rules, done + sources)
    ensures Resolutions(rules, st, sources) == AllMissing(|sources|)
    ensures Ambiguous !in Resolutions(rules, st, sources) && Homes(st.c, Resolutions(rules, st, sources)) == {}
  {
    var r := Resolutions(rules, st, sources);
    forall i | 0 <= i < |sources| ensures r[i] == Missing {
      forall j | 0 <= j < |done| ensures Unrelated(rules, done[j], sources[i]) {
        assert (done + sources)[j] == done[j] && (done + sources)[|done| + i] == sources[i];
      }
      ResolvesMissing(rules, st, done, sources[i]);
    }
  }

  lemma {:induction false} OpeningImports(rules: Rules, c: Catalog, p: Series)
    requires Refs(c) && DistinctValues(rules, p.aliases)
    ensures var placed := Place(rules, c, None, p);
      placed.(aliases := AddAliases(rules, placed.aliases, |c.series|, None, p.aliases)) == Opened(rules, c, p)
  {
    AddAliasesAppends(rules, c.aliases, |c.series|, None, p.aliases);
  }

  lemma {:induction false} FillingBuilds(rules: Rules, st: Importing, p: Series)
    requires Refs(st.c) && SeriesDistinct(rules, p)
    requires FitInTurn(rules, Opened(rules, st.c, p), |st.c.series|, p.sources)
    ensures Filling(rules, st, None, p, AllMissing(|p.sources|)).c == BuildSeries(rules, st.c, p)
  {
    var c, series := st.c, |st.c.series|;
    OpeningImports(rules, c, p);
    OpenedExtends(rules, c, p);
    var open := st.(c := Opened(rules, c, p));
    AddSourcesBuilds(rules, open, series, p.sources);
    BuildSourcesRows(rules, open.c, series, p.sources);
    AddReadingsAppends(rules, c.readings, series, p.reading);
  }

  lemma {:induction false} FillingTracks(rules: Rules, st: Importing, done: seq<Source>, p: Series)
    requires Refs(st.c) && DistinctValues(rules, p.aliases) && Tracks(rules, st, done)
    requires AllApart(rules, done + p.sources)
    ensures Tracks(rules, Filling(rules, st, None, p, AllMissing(|p.sources|)), done + p.sources)
  {
    OpeningImports(rules, st.c, p);
    var open := st.(c := Opened(rules, st.c, p));
    AddSourcesTracks(rules, open, |st.c.series|, done, p.sources);
  }

  /** What the import state is after the snapshot series `series`. */
  ghost predicate Imported(rules: Rules, st: Importing, series: seq<Series>) {
    st.c == BuildAll(rules, series) && Tracks(rules, st, Flat(series))
  }

  lemma {:induction false} AddSeriesIsFilling(rules: Rules, st: Importing, done: seq<Source>, p: Series)
    requires Tracks(rules, st, done) && AllApart(rules, done + p.sources)
    ensures AddSeries(rules, st, p) == Some(Filling(rules, st, None, p, AllMissing(|p.sources|)))
  {
    AllResolveMissing(rules, st, done, p.sources);
  }

  lemma {:induction false} NextSeriesBuilds(rules: Rules, st: Importing, before: seq<Series>, last: Series)
    requires st.c == BuildAll(rules, before) && AllApart(rules, Flat(before) + last.sources)
    requires SeriesDistinct(rules, last)
    ensures Filling(rules, st, None, last, AllMissing(|last.sources|)).c == BuildSeries(rules, st.c, last)
  {
    BuiltShape(rules, before);
    ListsFreeForNext(rules, before, last);
    SourcesFitInTurn(rules, st.c, last);
    FillingBuilds(rules, st, last);
  }

  lemma {:induction false} AddSeriesBuilds(rules: Rules, st: Importing, before: seq<Series>, last: Series)
    returns (next: Importing)
    requires Imported(rules, st, before) && AllApart(rules, Flat(before) + last.sources) && SeriesDistinct(rules, last)
    ensures AddSeries(rules, st, last) == Some(next) && next.c == BuildSeries(rules, st.c, last)
    ensures Tracks(rules, next, Flat(before) + last.sources)
  {
    next := Filling(rules, st, None, last, AllMissing(|last.sources|));
    AddSeriesIsFilling(rules, st, Flat(before), last);
    NextSeriesBuilds(rules, st, before, last);
    RefsOfBuilt(rules, st, before);
    FillingTracks(rules, st, Flat(before), last);
  }

  lemma {:induction false} RefsOfBuilt(rules: Rules, st: Importing, series: seq<Series>)
    requires st.c == BuildAll(rules, series)
    ensures Refs(st.c)
  {
    BuiltShape(rules, series);
  }

  lemma {:induction false} ListsFreeForNext(rules: Rules, before: seq<Series>, last: Series)
    requires AllApart(rules, Flat(before) + last.sources)
    ensures forall i :: 0 <= i < |last.sources| ==> ListsFree(BuildAll(rules, before), last.sources[i])
    ensures forall i, j :: 0 <= i < j < |last.sources| ==> ApartLists(last.sources[i], last.sources[j])
  {
    var done := Flat(before);
    var all := done + last.sources;
    forall i | 0 <= i < |last.sources| ensures ListsFree(BuildAll(rules, before), last.sources[i]) {
      forall j | 0 <= j < |done| ensures ApartLists(done[j], last.sources[i]) {
        assert all[j] == done[j] && all[|done| + i] == last.sources[i];
      }
      ListsFreeAfterAll(rules, before, last.sources[i]);
    }
    forall i, j | 0 <= i < j < |last.sources| ensures ApartLists(last.sources[i], last.sources[j]) {
      assert all[|done| + i] == last.sources[i] && all[|done| + j] == last.sources[j];
    }
  }

  lemma {:induction false} ImportablePrefix(rules: Rules, series: seq<Series>)
    requires Importable(rules, series) && series != []
    ensures Importable(rules, series[..|series| - 1])
  {
    var before := series[..|series| - 1];
    assert forall i :: 0 <= i < |Flat(before)| ==> Flat(series)[i] == Flat(before)[i];
  }

  const Nothing := Importing(EmptyCatalog, map[], map[])

  lemma {:induction false} NothingImported(rules: Rules)
    ensures Imported(rules, Nothing, [])
  {
  }

  lemma {:induction false} LastIsApart(rules: Rules, series: seq<Series>)
    requires Importable(rules, series) && series != []
    ensures AllApart(rules, Flat(series[..|series| - 1]) + series[|series| - 1].sources)
    ensures SeriesDistinct(rules, series[|series| - 1])
  {
  }

  lemma {:induction false} AddAllStep(rules: Rules, start: Importing, series: seq<Series>, earlier: Importing,
                                      st: Importing)
    requires series != [] && AddAllSeries(rules, start, series[..|series| - 1]) == Some(earlier)
    requires Imported(rules, earlier, series[..|series| - 1])
    requires AddSeries(rules, earlier, series[|series| - 1]) == Some(st)
    requires st.c == BuildSeries(rules, earlier.c, series[|series| - 1])
    requires Tracks(rules, st, Flat(series[..|series| - 1]) + series[|series| - 1].sources)
    ensures AddAllSeries(rules, start, series) == Some(st) && Imported(rules, st, series)
  {
  }

  /** An importable snapshot is imported into an empty catalogue in full, as the closed form says. */
  lemma {:induction false} AddAllSeriesBuilds(rules: Rules, series: seq<Series>) returns (st: Importing)
    requires Importable(rules, series)
    ensures AddAllSeries(rules, Nothing, series) == Some(st) && Imported(rules, st, series)
  {
    if series == [] {
      st := Nothing;
      NothingImported(rules);
    } else {
      ImportablePrefix(rules, series);
      var earlier := AddAllSeriesBuilds(rules, series[..|series| - 1]);
      LastIsApart(rules, series);
      st := AddSeriesBuilds(rules, earlier, series[..|series| - 1], series[|series| - 1]);
      AddAllStep(rules, Nothing, series, earlier, st);
    }
  }
}
