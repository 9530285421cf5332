/** The portable operations as they run: loops that read and update the tables. */
module PortableStore {

  import opened Options
  import opened Tables
  import opened PortableState

  method ExistingIdentityMap(rules: Rules, identities: seq<IdentityRow>) returns (keys: map<Key, nat>)
    ensures keys == IdentityMap(rules, identities)
  {
    keys := map[];
    for n := 0 to |identities|
      invariant keys == IdentityMap(rules, identities[..n])
    {
      assert identities[..n + 1][..n] == identities[..n];
      var key := KeyOf(rules, identities[n].source, identities[n].sourceId);
      if key !in keys {
        keys := keys[key := n];
      }
    }
    assert identities[..|identities|] == identities;
  }

  method ResolveExistingIdentity(rules: Rules, c: Catalog, keys: map<Key, nat>, s: Source) returns (r: Resolution)
    ensures r == Resolve(rules, c, keys, s)
  {
    var key := SourceKey(rules, s);
    if key in keys {
      return Found(keys[key]);
    }
    var matches: set<nat> := {};
    var todo := keys.Values;
    ghost var done: set<nat> := {};
    while todo != {}
      invariant done + todo == keys.Values
      invariant matches == Matches(rules, c, keys, s) * done
      decreases todo
    {
      var j :| j in todo;
      if j < |c.identities| && c.identities[j].source == s.source
        && rules.equivalent(Listing(c.identities[j]), SourceListing(s)) {
        matches := matches + {j};
      }
      todo, done := todo - {j}, done + {j};
    }
    assert matches == Matches(rules, c, keys, s);
    if matches == {} {
      return Missing;
    }
    var j :| j in matches;
    r := if matches == {j} then Found(j) else Ambiguous;
  }

  method ResolveAll(rules: Rules, st: Importing, sources: seq<Source>) returns (r: seq<Resolution>)
    ensures r == Resolutions(rules, st, sources)
  {
    r := [];
    for n := 0 to |sources|
      invariant r == Resolutions(rules, st, sources)[..n]
    {
      var one := ResolveExistingIdentity(rules, st.c, st.keys, sources[n]);
      r := r + [one];
    }
  }

  class PortableCatalog {
    var catalog: Catalog

    constructor ()
      ensures catalog == EmptyCatalog
    {
      catalog := EmptyCatalog;
    }

    // ---------------------------------------------------------------- export

    method ExportPortableState(rules: Rules) returns (s: Snapshot)
      ensures s == Export(rules, catalog)
    {
      var items := ExportAllSeries(rules, catalog);
      var separations := ExportSeparations(catalog);
      s := Snapshot(items, separations, Project(Sort(catalog.providers, ByText(ProviderKey)), ProviderEntry));
    }

    // ---------------------------------------------------------------- planning

    method PlanPortableImport(rules: Rules, s: Snapshot) returns (plan: Option<Plan>)
      ensures plan == PlanImport(rules, catalog, s)
    {
      plan := PlanAgainst(rules, catalog, s);
    }

    // ---------------------------------------------------------------- import

    method UpsertAliases(rules: Rules, series: nat, identity: Option<nat>, values: seq<string>)
      modifies this
      ensures catalog == old(catalog).(aliases := AddAliases(rules, old(catalog).aliases, series, identity, values))
    {
      for n := 0 to |values|
        invariant catalog
          == old(catalog).(aliases := AddAliases(rules, old(catalog).aliases, series, identity, values[..n]))
      {
        assert values[..n + 1][..n] == values[..n];
        var normalized := rules.normalise(values[n]);
        if normalized != "" && Find(catalog.aliases, AliasNamed(series, normalized)) == |catalog.aliases| {
          catalog := catalog.(aliases := catalog.aliases + [AliasRow(series, identity, values[n], normalized)]);
        }
      }
      assert values[..|values|] == values;
    }

    method UpsertExternals(identity: nat, entries: seq<(string, string)>)
      modifies this
      ensures catalog == old(catalog).(externals := AddExternals(old(catalog).externals, identity, entries))
    {
      for n := 0 to |entries|
        invariant catalog == old(catalog).(externals := AddExternals(old(catalog).externals, identity, entries[..n]))
      {
        assert entries[..n + 1][..n] == entries[..n];
        var rows, entry := catalog.externals, entries[n];
        var existing := Find(rows, ExternalFor(identity, entry.0));
        var conflict := Find(rows, ExternalValue(entry.0, entry.1));
        if conflict == |rows| {
          if existing < |rows| {
            rows := rows[existing := rows[existing].(value := entry.1)];
          } else {
            rows := rows + [ExternalRow(identity, entry.0, entry.1)];
          }
        }
        catalog := catalog.(externals := rows);
      }
      assert entries[..|entries|] == entries;
    }

    method UpsertAlternates(identity: nat, s: Source)
      modifies this
      ensures catalog == old(catalog).(alternates := AddAlternates(old(catalog).alternates, identity, s, s.alternates))
    {
      for n := 0 to |s.alternates|
        invariant catalog
          == old(catalog).(alternates := AddAlternates(old(catalog).alternates, identity, s, s.alternates[..n]))
      {
        assert s.alternates[..n + 1][..n] == s.alternates[..n];
        var a := s.alternates[n];
        if Find(catalog.alternates, AlternateNamed(s.source, a.sourceId)) == |catalog.alternates| {
          var row := AlternateRow(identity, s.source, a.sourceId,
                                  if a.title != "" then a.title else s.title, if a.url != "" then a.url else s.url);
          catalog := catalog.(alternates := catalog.alternates + [row]);
        }
      }
      assert s.alternates[..|s.alternates|] == s.alternates;
    }

    method UpsertSourceDetails(rules: Rules, series: nat, identity: nat, s: Source)
      requires identity < |catalog.identities|
      modifies this
      ensures catalog == UpsertDetails(rules, old(catalog), series, identity, s)
    {
      var row := catalog.identities[identity];
      catalog := catalog.(identities := catalog.identities[identity := RowOf(series, s).(source := row.source)]);
      UpsertAliases(rules, series, Some(identity), s.aliases);
      UpsertExternals(identity, s.externals);
      UpsertAlternates(identity, s);
    }

    method UpsertReadingStates(rules: Rules, series: nat, entries: seq<ReadingState>)
      modifies this
      ensures catalog == old(catalog).(readings := AddReadings(rules, old(catalog).readings, series, entries))
    {
      for n := 0 to |entries|
        invariant catalog == old(catalog).(readings := AddReadings(rules, old(catalog).readings, series, entries[..n]))
      {
        assert entries[..n + 1][..n] == entries[..n];
        var rows, r := catalog.readings, entries[n];
        var number := rules.canonical(r.chapter);
        var at := Find(rows, ReadingFor(series, number));
        if at == |rows| {
          rows := rows + [ReadingRow(series, number, r.status, r.readAt)];
        } else if ProgressRank(r.status) >= ProgressRank(rows[at].status) {
          rows := rows[at := rows[at].(status := r.status,
                                       readAt := if r.readAt != None then r.readAt else rows[at].readAt)];
        }
        catalog := catalog.(readings := rows);
      }
      assert entries[..|entries|] == entries;
    }

    /** Restores one source; the maps know it afterwards. */
    method RestoreSource(rules: Rules, keys: map<Key, nat>, restored: map<Key, nat>, series: nat, s: Source,
                         resolution: Resolution)
      returns (known: map<Key, nat>, done: map<Key, nat>)
      modifies this
      ensures Importing(catalog, known, done)
        == AddSource(rules, Importing(old(catalog), keys, restored), series, s, resolution)
    {
      var key := SourceKey(rules, s);
      known := keys;
      var j := |catalog.identities|;
      if resolution.Found? && resolution.identity < |catalog.identities| {
        j := resolution.identity;
      } else {
        var row := IdentityRow(series, s.source, s.sourceId, s.title, s.url, "", "");
        catalog := catalog.(identities := catalog.identities + [row]);
        known := known[key := j];
      }
      UpsertSourceDetails(rules, series, j, s);
      done := restored[key := j];
    }

    method RestoreSources(rules: Rules, keys: map<Key, nat>, restored: map<Key, nat>, series: nat,
                          sources: seq<Source>, resolutions: seq<Resolution>)
      returns (known: map<Key, nat>, done: map<Key, nat>)
      requires |sources| == |resolutions|
      modifies this
      ensures Importing(catalog, known, done)
        == AddSources(rules, Importing(old(catalog), keys, restored), series, sources, resolutions)
    {
      known, done := keys, restored;
      ghost var start := Importing(catalog, keys, restored);
      for n := 0 to |sources|
        invariant Importing(catalog, known, done) == AddSources(rules, start, series, sources[..n], resolutions[..n])
      {
        assert sources[..n + 1][..n] == sources[..n] && resolutions[..n + 1][..n] == resolutions[..n];
        known, done := RestoreSource(rules, known, done, series, sources[n], resolutions[n]);
      }
      assert sources[..|sources|] == sources && resolutions[..|sources|] == resolutions;
    }

    /** Fails, before changing anything, on an ambiguous identity or on several local series. */
    method RestoreSeries(rules: Rules, keys: map<Key, nat>, restored: map<Key, nat>, p: Series)
      returns (ok: bool, known: map<Key, nat>, done: map<Key, nat>)
      modifies this
      ensures AddSeries(rules, Importing(old(catalog), keys, restored), p)
        == if ok then Some(Importing(catalog, known, done)) else None
    {
      ok, known, done := false, keys, restored;
      var resolutions := ResolveAll(rules, Importing(catalog, keys, restored), p.sources);
      var homes := Homes(catalog, resolutions);
      if Ambiguous in resolutions || |homes| > 1 {
        return;
      }
      ok := true;
      var home: Option<nat> := None;
      if homes != {} {
        var one :| one in homes;
        OnlyOne(homes, one);
        home := Some(one);
      }
      known, done := Fill(rules, keys, restored, home, p, resolutions);
    }

    method Fill(rules: Rules, keys: map<Key, nat>, restored: map<Key, nat>, home: Option<nat>, p: Series,
                resolutions: seq<Resolution>)
      returns (known: map<Key, nat>, done: map<Key, nat>)
      requires |resolutions| == |p.sources|
      modifies this
      ensures Importing(catalog, known, done)
        == Filling(rules, Importing(old(catalog), keys, restored), home, p, resolutions)
    {
      var series := PlaceSeries(rules, home, p);
      UpsertAliases(rules, series, None, p.aliases);
      known, done := RestoreSources(rules, keys, restored, series, p.sources, resolutions);
      UpsertReadingStates(rules, series, p.reading);
    }

    /** The canonical series: an existing one, refreshed, or a new one. */
    method PlaceSeries(rules: Rules, home: Option<nat>, p: Series) returns (series: nat)
      modifies this
      ensures catalog == Place(rules, old(catalog), home, p)
      ensures series ==
        if home.Some? && home.value < |old(catalog).series| then home.value else |old(catalog).series|
    {
      series := |catalog.series|;
      if home.Some? && home.value < |catalog.series| {
        series := home.value;
        var row := catalog.series[series];
        if row.title == "" {
          row := row.(title := p.title);
        }
        row := row.(normalized := rules.normalise(row.title));
        if row.description == "" {
          row := row.(description := p.description);
        }
        if StatusRank(p.status) > StatusRank(row.status) {
          row := row.(status := p.status);
        }
        catalog := catalog.(series := catalog.series[series := row]);
      } else {
        catalog := catalog.(series := catalog.series + [NewRow(rules, p)]);
      }
    }

    method RestoreAllSeries(rules: Rules, keys: map<Key, nat>, series: seq<Series>)
      returns (ok: bool, done: map<Key, nat>)
      modifies this
      ensures var st := AddAllSeries(rules, Importing(old(catalog), keys, map[]), series);
        (ok <==> st.Some?) && (ok ==> st.value.c == catalog && st.value.restored == done)
    {
      var known := keys;
      ok, done := true, map[];
      ghost var start := Importing(catalog, keys, map[]);
      for n := 0 to |series|
        invariant ok && AddAllSeries(rules, start, series[..n]) == Some(Importing(catalog, known, done))
      {
        assert series[..n + 1][..n] == series[..n];
        ok, known, done := RestoreSeries(rules, known, done, series[n]);
        if !ok {
          ImportStopsHere(rules, start, series, n + 1);
          return;
        }
      }
      assert series[..|series|] == series;
    }

    method RestoreSeparations(rules: Rules, restored: map<Key, nat>, separations: seq<Separation>) returns (ok: bool)
      modifies this
      ensures var rows := AddSeparations(rules, Importing(old(catalog), map[], restored), separations);
        (ok <==> rows.Some?) && (ok ==> catalog == old(catalog).(decisions := rows.value))
    {
      ok := true;
      ghost var st := Importing(catalog, map[], restored);
      for n := 0 to |separations|
        invariant ok && AddSeparations(rules, st, separations[..n]) == Some(catalog.decisions)
        invariant catalog == st.c.(decisions := catalog.decisions)
      {
        assert separations[..n + 1][..n] == separations[..n];
        var pair := PairOf(rules, Importing(catalog, map[], restored), separations[n]);
        if pair.None? {
          SeparationsStopHere(rules, st, separations, n + 1);
          return false;
        }
        var (low, high) := pair.value;
        var at := Find(catalog.decisions, DecisionFor(low, high));
        if at < |catalog.decisions| {
          catalog := catalog.(decisions := catalog.decisions[at := DecisionRow(low, high, true)]);
        } else {
          catalog := catalog.(decisions := catalog.decisions + [DecisionRow(low, high, true)]);
        }
      }
      assert separations[..|separations|] == separations;
    }

    method RestoreProviders(providers: seq<Preference>)
      modifies this
      ensures catalog == old(catalog).(providers := AddProviders(old(catalog).providers, providers))
    {
      for n := 0 to |providers|
        invariant catalog == old(catalog).(providers := AddProviders(old(catalog).providers, providers[..n]))
      {
        assert providers[..n + 1][..n] == providers[..n];
        var rows, p := catalog.providers, providers[n];
        var at := Find(rows, ProviderNamed(p.source));
        if at == |rows| {
          rows := rows + [ProviderRow(p.source, p.enabled)];
        } else {
          rows := rows[at := ProviderRow(p.source, p.enabled)];
        }
        catalog := catalog.(providers := rows);
      }
      assert providers[..|providers|] == providers;
    }

    /** One transaction: a conflict leaves the catalogue as it was. */
    method ApplyPortableImport(rules: Rules, s: Snapshot) returns (applied: bool)
      modifies this
      ensures Import(rules, old(catalog), s) == if applied then Some(catalog) else None
      ensures !applied ==> catalog == old(catalog)
    {
      applied := false;
      var start := catalog;
      var plan := PlanPortableImport(rules, s);
      if plan.None? || plan.value.conflicts > 0 {
        return;
      }
      var keys := ExistingIdentityMap(rules, catalog.identities);
      var ok, restored := RestoreAllSeries(rules, keys, s.series);
      if ok {
        SeparationsIgnoreKeys(rules, catalog, restored,
                              AddAllSeries(rules, Importing(start, keys, map[]), s.series).value, s.separations);
        ok := RestoreSeparations(rules, restored, s.separations);
      }
      if !ok {
        catalog := start;
        return;
      }
      RestoreProviders(s.providers);
      applied := true;
    }
  }

  lemma {:induction false} OnlyOne(s: set<nat>, a: nat)
    requires a in s && |s| <= 1
    ensures s == {a}
  {
    assert s == {a} + (s - {a});
  }

  lemma {:induction false} ImportStopsHere(rules: Rules, start: Importing, series: seq<Series>, n: nat)
    requires n <= |series| && AddAllSeries(rules, start, series[..n]) == None
    ensures AddAllSeries(rules, start, series) == None
    decreases |series| - n
  {
    if n < |series| {
      assert series[..n + 1][..n] == series[..n];
      ImportStopsHere(rules, start, series, n + 1);
    } else {
      assert series[..n] == series;
    }
  }

  lemma {:induction false} SeparationsStopHere(rules: Rules, st: Importing, separations: seq<Separation>, n: nat)
    requires n <= |separations| && AddSeparations(rules, st, separations[..n]) == None
    ensures AddSeparations(rules, st, separations) == None
    decreases |separations| - n
  {
    if n < |separations| {
      assert separations[..n + 1][..n] == separations[..n];
      SeparationsStopHere(rules, st, separations, n + 1);
    } else {
      assert separations[..n] == separations;
    }
  }

  /** Separations look at the restored identities only. */
  lemma {:induction false} SeparationsIgnoreKeys(rules: Rules, c: Catalog, restored: map<Key, nat>, st: Importing,
                                                 separations: seq<Separation>)
    requires st.c == c && st.restored == restored
    ensures AddSeparations(rules, st, separations) == AddSeparations(rules, Importing(c, map[], restored), separations)
  {
    if separations != [] {
      SeparationsIgnoreKeys(rules, c, restored, st, separations[..|separations| - 1]);
    }
  }

  method PlanAgainst(rules: Rules, c: Catalog, s: Snapshot) returns (plan: Option<Plan>)
    ensures plan == PlanImport(rules, c, s)
  {
    var keys := ExistingIdentityMap(rules, c.identities);
    var series := PlanAllSeries(rules, c, keys, s.series);
    var both := CountMergedAndSeparated(rules, s);
    plan := WithSeparations(series, both);
  }

  method PlanAllSeries(rules: Rules, c: Catalog, keys: map<Key, nat>, series: seq<Series>) returns (plan: Option<Plan>)
    ensures plan == PlanSeries(rules, c, keys, series)
  {
    var current := NoPlan;
    for n := 0 to |series|
      invariant PlanSeries(rules, c, keys, series[..n]) == Some(current)
    {
      var resolutions := ResolveAll(rules, Importing(c, keys, map[]), series[n].sources);
      PlanStep(rules, c, keys, series, n, resolutions);
      if Ambiguous in resolutions {
        PlanStopsHere(rules, c, keys, series, n + 1);
        return None;
      }
      current := PlanOne(current, Homes(c, resolutions), CountMissing(resolutions), series[n].title);
    }
    assert series[..|series|] == series;
    plan := Some(current);
  }

  lemma {:induction false} PlanStep(rules: Rules, c: Catalog, keys: map<Key, nat>, series: seq<Series>, n: nat,
                                    resolutions: seq<Resolution>)
    requires n < |series| && resolutions == Resolutions(rules, Importing(c, keys, map[]), series[n].sources)
    requires PlanSeries(rules, c, keys, series[..n]).Some?
    ensures PlanSeries(rules, c, keys, series[..n + 1])
      == if Ambiguous in resolutions then None
         else Some(PlanOne(PlanSeries(rules, c, keys, series[..n]).value, Homes(c, resolutions),
                           CountMissing(resolutions), series[n].title))
  {
    assert series[..n + 1][..n] == series[..n];
  }

  method CountMergedAndSeparated(rules: Rules, s: Snapshot) returns (both: nat)
    ensures both == |Keep(s.separations, MergedAndSeparated(rules, s.series))|
  {
    both := 0;
    for n := 0 to |s.separations|
      invariant both == |Keep(s.separations[..n], MergedAndSeparated(rules, s.series))|
    {
      assert s.separations[..n + 1][..n] == s.separations[..n];
      var separation := s.separations[n];
      var left, right := RefKey(rules, separation.left), RefKey(rules, separation.right);
      if Owner(rules, s.series, left) == Owner(rules, s.series, right) {
        both := both + 1;
      }
    }
    assert s.separations[..|s.separations|] == s.separations;
  }

  method ExportAllSeries(rules: Rules, c: Catalog) returns (items: seq<Series>)
    ensures items == SeriesViews(rules, c, ExportedRows(c))
  {
    var rows := Sort(Keep(Numbered(c.series), SelectedIn(c)), ByText(SeriesKey));
    items := [];
    for n := 0 to |rows|
      invariant items == SeriesViews(rules, c, Keep(rows[..n], HasSources(c)))
    {
      KeptOneMore(rows, n, HasSources(c));
      if SourceRows(c, rows[n].0) != [] {
        var item := ExportSeries(rules, c, rows[n]);
        ViewsOneMore(rules, c, Keep(rows[..n], HasSources(c)), rows[n]);
        items := items + [item];
      }
    }
    assert rows[..|rows|] == rows;
  }

  lemma {:induction false} KeptOneMore<T>(rows: seq<T>, n: nat, p: T -> bool)
    requires n < |rows|
    ensures Keep(rows[..n + 1], p) == Keep(rows[..n], p) + if p(rows[n]) then [rows[n]] else []
  {
    assert rows[..n + 1][..n] == rows[..n];
  }

  lemma {:induction false} ViewsOneMore(rules: Rules, c: Catalog, rows: seq<(nat, SeriesRow)>, row: (nat, SeriesRow))
    ensures SeriesViews(rules, c, rows + [row]) == SeriesViews(rules, c, rows) + [SeriesView(rules, c, row)]
  {
  }

  method ExportSeries(rules: Rules, c: Catalog, series: (nat, SeriesRow)) returns (item: Series)
    ensures item == SeriesView(rules, c, series)
  {
    var row, rows := series.1, SourceRows(c, series.0);
    var sources: seq<Source> := [];
    for n := 0 to |rows|
      invariant sources == SourceViews(c, rows, row.title)[..n]
    {
      sources := sources + [SourceView(c, rows[n], row.title)];
    }
    item := Series(row.title, if row.downloaded && row.status == Untracked then Interested else row.status,
                   row.downloaded, row.description, AliasList(Keep(c.aliases, OwnAlias(series.0))), sources,
                   Project(Sort(Keep(c.readings, ProgressOf(series.0)), ReadingBefore(rules)), ReadingEntry));
  }

  method ExportSeparations(c: Catalog) returns (separations: seq<Separation>)
    ensures separations == Project(Keep(c.decisions, RejectedIn(c)), SeparationOf(c))
  {
    separations := [];
    for n := 0 to |c.decisions|
      invariant separations == Project(Keep(c.decisions[..n], RejectedIn(c)), SeparationOf(c))
    {
      var d := c.decisions[n];
      assert c.decisions[..n + 1][..n] == c.decisions[..n];
      if d.rejected && IdentityExported(c, d.left) && IdentityExported(c, d.right) {
        separations := separations + [Separation(RefOf(c, d.left), RefOf(c, d.right))];
      }
    }
    assert c.decisions[..|c.decisions|] == c.decisions;
  }

  /** An ambiguous identity anywhere stops the whole plan. */
  lemma {:induction false} PlanStopsHere(rules: Rules, c: Catalog, keys: map<Key, nat>, series: seq<Series>, n: nat)
    requires n <= |series| && PlanSeries(rules, c, keys, series[..n]) == None
    ensures PlanSeries(rules, c, keys, series) == None
    decreases |series| - n
  {
    if n < |series| {
      assert series[..n + 1][..n] == series[..n];
      PlanStopsHere(rules, c, keys, series, n + 1);
    } else {
      assert series[..n] == series;
    }
  }
}
