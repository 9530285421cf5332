/** When a round trip changes nothing, and what importing a second time plans. */
module PortableRepeat {

  import opened Options
  import opened Tables
  import opened PortableState
  import opened PortableBuild
  import opened PortableImport
  import opened PortableRoundTrip
  import opened PortableExport
  import ChapterNumbers

  // ---------------------------------------------------------------- when nothing changes

  function ClearedSeries(p: Series): Series { p.(downloaded := false) }

  /** The snapshot without the downloaded flags. */
  function Cleared(s: Snapshot): Snapshot { s.(series := Project(s.series, ClearedSeries)) }

  ghost predicate AllMeaningful(rules: Rules, values: seq<string>) {
    forall i :: 0 <= i < |values| ==> rules.normalise(values[i]) != ""
  }

  ghost predicate AlternatesFilled(s: Source) {
    forall i :: 0 <= i < |s.alternates| ==> s.alternates[i].title != "" && s.alternates[i].url != ""
  }

  /** No alias normalises to nothing. */
  ghost predicate AliasesMeaningful(rules: Rules, p: Series) {
    && AllMeaningful(rules, p.aliases)
    && forall i :: 0 <= i < |p.sources| ==> AllMeaningful(rules, p.sources[i].aliases)
  }

  ghost predicate NoAliasLost(rules: Rules, s: Snapshot) {
    forall i :: 0 <= i < |s.series| ==> AliasesMeaningful(rules, s.series[i])
  }

  /** Every alternate has a title and an address of its own. */
  ghost predicate NothingToFill(s: Snapshot) {
    forall i, a :: 0 <= i < |s.series| && 0 <= a < |s.series[i].sources| ==> AlternatesFilled(s.series[i].sources[a])
  }

  /** The left side of every separation is listed first. */
  ghost predicate SeparationsInOrder(rules: Rules, s: Snapshot) {
    forall i :: 0 <= i < |s.separations| ==>
      Position(rules, s.series, s.separations[i].left) < Position(rules, s.series, s.separations[i].right)
  }

  /** Every source has the title and address a snapshot requires. */
  ghost predicate Addressed(s: Snapshot) {
    forall i, a :: 0 <= i < |s.series| && 0 <= a < |s.series[i].sources| ==>
      s.series[i].sources[a].title != "" && s.series[i].sources[a].url != ""
  }

  lemma {:induction false} KeepLength<T>(rows: seq<T>, p: T -> bool)
    ensures |Keep(rows, p)| <= |rows|
    ensures Keep(rows, p) == rows <==> forall i :: 0 <= i < |rows| ==> p(rows[i])
  {
    if rows != [] {
      var before, last := rows[..|rows| - 1], rows[|rows| - 1];
      KeepLength(before, p);
      assert rows == before + [last];
      if Keep(rows, p) == rows {
        assert p(last);
        assert Keep(rows, p)[..|before|] == Keep(before, p);
      }
    }
  }

  lemma {:induction false} SourceUnchangedExactlyWhen(rules: Rules, s: Source)
    requires s.title != "" && s.url != ""
    ensures RestoredSource(rules, s) == s <==> AllMeaningful(rules, s.aliases) && AlternatesFilled(s)
  {
    KeepLength(s.aliases, Meaningful(rules));
    var filled := Project(s.alternates, FilledBy(s));
    if filled == s.alternates {
      forall i | 0 <= i < |s.alternates| ensures s.alternates[i].title != "" && s.alternates[i].url != "" {
        assert filled[i] == Filled(s, s.alternates[i]);
      }
    }
    if AlternatesFilled(s) {
      assert filled == s.alternates;
    }
  }

  lemma {:induction false} SeriesUnchangedExactlyWhen(rules: Rules, p: Series)
    requires forall a :: 0 <= a < |p.sources| ==> p.sources[a].title != "" && p.sources[a].url != ""
    ensures RestoredSeries(rules, p) == ClearedSeries(p) <==>
      && AliasesMeaningful(rules, p)
      && forall a :: 0 <= a < |p.sources| ==> AlternatesFilled(p.sources[a])
  {
    KeepLength(p.aliases, Meaningful(rules));
    var restored := Project(p.sources, Restoring(rules));
    forall a | 0 <= a < |p.sources|
      ensures restored[a] == p.sources[a]
        <==> AllMeaningful(rules, p.sources[a].aliases) && AlternatesFilled(p.sources[a])
    {
      SourceUnchangedExactlyWhen(rules, p.sources[a]);
    }
    assert restored == p.sources <==> forall a :: 0 <= a < |p.sources| ==> restored[a] == p.sources[a];
  }

  lemma {:induction false} SeparationUnchangedExactlyWhen(rules: Rules, series: seq<Series>, s: Separation)
    requires SeparationFits(rules, series, s)
    ensures Oriented(rules, series)(s) == s <==> Position(rules, series, s.left) < Position(rules, series, s.right)
  {
  }

  /**
   The round trip gives a snapshot back, but for the downloaded flags, exactly when its aliases mean
   something, its alternates are filled in, and its separations follow the order of the snapshot.
   */
  lemma {:induction false} ComesBackUnchangedExactlyWhen(rules: Rules, s: Snapshot)
    requires SeparationsFit(rules, s) && Addressed(s)
    ensures Restored(rules, s) == Cleared(s) <==>
      NoAliasLost(rules, s) && NothingToFill(s) && SeparationsInOrder(rules, s)
  {
    var series, cleared := Project(s.series, RestoringSeries(rules)), Project(s.series, ClearedSeries);
    forall i | 0 <= i < |s.series|
      ensures series[i] == cleared[i] <==>
        && AliasesMeaningful(rules, s.series[i])
        && forall a :: 0 <= a < |s.series[i].sources| ==> AlternatesFilled(s.series[i].sources[a])
    {
      SeriesUnchangedExactlyWhen(rules, s.series[i]);
    }
    assert series == cleared <==> forall i :: 0 <= i < |s.series| ==> series[i] == cleared[i];
    var separations := Project(s.separations, Oriented(rules, s.series));
    forall i | 0 <= i < |s.separations|
      ensures separations[i] == s.separations[i]
        <==> Position(rules, s.series, s.separations[i].left) < Position(rules, s.series, s.separations[i].right)
    {
      SeparationUnchangedExactlyWhen(rules, s.series, s.separations[i]);
    }
    assert separations == s.separations <==>
      forall i :: 0 <= i < |s.separations| ==> separations[i] == s.separations[i];
  }

  // ---------------------------------------------------------------- a second import

  /** A map from every key of a list to its position. */
  ghost predicate Indexes(rules: Rules, keys: map<Key, nat>, flat: seq<Source>) {
    forall x :: 0 <= x < |flat| ==> SourceKey(rules, flat[x]) in keys && keys[SourceKey(rules, flat[x])] == x
  }

  lemma {:induction false} IdentityMapIndexes(rules: Rules, rows: seq<IdentityRow>, flat: seq<Source>)
    requires |rows| == |flat| && forall x :: 0 <= x < |flat| ==>
      rows[x].source == flat[x].source && rows[x].sourceId == flat[x].sourceId
    requires forall x, y :: 0 <= x < y < |flat| ==> SourceKey(rules, flat[x]) != SourceKey(rules, flat[y])
    ensures Indexes(rules, IdentityMap(rules, rows), flat)
    ensures forall key :: key in IdentityMap(rules, rows) ==>
      exists x :: 0 <= x < |flat| && SourceKey(rules, flat[x]) == key
  {
    if rows != [] {
      var n := |rows| - 1;
      IdentityMapIndexes(rules, rows[..n], flat[..n]);
    }
  }

  lemma {:induction false} RestoredIndex(rules: Rules, s: Snapshot)
    requires AllApart(rules, Flat(s.series))
    ensures Indexes(rules, IdentityMap(rules, RestoredCatalog(rules, s).identities), Flat(s.series))
  {
    var rows, flat := RestoredCatalog(rules, s).identities, Flat(s.series);
    BuiltLength(rules, s.series);
    forall x | 0 <= x < |flat| ensures rows[x].source == flat[x].source && rows[x].sourceId == flat[x].sourceId {
      HomeOfBuilt(rules, s.series, x);
    }
    forall x, y | 0 <= x < y < |flat| ensures SourceKey(rules, flat[x]) != SourceKey(rules, flat[y]) {
      assert Unrelated(rules, flat[x], flat[y]);
    }
    IdentityMapIndexes(rules, rows, flat);
  }

  /** Every source of series `i` resolves to its own identity in that series. */
  lemma {:induction false} SourceResolvesHome(rules: Rules, s: Snapshot, keys: map<Key, nat>, i: nat, a: nat)
    returns (x: nat)
    requires Indexes(rules, keys, Flat(s.series)) && i < |s.series| && a < |s.series[i].sources|
    ensures Resolve(rules, RestoredCatalog(rules, s), keys, s.series[i].sources[a]) == Found(x)
    ensures x < |RestoredCatalog(rules, s).identities| && RestoredCatalog(rules, s).identities[x]
      == RowOf(i, s.series[i].sources[a])
  {
    x := FlatPosition(s.series, i, a);
    HomeOfBuilt(rules, s.series, x);
  }

  lemma {:induction false} SeriesResolvesHome(rules: Rules, s: Snapshot, keys: map<Key, nat>, i: nat,
                                              r: seq<Resolution>)
    requires Indexes(rules, keys, Flat(s.series)) && i < |s.series| && s.series[i].sources != []
    requires r == Resolutions(rules, Importing(RestoredCatalog(rules, s), keys, map[]), s.series[i].sources)
    ensures Ambiguous !in r && Homes(RestoredCatalog(rules, s), r) == {i} && CountMissing(r) == 0
  {
    var c, sources := RestoredCatalog(rules, s), s.series[i].sources;
    forall a | 0 <= a < |r|
      ensures r[a].Found? && r[a].identity < |c.identities| && c.identities[r[a].identity].series == i
    {
      var x := SourceResolvesHome(rules, s, keys, i, a);
    }
    assert c.identities[r[0].identity].series in Homes(c, r);
    NoneMissing(r);
  }

  lemma {:induction false} NoneMissing(r: seq<Resolution>)
    requires forall a :: 0 <= a < |r| ==> r[a].Found?
    ensures CountMissing(r) == 0
  {
    if r != [] {
      NoneMissing(r[..|r| - 1]);
    }
  }

  ghost function Claims(series: seq<Series>, n: nat): map<nat, string>
    requires n <= |series|
  {
    map i | 0 <= i < n :: series[i].title
  }

  lemma {:induction false} SecondPlanSeries(rules: Rules, s: Snapshot, keys: map<Key, nat>, n: nat)
    requires Indexes(rules, keys, Flat(s.series)) && n <= |s.series|
    requires forall i :: 0 <= i < |s.series| ==> s.series[i].sources != []
    ensures PlanSeries(rules, RestoredCatalog(rules, s), keys, s.series[..n])
      == Some(Plan(0, 0, 0, 0, Claims(s.series, n)))
  {
    if n > 0 {
      SecondPlanSeries(rules, s, keys, n - 1);
      assert s.series[..n][..n - 1] == s.series[..n - 1];
      var c, last := RestoredCatalog(rules, s), s.series[n - 1];
      var r := Resolutions(rules, Importing(c, keys, map[]), last.sources);
      SeriesResolvesHome(rules, s, keys, n - 1, r);
      PlanOneHome(Plan(0, 0, 0, 0, Claims(s.series, n - 1)), s.series, n - 1);
    } else {
      assert Claims(s.series, 0) == map[];
    }
  }

  lemma {:induction false} PlanOneHome(plan: Plan, series: seq<Series>, i: nat)
    requires i < |series| && plan == Plan(0, 0, 0, 0, Claims(series, i))
    ensures PlanOne(plan, {i}, 0, series[i].title) == Plan(0, 0, 0, 0, Claims(series, i + 1))
  {
    assert Contested(plan, {i}, series[i].title) == {};
    assert PlanOne(plan, {i}, 0, series[i].title).claimed == Claims(series, i + 1);
  }

  /** Importing the same snapshot again plans no creation, no merge and no conflict. */
  lemma {:induction false} SecondImportPlansNothing(rules: Rules, s: Snapshot)
    requires Exported(rules, s)
    ensures PlanImport(rules, RestoredCatalog(rules, s), s) == Some(Plan(0, 0, 0, 0, Claims(s.series, |s.series|)))
  {
    var keys := IdentityMap(rules, RestoredCatalog(rules, s).identities);
    RestoredIndex(rules, s);
    forall i | 0 <= i < |s.series| ensures s.series[i].sources != [] {
      assert TidySeries(rules, s.series[i]);
    }
    SecondPlanSeries(rules, s, keys, |s.series|);
    assert s.series[..|s.series|] == s.series;
    NoneMergedAndSeparated(rules, s.series, s.separations);
  }

  // ---------------------------------------------------------------- the whole round trip

  /** Every listing has an address, as snapshots require. */
  ghost predicate HasAddresses(c: Catalog) { forall j :: 0 <= j < |c.identities| ==> c.identities[j].url != "" }

  lemma {:induction false} ExportIsAddressed(rules: Rules, c: Catalog)
    requires SoundCatalog(rules, c) && HasAddresses(c)
    ensures Addressed(Export(rules, c))
  {
    var s := Export(rules, c);
    ExportedSeriesAllTidy(rules, c);
    forall i, a | 0 <= i < |s.series| && 0 <= a < |s.series[i].sources|
      ensures s.series[i].sources[a].title != "" && s.series[i].sources[a].url != ""
    {
      assert TidySeries(rules, s.series[i]);
      assert TidySource(rules, s.series[i].sources[a]);
      SourceRowsAreRows(c, ExportedRows(c)[i].0, a);
    }
  }

  lemma {:induction false} ExportedNamesMeaningful(rules: Rules, c: Catalog, p: AliasRow -> bool)
    requires Derived(rules, c)
    ensures AllMeaningful(rules, AliasList(Keep(c.aliases, p)))
  {
    var values := AliasList(Keep(c.aliases, p));
    forall i | 0 <= i < |values| ensures rules.normalise(values[i]) != "" {
      var r := AliasListRow(rules, c, p, i);
    }
  }

  /** No writer stores an alias that normalises to nothing, so no export loses one on the way. */
  lemma {:induction false} ExportLosesNoAlias(rules: Rules, c: Catalog)
    requires Derived(rules, c)
    ensures NoAliasLost(rules, Export(rules, c))
  {
    var rows, s := ExportedRows(c), Export(rules, c);
    forall i | 0 <= i < |s.series| ensures AliasesMeaningful(rules, s.series[i]) {
      ExportedNamesMeaningful(rules, c, OwnAlias(rows[i].0));
      forall a | 0 <= a < |s.series[i].sources| ensures AllMeaningful(rules, s.series[i].sources[a].aliases) {
        ExportedNamesMeaningful(rules, c, AliasOf(SourceRows(c, rows[i].0)[a].0));
      }
    }
  }

  /**
   For every sound catalogue without equivalent identities: the snapshot imports into an empty
   catalogue, exporting that gives the snapshot back apart from the downloaded flags exactly when
   its alternates are filled in and its separations in order, and importing it again plans nothing.
   */
  lemma {:induction false} CatalogRoundTrip(rules: Rules, c: Catalog) returns (d: Catalog)
    requires SoundCatalog(rules, c) && Separable(rules, c) && HasAddresses(c)
    ensures Import(rules, EmptyCatalog, Export(rules, c)) == Some(d)
    ensures Export(rules, d) == Restored(rules, Export(rules, c))
    ensures Export(rules, d) == Cleared(Export(rules, c)) <==>
      NothingToFill(Export(rules, c)) && SeparationsInOrder(rules, Export(rules, c))
    ensures var plan := PlanImport(rules, d, Export(rules, c));
      plan.Some? && plan.value.createSeries == plan.value.createSources == plan.value.mergeSeries
        == plan.value.conflicts == 0
  {
    var s := Export(rules, c);
    ExportIsExported(rules, c);
    ExportIsAddressed(rules, c);
    ExportLosesNoAlias(rules, c);
    d := RestoredCatalog(rules, s);
    SnapshotRoundTrip(rules, s);
    ComesBackUnchangedExactlyWhen(rules, s);
    SecondImportPlansNothing(rules, s);
  }

  /** Chapter numbers stored by canonicalisation are canonical, as a sound catalogue requires. */
  lemma {:induction false} StoredNumbersAreCanonical(rules: Rules, text: string)
    requires forall t :: rules.canonical(t) == ChapterNumbers.CanonicalChapterNumber(t)
    ensures rules.canonical(rules.canonical(text)) == rules.canonical(text)
  {
    ChapterNumbers.CanonicalIsIdempotent(text);
  }
}
