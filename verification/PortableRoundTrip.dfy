/** Export, import into an empty catalogue, export again. */
module PortableRoundTrip {

  import opened Options
  import TextOrder
  import opened Sequences
  import opened Tables
  import opened PortableState
  import opened PortableBuild
  import opened PortableImport

  // ---------------------------------------------------------------- positions in a snapshot

  /** The snapshot series that the source at position `x` belongs to. */
  function Home(series: seq<Series>, x: nat): nat
    requires x < |Flat(series)|
  {
    var before := series[..|series| - 1];
    if x < |Flat(before)| then Home(before, x) else |series| - 1
  }

  function HasKey(rules: Rules, key: Key): Source -> bool { (s: Source) => SourceKey(rules, s) == key }

  /** Where the snapshot lists the identity a reference names. */
  function Position(rules: Rules, series: seq<Series>,
                    r: Ref): nat { Find(Flat(series), HasKey(rules, RefKey(rules, r))) }

  function SourceRef(s: Source): Ref { Ref(s.source, s.sourceId) }

  /** A separation names two listed identities of different series. */
  ghost predicate SeparationFits(rules: Rules, series: seq<Series>, s: Separation) {
    var flat, x, y := Flat(series), Position(rules, series, s.left), Position(rules, series, s.right);
    && x < |flat| && y < |flat| && SourceRef(flat[x]) == s.left && SourceRef(flat[y]) == s.right
    && Home(series, x) != Home(series, y)
  }

  function Pair(rules: Rules, series: seq<Series>, s: Separation): (nat, nat) {
    var x, y := Position(rules, series, s.left), Position(rules, series, s.right);
    if x < y then (x, y) else (y, x)
  }

  /** Left is the identity the snapshot lists first. */
  function Oriented(rules: Rules, series: seq<Series>): Separation -> Separation {
    (s: Separation) =>
      if Position(rules, series, s.left) < Position(rules, series, s.right) then s else Separation(s.right, s.left)
  }

  ghost predicate SeparationsFit(rules: Rules, s: Snapshot) {
    && (forall i :: 0 <= i < |s.separations| ==> SeparationFits(rules, s.series, s.separations[i]))
    && (forall i, j :: 0 <= i < j < |s.separations| ==>
          Pair(rules, s.series, s.separations[i]) != Pair(rules, s.series, s.separations[j]))
  }

  ghost predicate TouchedBy(rules: Rules, series: seq<Series>, s: Separation, i: nat) {
    var x, y := Position(rules, series, s.left), Position(rules, series, s.right);
    (x < |Flat(series)| && Home(series, x) == i) || (y < |Flat(series)| && Home(series, y) == i)
  }

  /** The reason a series is in the snapshot is in the snapshot too. */
  ghost predicate Reselected(rules: Rules, s: Snapshot, i: nat)
    requires i < |s.series|
  {
    || s.series[i].status != Untracked
    || |s.series[i].sources| > 1
    || exists n :: 0 <= n < |s.separations| && TouchedBy(rules, s.series, s.separations[n], i)
  }

  ghost predicate TitlesInOrder(rules: Rules, series: seq<Series>) {
    forall i, j :: 0 <= i < j < |series| ==>
      !TextOrder.Less(rules.normalise(series[j].title), rules.normalise(series[i].title))
  }

  ghost predicate ProvidersInOrder(providers: seq<Preference>) {
    forall i, j :: 0 <= i < j < |providers| ==>
      !TextOrder.Less(providers[j].source, providers[i].source) && providers[i].source != providers[j].source
  }

  /** A snapshot as an export writes it. */
  ghost predicate Exported(rules: Rules, s: Snapshot) {
    && AllTidy(rules, s.series) && Importable(rules, s.series) && TitlesInOrder(rules, s.series)
    && SeparationsFit(rules, s) && (forall i :: 0 <= i < |s.series| ==> Reselected(rules, s, i))
    && ProvidersInOrder(s.providers)
  }

  function RestoringSeries(rules: Rules): Series -> Series { (p: Series) => RestoredSeries(rules, p) }

  /** What comes back: see `ComesBackUnchangedExactlyWhen` for when that is the snapshot itself. */
  function Restored(rules: Rules, s: Snapshot): Snapshot {
    Snapshot(Project(s.series, RestoringSeries(rules)), Project(s.separations, Oriented(rules, s.series)), s.providers)
  }

  // ---------------------------------------------------------------- where rows end up

  lemma {:induction false} HomeOfBuilt(rules: Rules, series: seq<Series>, x: nat)
    requires x < |Flat(series)|
    ensures Home(series, x) < |series|
    ensures |BuildAll(rules, series).identities| == |Flat(series)|
    ensures BuildAll(rules, series).identities[x] == RowOf(Home(series, x), Flat(series)[x])
  {
    var before, last := series[..|series| - 1], series[|series| - 1];
    var c := BuildAll(rules, before);
    BuiltShape(rules, before);
    BuiltLength(rules, before);
    BuildSourcesRows(rules, Opened(rules, c, last), |c.series|, last.sources);
    if x < |Flat(before)| {
      HomeOfBuilt(rules, before, x);
    }
  }

  lemma {:induction false} BuiltLength(rules: Rules, series: seq<Series>)
    ensures |BuildAll(rules, series).identities| == |Flat(series)|
  {
    if series != [] {
      var before, last := series[..|series| - 1], series[|series| - 1];
      BuiltLength(rules, before);
      BuildSourcesRows(rules, Opened(rules, BuildAll(rules, before), last), |BuildAll(rules, before).series|,
                       last.sources);
    }
  }

  lemma {:induction false} KeysDiffer(rules: Rules, flat: seq<Source>, x: nat)
    requires AllApart(rules, flat) && x < |flat|
    ensures forall y :: 0 <= y < |flat| && y != x ==> SourceKey(rules, flat[y]) != SourceKey(rules, flat[x])
  {
    forall y | 0 <= y < |flat| && y != x ensures SourceKey(rules, flat[y]) != SourceKey(rules, flat[x]) {
      assert y < x ==> Unrelated(rules, flat[y], flat[x]);
      assert x < y ==> Unrelated(rules, flat[x], flat[y]);
    }
  }

  lemma {:induction false} PositionIs(rules: Rules, series: seq<Series>, x: nat)
    requires AllApart(rules, Flat(series)) && x < |Flat(series)|
    ensures Position(rules, series, SourceRef(Flat(series)[x])) == x
  {
    var flat := Flat(series);
    var y := Position(rules, series, SourceRef(flat[x]));
    assert HasKey(rules, SourceKey(rules, flat[x]))(flat[x]);
    KeysDiffer(rules, flat, x);
  }

  lemma {:induction false} PairOfSeparation(rules: Rules, st: Importing, series: seq<Series>, s: Separation)
    requires Imported(rules, st, series) && SeparationFits(rules, series, s)
    ensures PairOf(rules, st, s) == Some(Pair(rules, series, s))
  {
    var flat, x, y := Flat(series), Position(rules, series, s.left), Position(rules, series, s.right);
    assert RefKey(rules, s.left) == SourceKey(rules, flat[x]) && RefKey(rules, s.right) == SourceKey(rules, flat[y]);
    HomeOfBuilt(rules, series, x);
    HomeOfBuilt(rules, series, y);
  }

  function DecisionOf(rules: Rules, series: seq<Series>): Separation -> DecisionRow {
    (s: Separation) => DecisionRow(Pair(rules, series, s).0, Pair(rules, series, s).1, true)
  }

  lemma {:induction false} AddDecisionAppends(rows: seq<DecisionRow>, pair: (nat, nat))
    requires forall i :: 0 <= i < |rows| ==> (rows[i].left, rows[i].right) != pair
    ensures AddDecision(rows, pair) == rows + [DecisionRow(pair.0, pair.1, true)]
  {
  }

  function RejectedPair(pair: (nat, nat)): DecisionRow { DecisionRow(pair.0, pair.1, true) }

  /** Separations that resolve to different pairs are each stored as a rejected decision. */
  lemma {:induction false} AddSeparationsBuilds(rules: Rules, st: Importing, separations: seq<Separation>,
                                                pairs: seq<(nat, nat)>)
    requires st.c.decisions == [] && |pairs| == |separations| && Distinct(pairs)
    requires forall i :: 0 <= i < |separations| ==> PairOf(rules, st, separations[i]) == Some(pairs[i])
    ensures AddSeparations(rules, st, separations) == Some(Project(pairs, RejectedPair))
  {
    if separations != [] {
      var n := |separations| - 1;
      AddSeparationsBuilds(rules, st, separations[..n], pairs[..n]);
      SeparationLast(pairs[..n], pairs[n]);
      SeparationsStep(rules, st, separations, Project(pairs[..n], RejectedPair), pairs[n]);
      assert pairs == pairs[..n] + [pairs[n]];
    }
  }

  lemma {:induction false} SeparationsStep(rules: Rules, st: Importing, separations: seq<Separation>,
                                           rows: seq<DecisionRow>, pair: (nat, nat))
    requires separations != [] && AddSeparations(rules, st, separations[..|separations| - 1]) == Some(rows)
    requires PairOf(rules, st, separations[|separations| - 1]) == Some(pair)
    ensures AddSeparations(rules, st, separations) == Some(AddDecision(rows, pair))
  {
  }

  lemma {:induction false} SeparationLast(before: seq<(nat, nat)>, last: (nat, nat))
    requires forall i :: 0 <= i < |before| ==> before[i] != last
    ensures AddDecision(Project(before, RejectedPair), last) == Project(before + [last], RejectedPair)
  {
    var rows := Project(before, RejectedPair);
    forall i | 0 <= i < |rows| ensures (rows[i].left, rows[i].right) != last {
      assert rows[i] == RejectedPair(before[i]);
    }
    AddDecisionAppends(rows, last);
    ProjectStep(before, last, RejectedPair);
  }

  function PairIn(rules: Rules, series: seq<Series>): Separation -> (nat,
                  nat) { (s: Separation) => Pair(rules, series, s) }

  lemma {:induction false} RestoredDecisions(rules: Rules, st: Importing, s: Snapshot)
    requires Imported(rules, st, s.series) && st.c.decisions == [] && SeparationsFit(rules, s)
    ensures AddSeparations(rules, st, s.separations) == Some(Project(s.separations, DecisionOf(rules, s.series)))
  {
    var pairs := Project(s.separations, PairIn(rules, s.series));
    forall i | 0 <= i < |s.separations| ensures PairOf(rules, st, s.separations[i]) == Some(pairs[i]) {
      PairOfSeparation(rules, st, s.series, s.separations[i]);
    }
    forall i, j | 0 <= i < j < |pairs| ensures pairs[i] != pairs[j] {
      assert Pair(rules, s.series, s.separations[i]) != Pair(rules, s.series, s.separations[j]);
    }
    AddSeparationsBuilds(rules, st, s.separations, pairs);
    assert Project(pairs, RejectedPair) == Project(s.separations, DecisionOf(rules, s.series));
  }

  function NewProvider(p: Preference): ProviderRow { ProviderRow(p.source, p.enabled) }

  lemma {:induction false} AddProvidersBuilds(providers: seq<Preference>)
    requires ProvidersInOrder(providers)
    ensures AddProviders([], providers) == Project(providers, NewProvider)
  {
    if providers != [] {
      var n := |providers| - 1;
      var before, last := providers[..n], providers[n];
      AddProvidersBuilds(before);
      assert providers == before + [last];
      ProviderLast(before, last);
    }
  }

  lemma {:induction false} ProviderLast(before: seq<Preference>, last: Preference)
    requires forall i :: 0 <= i < |before| ==> before[i].source != last.source
    ensures AddProvider(Project(before, NewProvider), last) == Project(before + [last], NewProvider)
  {
    var rows := Project(before, NewProvider);
    forall i | 0 <= i < |rows| ensures !ProviderNamed(last.source)(rows[i]) {
      assert rows[i] == NewProvider(before[i]);
    }
    ProjectStep(before, last, NewProvider);
  }

  // ---------------------------------------------------------------- planning against an empty catalogue

  lemma {:induction false} NothingResolves(rules: Rules, sources: seq<Source>)
    ensures Resolutions(rules, Nothing, sources) == AllMissing(|sources|)
    ensures Ambiguous !in Resolutions(rules, Nothing, sources)
    ensures Homes(EmptyCatalog, Resolutions(rules, Nothing, sources)) == {}
  {
    var r := Resolutions(rules, Nothing, sources);
    forall i | 0 <= i < |sources| ensures r[i] == Missing {
      assert Matches(rules, EmptyCatalog, map[], sources[i]) == {};
    }
  }

  lemma {:induction false} CountAllMissing(n: nat)
    ensures CountMissing(AllMissing(n)) == n
  {
    if n > 0 {
      CountAllMissing(n - 1);
      assert AllMissing(n)[..n - 1] == AllMissing(n - 1);
    }
  }

  lemma {:induction false} NothingToFind(rules: Rules, sources: seq<Source>)
    ensures var r := Resolutions(rules, Nothing, sources);
      Ambiguous !in r && Homes(EmptyCatalog, r) == {} && CountMissing(r) == |sources|
  {
    NothingResolves(rules, sources);
    CountAllMissing(|sources|);
  }

  lemma {:induction false} PlanCreates(plan: Plan, missing: nat, title: string)
    requires plan.claimed == map[]
    ensures PlanOne(plan, {}, missing, title)
      == plan.(createSeries := plan.createSeries + 1, createSources := plan.createSources + missing)
  {
    assert Contested(plan, {}, title) == {};
  }

  /** A first import plans to create every series and every source, and to merge nothing. */
  lemma {:induction false} FirstPlan(rules: Rules, series: seq<Series>) returns (plan: Plan)
    ensures PlanSeries(rules, EmptyCatalog, map[], series) == Some(plan)
    ensures plan == Plan(|series|, |Flat(series)|, 0, 0, map[])
  {
    if series == [] {
      plan := NoPlan;
    } else {
      var last := series[|series| - 1];
      var before := FirstPlan(rules, series[..|series| - 1]);
      NothingToFind(rules, last.sources);
      PlanStep(rules, series, before, |last.sources|);
      PlanCreates(before, |last.sources|, last.title);
      plan := PlanOne(before, {}, |last.sources|, last.title);
    }
  }

  lemma {:induction false} PlanStep(rules: Rules, series: seq<Series>, plan: Plan, missing: nat)
    requires series != [] && PlanSeries(rules, EmptyCatalog, map[], series[..|series| - 1]) == Some(plan)
    requires var r := Resolutions(rules, Nothing, series[|series| - 1].sources);
      Ambiguous !in r && Homes(EmptyCatalog, r) == {} && CountMissing(r) == missing
    ensures PlanSeries(rules, EmptyCatalog, map[], series)
      == Some(PlanOne(plan, {}, missing, series[|series| - 1].title))
  {
  }

  // ---------------------------------------------------------------- no separation inside a series

  lemma {:induction false} FlatHome(series: seq<Series>, x: nat)
    requires x < |Flat(series)|
    ensures Home(series, x) < |series| && Flat(series)[x] in series[Home(series, x)].sources
  {
    var before := series[..|series| - 1];
    if x < |Flat(before)| {
      FlatHome(before, x);
    }
  }

  lemma {:induction false} FlatPosition(series: seq<Series>, i: nat, a: nat) returns (x: nat)
    requires i < |series| && a < |series[i].sources|
    ensures x < |Flat(series)| && Flat(series)[x] == series[i].sources[a] && Home(series, x) == i
  {
    var n := |series| - 1;
    var before := series[..n];
    if i == n {
      x := |Flat(before)| + a;
    } else {
      x := FlatPosition(before, i, a);
    }
  }

  lemma {:induction false} OwnerIsHome(rules: Rules, series: seq<Series>, x: nat)
    requires AllApart(rules, Flat(series)) && x < |Flat(series)|
    ensures Owner(rules, series, SourceKey(rules, Flat(series)[x])) == Home(series, x)
  {
    var flat, key := Flat(series), SourceKey(rules, Flat(series)[x]);
    FlatHome(series, x);
    KeysDiffer(rules, flat, x);
    var home := Home(series, x);
    assert Lists(rules, key)(series[home]);
    var owner := Owner(rules, series, key);
    if owner < home {
      var a :| 0 <= a < |series[owner].sources| && SourceKey(rules, series[owner].sources[a]) == key;
      var y := FlatPosition(series, owner, a);
    }
  }

  lemma {:induction false} NoneMergedAndSeparated(rules: Rules, series: seq<Series>, separations: seq<Separation>)
    requires AllApart(rules, Flat(series))
    requires forall i :: 0 <= i < |separations| ==> SeparationFits(rules, series, separations[i])
    ensures Keep(separations, MergedAndSeparated(rules, series)) == []
  {
    forall i | 0 <= i < |separations| ensures !MergedAndSeparated(rules, series)(separations[i]) {
      var s := separations[i];
      OwnerIsHome(rules, series, Position(rules, series, s.left));
      OwnerIsHome(rules, series, Position(rules, series, s.right));
    }
    KeepNone(separations, MergedAndSeparated(rules, series));
  }

  // ---------------------------------------------------------------- the import

  /** The catalogue an exported snapshot is imported as. */
  function RestoredCatalog(rules: Rules, s: Snapshot): Catalog {
    BuildAll(rules, s.series).(decisions := Project(s.separations, DecisionOf(rules, s.series)),
                               providers := Project(s.providers, NewProvider))
  }

  lemma {:induction false} ImportSucceeds(rules: Rules, s: Snapshot)
    requires Importable(rules, s.series) && SeparationsFit(rules, s) && ProvidersInOrder(s.providers)
    ensures PlanImport(rules, EmptyCatalog, s) == Some(Plan(|s.series|, |Flat(s.series)|, 0, 0, map[]))
    ensures Import(rules, EmptyCatalog, s) == Some(RestoredCatalog(rules, s))
  {
    var plan := FirstPlan(rules, s.series);
    NoneMergedAndSeparated(rules, s.series, s.separations);
    var st := AddAllSeriesBuilds(rules, s.series);
    BuiltShape(rules, s.series);
    RestoredDecisions(rules, st, s);
    AddProvidersBuilds(s.providers);
  }

  // ---------------------------------------------------------------- exporting what was imported

  /** Decisions and providers do not show in the view of a series. */
  lemma {:induction false} ViewIgnoresRest(rules: Rules, c: Catalog, d: Catalog, series: (nat, SeriesRow))
    requires d == c.(decisions := d.decisions, providers := d.providers)
    ensures SeriesView(rules, d, series) == SeriesView(rules, c, series)
  {
    var rows := SourceRows(c, series.0);
    assert SourceRows(d, series.0) == rows;
    forall i | 0 <= i < |rows|
      ensures SourceView(d, rows[i], series.1.title) == SourceView(c, rows[i], series.1.title)
    {
    }
    assert SourceViews(d, rows, series.1.title) == SourceViews(c, rows, series.1.title);
  }

  lemma {:induction false} RestoredView(rules: Rules, s: Snapshot, i: nat)
    requires i < |s.series| && TidySeries(rules, s.series[i])
    ensures SeriesView(rules, RestoredCatalog(rules, s), (i, NewRow(rules, s.series[i])))
      == RestoredSeries(rules, s.series[i])
  {
    SeriesViewOfBuilt(rules, s.series, i);
    ViewIgnoresRest(rules, BuildAll(rules, s.series), RestoredCatalog(rules, s), (i, NewRow(rules, s.series[i])));
  }

  lemma {:induction false} RestoredSourceCount(rules: Rules, s: Snapshot, i: nat)
    requires i < |s.series| && TidySeries(rules, s.series[i])
    ensures var c := RestoredCatalog(rules, s);
      && |SourceRows(c, i)| == |s.series[i].sources|
      && |Keep(Numbered(c.identities), IdentityOf(i))| == |s.series[i].sources|
  {
    var c := RestoredCatalog(rules, s);
    RestoredView(rules, s, i);
    assert |SeriesView(rules, c, (i, NewRow(rules, s.series[i]))).sources| == |SourceRows(c, i)|;
    var kept := Keep(Numbered(c.identities), IdentityOf(i));
    IdentityBeforeOrders();
    SortSorts(kept, IdentityBefore);
    SameMembers(Sort(kept, IdentityBefore), kept);
  }

  lemma {:induction false} SeparationTouches(rules: Rules, s: Snapshot, n: nat, i: nat)
    requires SeparationsFit(rules, s) && n < |s.separations| && TouchedBy(rules, s.series, s.separations[n], i)
    ensures var c := RestoredCatalog(rules, s); n < |c.decisions| && RejectedTouches(c, c.decisions[n], i)
  {
    var sep := s.separations[n];
    assert SeparationFits(rules, s.series, sep);
    HomeOfBuilt(rules, s.series, Position(rules, s.series, sep.left));
    HomeOfBuilt(rules, s.series, Position(rules, s.series, sep.right));
  }

  lemma {:induction false} RestoredIsSelected(rules: Rules, s: Snapshot, i: nat)
    requires i < |s.series| && TidySeries(rules, s.series[i]) && SeparationsFit(rules, s) && Reselected(rules, s, i)
    ensures Selected(RestoredCatalog(rules, s), (i, NewRow(rules, s.series[i])))
    ensures SourceRows(RestoredCatalog(rules, s), i) != []
  {
    RestoredSourceCount(rules, s, i);
    if s.series[i].status == Untracked && |s.series[i].sources| <= 1 {
      var n :| 0 <= n < |s.separations| && TouchedBy(rules, s.series, s.separations[n], i);
      SeparationTouches(rules, s, n, i);
    }
  }

  lemma {:induction false} RestoredRows(rules: Rules, s: Snapshot)
    ensures var c := RestoredCatalog(rules, s);
      |c.series| == |s.series| && forall i :: 0 <= i < |s.series| ==>
        Numbered(c.series)[i] == (i, NewRow(rules, s.series[i]))
  {
    BuiltShape(rules, s.series);
  }

  /** Every restored series is exported again, in the same order. */
  lemma {:induction false} AllReexported(rules: Rules, s: Snapshot)
    requires AllTidy(rules, s.series) && TitlesInOrder(rules, s.series) && SeparationsFit(rules, s)
    requires forall i :: 0 <= i < |s.series| ==> Reselected(rules, s, i)
    ensures ExportedRows(RestoredCatalog(rules, s)) == Numbered(RestoredCatalog(rules, s).series)
  {
    var c := RestoredCatalog(rules, s);
    var rows := Numbered(c.series);
    RestoredRows(rules, s);
    forall i | 0 <= i < |rows| ensures SelectedIn(c)(rows[i]) && HasSources(c)(rows[i]) {
      RestoredIsSelected(rules, s, i);
    }
    KeepAll(rows, SelectedIn(c));
    forall i, j | 0 <= i < j < |rows| ensures !TextOrder.Less(SeriesKey(rows[j]), SeriesKey(rows[i])) {
      assert SeriesKey(rows[i]) == rules.normalise(s.series[i].title) && SeriesKey(rows[j])
        == rules.normalise(s.series[j].title);
    }
    InKeyOrder(rows, SeriesKey);
    KeepAll(rows, HasSources(c));
  }

  lemma {:induction false} RestoredSeriesList(rules: Rules, s: Snapshot)
    requires AllTidy(rules, s.series)
    ensures SeriesViews(rules, RestoredCatalog(rules, s), Numbered(RestoredCatalog(rules, s).series))
      == Project(s.series, RestoringSeries(rules))
  {
    var c := RestoredCatalog(rules, s);
    RestoredRows(rules, s);
    forall i | 0 <= i < |s.series|
      ensures SeriesView(rules, c, Numbered(c.series)[i]) == RestoredSeries(rules, s.series[i])
    {
      RestoredView(rules, s, i);
    }
  }

  lemma {:induction false} IdentityReexported(rules: Rules, s: Snapshot, x: nat)
    requires x < |Flat(s.series)| && ExportedRows(RestoredCatalog(rules, s))
      == Numbered(RestoredCatalog(rules, s).series)
    ensures IdentityExported(RestoredCatalog(rules, s), x)
    ensures RefOf(RestoredCatalog(rules, s), x) == SourceRef(Flat(s.series)[x])
  {
    HomeOfBuilt(rules, s.series, x);
    RestoredRows(rules, s);
    var home := Home(s.series, x);
    assert ExportedRows(RestoredCatalog(rules, s))[home].0 == home;
  }

  lemma {:induction false} DecisionReexported(rules: Rules, s: Snapshot, n: nat)
    requires n < |s.separations| && SeparationFits(rules, s.series, s.separations[n])
    requires ExportedRows(RestoredCatalog(rules, s)) == Numbered(RestoredCatalog(rules, s).series)
    ensures var c := RestoredCatalog(rules, s);
      && RejectedIn(c)(c.decisions[n])
      && SeparationOf(c)(c.decisions[n]) == Oriented(rules, s.series)(s.separations[n])
  {
    var sep := s.separations[n];
    IdentityReexported(rules, s, Position(rules, s.series, sep.left));
    IdentityReexported(rules, s, Position(rules, s.series, sep.right));
  }

  lemma {:induction false} SeparationsReexported(rules: Rules, s: Snapshot)
    requires SeparationsFit(rules, s)
    requires ExportedRows(RestoredCatalog(rules, s)) == Numbered(RestoredCatalog(rules, s).series)
    ensures var c := RestoredCatalog(rules, s);
      Project(Keep(c.decisions, RejectedIn(c)), SeparationOf(c)) == Project(s.separations, Oriented(rules, s.series))
  {
    var c := RestoredCatalog(rules, s);
    forall n | 0 <= n < |s.separations|
      ensures RejectedIn(c)(c.decisions[n]) && SeparationOf(c)(c.decisions[n])
        == Oriented(rules, s.series)(s.separations[n])
    {
      DecisionReexported(rules, s, n);
    }
    KeepAll(c.decisions, RejectedIn(c));
  }

  lemma {:induction false} ProvidersReexported(rules: Rules, s: Snapshot)
    requires ProvidersInOrder(s.providers)
    ensures Project(Sort(RestoredCatalog(rules, s).providers, ByText(ProviderKey)), ProviderEntry) == s.providers
  {
    var rows := RestoredCatalog(rules, s).providers;
    forall i | 0 <= i < |rows|
      ensures ProviderKey(rows[i]) == s.providers[i].source && ProviderEntry(rows[i]) == s.providers[i]
    {
      assert rows[i] == NewProvider(s.providers[i]);
    }
    InKeyOrder(rows, ProviderKey);
  }

  /** Importing an exported snapshot into an empty catalogue and exporting again gives it back restored. */
  lemma {:induction false} SnapshotRoundTrip(rules: Rules, s: Snapshot)
    requires Exported(rules, s)
    ensures Import(rules, EmptyCatalog, s) == Some(RestoredCatalog(rules, s))
    ensures Export(rules, RestoredCatalog(rules, s)) == Restored(rules, s)
  {
    ImportSucceeds(rules, s);
    AllReexported(rules, s);
    RestoredSeriesList(rules, s);
    SeparationsReexported(rules, s);
    ProvidersReexported(rules, s);
  }
}
