/** The catalogue an import writes, in closed form, and what exporting it gives. */
module PortableBuild {

  import opened Options
  import TextOrder
  import opened Tables
  import opened PortableState

  // ---------------------------------------------------------------- closed form

  function Meaningful(rules: Rules): string -> bool { (v: string) => rules.normalise(v) != "" }

  function NewAlias(rules: Rules, series: nat, identity: Option<nat>): string -> AliasRow {
    (v: string) => AliasRow(series, identity, v, rules.normalise(v))
  }
  function NewExternal(identity: nat): ((string, string)) -> ExternalRow {
    (e: (string, string)) => ExternalRow(identity, e.0, e.1)
  }
  function NewReading(series: nat): ReadingState -> ReadingRow {
    (r: ReadingState) => ReadingRow(series, r.chapter, r.status, r.readAt)
  }
  function FilledBy(s: Source): Alternate -> Alternate { (a: Alternate) => Filled(s, a) }

  function AliasRows(rules: Rules, series: nat, identity: Option<nat>, values: seq<string>): seq<AliasRow> {
    Project(Keep(values, Meaningful(rules)), NewAlias(rules, series, identity))
  }

  function BuildSource(rules: Rules, c: Catalog, series: nat, s: Source): Catalog {
    var j := |c.identities|;
    c.(identities := c.identities + [RowOf(series, s)],
       aliases := c.aliases + AliasRows(rules, series, Some(j), s.aliases),
       externals := c.externals + Project(s.externals, NewExternal(j)),
       alternates := c.alternates + Project(s.alternates, NewAlternate(j, s)))
  }

  function BuildSources(rules: Rules, c: Catalog, series: nat, sources: seq<Source>): Catalog {
    if sources == [] then c
    else BuildSource(rules, BuildSources(rules, c, series, sources[..|sources| - 1]), series, sources[|sources| - 1])
  }

  function Opened(rules: Rules, c: Catalog, p: Series): Catalog {
    c.(series := c.series + [NewRow(rules, p)], aliases := c.aliases + AliasRows(rules, |c.series|, None, p.aliases))
  }

  function BuildSeries(rules: Rules, c: Catalog, p: Series): Catalog {
    var listed := BuildSources(rules, Opened(rules, c, p), |c.series|, p.sources);
    listed.(readings := listed.readings + Project(p.reading, NewReading(|c.series|)))
  }

  function BuildAll(rules: Rules, series: seq<Series>): Catalog {
    if series == [] then EmptyCatalog
    else BuildSeries(rules, BuildAll(rules, series[..|series| - 1]), series[|series| - 1])
  }

  // ---------------------------------------------------------------- what a round trip restores

  function RestoredSource(rules: Rules, s: Source): Source {
    s.(aliases := Keep(s.aliases, Meaningful(rules)), alternates := Project(s.alternates, FilledBy(s)))
  }

  function Restoring(rules: Rules): Source -> Source { (s: Source) => RestoredSource(rules, s) }

  function RestoredSeries(rules: Rules, p: Series): Series {
    p.(downloaded := false, aliases := Keep(p.aliases, Meaningful(rules)),
       sources := Project(p.sources, Restoring(rules)))
  }

  // ---------------------------------------------------------------- tidy snapshots

  ghost predicate SortedValues(rules: Rules, values: seq<string>) {
    forall i, j :: 0 <= i < j < |values| ==> !TextOrder.Less(rules.normalise(values[j]), rules.normalise(values[i]))
  }

  ghost predicate SortedEntries(entries: seq<(string, string)>) {
    forall i, j :: 0 <= i < j < |entries| ==> !TextOrder.Less(entries[j].0, entries[i].0)
  }

  ghost predicate SortedAlternates(entries: seq<Alternate>) {
    forall i, j :: 0 <= i < j < |entries| ==> !TextOrder.Less(entries[j].sourceId, entries[i].sourceId)
  }

  ghost predicate SortedReading(rules: Rules, entries: seq<ReadingState>) {
    forall i, j :: 0 <= i < j < |entries| ==> !rules.chapterBefore(entries[j].chapter, entries[i].chapter)
  }

  predicate SourceBefore(a: Source, b: Source) {
    TextOrder.Less(a.source, b.source) || (a.source == b.source && TextOrder.Less(a.sourceId, b.sourceId))
  }

  ghost predicate TidySource(rules: Rules, s: Source) {
    && s.title != ""
    && SortedValues(rules, s.aliases) && SortedEntries(s.externals) && SortedAlternates(s.alternates)
  }

  ghost predicate TidySources(rules: Rules, sources: seq<Source>) {
    && (forall i :: 0 <= i < |sources| ==> TidySource(rules, sources[i]))
    && (forall i, j :: 0 <= i < j < |sources| ==> !SourceBefore(sources[j], sources[i]))
  }

  ghost predicate HasProgress(entries: seq<ReadingState>) {
    forall i :: 0 <= i < |entries| ==> entries[i].status != Unread || entries[i].readAt != None
  }

  ghost predicate TidySeries(rules: Rules, p: Series) {
    && p.sources != [] && TidySources(rules, p.sources)
    && SortedValues(rules, p.aliases) && SortedReading(rules, p.reading) && HasProgress(p.reading)
  }

  // ---------------------------------------------------------------- references and growth

  /** Rows name existing identities. */
  ghost predicate Below(c: Catalog) {
    && (forall i :: 0 <= i < |c.aliases| && c.aliases[i].identity.Some? ==>
          c.aliases[i].identity.value < |c.identities|)
    && (forall i :: 0 <= i < |c.externals| ==> c.externals[i].identity < |c.identities|)
    && (forall i :: 0 <= i < |c.alternates| ==> c.alternates[i].primary < |c.identities|)
  }

  /** Rows name existing identities and series. */
  ghost predicate Refs(c: Catalog) {
    && Below(c)
    && (forall i :: 0 <= i < |c.identities| ==> c.identities[i].series < |c.series|)
    && (forall i :: 0 <= i < |c.aliases| ==> c.aliases[i].series < |c.series|)
    && (forall i :: 0 <= i < |c.readings| ==> c.readings[i].series < |c.series|)
  }

  /** `d` adds rows to `c`, all of them for identities `c` does not have. */
  ghost predicate Later(c: Catalog, d: Catalog) {
    && c.aliases <= d.aliases && c.externals <= d.externals && c.alternates <= d.alternates
    && (forall i :: |c.aliases| <= i < |d.aliases| && d.aliases[i].identity.Some? ==>
          d.aliases[i].identity.value >= |c.identities|)
    && (forall i :: |c.externals| <= i < |d.externals| ==> d.externals[i].identity >= |c.identities|)
    && (forall i :: |c.alternates| <= i < |d.alternates| ==> d.alternates[i].primary >= |c.identities|)
  }

  /** `d` adds rows to `c`, all of them for series from `s` on and for new identities. */
  ghost predicate Extends(c: Catalog, d: Catalog, s: nat) {
    && Later(c, d)
    && c.series <= d.series && c.identities <= d.identities && c.readings <= d.readings
    && (forall i :: |c.identities| <= i < |d.identities| ==> d.identities[i].series >= s)
    && (forall i :: |c.aliases| <= i < |d.aliases| ==> d.aliases[i].series >= s)
    && (forall i :: |c.readings| <= i < |d.readings| ==> d.readings[i].series >= s)
  }

  lemma {:induction false} KeepGrown<T>(rows: seq<T>, more: seq<T>, p: T -> bool)
    requires rows <= more && forall i :: |rows| <= i < |more| ==> !p(more[i])
    ensures Keep(more, p) == Keep(rows, p)
  {
    var added := more[|rows|..];
    assert more == rows + added;
    KeepSplit(rows, added, p);
    KeepNone(added, p);
  }

  lemma {:induction false} KeepNew<T>(rows: seq<T>, added: seq<T>, p: T -> bool)
    requires forall i :: 0 <= i < |rows| ==> !p(rows[i])
    requires forall i :: 0 <= i < |added| ==> p(added[i])
    ensures Keep(rows + added, p) == added
  {
    KeepSplit(rows, added, p);
    KeepNone(rows, p);
    KeepAll(added, p);
  }

  lemma {:induction false} SourceViewStays(c: Catalog, d: Catalog, identity: (nat, IdentityRow), title: string)
    requires Later(c, d) && identity.0 < |c.identities|
    ensures SourceView(d, identity, title) == SourceView(c, identity, title)
  {
    KeepGrown(c.aliases, d.aliases, AliasOf(identity.0));
    KeepGrown(c.externals, d.externals, ExternalOf(identity.0));
    KeepGrown(c.alternates, d.alternates, AlternateOf(identity.0));
  }

  lemma {:induction false} SourceRowsStay(c: Catalog, d: Catalog, s: nat, series: nat)
    requires Extends(c, d, s) && series < s
    ensures Keep(Numbered(d.identities), IdentityOf(series)) == Keep(Numbered(c.identities), IdentityOf(series))
  {
    assert Numbered(c.identities) <= Numbered(d.identities);
    KeepGrown(Numbered(c.identities), Numbered(d.identities), IdentityOf(series));
  }

  lemma {:induction false} IdentityBeforeOrders()
    ensures Orders(IdentityBefore)
  {
    forall a, b | IdentityBefore(a, b) ensures !IdentityBefore(b, a) {
      PairAsymmetric(a, b);
    }
    forall a, b, c | !IdentityBefore(b, a) && !IdentityBefore(c, b) ensures !IdentityBefore(c, a) {
      PairTransitive(a, b, c);
    }
  }

  lemma {:induction false} PairAsymmetric(a: (nat, IdentityRow), b: (nat, IdentityRow))
    requires IdentityBefore(a, b)
    ensures !IdentityBefore(b, a)
  {
    if TextOrder.Less(a.1.source, b.1.source) {
      LessAsymmetric(a.1.source, b.1.source);
    } else {
      LessAsymmetric(a.1.sourceId, b.1.sourceId);
      TextOrder.Irreflexive(a.1.source);
    }
  }

  lemma {:induction false} PairTransitive(a: (nat, IdentityRow), b: (nat, IdentityRow), c: (nat, IdentityRow))
    requires !IdentityBefore(b, a) && !IdentityBefore(c, b)
    ensures !IdentityBefore(c, a)
  {
    NotLessTransitive(a.1.source, b.1.source, c.1.source);
    if a.1.source == c.1.source {
      TextOrder.Total(a.1.source, b.1.source);
      NotLessTransitive(a.1.sourceId, b.1.sourceId, c.1.sourceId);
    }
  }

  /** The identity rows of a series are rows of the table. */
  lemma {:induction false} SourceRowsAreRows(c: Catalog, series: nat, i: nat)
    requires i < |SourceRows(c, series)|
    ensures var r := SourceRows(c, series)[i]; r.0 < |c.identities| && r.1 == c.identities[r.0] && r.1.series == series
  {
    var kept := Keep(Numbered(c.identities), IdentityOf(series));
    IdentityBeforeOrders();
    SortSorts(kept, IdentityBefore);
    SameMembers(Sort(kept, IdentityBefore), kept);
    var r := SourceRows(c, series)[i];
    assert r in SourceRows(c, series);
    KeepMember(Numbered(c.identities), IdentityOf(series), r);
  }

  lemma {:induction false} SeriesViewStays(rules: Rules, c: Catalog, d: Catalog, s: nat, series: (nat, SeriesRow))
    requires Extends(c, d, s) && series.0 < s
    ensures SeriesView(rules, d, series) == SeriesView(rules, c, series)
  {
    KeepGrown(c.aliases, d.aliases, OwnAlias(series.0));
    KeepGrown(c.readings, d.readings, ProgressOf(series.0));
    SourceRowsStay(c, d, s, series.0);
    var rows := SourceRows(c, series.0);
    forall i | 0 <= i < |rows|
      ensures SourceView(d, rows[i], series.1.title) == SourceView(c, rows[i], series.1.title)
    {
      SourceRowsAreRows(c, series.0, i);
      SourceViewStays(c, d, rows[i], series.1.title);
    }
    assert SourceViews(d, rows, series.1.title) == SourceViews(c, rows, series.1.title);
  }

  // ---------------------------------------------------------------- exporting one built source

  lemma {:induction false} KeepSortedValues(rules: Rules, values: seq<string>)
    requires SortedValues(rules, values)
    ensures SortedValues(rules, Keep(values, Meaningful(rules)))
    ensures forall v :: v in Keep(values, Meaningful(rules)) ==> v in values
  {
    if values != [] {
      var before, last := values[..|values| - 1], values[|values| - 1];
      KeepSortedValues(rules, before);
      forall v | v in before ensures !TextOrder.Less(rules.normalise(last), rules.normalise(v)) {
        var i :| 0 <= i < |before| && before[i] == v;
        assert values[i] == v;
      }
    }
  }

  /** Rows whose keys are in order stay where they are. */
  lemma {:induction false} InKeyOrder<T(!new)>(rows: seq<T>, key: T -> string)
    requires forall i, j :: 0 <= i < j < |rows| ==> !TextOrder.Less(key(rows[j]), key(rows[i]))
    ensures Sort(rows, ByText(key)) == rows
  {
    SortFixed(rows, ByText(key));
  }

  lemma {:induction false} NewAliasesInOrder(rules: Rules, series: nat, identity: Option<nat>, values: seq<string>)
    requires SortedValues(rules, values)
    ensures AliasList(AliasRows(rules, series, identity, values)) == Keep(values, Meaningful(rules))
  {
    var kept, added := Keep(values, Meaningful(rules)), AliasRows(rules, series, identity, values);
    KeepSortedValues(rules, values);
    forall i | 0 <= i < |added| ensures AliasKey(added[i]) == rules.normalise(kept[i]) && Display(added[i]) == kept[i] {
    }
    InKeyOrder(added, AliasKey);
    assert Project(added, Display) == kept;
  }

  lemma {:induction false} AliasListOfNew(rules: Rules, rows: seq<AliasRow>, p: AliasRow -> bool, series: nat,
                                          identity: Option<nat>, values: seq<string>)
    requires SortedValues(rules, values)
    requires forall i :: 0 <= i < |rows| ==> !p(rows[i])
    requires forall a: AliasRow :: a.series == series && a.identity == identity ==> p(a)
    ensures AliasList(Keep(rows + AliasRows(rules, series, identity, values), p)) == Keep(values, Meaningful(rules))
  {
    KeepNew(rows, AliasRows(rules, series, identity, values), p);
    NewAliasesInOrder(rules, series, identity, values);
  }

  lemma {:induction false} NewExternalsInOrder(rows: seq<ExternalRow>, j: nat, entries: seq<(string, string)>)
    requires SortedEntries(entries) && forall i :: 0 <= i < |rows| ==> rows[i].identity < j
    ensures Project(Sort(Keep(rows + Project(entries, NewExternal(j)), ExternalOf(j)), ByText(ExternalKey)),
                    ExternalEntry) == entries
  {
    var added := Project(entries, NewExternal(j));
    KeepNew(rows, added, ExternalOf(j));
    forall i | 0 <= i < |added| ensures ExternalKey(added[i]) == entries[i].0 && ExternalEntry(added[i]) == entries[i] {
    }
    InKeyOrder(added, ExternalKey);
  }

  lemma {:induction false} NewAlternatesInOrder(rows: seq<AlternateRow>, j: nat, s: Source)
    requires SortedAlternates(s.alternates) && forall i :: 0 <= i < |rows| ==> rows[i].primary < j
    ensures Project(Sort(Keep(rows + Project(s.alternates, NewAlternate(j, s)), AlternateOf(j)),
                         ByText(AlternateKey)), AlternateEntry)
      == Project(s.alternates, FilledBy(s))
  {
    var added := Project(s.alternates, NewAlternate(j, s));
    KeepNew(rows, added, AlternateOf(j));
    AlternateListOfNew(j, s);
  }

  lemma {:induction false} AlternateListOfNew(j: nat, s: Source)
    requires SortedAlternates(s.alternates)
    ensures Project(Sort(Project(s.alternates, NewAlternate(j, s)), ByText(AlternateKey)), AlternateEntry)
      == Project(s.alternates, FilledBy(s))
  {
    var added := Project(s.alternates, NewAlternate(j, s));
    forall i | 0 <= i < |added|
      ensures AlternateKey(added[i]) == s.alternates[i].sourceId && AlternateEntry(added[i])
        == Filled(s, s.alternates[i])
    {
      assert added[i] == NewAlternate(j, s)(s.alternates[i]);
    }
    InKeyOrder(added, AlternateKey);
  }

  lemma {:induction false} BuiltSourceView(rules: Rules, c: Catalog, series: nat, s: Source, title: string)
    requires Below(c) && TidySource(rules, s)
    ensures SourceView(BuildSource(rules, c, series, s), (|c.identities|, RowOf(series, s)), title)
      == RestoredSource(rules, s)
  {
    var j := |c.identities|;
    AliasListOfNew(rules, c.aliases, AliasOf(j), series, Some(j), s.aliases);
    NewExternalsInOrder(c.externals, j, s.externals);
    NewAlternatesInOrder(c.alternates, j, s);
  }

  lemma {:induction false} BuildSourceExtends(rules: Rules, c: Catalog, series: nat, s: Source)
    requires Refs(c) && series < |c.series|
    ensures Extends(c, BuildSource(rules, c, series, s), series) && Refs(BuildSource(rules, c, series, s))
  {
  }

  lemma {:induction false} ExtendsTransitive(c: Catalog, d: Catalog, e: Catalog, s: nat)
    requires Extends(c, d, s) && Extends(d, e, s)
    ensures Extends(c, e, s)
  {
  }

  // ---------------------------------------------------------------- exporting built series

  lemma {:induction false} BuildSourcesExtends(rules: Rules, c: Catalog, series: nat, sources: seq<Source>)
    requires Refs(c) && series < |c.series|
    ensures Refs(BuildSources(rules, c, series, sources)) && Extends(c, BuildSources(rules, c, series, sources), series)
    ensures BuildSources(rules, c, series, sources).series == c.series
  {
    if sources != [] {
      var d := BuildSources(rules, c, series, sources[..|sources| - 1]);
      BuildSourcesExtends(rules, c, series, sources[..|sources| - 1]);
      BuildSourceExtends(rules, d, series, sources[|sources| - 1]);
      ExtendsTransitive(c, d, BuildSources(rules, c, series, sources), series);
    }
  }

  lemma {:induction false} BuildSourcesRows(rules: Rules, c: Catalog, series: nat, sources: seq<Source>)
    ensures var d := BuildSources(rules, c, series, sources);
      && |d.identities| == |c.identities| + |sources| && c.identities <= d.identities
      && (forall a :: 0 <= a < |sources| ==> d.identities[|c.identities| + a] == RowOf(series, sources[a]))
      && d.series == c.series && d.readings == c.readings && d.decisions == c.decisions && d.providers == c.providers
  {
    if sources != [] {
      BuildSourcesRows(rules, c, series, sources[..|sources| - 1]);
    }
  }

  lemma {:induction false} BuildSourcesOwnAliases(rules: Rules, c: Catalog, series: nat, sources: seq<Source>)
    ensures Keep(BuildSources(rules, c, series, sources).aliases, OwnAlias(series)) == Keep(c.aliases, OwnAlias(series))
  {
    if sources != [] {
      var d := BuildSources(rules, c, series, sources[..|sources| - 1]);
      BuildSourcesOwnAliases(rules, c, series, sources[..|sources| - 1]);
      KeepGrown(d.aliases, BuildSources(rules, c, series, sources).aliases, OwnAlias(series));
    }
  }

  /** The identity at position `j` exports as `s` restored. */
  ghost predicate ExportsAs(rules: Rules, c: Catalog, j: nat, series: nat, s: Source, title: string) {
    SourceView(c, (j, RowOf(series, s)), title) == RestoredSource(rules, s)
  }

  lemma {:induction false} BuildSourcesSplit(rules: Rules, c: Catalog, series: nat, a: seq<Source>, b: seq<Source>)
    ensures BuildSources(rules, c, series, a + b) == BuildSources(rules, BuildSources(rules, c, series, a), series, b)
  {
    if b == [] {
      assert a + b == a;
    } else {
      BuildSourcesSplit(rules, c, series, a, b[..|b| - 1]);
      assert (a + b)[..|a + b| - 1] == a + b[..|b| - 1];
    }
  }

  lemma {:induction false} BuildSourceLater(rules: Rules, c: Catalog, series: nat, s: Source)
    requires Below(c)
    ensures Below(BuildSource(rules, c, series, s)) && Later(c, BuildSource(rules, c, series, s))
  {
  }

  lemma {:induction false} LaterTransitive(c: Catalog, d: Catalog, e: Catalog)
    requires Later(c, d) && Later(d, e) && |c.identities| <= |d.identities|
    ensures Later(c, e)
  {
  }

  lemma {:induction false} BuildSourcesLater(rules: Rules, c: Catalog, series: nat, sources: seq<Source>)
    requires Below(c)
    ensures var d := BuildSources(rules, c, series, sources);
      Below(d) && Later(c, d) && |d.identities| == |c.identities| + |sources|
  {
    if sources != [] {
      var d := BuildSources(rules, c, series, sources[..|sources| - 1]);
      BuildSourcesLater(rules, c, series, sources[..|sources| - 1]);
      BuildSourceLater(rules, d, series, sources[|sources| - 1]);
      LaterTransitive(c, d, BuildSource(rules, d, series, sources[|sources| - 1]));
    }
  }

  lemma {:induction false} ExportsStill(rules: Rules, c: Catalog, j: nat, series: nat, s: Source, title: string,
                                        all: Catalog)
    requires j == |c.identities| && Below(c) && TidySource(rules, s) && Later(BuildSource(rules, c, series, s), all)
    ensures ExportsAs(rules, all, j, series, s, title)
  {
    BuiltSourceView(rules, c, series, s, title);
    SourceViewStays(BuildSource(rules, c, series, s), all, (|c.identities|, RowOf(series, s)), title);
  }

  lemma {:induction false} BuiltInThree(rules: Rules, c: Catalog, series: nat, sources: seq<Source>, a: nat)
    requires a < |sources|
    ensures BuildSources(rules, c, series, sources)
      == BuildSources(rules, BuildSource(rules, BuildSources(rules, c, series, sources[..a]), series, sources[a]),
                      series, sources[a + 1..])
  {
    assert sources == sources[..a + 1] + sources[a + 1..];
    BuildSourcesSplit(rules, c, series, sources[..a + 1], sources[a + 1..]);
    assert sources[..a + 1][..a] == sources[..a];
  }

  /** The catalogue just before the `a`-th source of a list was built. */
  lemma {:induction false} BuiltAround(rules: Rules, c: Catalog, series: nat, sources: seq<Source>, a: nat)
    returns (d: Catalog)
    requires Below(c) && a < |sources|
    ensures Below(d) && |d.identities| == |c.identities| + a
    ensures Later(BuildSource(rules, d, series, sources[a]), BuildSources(rules, c, series, sources))
  {
    d := BuildSources(rules, c, series, sources[..a]);
    BuildSourcesLater(rules, c, series, sources[..a]);
    BuildSourceLater(rules, d, series, sources[a]);
    BuildSourcesLater(rules, BuildSource(rules, d, series, sources[a]), series, sources[a + 1..]);
    BuiltInThree(rules, c, series, sources, a);
  }

  /** The numbered identity rows of a series just built. */
  function NewIdentities(series: nat, from: nat, sources: seq<Source>): (rows: seq<(nat, IdentityRow)>)
    ensures |rows| == |sources| && forall a :: 0 <= a < |sources| ==> rows[a] == (from + a, RowOf(series, sources[a]))
  {
    seq(|sources|, a requires 0 <= a < |sources| => (from + a, RowOf(series, sources[a])))
  }

  lemma {:induction false} NewSourceRows(c: Catalog, d: Catalog, series: nat, sources: seq<Source>)
    requires forall i :: 0 <= i < |c.identities| ==> c.identities[i].series < series
    requires c.identities <= d.identities && |d.identities| == |c.identities| + |sources|
    requires forall a :: 0 <= a < |sources| ==> d.identities[|c.identities| + a] == RowOf(series, sources[a])
    requires forall i, j :: 0 <= i < j < |sources| ==> !SourceBefore(sources[j], sources[i])
    ensures Keep(Numbered(d.identities), IdentityOf(series)) == NewIdentities(series, |c.identities|, sources)
    ensures SourceRows(d, series) == NewIdentities(series, |c.identities|, sources)
  {
    var added := NewIdentities(series, |c.identities|, sources);
    assert Numbered(d.identities) == Numbered(c.identities) + added;
    KeepNew(Numbered(c.identities), added, IdentityOf(series));
    NewIdentitiesInOrder(series, |c.identities|, sources);
  }

  lemma {:induction false} NewIdentitiesInOrder(series: nat, from: nat, sources: seq<Source>)
    requires forall i, j :: 0 <= i < j < |sources| ==> !SourceBefore(sources[j], sources[i])
    ensures Sort(NewIdentities(series, from, sources), IdentityBefore) == NewIdentities(series, from, sources)
  {
    var added := NewIdentities(series, from, sources);
    forall i, j | 0 <= i < j < |added| ensures !IdentityBefore(added[j], added[i]) {
      assert !SourceBefore(sources[j], sources[i]);
    }
    SortFixed(added, IdentityBefore);
  }

  lemma {:induction false} NewReadingsInOrder(rules: Rules, rows: seq<ReadingRow>, series: nat,
                                              entries: seq<ReadingState>)
    requires SortedReading(rules, entries) && HasProgress(entries)
    requires forall i :: 0 <= i < |rows| ==> rows[i].series < series
    ensures Project(Sort(Keep(rows + Project(entries, NewReading(series)), ProgressOf(series)), ReadingBefore(rules)),
                    ReadingEntry)
      == entries
  {
    var added := Project(entries, NewReading(series));
    KeepNew(rows, added, ProgressOf(series));
    SortFixed(added, ReadingBefore(rules));
  }

  lemma {:induction false} BuiltAroundInSeries(rules: Rules, c: Catalog, p: Series, a: nat) returns (d: Catalog)
    requires Refs(c) && a < |p.sources|
    ensures Below(d) && |d.identities| == |c.identities| + a
    ensures Later(BuildSource(rules, d, |c.series|, p.sources[a]), BuildSeries(rules, c, p))
  {
    OpenedExtends(rules, c, p);
    d := BuiltAround(rules, Opened(rules, c, p), |c.series|, p.sources, a);
  }

  /** `s` was built at position `j`, and nothing was added to it since. */
  ghost predicate BuiltAt(rules: Rules, all: Catalog, j: nat, series: nat, s: Source) {
    exists d: Catalog :: |d.identities| == j && Below(d) && Later(BuildSource(rules, d, series, s), all)
  }

  lemma {:induction false} BuiltAtExports(rules: Rules, all: Catalog, j: nat, series: nat, s: Source, title: string)
    requires BuiltAt(rules, all, j, series, s) && TidySource(rules, s)
    ensures ExportsAs(rules, all, j, series, s, title)
  {
    var d: Catalog :| |d.identities| == j && Below(d) && Later(BuildSource(rules, d, series, s), all);
    ExportsStill(rules, d, j, series, s, title, all);
  }

  lemma {:induction false} ViewsOfBuilt(rules: Rules, all: Catalog, from: nat, series: nat, sources: seq<Source>,
                                        title: string)
    requires TidySources(rules, sources)
    requires forall a {:trigger sources[a]} :: 0 <= a < |sources| ==> BuiltAt(rules, all, from + a, series, sources[a])
    ensures SourceViews(all, NewIdentities(series, from, sources), title) == Project(sources, Restoring(rules))
  {
    var views := SourceViews(all, NewIdentities(series, from, sources), title);
    forall a | 0 <= a < |sources| ensures views[a] == Project(sources, Restoring(rules))[a] {
      BuiltAtExports(rules, all, from + a, series, sources[a], title);
    }
  }

  lemma {:induction false} BuiltSourceViews(rules: Rules, c: Catalog, p: Series)
    requires Refs(c) && TidySources(rules, p.sources)
    ensures SourceViews(BuildSeries(rules, c, p), NewIdentities(|c.series|, |c.identities|, p.sources), p.title)
      == Project(p.sources, Restoring(rules))
  {
    forall a | 0 <= a < |p.sources|
      ensures BuiltAt(rules, BuildSeries(rules, c, p), |c.identities| + a, |c.series|, p.sources[a])
    {
      var d := BuiltAroundInSeries(rules, c, p, a);
    }
    ViewsOfBuilt(rules, BuildSeries(rules, c, p), |c.identities|, |c.series|, p.sources, p.title);
  }

  lemma {:induction false} OpenedExtends(rules: Rules, c: Catalog, p: Series)
    requires Refs(c)
    ensures Refs(Opened(rules, c, p)) && Extends(c, Opened(rules, c, p), |c.series|)
  {
  }

  lemma {:induction false} BuildSeriesExtends(rules: Rules, c: Catalog, p: Series)
    requires Refs(c)
    ensures Refs(BuildSeries(rules, c, p)) && Extends(c, BuildSeries(rules, c, p), |c.series|)
    ensures BuildSeries(rules, c, p).series == c.series + [NewRow(rules, p)]
  {
    var open := Opened(rules, c, p);
    var listed := BuildSources(rules, open, |c.series|, p.sources);
    OpenedExtends(rules, c, p);
    BuildSourcesExtends(rules, open, |c.series|, p.sources);
    BuildSourcesRows(rules, open, |c.series|, p.sources);
    ExtendsTransitive(c, open, listed, |c.series|);
    ReadingsExtend(c, listed, BuildSeries(rules, c, p));
  }

  lemma {:induction false} ReadingsExtend(c: Catalog, listed: Catalog, d: Catalog)
    requires Extends(c, listed, |c.series|) && Refs(listed) && |listed.series| == |c.series| + 1
    requires listed.readings == c.readings && d == listed.(readings := d.readings) && c.readings <= d.readings
    requires forall i :: |c.readings| <= i < |d.readings| ==> d.readings[i].series == |c.series|
    ensures Extends(c, d, |c.series|) && Refs(d)
  {
  }

  lemma {:induction false} BuiltSourceRows(rules: Rules, c: Catalog, p: Series)
    requires Refs(c) && TidySources(rules, p.sources)
    ensures Keep(Numbered(BuildSeries(rules, c, p).identities), IdentityOf(|c.series|))
      == NewIdentities(|c.series|, |c.identities|, p.sources)
    ensures SourceRows(BuildSeries(rules, c, p), |c.series|) == NewIdentities(|c.series|, |c.identities|, p.sources)
  {
    BuildSourcesRows(rules, Opened(rules, c, p), |c.series|, p.sources);
    NewSourceRows(c, BuildSeries(rules, c, p), |c.series|, p.sources);
  }

  lemma {:induction false} BuiltSeriesLists(rules: Rules, c: Catalog, p: Series)
    requires Refs(c) && TidySeries(rules, p)
    ensures AliasList(Keep(BuildSeries(rules, c, p).aliases, OwnAlias(|c.series|)))
      == Keep(p.aliases, Meaningful(rules))
    ensures Project(Sort(Keep(BuildSeries(rules, c, p).readings, ProgressOf(|c.series|)), ReadingBefore(rules)),
                    ReadingEntry) == p.reading
  {
    var i := |c.series|;
    BuildSourcesOwnAliases(rules, Opened(rules, c, p), i, p.sources);
    BuildSourcesRows(rules, Opened(rules, c, p), i, p.sources);
    AliasListOfNew(rules, c.aliases, OwnAlias(i), i, None, p.aliases);
    NewReadingsInOrder(rules, c.readings, i, p.reading);
  }

  lemma {:induction false} BuiltSeriesView(rules: Rules, c: Catalog, p: Series)
    requires Refs(c) && TidySeries(rules, p)
    ensures SeriesView(rules, BuildSeries(rules, c, p), (|c.series|, NewRow(rules, p))) == RestoredSeries(rules, p)
  {
    BuiltSourceRows(rules, c, p);
    BuiltSourceViews(rules, c, p);
    BuiltSeriesLists(rules, c, p);
  }

  ghost predicate AllTidy(rules: Rules,
                          series: seq<Series>) { forall i :: 0 <= i < |series| ==> TidySeries(rules, series[i]) }

  lemma {:induction false} BuiltShape(rules: Rules, series: seq<Series>)
    ensures var d := BuildAll(rules, series);
      && Refs(d) && |d.series| == |series| && d.decisions == [] && d.providers == []
      && (forall i :: 0 <= i < |series| ==> d.series[i] == NewRow(rules, series[i]))
  {
    if series != [] {
      var before, last := series[..|series| - 1], series[|series| - 1];
      BuiltShape(rules, before);
      BuildSeriesExtends(rules, BuildAll(rules, before), last);
      BuildSourcesRows(rules, Opened(rules, BuildAll(rules, before), last), |before|, last.sources);
    }
  }

  /** Every built series exports as restored. */
  lemma {:induction false} SeriesViewOfBuilt(rules: Rules, series: seq<Series>, i: nat)
    requires i < |series| && TidySeries(rules, series[i])
    ensures SeriesView(rules, BuildAll(rules, series), (i, NewRow(rules, series[i])))
      == RestoredSeries(rules, series[i])
  {
    var n := |series| - 1;
    var before, last := series[..n], series[n];
    var c := BuildAll(rules, before);
    BuiltShape(rules, before);
    if i == n {
      BuiltSeriesView(rules, c, last);
    } else {
      SeriesViewOfBuilt(rules, before, i);
      BuildSeriesExtends(rules, c, last);
      SeriesViewStays(rules, c, BuildSeries(rules, c, last), n, (i, NewRow(rules, series[i])));
    }
  }
}
