/** Whatever a sound catalogue exports is a snapshot that can be restored. */
module PortableExport {

  import opened Options
  import TextOrder
  import opened Tables
  import opened PortableState
  import opened PortableBuild
  import opened PortableImport
  import opened PortableRoundTrip

  // ---------------------------------------------------------------- sound catalogues

  /** Columns computed from others, titles that snapshots require, and aliases that mean something. */
  ghost predicate Derived(rules: Rules, c: Catalog) {
    && (forall i :: 0 <= i < |c.series| ==>
          c.series[i].normalized == rules.normalise(c.series[i].title) && c.series[i].title != "")
    && (forall i :: 0 <= i < |c.aliases| ==>
          c.aliases[i].normalized == rules.normalise(c.aliases[i].display) && c.aliases[i].normalized != "")
    && (forall i :: 0 <= i < |c.readings| ==> rules.canonical(c.readings[i].number) == c.readings[i].number)
  }

  ghost predicate AliasesSound(c: Catalog) {
    && (forall i, j :: 0 <= i < j < |c.aliases| && c.aliases[i].series == c.aliases[j].series ==>
          c.aliases[i].normalized != c.aliases[j].normalized)
    && (forall i :: 0 <= i < |c.aliases| && c.aliases[i].identity.Some? ==>
          c.aliases[i].identity.value < |c.identities| && c.identities[c.aliases[i].identity.value].series
            == c.aliases[i].series)
  }

  predicate ExternalsDiffer(a: ExternalRow, b: ExternalRow) {
    (a.provider, a.value) != (b.provider, b.value) && (a.identity, a.provider) != (b.identity, b.provider)
  }

  predicate AlternatesDiffer(a: AlternateRow, b: AlternateRow) { (a.source, a.sourceId) != (b.source, b.sourceId) }

  predicate ReadingsDiffer(a: ReadingRow, b: ReadingRow) { (a.series, a.number) != (b.series, b.number) }

  predicate ProvidersDiffer(a: ProviderRow, b: ProviderRow) { a.source != b.source }

  predicate NamesDiffer(a: AliasRow, b: AliasRow) { a.normalized != b.normalized }

  predicate IdsDiffer(a: (nat, IdentityRow), b: (nat, IdentityRow)) { a.0 != b.0 }

  predicate SeriesDiffer(a: (nat, SeriesRow), b: (nat, SeriesRow)) { a.0 != b.0 }

  /** Neither the same pair nor the pair the other way round. */
  predicate PairsDiffer(a: DecisionRow, b: DecisionRow) {
    (a.left, a.right) != (b.left, b.right) && (a.left, a.right) != (b.right, b.left)
  }

  ghost predicate DecisionsSound(c: Catalog) {
    && (forall i :: 0 <= i < |c.decisions| && c.decisions[i].rejected ==>
          && c.decisions[i].left < |c.identities| && c.decisions[i].right < |c.identities|
          && c.identities[c.decisions[i].left].series != c.identities[c.decisions[i].right].series)
    && (forall i, j :: 0 <= i < j < |c.decisions| && c.decisions[i].rejected && c.decisions[j].rejected ==>
          PairsDiffer(c.decisions[i], c.decisions[j]))
  }

  ghost predicate ListsSound(c: Catalog) {
    && AllPairs(c.externals, ExternalsDiffer) && AllPairs(c.alternates, AlternatesDiffer)
    && (forall i :: 0 <= i < |c.alternates| ==>
          c.alternates[i].primary < |c.identities| && c.alternates[i].source
            == c.identities[c.alternates[i].primary].source)
    && AllPairs(c.readings, ReadingsDiffer) && AllPairs(c.providers, ProvidersDiffer)
  }

  /** The table constraints, and no rejected pair inside one series. */
  ghost predicate SoundCatalog(rules: Rules, c: Catalog) {
    && Refs(c) && Derived(rules, c) && AliasesSound(c) && ListsSound(c) && DecisionsSound(c)
    && Orders(ReadingBefore(rules))
  }

  function RowKey(rules: Rules, row: IdentityRow): Key { KeyOf(rules, row.source, row.sourceId) }

  /** No two exported identities have one key or are listings of one work. */
  ghost predicate Separable(rules: Rules, c: Catalog) {
    forall j: nat, k: nat :: j != k && IdentityExported(c, j) && IdentityExported(c, k) ==>
      && RowKey(rules, c.identities[j]) != RowKey(rules, c.identities[k])
      && (c.identities[j].source == c.identities[k].source ==>
            !rules.equivalent(Listing(c.identities[j]), Listing(c.identities[k])))
  }

  // ---------------------------------------------------------------- lists of one owner

  function Always<T>(): (T, T) -> bool { (a: T, b: T) => true }

  /** A selected and ordered row is a row of the table that satisfies the condition. */
  lemma {:induction false} QueriedRow<T(!new)>(rows: seq<T>, p: T -> bool, before: (T, T) -> bool, i: nat)
    requires i < |Sort(Keep(rows, p), before)|
    ensures Sort(Keep(rows, p), before)[i] in rows && p(Sort(Keep(rows, p), before)[i])
  {
    var x := Sort(Keep(rows, p), before)[i];
    SortPairs(Keep(rows, p), before, Always<T>());
    assert x in Sort(Keep(rows, p), before);
    KeepMember(rows, p, x);
  }

  lemma {:induction false} QueriedPairs<T(!new)>(rows: seq<T>, p: T -> bool, before: (T, T) -> bool, r: (T, T) -> bool)
    requires Symmetric(r) && forall i, j :: 0 <= i < j < |rows| && p(rows[i]) && p(rows[j]) ==> r(rows[i], rows[j])
    ensures AllPairs(Sort(Keep(rows, p), before), r)
  {
    KeepPairs(rows, p, r);
    SortPairs(Keep(rows, p), before, r);
  }

  lemma {:induction false} QueriedInOrder<T(!new)>(rows: seq<T>, p: T -> bool, key: T -> string)
    ensures forall i, j :: 0 <= i < j < |Sort(Keep(rows, p), ByText(key))| ==>
      !TextOrder.Less(key(Sort(Keep(rows, p), ByText(key))[j]), key(Sort(Keep(rows, p), ByText(key))[i]))
  {
    ByTextOrders(key);
    SortSorts(Keep(rows, p), ByText(key));
    var sorted := Sort(Keep(rows, p), ByText(key));
    forall i, j | 0 <= i < j < |sorted| ensures !TextOrder.Less(key(sorted[j]), key(sorted[i])) {
      assert !ByText(key)(sorted[j], sorted[i]);
    }
  }

  lemma {:induction false} AliasListRow(rules: Rules, c: Catalog, p: AliasRow -> bool, i: nat) returns (r: nat)
    requires Derived(rules, c) && i < |AliasList(Keep(c.aliases, p))|
    ensures r < |c.aliases| && p(c.aliases[r]) && c.aliases[r] == Sort(Keep(c.aliases, p), ByText(AliasKey))[i]
    ensures rules.normalise(AliasList(Keep(c.aliases, p))[i]) == c.aliases[r].normalized
  {
    QueriedRow(c.aliases, p, ByText(AliasKey), i);
    var x := Sort(Keep(c.aliases, p), ByText(AliasKey))[i];
    r :| 0 <= r < |c.aliases| && c.aliases[r] == x;
  }

  lemma {:induction false} AliasListTidy(rules: Rules, c: Catalog, p: AliasRow -> bool, series: nat)
    requires Derived(rules, c) && AliasesSound(c) && forall i :: 0 <= i < |c.aliases| && p(c.aliases[i]) ==>
      c.aliases[i].series == series
    ensures SortedValues(rules, AliasList(Keep(c.aliases, p))) && DistinctValues(rules, AliasList(Keep(c.aliases, p)))
  {
    var rows, values := Sort(Keep(c.aliases, p), ByText(AliasKey)), AliasList(Keep(c.aliases, p));
    QueriedInOrder(c.aliases, p, AliasKey);
    QueriedPairs(c.aliases, p, ByText(AliasKey), NamesDiffer);
    forall i | 0 <= i < |values| ensures rules.normalise(values[i]) == AliasKey(rows[i]) {
      var r := AliasListRow(rules, c, p, i);
    }
  }

  lemma {:induction false} AliasListsApart(rules: Rules, c: Catalog, p: AliasRow -> bool, q: AliasRow -> bool,
                                           series: nat)
    requires Derived(rules, c) && AliasesSound(c)
    requires forall i :: 0 <= i < |c.aliases| && (p(c.aliases[i]) || q(c.aliases[i])) ==> c.aliases[i].series == series
    requires forall i :: 0 <= i < |c.aliases| ==> !(p(c.aliases[i]) && q(c.aliases[i]))
    ensures ApartValues(rules, AliasList(Keep(c.aliases, p)), AliasList(Keep(c.aliases, q)))
  {
    var a, b := AliasList(Keep(c.aliases, p)), AliasList(Keep(c.aliases, q));
    forall i, j | 0 <= i < |a| && 0 <= j < |b| ensures rules.normalise(a[i]) != rules.normalise(b[j]) {
      var x := AliasListRow(rules, c, p, i);
      var y := AliasListRow(rules, c, q, j);
      TwoNamesDiffer(c, x, y);
    }
  }

  lemma {:induction false} TwoNamesDiffer(c: Catalog, x: nat, y: nat)
    requires AliasesSound(c) && x < |c.aliases| && y < |c.aliases| && x != y
    requires c.aliases[x].series == c.aliases[y].series
    ensures c.aliases[x].normalized != c.aliases[y].normalized
  {
  }

  // ---------------------------------------------------------------- one exported source

  lemma {:induction false} ExternalsTidy(c: Catalog, identity: nat)
    requires AllPairs(c.externals, ExternalsDiffer)
    ensures var entries := Project(Sort(Keep(c.externals, ExternalOf(identity)), ByText(ExternalKey)), ExternalEntry);
      SortedEntries(entries) && DistinctProviders(entries)
  {
    var rows := Sort(Keep(c.externals, ExternalOf(identity)), ByText(ExternalKey));
    QueriedInOrder(c.externals, ExternalOf(identity), ExternalKey);
    QueriedPairs(c.externals, ExternalOf(identity), ByText(ExternalKey), ExternalsDiffer);
    forall i | 0 <= i < |rows|
      ensures rows[i].identity == identity && ExternalEntry(rows[i]).0 == ExternalKey(rows[i])
    {
      QueriedRow(c.externals, ExternalOf(identity), ByText(ExternalKey), i);
    }
  }

  lemma {:induction false} AlternatesTidy(c: Catalog, identity: nat)
    requires ListsSound(c)
    ensures var entries := Project(Sort(Keep(c.alternates, AlternateOf(identity)), ByText(AlternateKey)),
                                   AlternateEntry);
      SortedAlternates(entries) && DistinctAlternates(entries)
  {
    var rows := Sort(Keep(c.alternates, AlternateOf(identity)), ByText(AlternateKey));
    QueriedInOrder(c.alternates, AlternateOf(identity), AlternateKey);
    QueriedPairs(c.alternates, AlternateOf(identity), ByText(AlternateKey), AlternatesDiffer);
    forall i | 0 <= i < |rows|
      ensures identity < |c.identities| && rows[i].source == c.identities[identity].source
      ensures AlternateEntry(rows[i]).sourceId == AlternateKey(rows[i])
    {
      QueriedRow(c.alternates, AlternateOf(identity), ByText(AlternateKey), i);
      var r :| 0 <= r < |c.alternates| && c.alternates[r] == rows[i];
    }
  }

  lemma {:induction false} ExportedSourceTidy(rules: Rules, c: Catalog, identity: (nat, IdentityRow), title: string)
    requires SoundCatalog(rules, c) && identity.0 < |c.identities| && identity.1
      == c.identities[identity.0] && title != ""
    ensures TidySource(rules, SourceView(c, identity, title)) && SourceDistinct(rules, SourceView(c, identity, title))
  {
    AliasListTidy(rules, c, AliasOf(identity.0), identity.1.series);
    ExternalsTidy(c, identity.0);
    AlternatesTidy(c, identity.0);
  }

  /** Two identities export nothing in common. */
  lemma {:induction false} ExportedListsApart(c: Catalog, a: (nat, IdentityRow), b: (nat, IdentityRow), s: string,
                                              t: string)
    requires ListsSound(c) && a.0 != b.0 && a.0 < |c.identities| && b.0 < |c.identities|
    requires a.1 == c.identities[a.0] && b.1 == c.identities[b.0]
    ensures ApartLists(SourceView(c, a, s), SourceView(c, b, t))
  {
    var x, y := SourceView(c, a, s), SourceView(c, b, t);
    forall i, j | 0 <= i < |x.externals| && 0 <= j < |y.externals| ensures x.externals[i] != y.externals[j] {
      ExternalsApart(c, a.0, b.0, i, j);
    }
    forall i, j | a.1.source == b.1.source && 0 <= i < |x.alternates| && 0 <= j < |y.alternates|
      ensures x.alternates[i].sourceId != y.alternates[j].sourceId
    {
      AlternatesApart(c, a.0, b.0, i, j);
    }
  }

  lemma {:induction false} ExternalsApart(c: Catalog, a: nat, b: nat, i: nat, j: nat)
    requires AllPairs(c.externals, ExternalsDiffer) && a != b
    requires i < |Sort(Keep(c.externals, ExternalOf(a)), ByText(ExternalKey))|
    requires j < |Sort(Keep(c.externals, ExternalOf(b)), ByText(ExternalKey))|
    ensures ExternalEntry(Sort(Keep(c.externals, ExternalOf(a)), ByText(ExternalKey))[i])
      != ExternalEntry(Sort(Keep(c.externals, ExternalOf(b)), ByText(ExternalKey))[j])
  {
    QueriedRow(c.externals, ExternalOf(a), ByText(ExternalKey), i);
    QueriedRow(c.externals, ExternalOf(b), ByText(ExternalKey), j);
    var x :| 0 <= x < |c.externals| && c.externals[x] == Sort(Keep(c.externals, ExternalOf(a)), ByText(ExternalKey))[i];
    var y :| 0 <= y < |c.externals| && c.externals[y] == Sort(Keep(c.externals, ExternalOf(b)), ByText(ExternalKey))[j];
    assert x < y ==> ExternalsDiffer(c.externals[x], c.externals[y]);
    assert y < x ==> ExternalsDiffer(c.externals[y], c.externals[x]);
  }

  lemma {:induction false} AlternatesApart(c: Catalog, a: nat, b: nat, i: nat, j: nat)
    requires ListsSound(c) && a != b && a < |c.identities| && b < |c.identities| && c.identities[a].source
      == c.identities[b].source
    requires i < |Sort(Keep(c.alternates, AlternateOf(a)), ByText(AlternateKey))|
    requires j < |Sort(Keep(c.alternates, AlternateOf(b)), ByText(AlternateKey))|
    ensures Sort(Keep(c.alternates, AlternateOf(a)), ByText(AlternateKey))[i].sourceId
      != Sort(Keep(c.alternates, AlternateOf(b)), ByText(AlternateKey))[j].sourceId
  {
    QueriedRow(c.alternates, AlternateOf(a), ByText(AlternateKey), i);
    QueriedRow(c.alternates, AlternateOf(b), ByText(AlternateKey), j);
    var x :| 0 <= x < |c.alternates| && c.alternates[x]
      == Sort(Keep(c.alternates, AlternateOf(a)), ByText(AlternateKey))[i];
    var y :| 0 <= y < |c.alternates| && c.alternates[y]
      == Sort(Keep(c.alternates, AlternateOf(b)), ByText(AlternateKey))[j];
    assert x < y ==> AlternatesDiffer(c.alternates[x], c.alternates[y]);
    assert y < x ==> AlternatesDiffer(c.alternates[y], c.alternates[x]);
  }

  // ---------------------------------------------------------------- one exported series

  lemma {:induction false} ReadingTidy(rules: Rules, c: Catalog, series: nat)
    requires Derived(rules, c) && ListsSound(c) && Orders(ReadingBefore(rules))
    ensures var entries := Project(Sort(Keep(c.readings, ProgressOf(series)), ReadingBefore(rules)), ReadingEntry);
      SortedReading(rules, entries) && HasProgress(entries) && CanonicalReading(rules, entries)
  {
    var rows := Sort(Keep(c.readings, ProgressOf(series)), ReadingBefore(rules));
    SortSorts(Keep(c.readings, ProgressOf(series)), ReadingBefore(rules));
    QueriedPairs(c.readings, ProgressOf(series), ReadingBefore(rules), ReadingsDiffer);
    forall i | 0 <= i < |rows|
      ensures ProgressOf(series)(rows[i]) && rules.canonical(rows[i].number)
        == rows[i].number && ReadingEntry(rows[i]).chapter == rows[i].number
    {
      QueriedRow(c.readings, ProgressOf(series), ReadingBefore(rules), i);
      var r :| 0 <= r < |c.readings| && c.readings[r] == rows[i];
    }
    var entries := Project(rows, ReadingEntry);
    forall i, j | 0 <= i < j < |entries|
      ensures !rules.chapterBefore(entries[j].chapter, entries[i].chapter) && entries[i].chapter != entries[j].chapter
    {
      assert !ReadingBefore(rules)(rows[j], rows[i]) && ReadingsDiffer(rows[i], rows[j]);
    }
  }

  lemma {:induction false} SourceRowsInOrder(c: Catalog, series: nat)
    ensures Sorted(SourceRows(c, series), IdentityBefore) && AllPairs(SourceRows(c, series), IdsDiffer)
  {
    IdentityBeforeOrders();
    SortSorts(Keep(Numbered(c.identities), IdentityOf(series)), IdentityBefore);
    QueriedPairs(Numbered(c.identities), IdentityOf(series), IdentityBefore, IdsDiffer);
  }

  lemma {:induction false} ExportedSourcesTidy(rules: Rules, c: Catalog, series: nat, title: string)
    requires SoundCatalog(rules, c) && title != ""
    ensures TidySources(rules, SourceViews(c, SourceRows(c, series), title))
    ensures forall i :: 0 <= i < |SourceRows(c, series)| ==>
      SourceDistinct(rules, SourceViews(c, SourceRows(c, series), title)[i])
  {
    var rows := SourceRows(c, series);
    var views := SourceViews(c, rows, title);
    SourceRowsInOrder(c, series);
    forall i | 0 <= i < |rows| ensures TidySource(rules, views[i]) && SourceDistinct(rules, views[i]) {
      SourceRowsAreRows(c, series, i);
      ExportedSourceTidy(rules, c, rows[i], title);
    }
    forall i, j | 0 <= i < j < |rows| ensures !SourceBefore(views[j], views[i]) {
      assert !IdentityBefore(rows[j], rows[i]);
    }
  }

  lemma {:induction false} ExportedAliasesApart(rules: Rules, c: Catalog, series: nat, title: string)
    requires SoundCatalog(rules, c)
    ensures var views := SourceViews(c, SourceRows(c, series), title);
      && (forall i :: 0 <= i < |views| ==>
            ApartValues(rules, AliasList(Keep(c.aliases, OwnAlias(series))), views[i].aliases))
      && (forall i, j :: 0 <= i < j < |views| ==> ApartValues(rules, views[i].aliases, views[j].aliases))
  {
    var rows := SourceRows(c, series);
    var views := SourceViews(c, rows, title);
    SourceRowsInOrder(c, series);
    forall i | 0 <= i < |views|
      ensures ApartValues(rules, AliasList(Keep(c.aliases, OwnAlias(series))), views[i].aliases)
    {
      SourceRowsAreRows(c, series, i);
      AliasListsApart(rules, c, OwnAlias(series), AliasOf(rows[i].0), series);
    }
    forall i, j | 0 <= i < j < |views| ensures ApartValues(rules, views[i].aliases, views[j].aliases) {
      SourceRowsAreRows(c, series, i);
      SourceRowsAreRows(c, series, j);
      assert IdsDiffer(rows[i], rows[j]);
      AliasListsApart(rules, c, AliasOf(rows[i].0), AliasOf(rows[j].0), series);
    }
  }

  lemma {:induction false} ExportedSeriesTidy(rules: Rules, c: Catalog, series: (nat, SeriesRow))
    requires SoundCatalog(rules, c) && series.1.title != "" && SourceRows(c, series.0) != []
    ensures TidySeries(rules, SeriesView(rules, c, series)) && SeriesDistinct(rules, SeriesView(rules, c, series))
  {
    AliasListTidy(rules, c, OwnAlias(series.0), series.0);
    ReadingTidy(rules, c, series.0);
    ExportedSourcesTidy(rules, c, series.0, series.1.title);
    ExportedAliasesApart(rules, c, series.0, series.1.title);
  }

  // ---------------------------------------------------------------- the exported series together

  /** Rows are numbered series of the table, listed once each. */
  ghost predicate SeriesRows(c: Catalog, rows: seq<(nat, SeriesRow)>) {
    && AllPairs(rows, SeriesDiffer)
    && (forall i :: 0 <= i < |rows| ==> rows[i].0 < |c.series| && rows[i].1 == c.series[rows[i].0])
  }

  function SelectedRows(c: Catalog): seq<(nat, SeriesRow)> {
    Sort(Keep(Numbered(c.series), SelectedIn(c)), ByText(SeriesKey))
  }

  lemma {:induction false} ExportedRowsDiffer(c: Catalog)
    ensures AllPairs(ExportedRows(c), SeriesDiffer)
  {
    QueriedPairs(Numbered(c.series), SelectedIn(c), ByText(SeriesKey), SeriesDiffer);
    KeepPairs(SelectedRows(c), HasSources(c), SeriesDiffer);
  }

  lemma {:induction false} ExportedRowsAreRows(c: Catalog)
    ensures SeriesRows(c, ExportedRows(c))
  {
    ExportedRowsDiffer(c);
    forall i | 0 <= i < |ExportedRows(c)|
      ensures ExportedRows(c)[i].0 < |c.series| && ExportedRows(c)[i].1 == c.series[ExportedRows(c)[i].0]
    {
      ExportedRow(c, i);
    }
  }

  lemma {:induction false} ExportedRowsSorted(c: Catalog)
    ensures Sorted(ExportedRows(c), ByText(SeriesKey))
  {
    ByTextOrders(SeriesKey);
    SortSorts(Keep(Numbered(c.series), SelectedIn(c)), ByText(SeriesKey));
    KeepSorted(SelectedRows(c), HasSources(c), ByText(SeriesKey));
  }

  lemma {:induction false} ExportedTitlesInOrder(rules: Rules, c: Catalog)
    requires Derived(rules, c)
    ensures TitlesInOrder(rules, SeriesViews(rules, c, ExportedRows(c)))
  {
    var rows := ExportedRows(c);
    var views := SeriesViews(rules, c, rows);
    ExportedRowsSorted(c);
    forall i | 0 <= i < |rows| ensures rules.normalise(views[i].title) == SeriesKey(rows[i]) {
      ExportedRow(c, i);
    }
    forall i, j | 0 <= i < j < |rows|
      ensures !TextOrder.Less(rules.normalise(views[j].title), rules.normalise(views[i].title))
    {
      assert !ByText(SeriesKey)(rows[j], rows[i]);
    }
  }

  lemma {:induction false} ExportedRow(c: Catalog, i: nat)
    requires i < |ExportedRows(c)|
    ensures var row := ExportedRows(c)[i];
      row.0 < |c.series| && row.1 == c.series[row.0] && Selected(c, row) && SourceRows(c, row.0) != []
  {
    var sorted := Sort(Keep(Numbered(c.series), SelectedIn(c)), ByText(SeriesKey));
    var row := ExportedRows(c)[i];
    KeepMember(sorted, HasSources(c), row);
    assert row in ExportedRows(c);
    var at :| 0 <= at < |sorted| && sorted[at] == row;
    QueriedRow(Numbered(c.series), SelectedIn(c), ByText(SeriesKey), at);
  }

  /** The identity rows behind the sources of a list of exported series. */
  function FlatRows(c: Catalog, rows: seq<(nat, SeriesRow)>): seq<(nat, IdentityRow)> {
    if rows == [] then [] else FlatRows(c, rows[..|rows| - 1]) + SourceRows(c, rows[|rows| - 1].0)
  }

  /** Views list as many sources as their series have identity rows. */
  ghost predicate SameShape(c: Catalog, rows: seq<(nat, SeriesRow)>, views: seq<Series>) {
    |views| == |rows| && forall i :: 0 <= i < |rows| ==> |views[i].sources| == |SourceRows(c, rows[i].0)|
  }

  /** Position `x` is the `a`-th source of the `i`-th series, in the snapshot and in the rows. */
  lemma {:induction false} FlatAt(c: Catalog, rows: seq<(nat, SeriesRow)>, views: seq<Series>, x: nat)
    returns (i: nat, a: nat)
    requires x < |FlatRows(c, rows)| && SameShape(c, rows, views)
    ensures i < |rows| && a < |SourceRows(c, rows[i].0)| && FlatRows(c, rows)[x] == SourceRows(c, rows[i].0)[a]
    ensures |Flat(views)| == |FlatRows(c, rows)| && Flat(views)[x] == views[i].sources[a] && Home(views, x) == i
  {
    FlatRowsAreBlocks(c, rows);
    i, a := BlocksAt(Blocks(c, rows), views, x);
  }

  /** The identity rows of each exported series. */
  function Blocks(c: Catalog, rows: seq<(nat, SeriesRow)>): (blocks: seq<seq<(nat, IdentityRow)>>)
    ensures |blocks| == |rows| && forall i :: 0 <= i < |rows| ==> blocks[i] == SourceRows(c, rows[i].0)
  {
    seq(|rows|, i requires 0 <= i < |rows| => SourceRows(c, rows[i].0))
  }

  function Joined<T>(blocks: seq<seq<T>>): seq<T> {
    if blocks == [] then [] else Joined(blocks[..|blocks| - 1]) + blocks[|blocks| - 1]
  }

  lemma {:induction false} FlatRowsAreBlocks(c: Catalog, rows: seq<(nat, SeriesRow)>)
    ensures FlatRows(c, rows) == Joined(Blocks(c, rows))
  {
    if rows != [] {
      FlatRowsAreBlocks(c, rows[..|rows| - 1]);
      assert Blocks(c, rows)[..|rows| - 1] == Blocks(c, rows[..|rows| - 1]);
    }
  }

  /** The same bookkeeping for any blocks and any series that list as many sources. */
  lemma {:induction false} BlocksAt<T>(blocks: seq<seq<T>>, views: seq<Series>, x: nat) returns (i: nat, a: nat)
    requires x < |Joined(blocks)| && |views| == |blocks|
    requires forall i :: 0 <= i < |blocks| ==> |views[i].sources| == |blocks[i]|
    ensures i < |blocks| && a < |blocks[i]| && Joined(blocks)[x] == blocks[i][a]
    ensures |Flat(views)| == |Joined(blocks)| && Flat(views)[x] == views[i].sources[a] && Home(views, x) == i
  {
    var n := |blocks| - 1;
    BlockLengths(blocks[..n], views[..n]);
    BlockLengths(blocks, views);
    HomeStep(views, x);
    if x < |Joined(blocks[..n])| {
      i, a := BlocksAt(blocks[..n], views[..n], x);
    } else {
      i, a := n, x - |Joined(blocks[..n])|;
    }
  }

  lemma {:induction false} BlockLengths<T>(blocks: seq<seq<T>>, views: seq<Series>)
    requires |views| == |blocks| && forall i :: 0 <= i < |blocks| ==> |views[i].sources| == |blocks[i]|
    ensures |Flat(views)| == |Joined(blocks)|
  {
    if blocks != [] {
      BlockLengths(blocks[..|blocks| - 1], views[..|views| - 1]);
    }
  }

  lemma {:induction false} ViewsHaveShape(rules: Rules, c: Catalog, rows: seq<(nat, SeriesRow)>)
    ensures SameShape(c, rows, SeriesViews(rules, c, rows))
  {
    var views := SeriesViews(rules, c, rows);
    forall i | 0 <= i < |rows| ensures |views[i].sources| == |SourceRows(c, rows[i].0)| {
    }
  }

  /** Position by position, the sources are views of those rows. */
  lemma {:induction false} FlatViews(rules: Rules, c: Catalog, rows: seq<(nat, SeriesRow)>, x: nat)
    returns (title: string)
    requires x < |FlatRows(c, rows)| && |Flat(SeriesViews(rules, c, rows))| == |FlatRows(c, rows)|
    ensures Flat(SeriesViews(rules, c, rows))[x] == SourceView(c, FlatRows(c, rows)[x], title)
  {
    ViewsHaveShape(rules, c, rows);
    var i, a := FlatAt(c, rows, SeriesViews(rules, c, rows), x);
    title := rows[i].1.title;
    LastView(rules, c, rows[i], a);
  }

  lemma {:induction false} LastView(rules: Rules, c: Catalog, row: (nat, SeriesRow), a: nat)
    requires a < |SourceRows(c, row.0)|
    ensures a < |SeriesView(rules, c, row).sources|
    ensures SeriesView(rules, c, row).sources[a] == SourceView(c, SourceRows(c, row.0)[a], row.1.title)
  {
  }

  lemma {:induction false} HomeStep(views: seq<Series>, x: nat)
    requires x < |Flat(views)|
    ensures views != [] && Home(views, x)
      == if x < |Flat(views[..|views| - 1])| then Home(views[..|views| - 1], x) else |views| - 1
  {
  }

  lemma {:induction false} FlatLengths(c: Catalog, rows: seq<(nat, SeriesRow)>, views: seq<Series>)
    requires SameShape(c, rows, views)
    ensures |Flat(views)| == |FlatRows(c, rows)|
  {
    FlatRowsAreBlocks(c, rows);
    BlockLengths(Blocks(c, rows), views);
  }

  lemma {:induction false} FlatLength(rules: Rules, c: Catalog, rows: seq<(nat, SeriesRow)>)
    ensures |Flat(SeriesViews(rules, c, rows))| == |FlatRows(c, rows)|
  {
    ViewsHaveShape(rules, c, rows);
    FlatLengths(c, rows, SeriesViews(rules, c, rows));
  }

  lemma {:induction false} FlatRowsFrom(c: Catalog, rows: seq<(nat, SeriesRow)>, x: nat) returns (i: nat)
    requires x < |FlatRows(c, rows)|
    ensures i < |rows| && FlatRows(c, rows)[x] in SourceRows(c, rows[i].0) && FlatRows(c, rows)[x].1.series == rows[i].0
  {
    var n := |rows| - 1;
    var before := FlatRows(c, rows[..n]);
    if x < |before| {
      i := FlatRowsFrom(c, rows[..n], x);
    } else {
      i := n;
      SourceRowsAreRows(c, rows[n].0, x - |before|);
    }
  }

  lemma {:induction false} FlatRowsDiffer(c: Catalog, rows: seq<(nat, SeriesRow)>)
    requires SeriesRows(c, rows)
    ensures AllPairs(FlatRows(c, rows), IdsDiffer)
  {
    if rows != [] {
      var n := |rows| - 1;
      var before, last := FlatRows(c, rows[..n]), SourceRows(c, rows[n].0);
      FlatRowsDiffer(c, rows[..n]);
      SourceRowsInOrder(c, rows[n].0);
      forall x, y | 0 <= x < |before| && 0 <= y < |last| ensures IdsDiffer(before[x], last[y]) {
        var i := FlatRowsFrom(c, rows[..n], x);
        assert SeriesDiffer(rows[i], rows[n]);
        SourceRowsAreRows(c, rows[n].0, y);
        FlatRowIsRow(c, rows[..n], x);
      }
    }
  }

  lemma {:induction false} FlatRowIsRow(c: Catalog, rows: seq<(nat, SeriesRow)>, x: nat)
    requires x < |FlatRows(c, rows)|
    ensures FlatRows(c, rows)[x].0 < |c.identities| && FlatRows(c, rows)[x].1 == c.identities[FlatRows(c, rows)[x].0]
  {
    var i := FlatRowsFrom(c, rows, x);
    var at :| 0 <= at < |SourceRows(c, rows[i].0)| && SourceRows(c, rows[i].0)[at] == FlatRows(c, rows)[x];
    SourceRowsAreRows(c, rows[i].0, at);
  }

  lemma {:induction false} FlatRowExported(c: Catalog, x: nat)
    requires x < |FlatRows(c, ExportedRows(c))|
    ensures IdentityExported(c, FlatRows(c, ExportedRows(c))[x].0)
  {
    var i := FlatRowsFrom(c, ExportedRows(c), x);
    FlatRowIsRow(c, ExportedRows(c), x);
  }

  lemma {:induction false} ExportedSourcesApart(rules: Rules, c: Catalog)
    requires SoundCatalog(rules, c) && Separable(rules, c)
    ensures AllApart(rules, Flat(SeriesViews(rules, c, ExportedRows(c))))
  {
    var rows := ExportedRows(c);
    var flat, ids := Flat(SeriesViews(rules, c, rows)), FlatRows(c, rows);
    FlatLength(rules, c, rows);
    ExportedRowsAreRows(c);
    FlatRowsDiffer(c, rows);
    forall i, j | 0 <= i < j < |flat| ensures Unrelated(rules, flat[i], flat[j]) && ApartLists(flat[i], flat[j]) {
      assert IdsDiffer(ids[i], ids[j]);
      TwoApart(rules, c, i, j);
    }
  }

  lemma {:induction false} TwoApart(rules: Rules, c: Catalog, i: nat, j: nat)
    requires SoundCatalog(rules, c) && Separable(rules, c)
    requires i < |FlatRows(c, ExportedRows(c))| && j < |FlatRows(c, ExportedRows(c))|
    requires FlatRows(c, ExportedRows(c))[i].0 != FlatRows(c, ExportedRows(c))[j].0
    requires |Flat(SeriesViews(rules, c, ExportedRows(c)))| == |FlatRows(c, ExportedRows(c))|
    ensures var flat := Flat(SeriesViews(rules, c, ExportedRows(c)));
      Unrelated(rules, flat[i], flat[j]) && ApartLists(flat[i], flat[j])
  {
    var rows := ExportedRows(c);
    var ids := FlatRows(c, rows);
    var s := FlatViews(rules, c, rows, i);
    var t := FlatViews(rules, c, rows, j);
    FlatRowExported(c, i);
    FlatRowExported(c, j);
    FlatRowIsRow(c, rows, i);
    FlatRowIsRow(c, rows, j);
    ExportedListsApart(c, ids[i], ids[j], s, t);
  }

  // ---------------------------------------------------------------- exported separations

  lemma {:induction false} RowInSeries(c: Catalog, j: nat) returns (at: nat)
    requires j < |c.identities|
    ensures at < |SourceRows(c, c.identities[j].series)| && SourceRows(c, c.identities[j].series)[at].0 == j
  {
    var series := c.identities[j].series;
    var kept := Keep(Numbered(c.identities), IdentityOf(series));
    assert Numbered(c.identities)[j] == (j, c.identities[j]);
    KeepMember(Numbered(c.identities), IdentityOf(series), (j, c.identities[j]));
    IdentityBeforeOrders();
    SortSorts(kept, IdentityBefore);
    SameMembers(SourceRows(c, series), kept);
    at :| 0 <= at < |SourceRows(c, series)| && SourceRows(c, series)[at] == (j, c.identities[j]);
  }

  /** Where an exported identity stands in the snapshot. */
  lemma {:induction false} RowPosition(c: Catalog, rows: seq<(nat, SeriesRow)>, i: nat, j: nat) returns (x: nat)
    requires i < |rows| && j < |c.identities| && c.identities[j].series == rows[i].0
    ensures x < |FlatRows(c, rows)| && FlatRows(c, rows)[x].0 == j
  {
    var n := |rows| - 1;
    if i == n {
      var at := RowInSeries(c, j);
      x := |FlatRows(c, rows[..n])| + at;
    } else {
      x := RowPosition(c, rows[..n], i, j);
    }
  }

  /** The snapshot lists an exported identity at the position its reference resolves to. */
  lemma {:induction false} ExportedPosition(rules: Rules, c: Catalog, j: nat) returns (x: nat)
    requires SoundCatalog(rules, c) && Separable(rules, c) && IdentityExported(c, j)
    ensures x < |FlatRows(c, ExportedRows(c))| && FlatRows(c, ExportedRows(c))[x].0 == j
    ensures |Flat(SeriesViews(rules, c, ExportedRows(c)))| == |FlatRows(c, ExportedRows(c))|
    ensures SourceRef(Flat(SeriesViews(rules, c, ExportedRows(c)))[x]) == RefOf(c, j)
    ensures Position(rules, SeriesViews(rules, c, ExportedRows(c)), RefOf(c, j)) == x
  {
    var rows := ExportedRows(c);
    var i :| 0 <= i < |rows| && rows[i].0 == c.identities[j].series;
    x := RowPosition(c, rows, i, j);
    FlatLength(rules, c, rows);
    var title := FlatViews(rules, c, rows, x);
    FlatRowIsRow(c, rows, x);
    ExportedSourcesApart(rules, c);
    PositionIs(rules, SeriesViews(rules, c, rows), x);
  }

  lemma {:induction false} ExportedHome(rules: Rules, c: Catalog, x: nat)
    requires x < |FlatRows(c, ExportedRows(c))|
    ensures var series := SeriesViews(rules, c, ExportedRows(c));
      && |Flat(series)| == |FlatRows(c, ExportedRows(c))| && Home(series, x) < |ExportedRows(c)|
      && ExportedRows(c)[Home(series, x)].0 == FlatRows(c, ExportedRows(c))[x].1.series
  {
    var rows := ExportedRows(c);
    ViewsHaveShape(rules, c, rows);
    var i, a := FlatAt(c, rows, SeriesViews(rules, c, rows), x);
    SourceRowsAreRows(c, rows[i].0, a);
  }

  /** Both identities of a rejected decision are exported. */
  lemma {:induction false} RejectedIsExported(c: Catalog, n: nat)
    requires DecisionsSound(c) && Refs(c) && n < |c.decisions| && c.decisions[n].rejected
    ensures RejectedIn(c)(c.decisions[n])
  {
    TouchedIsExported(c, n, c.decisions[n].left);
    TouchedIsExported(c, n, c.decisions[n].right);
  }

  lemma {:induction false} TouchedIsExported(c: Catalog, n: nat, j: nat)
    requires Refs(c) && n < |c.decisions| && c.decisions[n].rejected && j < |c.identities|
    requires j == c.decisions[n].left || j == c.decisions[n].right
    ensures IdentityExported(c, j)
  {
    var i := c.identities[j].series;
    var row := (i, c.series[i]);
    assert RejectedTouches(c, c.decisions[n], i);
    HasIdentity(c, j);
    assert Numbered(c.series)[i] == row;
    KeepMember(Numbered(c.series), SelectedIn(c), row);
    ByTextOrders(SeriesKey);
    SortSorts(Keep(Numbered(c.series), SelectedIn(c)), ByText(SeriesKey));
    SameMembers(Sort(Keep(Numbered(c.series), SelectedIn(c)), ByText(SeriesKey)),
                Keep(Numbered(c.series), SelectedIn(c)));
    KeepMember(Sort(Keep(Numbered(c.series), SelectedIn(c)), ByText(SeriesKey)), HasSources(c), row);
    var at :| 0 <= at < |ExportedRows(c)| && ExportedRows(c)[at] == row;
  }

  lemma {:induction false} HasIdentity(c: Catalog, j: nat)
    requires j < |c.identities|
    ensures SourceRows(c, c.identities[j].series) != []
  {
    var kept := Keep(Numbered(c.identities), IdentityOf(c.identities[j].series));
    assert Numbered(c.identities)[j] == (j, c.identities[j]);
    KeepMember(Numbered(c.identities), IdentityOf(c.identities[j].series), (j, c.identities[j]));
    IdentityBeforeOrders();
    SortSorts(kept, IdentityBefore);
    SameMembers(Sort(kept, IdentityBefore), kept);
  }

  /** The rejected decisions, which are exactly what the snapshot separates. */
  function RejectedOnly(d: DecisionRow): bool { d.rejected }

  lemma {:induction false} ExportedDecisions(c: Catalog)
    requires DecisionsSound(c) && Refs(c)
    ensures Keep(c.decisions, RejectedIn(c)) == Keep(c.decisions, RejectedOnly)
    ensures AllPairs(Keep(c.decisions, RejectedOnly), PairsDiffer)
  {
    forall n | 0 <= n < |c.decisions| ensures RejectedIn(c)(c.decisions[n]) == RejectedOnly(c.decisions[n]) {
      if c.decisions[n].rejected {
        RejectedIsExported(c, n);
      }
    }
    KeepSame(c.decisions, RejectedIn(c), RejectedOnly);
    KeepPairs(c.decisions, RejectedOnly, PairsDiffer);
  }

  /** A rejected decision of the table, as the snapshot shows it. */
  lemma {:induction false} ExportedSeparation(rules: Rules, c: Catalog, d: DecisionRow) returns (x: nat, y: nat)
    requires SoundCatalog(rules, c) && Separable(rules, c) && d in c.decisions && d.rejected
    ensures var series := SeriesViews(rules, c, ExportedRows(c));
      && SeparationFits(rules, series, SeparationOf(c)(d))
      && x == Position(rules, series, RefOf(c, d.left)) && y == Position(rules, series, RefOf(c, d.right))
    ensures x < |FlatRows(c, ExportedRows(c))| && FlatRows(c, ExportedRows(c))[x].0 == d.left
    ensures y < |FlatRows(c, ExportedRows(c))| && FlatRows(c, ExportedRows(c))[y].0 == d.right
  {
    var n :| 0 <= n < |c.decisions| && c.decisions[n] == d;
    RejectedIsExported(c, n);
    x := ExportedPosition(rules, c, d.left);
    y := ExportedPosition(rules, c, d.right);
    ExportedHome(rules, c, x);
    ExportedHome(rules, c, y);
    FlatRowIsRow(c, ExportedRows(c), x);
    FlatRowIsRow(c, ExportedRows(c), y);
  }

  lemma {:induction false} ExportedSeparationsFit(rules: Rules, c: Catalog)
    requires SoundCatalog(rules, c) && Separable(rules, c)
    ensures SeparationsFit(rules, Export(rules, c))
  {
    var rows := Keep(c.decisions, RejectedOnly);
    var series, separations := SeriesViews(rules, c, ExportedRows(c)), Export(rules, c).separations;
    ExportedDecisions(c);
    forall i | 0 <= i < |rows| ensures rows[i] in c.decisions && rows[i].rejected {
      KeepMember(c.decisions, RejectedOnly, rows[i]);
      assert rows[i] in rows;
    }
    forall i | 0 <= i < |rows| ensures SeparationFits(rules, series, separations[i]) {
      var x, y := ExportedSeparation(rules, c, rows[i]);
    }
    forall i, j | 0 <= i < j < |rows|
      ensures Pair(rules, series, separations[i]) != Pair(rules, series, separations[j])
    {
      assert PairsDiffer(rows[i], rows[j]);
      PairsStayApart(rules, c, rows[i], rows[j]);
    }
  }

  lemma {:induction false} PairsStayApart(rules: Rules, c: Catalog, d: DecisionRow, e: DecisionRow)
    requires SoundCatalog(rules, c) && Separable(rules, c) && d in c.decisions && d.rejected && e in c.decisions
    requires e.rejected
    requires PairsDiffer(d, e)
    ensures var series := SeriesViews(rules, c, ExportedRows(c));
      Pair(rules, series, SeparationOf(c)(d)) != Pair(rules, series, SeparationOf(c)(e))
  {
    var x, y := ExportedSeparation(rules, c, d);
    var z, w := ExportedSeparation(rules, c, e);
  }

  // ---------------------------------------------------------------- selected again

  lemma {:induction false} ExportedReselected(rules: Rules, c: Catalog, i: nat)
    requires SoundCatalog(rules, c) && Separable(rules, c) && i < |ExportedRows(c)|
    ensures Reselected(rules, Export(rules, c), i)
  {
    var row := ExportedRows(c)[i];
    ExportedRow(c, i);
    var kept := Keep(Numbered(c.identities), IdentityOf(row.0));
    IdentityBeforeOrders();
    SortSorts(kept, IdentityBefore);
    SameMembers(Sort(kept, IdentityBefore), kept);
    if row.1.status == Untracked && !row.1.downloaded && |kept| <= 1 {
      var n :| 0 <= n < |c.decisions| && RejectedTouches(c, c.decisions[n], row.0);
      SeparationOfTouched(rules, c, i, c.decisions[n]);
    }
  }

  lemma {:induction false} SeparationOfTouched(rules: Rules, c: Catalog, i: nat, d: DecisionRow)
    requires SoundCatalog(rules, c) && Separable(rules, c) && i < |ExportedRows(c)|
    requires d in c.decisions && RejectedTouches(c, d, ExportedRows(c)[i].0)
    ensures var s := Export(rules, c);
      exists m :: 0 <= m < |s.separations| && TouchedBy(rules, s.series, s.separations[m], i)
  {
    var s, rows := Export(rules, c), Keep(c.decisions, RejectedOnly);
    ExportedDecisions(c);
    KeepMember(c.decisions, RejectedOnly, d);
    var m :| 0 <= m < |rows| && rows[m] == d;
    var x, y := ExportedSeparation(rules, c, d);
    ExportedHome(rules, c, x);
    ExportedHome(rules, c, y);
    FlatRowIsRow(c, ExportedRows(c), x);
    FlatRowIsRow(c, ExportedRows(c), y);
    ExportedRowsAreRows(c);
    assert TouchedBy(rules, s.series, s.separations[m], i) by {
      SameHome(c, i, Home(s.series, x));
      SameHome(c, i, Home(s.series, y));
    }
  }

  /** Exported rows of one series are one row. */
  lemma {:induction false} SameHome(c: Catalog, i: nat, j: nat)
    requires SeriesRows(c, ExportedRows(c)) && i < |ExportedRows(c)| && j < |ExportedRows(c)|
    ensures ExportedRows(c)[i].0 == ExportedRows(c)[j].0 ==> i == j
  {
    assert i < j ==> SeriesDiffer(ExportedRows(c)[i], ExportedRows(c)[j]);
    assert j < i ==> SeriesDiffer(ExportedRows(c)[j], ExportedRows(c)[i]);
  }

  lemma {:induction false} ExportedProviders(rules: Rules, c: Catalog)
    requires ListsSound(c)
    ensures ProvidersInOrder(Export(rules, c).providers)
  {
    var rows := Sort(c.providers, ByText(ProviderKey));
    ByTextOrders(ProviderKey);
    SortSorts(c.providers, ByText(ProviderKey));
    SortPairs(c.providers, ByText(ProviderKey), ProvidersDiffer);
    forall i, j | 0 <= i < j < |rows|
      ensures !TextOrder.Less(ProviderKey(rows[j]), ProviderKey(rows[i])) && rows[i].source != rows[j].source
    {
      assert !ByText(ProviderKey)(rows[j], rows[i]) && ProvidersDiffer(rows[i], rows[j]);
    }
  }

  lemma {:induction false} ExportedSeriesAllTidy(rules: Rules, c: Catalog)
    requires SoundCatalog(rules, c)
    ensures AllTidy(rules, Export(rules, c).series)
    ensures forall i :: 0 <= i < |Export(rules, c).series| ==> SeriesDistinct(rules, Export(rules, c).series[i])
  {
    var rows := ExportedRows(c);
    forall i | 0 <= i < |rows|
      ensures TidySeries(rules, Export(rules, c).series[i]) && SeriesDistinct(rules, Export(rules, c).series[i])
    {
      ExportedRow(c, i);
      ExportedSeriesTidy(rules, c, rows[i]);
    }
  }

  /** Every sound catalogue without equivalent identities exports a restorable snapshot. */
  lemma {:induction false} ExportIsExported(rules: Rules, c: Catalog)
    requires SoundCatalog(rules, c) && Separable(rules, c)
    ensures Exported(rules, Export(rules, c))
  {
    ExportedSeriesAllTidy(rules, c);
    ExportedSourcesApart(rules, c);
    ExportedTitlesInOrder(rules, c);
    ExportedSeparationsFit(rules, c);
    ExportedProviders(rules, c);
    forall i | 0 <= i < |Export(rules, c).series| ensures Reselected(rules, Export(rules, c), i) {
      ExportedReselected(rules, c, i);
    }
  }

  // ---------------------------------------------------------------- what an export contains

  /** The series counts for the library: tracked, downloaded, or joined from several listings. */
  ghost predicate Wanted(c: Catalog, i: nat) {
    && i < |c.series|
    && (|| c.series[i].status != Untracked || c.series[i].downloaded
        || (exists j: nat, k: nat :: j < k < |c.identities| && c.identities[j].series == c.identities[k].series == i)
        || HeldApart(c, i))
  }

  ghost predicate HeldApart(c: Catalog, i: nat) {
    exists n, j: nat :: 0 <= n < |c.decisions| && c.decisions[n].rejected && j < |c.identities|
      && j in {c.decisions[n].left, c.decisions[n].right} && c.identities[j].series == i
  }

  ghost predicate InExport(c: Catalog, i: nat) {
    exists x :: 0 <= x < |ExportedRows(c)| && ExportedRows(c)[x].0 == i
  }

  lemma {:induction false} SeveralListings(c: Catalog, i: nat)
    ensures |Keep(Numbered(c.identities), IdentityOf(i))| > 1 <==>
      exists j: nat, k: nat :: j < k < |c.identities| && c.identities[j].series == c.identities[k].series == i
  {
    var rows, kept := Numbered(c.identities), Keep(Numbered(c.identities), IdentityOf(i));
    KeepPairs(rows, IdentityOf(i), IdsDiffer);
    if |kept| > 1 {
      KeepMember(rows, IdentityOf(i), kept[0]);
      KeepMember(rows, IdentityOf(i), kept[1]);
      assert kept[0] in kept && kept[1] in kept && IdsDiffer(kept[0], kept[1]);
      var a, b := kept[0].0, kept[1].0;
      assert c.identities[a].series == i && c.identities[b].series == i;
    }
    if j: nat, k: nat :| j < k < |c.identities| && c.identities[j].series == c.identities[k].series == i {
      assert rows[j] in rows && rows[k] in rows;
      KeepMember(rows, IdentityOf(i), rows[j]);
      KeepMember(rows, IdentityOf(i), rows[k]);
      assert rows[j] in kept && rows[k] in kept && rows[j] != rows[k];
    }
  }

  lemma {:induction false} SelectedExactlyWhen(c: Catalog, i: nat)
    requires i < |c.series|
    ensures Selected(c, (i, c.series[i])) <==> Wanted(c, i)
  {
    SeveralListings(c, i);
    if n :| 0 <= n < |c.decisions| && RejectedTouches(c, c.decisions[n], i) {
      var j := if c.decisions[n].left < |c.identities| && c.identities[c.decisions[n].left].series == i
        then c.decisions[n].left else c.decisions[n].right;
      assert HeldApart(c, i);
    }
    if HeldApart(c, i) {
      var n, j: nat :| 0 <= n < |c.decisions| && c.decisions[n].rejected && j < |c.identities|
        && j in {c.decisions[n].left, c.decisions[n].right} && c.identities[j].series == i;
      assert RejectedTouches(c, c.decisions[n], i);
    }
  }

  /** An export contains exactly the listed series that are tracked, downloaded, joined or kept apart. */
  lemma {:induction false} ExportedExactlyWhen(c: Catalog, i: nat)
    requires i < |c.series|
    ensures InExport(c, i) <==> Wanted(c, i) && exists j: nat :: j < |c.identities| && c.identities[j].series == i
  {
    SelectedExactlyWhen(c, i);
    if x :| 0 <= x < |ExportedRows(c)| && ExportedRows(c)[x].0 == i {
      ExportedRow(c, x);
      var row := SourceRows(c, i)[0];
      SourceRowsAreRows(c, i, 0);
      assert row.0 < |c.identities| && c.identities[row.0].series == i;
    }
    if j: nat :| j < |c.identities| && c.identities[j].series == i && Wanted(c, i) {
      HasIdentity(c, j);
      SelectedIsExported(c, i);
    }
  }

  lemma {:induction false} SelectedIsExported(c: Catalog, i: nat)
    requires i < |c.series| && Selected(c, (i, c.series[i])) && SourceRows(c, i) != []
    ensures InExport(c, i)
  {
    var row := (i, c.series[i]);
    assert Numbered(c.series)[i] == row;
    KeepMember(Numbered(c.series), SelectedIn(c), row);
    ByTextOrders(SeriesKey);
    SortSorts(Keep(Numbered(c.series), SelectedIn(c)), ByText(SeriesKey));
    SameMembers(SelectedRows(c), Keep(Numbered(c.series), SelectedIn(c)));
    KeepMember(SelectedRows(c), HasSources(c), row);
    var at :| 0 <= at < |ExportedRows(c)| && ExportedRows(c)[at] == row;
  }

  /** A source of the snapshot says what its listing's row says; a missing title is the series'. */
  ghost predicate SaysListing(s: Source, row: IdentityRow, seriesTitle: string) {
    && s.source == row.source && s.sourceId == row.sourceId && s.url == row.url
    && s.description == row.description && s.revision == row.revision
    && s.title == (if row.title == "" then seriesTitle else row.title)
  }

  /** A series of the snapshot says what its row says; only a downloaded series nobody tracks becomes interested. */
  ghost predicate SaysSeries(p: Series, row: SeriesRow) {
    && p.title == row.title && p.description == row.description && p.downloaded == row.downloaded
    && (row.status != Untracked ==> p.status == row.status)
    && (row.status == Untracked ==> p.status == if row.downloaded then Interested else Untracked)
  }

  /** Every entry of an export says what the tables say of its series and of each of its listings, once each. */
  lemma {:induction false} ExportSaysTables(rules: Rules, c: Catalog, x: nat)
    requires x < |Export(rules, c).series|
    ensures |Export(rules, c).series| == |ExportedRows(c)|
    ensures var p, i := Export(rules, c).series[x], ExportedRows(c)[x].0;
      && i < |c.series| && SaysSeries(p, c.series[i]) && |p.sources| == |SourceRows(c, i)|
      && (forall a :: 0 <= a < |p.sources| ==>
           && SourceRows(c, i)[a].0 < |c.identities| && c.identities[SourceRows(c, i)[a].0].series == i
           && SaysListing(p.sources[a], c.identities[SourceRows(c, i)[a].0], c.series[i].title))
      && (forall j: nat :: j < |c.identities| && c.identities[j].series == i ==>
           exists a :: 0 <= a < |p.sources| && SourceRows(c, i)[a].0 == j)
  {
    ExportedRow(c, x);
    var i := ExportedRows(c)[x].0;
    forall a | 0 <= a < |SourceRows(c, i)|
      ensures SourceRows(c, i)[a].0 < |c.identities| && SourceRows(c, i)[a].1 == c.identities[SourceRows(c, i)[a].0]
        && c.identities[SourceRows(c, i)[a].0].series == i
    {
      SourceRowsAreRows(c, i, a);
    }
    forall j: nat | j < |c.identities| && c.identities[j].series == i
      ensures exists a :: 0 <= a < |SourceRows(c, i)| && SourceRows(c, i)[a].0 == j
    {
      var a := RowAt(c, i, j);
    }
  }

  lemma {:induction false} RowAt(c: Catalog, i: nat, j: nat) returns (a: nat)
    requires j < |c.identities| && c.identities[j].series == i
    ensures a < |SourceRows(c, i)| && SourceRows(c, i)[a].0 == j
  {
    var kept := Keep(Numbered(c.identities), IdentityOf(i));
    assert Numbered(c.identities)[j] == (j, c.identities[j]);
    KeepMember(Numbered(c.identities), IdentityOf(i), (j, c.identities[j]));
    IdentityBeforeOrders();
    SortSorts(kept, IdentityBefore);
    SameMembers(SourceRows(c, i), kept);
    a :| 0 <= a < |SourceRows(c, i)| && SourceRows(c, i)[a] == (j, c.identities[j]);
  }
}
