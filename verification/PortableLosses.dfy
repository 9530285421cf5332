/** Concrete snapshots that a round trip changes. */
module PortableLosses {

  import opened Options
  import TextOrder
  import opened Tables
  import opened PortableState
  import opened PortableBuild
  import opened PortableImport
  import opened PortableRoundTrip
  import opened PortableExport
  import opened PortableRepeat

  /** Simple text rules: a dash normalises to nothing, and otherwise only equal texts agree. */
  function PlainRules(): Rules {
    Rules((t: string) => if t == "-" then "" else t,
          (source: string, id: string) => id,
          (a: (string, string, string), b: (string, string, string)) => a == b,
          (t: string) => t,
          (a: string, b: string) => TextOrder.Less(a, b))
  }

  ghost predicate Plain(rules: Rules) {
    && (forall t :: rules.normalise(t) == (if t == "-" then "" else t) && rules.canonical(t) == t)
    && (forall source, id :: rules.identity(source, id) == id)
    && (forall a, b :: rules.equivalent(a, b) <==> a == b)
    && Orders(ReadingBefore(rules))
  }

  lemma {:induction false} PlainRulesArePlain()
    ensures Plain(PlainRules())
  {
    var rules := PlainRules();
    var before := ReadingBefore(rules);
    forall a: ReadingRow, b: ReadingRow ensures before(a, b) == TextOrder.Less(a.number, b.number) {
      assert before(a, b) == rules.chapterBefore(a.number, b.number);
    }
    forall a, b | before(a, b) ensures !before(b, a) {
      LessAsymmetric(a.number, b.number);
    }
    forall a, b, c | !before(b, a) && !before(c, b) ensures !before(c, a) {
      NotLessTransitive(a.number, b.number, c.number);
    }
  }

  // ---------------------------------------------------------------- queries over one or two rows

  lemma {:induction false} KeepOne<T>(a: T, p: T -> bool)
    ensures Keep([a], p) == if p(a) then [a] else []
  {
    assert [a][..0] == [];
  }

  lemma {:induction false} KeepTwo<T>(a: T, b: T, p: T -> bool)
    ensures Keep([a, b], p) == (if p(a) then [a] else []) + if p(b) then [b] else []
  {
    assert [a, b][..1] == [a];
    KeepOne(a, p);
  }

  lemma {:induction false} SortOne<T>(a: T, before: (T, T) -> bool)
    ensures Sort([a], before) == [a]
  {
    assert [a][..0] == [];
  }

  lemma {:induction false} SortTwo<T>(a: T, b: T, before: (T, T) -> bool)
    ensures Sort([a, b], before) == if before(b, a) then [b, a] else [a, b]
  {
    assert [a, b][..1] == [a];
    SortOne(a, before);
    assert [a][..0] == [];
    assert Insert([], b, before) == [b];
    assert Insert([a], b, before) == if before(b, a) then [b] + [a] else [a] + [b];
  }

  lemma {:induction false} KeepBoth<T>(a: T, b: T, p: T -> bool)
    requires p(a) && p(b)
    ensures Keep([a, b], p) == [a, b]
  {
    KeepTwo(a, b, p);
  }

  lemma {:induction false} SortBoth<T>(a: T, b: T, before: (T, T) -> bool)
    requires before(b, a)
    ensures Sort([a, b], before) == [b, a]
  {
    SortTwo(a, b, before);
  }

  /** Two rows that are selected, the second before the first, and kept. */
  lemma {:induction false} QueryTwo<T>(rows: seq<T>, p: T -> bool, before: (T, T) -> bool, q: T -> bool, a: T, b: T)
    requires rows == [a, b] && p(a) && p(b) && q(a) && q(b) && before(b, a)
    ensures Keep(Sort(Keep(rows, p), before), q) == [b, a]
  {
    KeepBoth(a, b, p);
    SortBoth(a, b, before);
    KeepBoth(b, a, q);
  }

  // ---------------------------------------------------------------- a separation comes back swapped

  /** Two series kept apart; the older one comes second by title. */
  function Separated(): Catalog {
    Catalog([SeriesRow("c", "c", "", Reading, false), SeriesRow("b", "b", "", Reading, false)],
            [IdentityRow(0, "mangadex", "1", "c", "http://u", "", ""),
             IdentityRow(1, "mangadex", "2", "b", "http://v", "", "")],
            [], [], [], [], [DecisionRow(0, 1, true)], [])
  }

  lemma {:induction false} SeparatedIsDerived(rules: Rules, c: Catalog)
    requires Plain(rules) && c == Separated()
    ensures Derived(rules, c) && Refs(c) && HasAddresses(c)
  {
  }

  lemma {:induction false} SeparatedIsSound(rules: Rules, c: Catalog)
    requires Plain(rules) && c == Separated()
    ensures SoundCatalog(rules, c) && HasAddresses(c)
  {
    SeparatedIsDerived(rules, c);
    assert AliasesSound(c) && ListsSound(c);
  }

  lemma {:induction false} SeparatedIsSeparable(rules: Rules, c: Catalog)
    requires Plain(rules) && c == Separated()
    ensures Separable(rules, c)
  {
    forall j: nat, k: nat | j < 2 && k < 2 && j != k
      ensures c.identities[j].sourceId != c.identities[k].sourceId
    {
    }
  }

  lemma {:induction false} SeparatedSources(c: Catalog)
    requires c == Separated()
    ensures SourceRows(c, 0) == [(0, c.identities[0])] && SourceRows(c, 1) == [(1, c.identities[1])]
  {
    var first, second := (0, c.identities[0]), (1, c.identities[1]);
    assert Numbered(c.identities) == [first, second];
    KeepTwo(first, second, IdentityOf(0));
    KeepTwo(first, second, IdentityOf(1));
    SortOne(first, IdentityBefore);
    SortOne(second, IdentityBefore);
  }

  lemma {:induction false} SeparatedRows(c: Catalog)
    requires c == Separated()
    ensures ExportedRows(c) == [(1, c.series[1]), (0, c.series[0])]
  {
    SeparatedSources(c);
    assert Numbered(c.series) == [(0, c.series[0]), (1, c.series[1])];
    assert TextOrder.Less(SeriesKey((1, c.series[1])), SeriesKey((0, c.series[0])));
    QueryTwo(Numbered(c.series), SelectedIn(c), ByText(SeriesKey), HasSources(c), (0, c.series[0]), (1, c.series[1]));
  }

  lemma {:induction false} TwoFlat(c: Catalog, rows: seq<(nat, SeriesRow)>, x: (nat, IdentityRow), y: (nat,
                                   IdentityRow))
    requires |rows| == 2 && SourceRows(c, rows[0].0) == [x] && SourceRows(c, rows[1].0) == [y]
    ensures FlatRows(c, rows) == [x, y]
  {
    assert FlatRows(c, rows[..1][..0]) == [];
    assert FlatRows(c, rows[..1]) == [x];
  }

  lemma {:induction false} SeparatedFlat(c: Catalog)
    requires c == Separated()
    ensures IdsOf(FlatRows(c, ExportedRows(c))) == [1, 0]
  {
    SeparatedRows(c);
    SeparatedSources(c);
    TwoFlat(c, ExportedRows(c), (1, c.identities[1]), (0, c.identities[0]));
  }

  lemma {:induction false} OnePair(rules: Rules, c: Catalog, d: DecisionRow)
    requires c.decisions == [d] && RejectedIn(c)(d)
    ensures Export(rules, c).separations == [SeparationOf(c)(d)]
  {
    KeepOne(d, RejectedIn(c));
  }

  lemma {:induction false} ListedAt(rules: Rules, c: Catalog, j: nat) returns (x: nat)
    requires SoundCatalog(rules, c) && Separable(rules, c) && IdentityExported(c, j)
    ensures x < |FlatRows(c, ExportedRows(c))| && IdsOf(FlatRows(c, ExportedRows(c)))[x] == j
    ensures Position(rules, Export(rules, c).series, RefOf(c, j)) == x
  {
    x := ExportedPosition(rules, c, j);
  }

  /** The snapshot lists two identities in the order of their rows. */
  lemma {:induction false} ListedInOrder(rules: Rules, c: Catalog, first: nat, last: nat)
    requires SoundCatalog(rules, c) && Separable(rules, c) && IdentityExported(c, first) && IdentityExported(c, last)
    requires first != last && IdsOf(FlatRows(c, ExportedRows(c))) == [first, last]
    ensures Position(rules, Export(rules, c).series, RefOf(c, first)) == 0
    ensures Position(rules, Export(rules, c).series, RefOf(c, last)) == 1
  {
    var x := ListedAt(rules, c, first);
    var y := ListedAt(rules, c, last);
    assert [first, last][x] == first && [first, last][y] == last;
  }

  function IdOf(row: (nat, IdentityRow)): nat { row.0 }
  function IdsOf(rows: seq<(nat, IdentityRow)>): seq<nat> { Project(rows, IdOf) }

  /** A pair whose first identity is listed last comes back the other way round. */
  lemma {:induction false} ListedBackwards(rules: Rules, c: Catalog, first: nat, last: nat)
    requires SoundCatalog(rules, c) && Separable(rules, c) && c.decisions == [DecisionRow(last, first, true)]
    requires first != last && IdsOf(FlatRows(c, ExportedRows(c))) == [first, last]
    ensures Export(rules, c).separations == [Separation(RefOf(c, last), RefOf(c, first))]
    ensures Restored(rules, Export(rules, c)).separations == [Separation(RefOf(c, first), RefOf(c, last))]
  {
    RejectedIsExported(c, 0);
    OnePair(rules, c, DecisionRow(last, first, true));
    ListedInOrder(rules, c, first, last);
    OnlySeparation(rules, Export(rules, c), RefOf(c, last), RefOf(c, first));
  }

  lemma {:induction false} OnlySeparation(rules: Rules, s: Snapshot, left: Ref, right: Ref)
    requires s.separations == [Separation(left, right)]
    requires Position(rules, s.series, right) < Position(rules, s.series, left)
    ensures Restored(rules, s).separations == [Separation(right, left)]
  {
  }

  lemma {:induction false} BackwardsComesBackSwapped(rules: Rules, c: Catalog, first: nat,
                                                     last: nat) returns (d: Catalog)
    requires SoundCatalog(rules, c) && Separable(rules, c) && HasAddresses(c)
    requires c.decisions == [DecisionRow(last, first, true)]
    requires first != last && IdsOf(FlatRows(c, ExportedRows(c))) == [first, last]
    ensures Import(rules, EmptyCatalog, Export(rules, c)) == Some(d)
    ensures Export(rules, c).separations == [Separation(RefOf(c, last), RefOf(c, first))]
    ensures Export(rules, d).separations == [Separation(RefOf(c, first), RefOf(c, last))]
  {
    ListedBackwards(rules, c, first, last);
    d := CatalogRoundTrip(rules, c);
  }

  /** The identity that came first in the tables comes second in the snapshot, so the pair is swapped. */
  lemma {:induction false} SeparationComesBackSwapped(rules: Rules, c: Catalog) returns (d: Catalog)
    requires Plain(rules) && c == Separated()
    ensures SoundCatalog(rules, c) && Separable(rules, c) && HasAddresses(c)
    ensures Import(rules, EmptyCatalog, Export(rules, c)) == Some(d)
    ensures Export(rules, c).separations == [Separation(RefOf(c, 0), RefOf(c, 1))]
    ensures Export(rules, d).separations == [Separation(RefOf(c, 1), RefOf(c, 0))]
  {
    SeparatedIsSound(rules, c);
    SeparatedIsSeparable(rules, c);
    SeparatedFlat(c);
    d := BackwardsComesBackSwapped(rules, c, 1, 0);
  }

  // ---------------------------------------------------------------- an alternate is filled in

  /** A listing with an alternate that has no title of its own. */
  function Alternating(): Catalog {
    Catalog([SeriesRow("b", "b", "", Reading, false)], [IdentityRow(0, "mangadex", "1", "b", "http://u", "", "")],
            [], [], [AlternateRow(0, "mangadex", "9", "", "http://w")], [], [], [])
  }

  lemma {:induction false} AlternatingIsSound(rules: Rules, c: Catalog)
    requires Plain(rules) && c == Alternating()
    ensures SoundCatalog(rules, c) && HasAddresses(c)
  {
    assert Derived(rules, c) && Refs(c);
  }

  lemma {:induction false} OneListing(rules: Rules, c: Catalog)
    requires |c.identities| == 1
    ensures Separable(rules, c)
  {
  }

  lemma {:induction false} AlternatingRows(c: Catalog)
    requires c == Alternating()
    ensures ExportedRows(c) == [(0, c.series[0])] && SourceRows(c, 0) == [(0, c.identities[0])]
  {
    assert Numbered(c.identities) == [(0, c.identities[0])] && Numbered(c.series) == [(0, c.series[0])];
    KeepOne((0, c.identities[0]), IdentityOf(0));
    SortOne((0, c.identities[0]), IdentityBefore);
    KeepOne((0, c.series[0]), SelectedIn(c));
    SortOne((0, c.series[0]), ByText(SeriesKey));
    KeepOne((0, c.series[0]), HasSources(c));
  }

  /** The alternates of the one listing of a snapshot of one series. */
  function OnlyAlternates(s: Snapshot): seq<Alternate> {
    if |s.series| == 1 && |s.series[0].sources| == 1 then s.series[0].sources[0].alternates else []
  }

  lemma {:induction false} AlternatingSource(rules: Rules, c: Catalog)
    requires c == Alternating()
    ensures SourceView(c, (0, c.identities[0]), "b").title == "b"
    ensures SourceView(c, (0, c.identities[0]), "b").alternates == [Alternate("9", "", "http://w")]
  {
    KeepOne(c.alternates[0], AlternateOf(0));
    SortOne(c.alternates[0], ByText(AlternateKey));
  }

  lemma {:induction false} AlternatingSnapshot(rules: Rules, c: Catalog)
    requires |c.series| > 0 && |c.identities| > 0
    requires ExportedRows(c) == [(0, c.series[0])] && SourceRows(c, 0) == [(0, c.identities[0])]
    ensures var s := Export(rules, c);
      && |s.series| == 1 && |s.series[0].sources| == 1
      && s.series[0].sources[0] == SourceView(c, (0, c.identities[0]), c.series[0].title)
  {
    assert SeriesViews(rules, c, ExportedRows(c))[0] == SeriesView(rules, c, (0, c.series[0]));
  }

  lemma {:induction false} OnlyAlternate(rules: Rules, s: Snapshot, a: Alternate)
    requires |s.series| == 1 && |s.series[0].sources| == 1 && s.series[0].sources[0].alternates == [a]
    ensures OnlyAlternates(s) == [a]
    ensures OnlyAlternates(Restored(rules, s)) == [Filled(s.series[0].sources[0], a)]
  {
    var source := s.series[0].sources[0];
    assert RestoredSource(rules, source).alternates == [Filled(source, a)];
  }

  /** The alternate takes the title of its listing. */
  lemma {:induction false} AlternateComesBackFilled(rules: Rules, c: Catalog) returns (d: Catalog)
    requires Plain(rules) && c == Alternating()
    ensures SoundCatalog(rules, c) && Separable(rules, c) && HasAddresses(c)
    ensures Import(rules, EmptyCatalog, Export(rules, c)) == Some(d)
    ensures OnlyAlternates(Export(rules, c)) == [Alternate("9", "", "http://w")]
    ensures OnlyAlternates(Export(rules, d)) == [Alternate("9", "b", "http://w")]
  {
    AlternatingIsSound(rules, c);
    OneListing(rules, c);
    AlternatingRows(c);
    AlternatingSource(rules, c);
    AlternatingSnapshot(rules, c);
    OnlyAlternate(rules, Export(rules, c), Alternate("9", "", "http://w"));
    d := CatalogRoundTrip(rules, c);
  }

  // ---------------------------------------------------------------- a written snapshot loses an alias

  /** No export writes this: the alias normalises to nothing. */
  function HandMade(): Snapshot {
    Snapshot([Series("b", Reading, false, "", ["-"],
                     [Source("mangadex", "1", "b", "http://u", "", "", [], [], [])], [])], [], [])
  }

  lemma {:induction false} HandMadeFits(rules: Rules, s: Snapshot)
    requires Plain(rules) && s == HandMade()
    ensures Exported(rules, s)
  {
    HandMadeTidy(rules, s.series[0]);
    OneSource(rules, s.series);
  }

  lemma {:induction false} HandMadeTidy(rules: Rules, p: Series)
    requires Plain(rules) && p == HandMade().series[0]
    ensures TidySeries(rules, p) && SeriesDistinct(rules, p) && |p.sources| == 1
  {
  }

  lemma {:induction false} OneSource(rules: Rules, series: seq<Series>)
    requires |series| == 1 && |series[0].sources| == 1
    ensures AllApart(rules, Flat(series))
  {
    assert Flat(series[..0]) == [];
  }

  lemma {:induction false} OnlyAlias(rules: Rules, s: Snapshot, alias: string)
    requires |s.series| == 1 && s.series[0].aliases == [alias] && rules.normalise(alias) == ""
    ensures |Restored(rules, s).series| == 1 && Restored(rules, s).series[0].aliases == []
  {
    KeepOne(alias, Meaningful(rules));
  }

  /** A hand-made snapshot with an alias that means nothing can be restored, but loses the alias. */
  lemma {:induction false} AliasIsLost(rules: Rules, s: Snapshot) returns (d: Catalog)
    requires Plain(rules) && s == HandMade()
    ensures Import(rules, EmptyCatalog, s) == Some(d) && s.series[0].aliases == ["-"]
    ensures |Export(rules, d).series| == 1 && Export(rules, d).series[0].aliases == []
  {
    HandMadeFits(rules, s);
    OnlyAlias(rules, s, "-");
    SnapshotRoundTrip(rules, s);
    d := RestoredCatalog(rules, s);
  }
}
