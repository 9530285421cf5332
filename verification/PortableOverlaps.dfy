/** Concrete imports into a catalogue in use that do not store all a snapshot says. */
module PortableOverlaps {

  import opened Options
  import opened Tables
  import opened PortableState
  import opened PortableImport
  import opened PortableRoundTrip
  import opened PortableExport
  import opened PortableDelivers

  // ---------------------------------------------------------------- series of one known listing

  /** The series has one source, which resolves to a listing there is. */
  ghost predicate OneKnown(rules: Rules, st: Importing, p: Series) {
    && |p.sources| == 1 && Resolve(rules, st.c, st.keys, p.sources[0]).Found?
    && Resolve(rules, st.c, st.keys, p.sources[0]).identity < |st.c.identities|
  }

  ghost function HomeOf(rules: Rules, st: Importing, p: Series): nat
    requires OneKnown(rules, st, p)
  {
    st.c.identities[Resolve(rules, st.c, st.keys, p.sources[0]).identity].series
  }

  lemma {:induction false} NoneMissing(resolutions: seq<Resolution>)
    requires |resolutions| == 1 && resolutions[0].Found?
    ensures CountMissing(resolutions) == 0
  {
    assert resolutions[..0] == [];
  }

  lemma {:induction false} OneHome(rules: Rules, st: Importing, p: Series)
    requires OneKnown(rules, st, p)
    ensures Homes(st.c, Resolutions(rules, st, p.sources)) == {HomeOf(rules, st, p)}
    ensures Ambiguous !in Resolutions(rules, st, p.sources) && CountMissing(Resolutions(rules, st, p.sources)) == 0
  {
    var resolutions := Resolutions(rules, st, p.sources);
    assert resolutions[0] == Resolve(rules, st.c, st.keys, p.sources[0]);
    NoneMissing(resolutions);
  }

  lemma {:induction false} OneKnownIsAdded(rules: Rules, st: Importing, p: Series)
    requires OneKnown(rules, st, p)
    ensures AddSeries(rules, st, p).Some?
  {
    OneHome(rules, st, p);
  }

  lemma {:induction false} OneKnownIsPlanned(rules: Rules, c: Catalog, keys: map<Key, nat>, series: seq<Series>)
    requires series != [] && OneKnown(rules, Importing(c, keys, map[]), series[|series| - 1])
    requires PlanSeries(rules, c, keys, series[..|series| - 1]).Some?
    ensures var before := PlanSeries(rules, c, keys, series[..|series| - 1]).value; var last := series[|series| - 1];
      PlanSeries(rules, c, keys, series)
        == Some(PlanOne(before, {HomeOf(rules, Importing(c, keys, map[]), last)}, 0, last.title))
  {
    var st, last := Importing(c, keys, map[]), series[|series| - 1];
    OneHome(rules, st, last);
  }

  /** Two series of one known listing each, which no other entry claims under another title. */
  lemma {:induction false} TwoKnownImport(rules: Rules, c: Catalog, s: Snapshot, p: Series,
                                          q: Series) returns (d: Catalog)
    requires s.series == [p, q] && s.separations == [] && AllPairs(c.readings, ReadingsDiffer)
    requires var st := Importing(c, IdentityMap(rules, c.identities), map[]);
      && OneKnown(rules, st, p) && OneKnown(rules, st, q)
      && (HomeOf(rules, st, p) == HomeOf(rules, st, q) ==> p.title == q.title)
      && AddSeries(rules, st, p).Some? && OneKnown(rules, AddSeries(rules, st, p).value, q)
    ensures Import(rules, c, s) == Some(d)
  {
    var st := Importing(c, IdentityMap(rules, c.identities), map[]);
    assert s.series[..1] == [p] && [p][..0] == [];
    TwoKnownPlan(rules, c, s.series, p, q);
    assert AddAllSeries(rules, st, [p][..0]) == Some(st);
    assert AddAllSeries(rules, st, [p]) == AddSeries(rules, st, p);
    OneKnownIsAdded(rules, AddSeries(rules, st, p).value, q);
    assert AddAllSeries(rules, st, s.series).Some?;
    d := Import(rules, c, s).value;
  }

  lemma {:induction false} TwoKnownPlan(rules: Rules, c: Catalog, series: seq<Series>, p: Series, q: Series)
    requires series == [p, q]
    requires var st := Importing(c, IdentityMap(rules, c.identities), map[]);
      && OneKnown(rules, st, p) && OneKnown(rules, st, q)
      && (HomeOf(rules, st, p) == HomeOf(rules, st, q) ==> p.title == q.title)
    ensures PlanSeries(rules, c, IdentityMap(rules, c.identities), series).Some?
    ensures PlanSeries(rules, c, IdentityMap(rules, c.identities), series).value.conflicts == 0
  {
    var st := Importing(c, IdentityMap(rules, c.identities), map[]);
    assert series[..1] == [p] && [p][..0] == [];
    assert PlanSeries(rules, c, st.keys, [p][..0]) == Some(NoPlan);
    OneKnownIsPlanned(rules, c, st.keys, [p]);
    OneKnownIsPlanned(rules, c, st.keys, series);
    var first := PlanOne(NoPlan, {HomeOf(rules, st, p)}, 0, p.title);
    assert Contested(NoPlan, {HomeOf(rules, st, p)}, p.title) == {};
    assert Contested(first, {HomeOf(rules, st, q)}, q.title) == {};
  }

  // ---------------------------------------------------------------- an identifier is forgotten

  /** The catalogue has exactly the two listings the two series name, in two series of their own. */
  ghost predicate TwoListed(rules: Rules, c: Catalog, p: Series, q: Series) {
    && |c.identities| == 2 && |p.sources| == 1 && |q.sources| == 1
    && SourceKey(rules, p.sources[0]) == KeyOf(rules, c.identities[0].source, c.identities[0].sourceId)
    && SourceKey(rules, q.sources[0]) == KeyOf(rules, c.identities[1].source, c.identities[1].sourceId)
    && SourceKey(rules, p.sources[0]) != SourceKey(rules, q.sources[0])
    && c.identities[0].series != c.identities[1].series
  }

  lemma {:induction false} TwoKeys(rules: Rules, c: Catalog, p: Series, q: Series)
    requires TwoListed(rules, c, p, q)
    ensures var keys := IdentityMap(rules, c.identities);
      && SourceKey(rules, p.sources[0]) in keys && keys[SourceKey(rules, p.sources[0])] == 0
      && SourceKey(rules, q.sources[0]) in keys && keys[SourceKey(rules, q.sources[0])] == 1
  {
    var rows := c.identities;
    assert rows[..1] == [rows[0]] && rows[..1][..0] == [];
    assert IdentityMap(rules, rows[..1][..0]) == map[];
    assert IdentityMap(rules, rows[..1]) == map[SourceKey(rules, p.sources[0]) := 0];
  }

  /** Such a snapshot is imported, each source into its listing. */
  lemma {:induction false} TwoListedImport(rules: Rules, c: Catalog, s: Snapshot, p: Series, q: Series)
    returns (d: Catalog, writes: seq<Write>, homes: seq<nat>)
    requires TwoListed(rules, c, p, q) && AllPairs(c.readings, ReadingsDiffer)
    requires s.series == [p, q] && s.separations == []
    ensures Import(rules, c, s) == Some(d) && Arrived(rules, c, s, d, writes, homes)
    ensures |writes| == 2 && writes[0].identity == 0 && writes[1].identity == 1
    ensures writes[0].source == p.sources[0] && writes[1].source == q.sources[0]
  {
    var st := Importing(c, IdentityMap(rules, c.identities), map[]);
    TwoKeys(rules, c, p, q);
    FirstKeysLead(rules, c.identities);
    OneKnownIsAdded(rules, st, p);
    var w, at := AddSeriesDelivers(rules, st, p);
    d := TwoKnownImport(rules, c, s, p, q);
    writes, homes := ImportDelivers(rules, c, s, d);
    TwoFlat(s.series, p, q);
    assert WriteOf(rules, writes[0], homes, s.series, 0, st.keys, |d.identities|);
    assert WriteOf(rules, writes[1], homes, s.series, 1, st.keys, |d.identities|);
  }

  lemma {:induction false} TwoFlat(series: seq<Series>, p: Series, q: Series)
    requires series == [p, q] && |p.sources| == 1 && |q.sources| == 1
    ensures Flat(series) == [p.sources[0], q.sources[0]]
  {
    assert series[..1] == [p] && series[..1][..0] == [];
    assert Flat(series[..1][..0]) == [];
    assert Flat(series[..1]) == [p.sources[0]];
  }

  function Listing(id: string, title: string, url: string, identifier: string): Series {
    Series(title, Reading, false, "", [],
           [Source("mangadex", id, title, url, "", "", [], [("anilist", identifier)], [])], [])
  }

  /** The second listing holds the identifier the snapshot gives to the first. */
  function Crossed(): Catalog {
    Catalog([SeriesRow("b", "b", "", Reading, false), SeriesRow("c", "c", "", Reading, false)],
            [IdentityRow(0, "mangadex", "1", "b", "http://u", "", ""),
             IdentityRow(1, "mangadex", "2", "c", "http://v", "", "")],
            [], [ExternalRow(1, "anilist", "A")], [], [], [], [])
  }

  function Corrected(): Snapshot {
    Snapshot([Listing("1", "b", "http://u", "A"), Listing("2", "c", "http://v", "B")], [], [])
  }

  lemma {:induction false} CorrectedFold(rows: seq<ExternalRow>, ops: Ops, row: ExternalRow, e: Entry, f: Entry, j: nat)
    requires rows == [row] && e == (row.provider, row.value) && f.0 == row.provider && f != e
    requires ops == [Op(j, e), Op(row.identity, f)]
    ensures Fold(rows, ops) == [ExternalRow(row.identity, f.0, f.1)]
  {
    assert ops[..1] == [Op(j, e)] && ops[..1][..0] == [];
    assert Fold(rows, ops[..1][..0]) == rows;
    assert ExternalValue(e.0, e.1)(rows[0]);
    assert Fold(rows, ops[..1]) == rows;
    assert ExternalFor(row.identity, f.0)(rows[0]) && !ExternalValue(f.0, f.1)(rows[0]);
  }

  /**
   The identifier of the first source is held by the second listing and so not written; then the second
   listing is given its own.  The import succeeds, and the first identifier is stored nowhere.
   */
  lemma {:induction false} IdentifierIsForgotten(rules: Rules, c: Catalog, s: Snapshot) returns (d: Catalog)
    requires rules.identity("mangadex", "1") != rules.identity("mangadex", "2") && c == Crossed() && s == Corrected()
    ensures Import(rules, c, s) == Some(d) && d.externals == [ExternalRow(1, "anilist", "B")]
    ensures s.series[0].sources[0].externals == [("anilist", "A")] && !Holds(d.externals, ("anilist", "A"))
  {
    var p, q := s.series[0], s.series[1];
    var writes, homes;
    d, writes, homes := TwoListedImport(rules, c, s, p, q);
    TwoOps(writes, ("anilist", "A"), ("anilist", "B"));
    CorrectedFold(c.externals, OpsOf(writes), c.externals[0], ("anilist", "A"), ("anilist", "B"), 0);
  }

  lemma {:induction false} TwoOps(writes: seq<Write>, e: Entry, f: Entry)
    requires |writes| == 2 && writes[0].source.externals == [e] && writes[1].source.externals == [f]
    ensures OpsOf(writes) == [Op(writes[0].identity, e), Op(writes[1].identity, f)]
  {
    assert writes[..1] == [writes[0]] && writes[..1][..0] == [];
    assert OpsOf(writes[..1][..0]) == [];
    assert OpsOf(writes[..1]) == [Op(writes[0].identity, e)];
  }

  // ---------------------------------------------------------------- a listing is overwritten

  /** Listings of one provider with one address are one listing, as well as those with one id. */
  ghost predicate AddressesDecide(rules: Rules) {
    && (forall source, id :: rules.identity(source, id) == id)
    && forall a, b :: rules.equivalent(a, b) <==> a.0 == b.0 && (a.1 == b.1 || a.2 == b.2)
  }

  /** The catalogue has one listing, of an older id. */
  function Known(): Catalog {
    Catalog([SeriesRow("b", "b", "", Reading, false)], [IdentityRow(0, "mangadex", "1", "b", "http://u", "", "")],
            [], [], [], [], [], [])
  }

  /** Two ids with one address, in two entries of one title. */
  function Doubled(): Snapshot {
    Snapshot([Listing("1", "b", "http://u", "A"), Listing("2", "b", "http://u", "B")], [], [])
  }

  lemma {:induction false} OneKey(rules: Rules, c: Catalog)
    requires AddressesDecide(rules) && c == Known()
    ensures IdentityMap(rules, c.identities) == map[("mangadex", "1") := 0]
  {
    assert c.identities[..0] == [];
    assert IdentityMap(rules, c.identities[..0]) == map[];
  }

  /** A source whose key is new but whose address is that of the only listing resolves to it. */
  lemma {:induction false} ResolvesByAddress(rules: Rules, st: Importing, s: Source)
    requires AddressesDecide(rules) && st.keys == map[("mangadex", "1") := 0] && |st.c.identities| == 1
    requires s.source == st.c.identities[0].source && s.sourceId != "1" && s.url == st.c.identities[0].url
    ensures Resolve(rules, st.c, st.keys, s) == Found(0)
  {
    assert SourceKey(rules, s) !in st.keys;
    assert st.keys[("mangadex", "1")] == 0;
    assert Matches(rules, st.c, st.keys, s) == {0};
  }

  lemma {:induction false} ResolvesByKey(rules: Rules, st: Importing, s: Source)
    requires AddressesDecide(rules) && st.keys == map[("mangadex", "1") := 0]
    requires s.source == "mangadex" && s.sourceId == "1"
    ensures Resolve(rules, st.c, st.keys, s) == Found(0)
  {
  }

  /** One series of one source that resolves to the only listing: the listing carries it, and keys stay. */
  lemma {:induction false} RewritesListing(rules: Rules, st: Importing, p: Series)
    requires |p.sources| == 1 && Resolve(rules, st.c, st.keys, p.sources[0]) == Found(0)
    requires |st.c.identities| == 1 && KeysLead(st) && AllPairs(st.c.readings, ReadingsDiffer)
    ensures var t := AddSeries(rules, st, p);
      && t.Some? && |t.value.c.identities| == 1 && t.value.keys == st.keys && KeysLead(t.value)
      && AllPairs(t.value.c.readings, ReadingsDiffer)
      && exists home :: Carries(t.value.c.identities[0], home, p.sources[0])
  {
    OneKnownIsAdded(rules, st, p);
    var t := AddSeries(rules, st, p).value;
    var w, at := AddSeriesDelivers(rules, st, p);
    assert w[..0] == [] && Resolutions(rules, st, p.sources)[0] == Found(0);
    assert t.c.identities == Written(st.c.identities, w[0]);
    assert Carries(t.c.identities[0], at, p.sources[0]);
    var home := AddSeriesChooses(rules, st, p);
    OnlySourceKeepsKeys(rules, st, home, p);
  }

  lemma {:induction false} OnlySourceKeepsKeys(rules: Rules, st: Importing, home: Option<nat>, p: Series)
    requires |p.sources| == 1 && Resolve(rules, st.c, st.keys, p.sources[0]) == Found(0) && |st.c.identities| == 1
    ensures Filling(rules, st, home, p, Resolutions(rules, st, p.sources)).keys == st.keys
  {
    var resolutions := Resolutions(rules, st, p.sources);
    var at := if home.Some? && home.value < |st.c.series| then home.value else |st.c.series|;
    OneSourceAdded(rules, NamedState(rules, st, home, p, at), at, p.sources, resolutions);
    assert resolutions[0] == Found(0);
  }

  lemma {:induction false} OneSourceAdded(rules: Rules, st: Importing, series: nat, sources: seq<Source>,
                                          resolutions: seq<Resolution>)
    requires |sources| == 1 && |resolutions| == 1
    ensures AddSources(rules, st, series, sources, resolutions)
      == AddSource(rules, st, series, sources[0], resolutions[0])
  {
    assert sources[..0] == [] && resolutions[..0] == [];
    assert AddSources(rules, st, series, sources[..0], resolutions[..0]) == st;
  }

  /**
   Both entries resolve to the one listing: the import succeeds, the second overwrites the first, and no
   listing has the first id any more.
   */
  lemma {:induction false} ListingIsOverwritten(rules: Rules, c: Catalog, s: Snapshot) returns (d: Catalog)
    requires AddressesDecide(rules) && c == Known() && s == Doubled()
    ensures Import(rules, c, s) == Some(d) && |d.identities| == 1
    ensures s.series[0].sources[0].sourceId == "1" && d.identities[0].sourceId == "2"
  {
    var st := Importing(c, IdentityMap(rules, c.identities), map[]);
    var p, q := s.series[0], s.series[1];
    OneKey(rules, c);
    FirstKeysLead(rules, c.identities);
    ResolvesByKey(rules, st, p.sources[0]);
    ResolvesByAddress(rules, st, q.sources[0]);
    RewritesListing(rules, st, p);
    var t := AddSeries(rules, st, p).value;
    ResolvesByAddress(rules, t, q.sources[0]);
    d := TwoKnownImport(rules, c, s, p, q);
    RewritesListing(rules, t, q);
    LastOfTwo(rules, st, s.series, p, q);
  }

  lemma {:induction false} LastOfTwo(rules: Rules, st: Importing, series: seq<Series>, p: Series, q: Series)
    requires series == [p, q] && AddSeries(rules, st, p).Some?
    ensures AddAllSeries(rules, st, series) == AddSeries(rules, AddSeries(rules, st, p).value, q)
  {
    assert series[..1] == [p] && series[..1][..0] == [];
    assert AddAllSeries(rules, st, series[..1][..0]) == Some(st);
    assert AddAllSeries(rules, st, series[..1]) == AddSeries(rules, st, p);
  }

  /** Such rules exist. */
  lemma {:induction false} SomeAddressesDecide() returns (rules: Rules)
    ensures AddressesDecide(rules)
  {
    rules := Rules((t: string) => t,
                   (source: string, id: string) => id,
                   (a: (string, string, string), b: (string, string, string)) =>
                     a.0 == b.0 && (a.1 == b.1 || a.2 == b.2),
                   (t: string) => t,
                   (a: string, b: string) => false);
  }
}
