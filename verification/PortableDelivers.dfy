/** What a successful import leaves in the tables, whatever catalogue it was imported into. */
module PortableDelivers {

  import opened Options
  import opened Sequences
  import opened Tables
  import opened PortableState
  import opened PortableImport
  import opened PortableRoundTrip
  import opened PortableExport
  import opened PortableKeeps

  // ---------------------------------------------------------------- the rows an import writes

  /** One source written to an identity of a series: an existing one, or the next new one. */
  datatype Write = Write(home: nat, identity: nat, source: Source)

  function Written(rows: seq<IdentityRow>, w: Write): seq<IdentityRow> {
    var row := IdentityRow(w.home, w.source.source, w.source.sourceId, w.source.title, w.source.url,
                           w.source.description, w.source.revision);
    if w.identity < |rows| then rows[w.identity := row] else rows + [row]
  }

  ghost function Rows(rows: seq<IdentityRow>, writes: seq<Write>): seq<IdentityRow> {
    if writes == [] then rows else Written(Rows(rows, writes[..|writes| - 1]), writes[|writes| - 1])
  }

  /** Every write goes to a listing there is, or to the next new one. */
  ghost predicate Fits(rows: seq<IdentityRow>, writes: seq<Write>) {
    writes == [] || (&& Fits(rows, writes[..|writes| - 1])
                     && writes[|writes| - 1].identity <= |Rows(rows, writes[..|writes| - 1])|)
  }

  ghost function Externals(rows: seq<ExternalRow>, writes: seq<Write>): seq<ExternalRow> {
    if writes == [] then rows
    else
      var last := writes[|writes| - 1];
      AddExternals(Externals(rows, writes[..|writes| - 1]), last.identity, last.source.externals)
  }

  ghost function Alternates(rows: seq<AlternateRow>, writes: seq<Write>): seq<AlternateRow> {
    if writes == [] then rows
    else
      var last := writes[|writes| - 1];
      AddAlternates(Alternates(rows, writes[..|writes| - 1]), last.identity, last.source, last.source.alternates)
  }

  ghost function Restores(rules: Rules, restored: map<Key, nat>, writes: seq<Write>): map<Key, nat> {
    if writes == [] then restored
    else
      var last := writes[|writes| - 1];
      Restores(rules, restored, writes[..|writes| - 1])[SourceKey(rules, last.source) := last.identity]
  }

  lemma {:induction false} WritesSplit(rules: Rules, st: Importing, a: seq<Write>, b: seq<Write>)
    ensures Rows(st.c.identities, a + b) == Rows(Rows(st.c.identities, a), b)
    ensures Fits(st.c.identities, a) && Fits(Rows(st.c.identities, a), b) ==> Fits(st.c.identities, a + b)
    ensures Externals(st.c.externals, a + b) == Externals(Externals(st.c.externals, a), b)
    ensures Alternates(st.c.alternates, a + b) == Alternates(Alternates(st.c.alternates, a), b)
    ensures Restores(rules, st.restored, a + b) == Restores(rules, Restores(rules, st.restored, a), b)
  {
    if b == [] {
      assert a + b == a;
    } else {
      WritesSplit(rules, st, a, b[..|b| - 1]);
      assert (a + b)[..|a + b| - 1] == a + b[..|b| - 1];
    }
  }

  /** From `st` to `t` the listings, identifiers and alternates change by exactly these writes. */
  ghost predicate Mirrors(rules: Rules, st: Importing, t: Importing, writes: seq<Write>) {
    && t.c.identities == Rows(st.c.identities, writes) && Fits(st.c.identities, writes)
    && t.c.externals == Externals(st.c.externals, writes)
    && t.c.alternates == Alternates(st.c.alternates, writes)
    && t.restored == Restores(rules, st.restored, writes)
    && t.c.decisions == st.c.decisions && t.c.providers == st.c.providers
  }

  lemma {:induction false} MirrorsJoin(rules: Rules, st: Importing, t: Importing, u: Importing, a: seq<Write>,
                                       b: seq<Write>)
    requires Mirrors(rules, st, t, a) && Mirrors(rules, t, u, b)
    ensures Mirrors(rules, st, u, a + b)
  {
    WritesSplit(rules, st, a, b);
  }

  // ---------------------------------------------------------------- resolving finds listings of the provider

  /** Every known key leads to a listing of its provider. */
  ghost predicate KeysLead(st: Importing) {
    forall key :: key in st.keys ==>
      st.keys[key] < |st.c.identities| && st.c.identities[st.keys[key]].source == key.0
  }

  lemma {:induction false} FirstKeysLead(rules: Rules, rows: seq<IdentityRow>)
    ensures forall key :: key in IdentityMap(rules, rows) ==>
      IdentityMap(rules, rows)[key] < |rows| && rows[IdentityMap(rules, rows)[key]].source == key.0
  {
    if rows != [] {
      FirstKeysLead(rules, rows[..|rows| - 1]);
    }
  }

  ghost predicate Leads(c: Catalog, s: Source, resolution: Resolution) {
    resolution.Found? ==>
      resolution.identity < |c.identities| && c.identities[resolution.identity].source == s.source
  }

  lemma {:induction false} ResolveLeads(rules: Rules, st: Importing, s: Source)
    requires KeysLead(st)
    ensures Leads(st.c, s, Resolve(rules, st.c, st.keys, s))
  {
  }

  /** Where a resolved source is written. */
  ghost predicate GoesTo(resolution: Resolution, size: nat, identity: nat) {
    if resolution.Found? then identity == resolution.identity else identity >= size
  }

  /** The same providers at the same places, and possibly more. */
  ghost predicate SameProviders(before: seq<IdentityRow>, after: seq<IdentityRow>) {
    |before| <= |after| && forall j :: 0 <= j < |before| ==> after[j].source == before[j].source
  }

  lemma {:induction false} AddSourceWrites(rules: Rules, st: Importing, series: nat, s: Source, resolution: Resolution)
    returns (w: Write)
    requires KeysLead(st) && Leads(st.c, s, resolution)
    ensures var t := AddSource(rules, st, series, s, resolution);
      && Mirrors(rules, st, t, [w]) && KeysLead(t) && SameProviders(st.c.identities, t.c.identities)
      && w.home == series && w.source == s && w.identity < |t.c.identities|
      && GoesTo(resolution, |st.c.identities|, w.identity)
      && t.c.series == st.c.series && t.c.readings == st.c.readings
      && t.c.aliases == AddAliases(rules, st.c.aliases, series, Some(w.identity), s.aliases)
  {
    w := Write(series, if resolution.Found? then resolution.identity else |st.c.identities|, s);
    assert [w][..0] == [];
    var t := AddSource(rules, st, series, s, resolution);
    assert t.c.identities == Written(st.c.identities, w);
  }

  // ---------------------------------------------------------------- aliases

  lemma {:induction false} AddAliasesNames(rules: Rules, rows: seq<AliasRow>, series: nat, identity: Option<nat>,
                                           values: seq<string>)
    ensures rows <= AddAliases(rules, rows, series, identity, values)
    ensures AllNamed(rules, AddAliases(rules, rows, series, identity, values), series, values)
  {
    if values != [] {
      var n := |values| - 1;
      var before := AddAliases(rules, rows, series, identity, values[..n]);
      AddAliasesNames(rules, rows, series, identity, values[..n]);
      var after := AddAlias(rules, before, series, identity, values[n]);
      var at := Find(before, AliasNamed(series, rules.normalise(values[n])));
      if rules.normalise(values[n]) != "" {
        assert after[at].series == series && after[at].normalized == rules.normalise(values[n]);
      }
      NamesStay(rules, before, after, series, values[..n]);
    }
  }

  /** Every value that means something is a name of the series. */
  ghost predicate AllNamed(rules: Rules, rows: seq<AliasRow>, series: nat, values: seq<string>) {
    forall k :: 0 <= k < |values| && rules.normalise(values[k]) != "" ==>
      Named(rows, series, rules.normalise(values[k]))
  }

  lemma {:induction false} NamesStay(rules: Rules, rows: seq<AliasRow>, more: seq<AliasRow>, series: nat,
                                     values: seq<string>)
    requires rows <= more && AllNamed(rules, rows, series, values)
    ensures AllNamed(rules, more, series, values)
  {
    forall k | 0 <= k < |values| && rules.normalise(values[k]) != ""
      ensures Named(more, series, rules.normalise(values[k]))
    {
      var i :| 0 <= i < |rows| && rows[i].series == series && rows[i].normalized == rules.normalise(values[k]);
      assert more[i] == rows[i];
    }
  }

  ghost predicate SourcesNamed(rules: Rules, rows: seq<AliasRow>, series: nat, sources: seq<Source>) {
    forall a :: 0 <= a < |sources| ==> AllNamed(rules, rows, series, sources[a].aliases)
  }

  lemma {:induction false} AddSourcesNames(rules: Rules, st: Importing, series: nat, sources: seq<Source>,
                                           resolutions: seq<Resolution>)
    requires |sources| == |resolutions|
    ensures var t := AddSources(rules, st, series, sources, resolutions);
      && st.c.aliases <= t.c.aliases && SourcesNamed(rules, t.c.aliases, series, sources)
      && t.c.series == st.c.series && t.c.readings == st.c.readings
  {
    if sources != [] {
      var n := |sources| - 1;
      AddSourcesNames(rules, st, series, sources[..n], resolutions[..n]);
      var before := AddSources(rules, st, series, sources[..n], resolutions[..n]);
      var t := AddSource(rules, before, series, sources[n], resolutions[n]);
      AddSourceNames(rules, before, series, sources[n], resolutions[n]);
      forall a | 0 <= a < n ensures AllNamed(rules, t.c.aliases, series, sources[a].aliases) {
        assert AllNamed(rules, before.c.aliases, series, sources[..n][a].aliases);
        NamesStay(rules, before.c.aliases, t.c.aliases, series, sources[a].aliases);
      }
    }
  }

  lemma {:induction false} AddSourceNames(rules: Rules, st: Importing, series: nat, s: Source, resolution: Resolution)
    ensures var t := AddSource(rules, st, series, s, resolution);
      && st.c.aliases <= t.c.aliases && AllNamed(rules, t.c.aliases, series, s.aliases)
      && t.c.series == st.c.series && t.c.readings == st.c.readings
  {
    var identity := if resolution.Found? && resolution.identity < |st.c.identities| then resolution.identity
      else |st.c.identities|;
    AddAliasesNames(rules, st.c.aliases, series, Some(identity), s.aliases);
  }

  /** One write per source, in order, to the listing it resolved to or to a new one. */
  ghost predicate WritesEach(writes: seq<Write>, series: nat, sources: seq<Source>, resolutions: seq<Resolution>,
                             size: nat, total: nat) {
    && |writes| == |sources| == |resolutions|
    && forall a :: 0 <= a < |sources| ==>
         && writes[a].home == series && writes[a].source == sources[a] && writes[a].identity < total
         && GoesTo(resolutions[a], size, writes[a].identity)
  }

  /** All sources of one series. */
  lemma {:induction false} AddSourcesWrites(rules: Rules, st: Importing, series: nat, sources: seq<Source>,
                                            resolutions: seq<Resolution>)
    returns (writes: seq<Write>)
    requires KeysLead(st) && |sources| == |resolutions|
    requires forall a :: 0 <= a < |sources| ==> Leads(st.c, sources[a], resolutions[a])
    ensures var t := AddSources(rules, st, series, sources, resolutions);
      && Mirrors(rules, st, t, writes) && KeysLead(t) && SameProviders(st.c.identities, t.c.identities)
      && WritesEach(writes, series, sources, resolutions, |st.c.identities|, |t.c.identities|)
  {
    writes := [];
    if sources != [] {
      var n := |sources| - 1;
      writes := AddSourcesWrites(rules, st, series, sources[..n], resolutions[..n]);
      var before := AddSources(rules, st, series, sources[..n], resolutions[..n]);
      assert Leads(before.c, sources[n], resolutions[n]);
      var w := AddSourceWrites(rules, before, series, sources[n], resolutions[n]);
      var t := AddSource(rules, before, series, sources[n], resolutions[n]);
      MirrorsJoin(rules, st, before, t, writes, [w]);
      EachOneMore(writes, w, series, sources, resolutions, |st.c.identities|, |before.c.identities|, |t.c.identities|);
      writes := writes + [w];
    }
  }

  lemma {:induction false} EachOneMore(writes: seq<Write>, w: Write, series: nat, sources: seq<Source>,
                                       resolutions: seq<Resolution>, size: nat, before: nat, total: nat)
    requires sources != [] && |resolutions| == |sources| && size <= before <= total
    requires WritesEach(writes, series, sources[..|sources| - 1], resolutions[..|sources| - 1], size, before)
    requires w.home == series && w.source == sources[|sources| - 1] && w.identity < total
    requires GoesTo(resolutions[|sources| - 1], before, w.identity)
    ensures WritesEach(writes + [w], series, sources, resolutions, size, total)
  {
  }

  // ---------------------------------------------------------------- reading progress

  lemma {:induction false} ReachStays(rows: seq<ReadingRow>, more: seq<ReadingRow>, series: nat, number: string,
                                      status: Progress)
    requires OnlyRaised(rows, more) && ReachesAtLeast(rows, series, number, status)
    ensures ReachesAtLeast(more, series, number, status)
  {
    var i :| 0 <= i < |rows|
      && ReadingFor(series, number)(rows[i]) && ProgressRank(rows[i].status) >= ProgressRank(status);
    assert Raised(rows[i], more[i]) && ReadingFor(series, number)(more[i]);
  }

  /** The chapters of the list are at least as far as it says. */
  ghost predicate AllReached(rules: Rules, rows: seq<ReadingRow>, series: nat, entries: seq<ReadingState>) {
    forall k :: 0 <= k < |entries| ==>
      ReachesAtLeast(rows, series, rules.canonical(entries[k].chapter), entries[k].status)
  }

  lemma {:induction false} AllReachStay(rules: Rules, rows: seq<ReadingRow>, more: seq<ReadingRow>, series: nat,
                                        entries: seq<ReadingState>)
    requires OnlyRaised(rows, more) && AllReached(rules, rows, series, entries)
    ensures AllReached(rules, more, series, entries)
  {
    forall k | 0 <= k < |entries|
      ensures ReachesAtLeast(more, series, rules.canonical(entries[k].chapter), entries[k].status)
    {
      ReachStays(rows, more, series, rules.canonical(entries[k].chapter), entries[k].status);
    }
  }

  lemma {:induction false} AddReadingsReach(rules: Rules, rows: seq<ReadingRow>, series: nat,
                                            entries: seq<ReadingState>)
    requires AllPairs(rows, ReadingsDiffer)
    ensures AllReached(rules, AddReadings(rules, rows, series, entries), series, entries)
  {
    if entries != [] {
      var n := |entries| - 1;
      var before, after := AddReadings(rules, rows, series, entries[..n]), AddReadings(rules, rows, series, entries);
      AddReadingsReach(rules, rows, series, entries[..n]);
      AddReadingsRaise(rules, rows, series, entries[..n]);
      AddReadingRaises(rules, before, series, entries[n]);
      AllReachStay(rules, before, after, series, entries[..n]);
      forall k | 0 <= k < n
        ensures ReachesAtLeast(after, series, rules.canonical(entries[k].chapter), entries[k].status)
      {
        assert entries[..n][k] == entries[k];
      }
    }
  }

  // ---------------------------------------------------------------- one series

  /** A local title and description are never replaced, and the status never falls. */
  ghost predicate RowStands(before: SeriesRow, after: SeriesRow) {
    && (before.title != "" ==> after.title == before.title)
    && (before.description != "" ==> after.description == before.description)
    && StatusRank(after.status) >= StatusRank(before.status) && after.downloaded == before.downloaded
  }

  /** Nothing local is lost: series stand, names stay, progress never falls. */
  ghost predicate Grows(c: Catalog, d: Catalog) {
    && |c.series| <= |d.series| && (forall i :: 0 <= i < |c.series| ==> RowStands(c.series[i], d.series[i]))
    && c.aliases <= d.aliases && OnlyRaised(c.readings, d.readings)
    && SameProviders(c.identities, d.identities)
  }

  /** The series is in the tables with at least what the snapshot says of it. */
  ghost predicate Delivered(rules: Rules, c: Catalog, p: Series, home: nat) {
    && home < |c.series| && StatusRank(c.series[home].status) >= StatusRank(p.status)
    && (p.title != "" ==> c.series[home].title != "") && (p.description != "" ==> c.series[home].description != "")
    && AllNamed(rules, c.aliases, home, p.aliases) && SourcesNamed(rules, c.aliases, home, p.sources)
    && AllReached(rules, c.readings, home, p.reading)
  }

  lemma {:induction false} DeliveredStays(rules: Rules, c: Catalog, d: Catalog, p: Series, home: nat)
    requires Grows(c, d) && Delivered(rules, c, p, home)
    ensures Delivered(rules, d, p, home)
  {
    assert RowStands(c.series[home], d.series[home]);
    NamesStay(rules, c.aliases, d.aliases, home, p.aliases);
    forall a | 0 <= a < |p.sources| ensures AllNamed(rules, d.aliases, home, p.sources[a].aliases) {
      NamesStay(rules, c.aliases, d.aliases, home, p.sources[a].aliases);
    }
    AllReachStay(rules, c.readings, d.readings, home, p.reading);
  }

  lemma {:induction false} GrowsJoin(c: Catalog, d: Catalog, e: Catalog)
    requires Grows(c, d) && Grows(d, e)
    ensures Grows(c, e)
  {
    RaisedTransitive(c.readings, d.readings, e.readings);
    forall i | 0 <= i < |c.series| ensures RowStands(c.series[i], e.series[i]) {
      assert RowStands(c.series[i], d.series[i]) && RowStands(d.series[i], e.series[i]);
    }
  }

  lemma {:induction false} PlaceDelivers(rules: Rules, c: Catalog, home: Option<nat>, p: Series) returns (at: nat)
    ensures var placed := Place(rules, c, home, p).series;
      && at < |placed| && at == (if home.Some? && home.value < |c.series| then home.value else |c.series|)
      && |c.series| <= |placed| && (forall i :: 0 <= i < |c.series| ==> RowStands(c.series[i], placed[i]))
      && StatusRank(placed[at].status) >= StatusRank(p.status)
      && (p.title != "" ==> placed[at].title != "") && (p.description != "" ==> placed[at].description != "")
      && (at == |c.series| ==>
           placed[at].title == p.title && placed[at].description == p.description && placed[at].status == p.status)
  {
    at := if home.Some? && home.value < |c.series| then home.value else |c.series|;
  }

  ghost predicate AllLead(c: Catalog, sources: seq<Source>, resolutions: seq<Resolution>) {
    |sources| == |resolutions| && forall a :: 0 <= a < |sources| ==> Leads(c, sources[a], resolutions[a])
  }

  ghost function NamedState(rules: Rules, st: Importing, home: Option<nat>, p: Series, at: nat): Importing {
    var placed := Place(rules, st.c, home, p);
    st.(c := placed.(aliases := AddAliases(rules, placed.aliases, at, None, p.aliases)))
  }

  /** The row, the names and the listings of one series. */
  lemma {:induction false} ListingDelivers(rules: Rules, st: Importing, home: Option<nat>, p: Series,
                                           resolutions: seq<Resolution>, at: nat)
    returns (writes: seq<Write>)
    requires KeysLead(st) && AllLead(st.c, p.sources, resolutions)
    ensures var t := AddSources(rules, NamedState(rules, st, home, p, at), at, p.sources, resolutions);
      && Mirrors(rules, st, t, writes) && KeysLead(t)
      && WritesEach(writes, at, p.sources, resolutions, |st.c.identities|, |t.c.identities|)
      && AllNamed(rules, t.c.aliases, at, p.aliases) && SourcesNamed(rules, t.c.aliases, at, p.sources)
      && st.c.aliases <= t.c.aliases && SameProviders(st.c.identities, t.c.identities)
      && t.c.series == Place(rules, st.c, home, p).series && t.c.readings == st.c.readings
  {
    var before := NamedState(rules, st, home, p, at);
    AddAliasesNames(rules, st.c.aliases, at, None, p.aliases);
    writes := AddSourcesWrites(rules, before, at, p.sources, resolutions);
    AddSourcesNames(rules, before, at, p.sources, resolutions);
    NamesStay(rules, before.c.aliases, AddSources(rules, before, at, p.sources, resolutions).c.aliases, at, p.aliases);
  }

  /** One series of the snapshot: its row, its names, its listings and its progress. */
  lemma {:induction false} FillingDelivers(rules: Rules, st: Importing, home: Option<nat>, p: Series,
                                           resolutions: seq<Resolution>)
    returns (writes: seq<Write>, at: nat)
    requires KeysLead(st) && AllLead(st.c, p.sources, resolutions) && AllPairs(st.c.readings, ReadingsDiffer)
    ensures var t := Filling(rules, st, home, p, resolutions);
      && Mirrors(rules, st, t, writes) && KeysLead(t) && Grows(st.c, t.c) && Delivered(rules, t.c, p, at)
      && AllPairs(t.c.readings, ReadingsDiffer)
      && WritesEach(writes, at, p.sources, resolutions, |st.c.identities|, |t.c.identities|)
      && at == (if home.Some? && home.value < |st.c.series| then home.value else |st.c.series|)
  {
    at := PlaceDelivers(rules, st.c, home, p);
    writes := ListingDelivers(rules, st, home, p, resolutions, at);
    var listed := AddSources(rules, NamedState(rules, st, home, p, at), at, p.sources, resolutions);
    AddReadingsRaise(rules, listed.c.readings, at, p.reading);
    AddReadingsReach(rules, listed.c.readings, at, p.reading);
    assert Filling(rules, st, home, p, resolutions)
      == listed.(c := listed.c.(readings := AddReadings(rules, listed.c.readings, at, p.reading)));
  }

  // ---------------------------------------------------------------- keys

  /** Known keys keep their listings. */
  ghost predicate KeepsKeys(before: map<Key, nat>, after: map<Key, nat>) {
    forall key :: key in before ==> key in after && after[key] == before[key]
  }

  lemma {:induction false} AddSourcesKeepKeys(rules: Rules, st: Importing, series: nat, sources: seq<Source>,
                                              resolutions: seq<Resolution>, known: map<Key, nat>)
    requires |sources| == |resolutions| && KeepsKeys(known, st.keys)
    requires forall a :: 0 <= a < |sources| && SourceKey(rules, sources[a]) in known ==>
      resolutions[a].Found? && resolutions[a].identity < |st.c.identities|
    ensures KeepsKeys(known, AddSources(rules, st, series, sources, resolutions).keys)
    ensures |st.c.identities| <= |AddSources(rules, st, series, sources, resolutions).c.identities|
  {
    if sources != [] {
      var n := |sources| - 1;
      AddSourcesKeepKeys(rules, st, series, sources[..n], resolutions[..n], known);
    }
  }

  // ---------------------------------------------------------------- the series of a snapshot

  /** What `AddSeries` chose: the one series its known listings belong to, or a new one. */
  lemma {:induction false} AddSeriesChooses(rules: Rules, st: Importing, p: Series) returns (home: Option<nat>)
    requires AddSeries(rules, st, p).Some?
    ensures var resolutions := Resolutions(rules, st, p.sources);
      && AddSeries(rules, st, p) == Some(Filling(rules, st, home, p, resolutions)) && Ambiguous !in resolutions
      && Homes(st.c, resolutions) == (if home.Some? then {home.value} else {})
  {
    var homes := Homes(st.c, Resolutions(rules, st, p.sources));
    home := None;
    if homes != {} {
      var h :| h in homes && AddSeries(rules, st, p)
        == Some(Filling(rules, st, Some(h), p, Resolutions(rules, st, p.sources)));
      assert homes == {h} + (homes - {h});
      home := Some(h);
    }
  }

  lemma {:induction false} AddSeriesDelivers(rules: Rules, st: Importing, p: Series) returns (writes: seq<Write>,
                                             at: nat)
    requires AddSeries(rules, st, p).Some? && KeysLead(st) && AllPairs(st.c.readings, ReadingsDiffer)
    ensures var t := AddSeries(rules, st, p).value;
      && Mirrors(rules, st, t, writes) && KeysLead(t) && Grows(st.c, t.c) && Delivered(rules, t.c, p, at)
      && AllPairs(t.c.readings, ReadingsDiffer) && KeepsKeys(st.keys, t.keys)
      && WritesEach(writes, at, p.sources, Resolutions(rules, st, p.sources), |st.c.identities|, |t.c.identities|)
  {
    var home := AddSeriesChooses(rules, st, p);
    var resolutions := Resolutions(rules, st, p.sources);
    forall a | 0 <= a < |p.sources| ensures Leads(st.c, p.sources[a], resolutions[a]) {
      ResolveLeads(rules, st, p.sources[a]);
    }
    writes, at := FillingDelivers(rules, st, home, p, resolutions);
    AddSourcesKeepKeys(rules, NamedState(rules, st, home, p, at), at, p.sources, resolutions, st.keys);
  }

  /** Write `x` is for source `x` of the snapshot, in the series its own went to, on its known listing if any. */
  ghost predicate WriteOf(rules: Rules, w: Write, homes: seq<nat>, series: seq<Series>, x: nat, keys: map<Key, nat>,
                          total: nat)
    requires x < |Flat(series)|
  {
    && w.source == Flat(series)[x] && Home(series, x) < |homes| && w.home == homes[Home(series, x)]
    && w.identity < total && (SourceKey(rules, w.source) in keys ==> w.identity == keys[SourceKey(rules, w.source)])
  }

  ghost predicate WritesAll(rules: Rules, writes: seq<Write>, homes: seq<nat>, series: seq<Series>,
                            keys: map<Key, nat>, total: nat) {
    && |writes| == |Flat(series)| && |homes| == |series|
    && forall x :: 0 <= x < |writes| ==> WriteOf(rules, writes[x], homes, series, x, keys, total)
  }

  ghost predicate AllDelivered(rules: Rules, c: Catalog, series: seq<Series>, homes: seq<nat>) {
    |homes| == |series| && forall n :: 0 <= n < |series| ==> Delivered(rules, c, series[n], homes[n])
  }

  /** One more series: its writes come last. */
  lemma {:induction false} WritesOneMore(rules: Rules, writes: seq<Write>, homes: seq<nat>, series: seq<Series>,
                                         keys: map<Key, nat>, total: nat, more: seq<Write>, at: nat, st: Importing,
                                         size: nat)
    requires series != [] && WritesAll(rules, writes, homes, series[..|series| - 1], keys, total)
    requires total <= size && KeepsKeys(keys, st.keys)
    requires var last := series[|series| - 1];
      WritesEach(more, at, last.sources, Resolutions(rules, st, last.sources), total, size)
    ensures WritesAll(rules, writes + more, homes + [at], series, keys, size)
  {
    var n := |series| - 1;
    var before, last := series[..n], series[n];
    forall x | 0 <= x < |writes + more|
      ensures WriteOf(rules, (writes + more)[x], homes + [at], series, x, keys, size)
    {
      if x < |writes| {
        FlatHome(before, x);
        assert WriteOf(rules, writes[x], homes, before, x, keys, total);
      } else {
        var a := x - |writes|;
        assert more[a].source == last.sources[a];
        assert Resolutions(rules, st, last.sources)[a] == Resolve(rules, st.c, st.keys, last.sources[a]);
      }
    }
  }

  lemma {:induction false} DeliveredOneMore(rules: Rules, c: Catalog, d: Catalog, series: seq<Series>,
                                            homes: seq<nat>, at: nat)
    requires series != [] && AllDelivered(rules, c, series[..|series| - 1], homes) && Grows(c, d)
    requires Delivered(rules, d, series[|series| - 1], at)
    ensures AllDelivered(rules, d, series, homes + [at])
  {
    forall n | 0 <= n < |series| ensures Delivered(rules, d, series[n], (homes + [at])[n]) {
      if n < |series| - 1 {
        assert Delivered(rules, c, series[..|series| - 1][n], homes[n]);
        DeliveredStays(rules, c, d, series[n], homes[n]);
      }
    }
  }

  lemma {:induction false} AddAllSeriesDelivers(rules: Rules, st: Importing, series: seq<Series>)
    returns (writes: seq<Write>, homes: seq<nat>)
    requires AddAllSeries(rules, st, series).Some? && KeysLead(st) && AllPairs(st.c.readings, ReadingsDiffer)
    ensures var t := AddAllSeries(rules, st, series).value;
      && Mirrors(rules, st, t, writes) && KeysLead(t) && Grows(st.c, t.c) && AllPairs(t.c.readings, ReadingsDiffer)
      && KeepsKeys(st.keys, t.keys) && AllDelivered(rules, t.c, series, homes)
      && WritesAll(rules, writes, homes, series, st.keys, |t.c.identities|)
  {
    writes, homes := [], [];
    if series == [] {
      assert OnlyRaised(st.c.readings, st.c.readings);
    } else {
      var n := |series| - 1;
      writes, homes := AddAllSeriesDelivers(rules, st, series[..n]);
      var before, t := AddAllSeries(rules, st, series[..n]).value, AddAllSeries(rules, st, series).value;
      var more, at := AddSeriesDelivers(rules, before, series[n]);
      MirrorsJoin(rules, st, before, t, writes, more);
      GrowsJoin(st.c, before.c, t.c);
      DeliveredOneMore(rules, before.c, t.c, series, homes, at);
      WritesOneMore(rules, writes, homes, series, st.keys, |before.c.identities|, more, at, before,
                    |t.c.identities|);
      writes, homes := writes + more, homes + [at];
    }
  }

  // ---------------------------------------------------------------- separations and providers

  /** The two restored listings of a separation are stored as kept apart. */
  ghost predicate KeptApart(rules: Rules, restored: map<Key, nat>, rows: seq<DecisionRow>, s: Separation) {
    && RefKey(rules, s.left) in restored && RefKey(rules, s.right) in restored
    && var a, b := restored[RefKey(rules, s.left)], restored[RefKey(rules, s.right)];
       DecisionRow(if a < b then a else b, if a < b then b else a, true) in rows
  }

  lemma {:induction false} RejectedStays(rows: seq<DecisionRow>, pair: (nat, nat), d: DecisionRow)
    requires d in rows && d.rejected
    ensures d in AddDecision(rows, pair)
  {
    var i :| 0 <= i < |rows| && rows[i] == d;
    AddDecisionKeeps(rows, pair);
    var after := AddDecision(rows, pair);
    if (d.left, d.right) == pair {
      assert d == DecisionRow(pair.0, pair.1, true);
    } else {
      assert after[i] == d;
    }
  }

  lemma {:induction false} SeparationsDelivered(rules: Rules, st: Importing, separations: seq<Separation>)
    requires AddSeparations(rules, st, separations).Some?
    ensures forall n :: 0 <= n < |separations| ==>
      KeptApart(rules, st.restored, AddSeparations(rules, st, separations).value, separations[n])
    ensures forall d :: d in st.c.decisions && d.rejected ==> d in AddSeparations(rules, st, separations).value
  {
    if separations != [] {
      var m := |separations| - 1;
      SeparationsDelivered(rules, st, separations[..m]);
      var before, pair := AddSeparations(rules, st, separations[..m]).value, PairOf(rules, st, separations[m]).value;
      AddDecisionKeeps(before, pair);
      forall d | d in before && d.rejected ensures d in AddDecision(before, pair) {
        RejectedStays(before, pair, d);
      }
      forall n | 0 <= n < |separations|
        ensures KeptApart(rules, st.restored, AddDecision(before, pair), separations[n])
      {
        if n < m {
          assert KeptApart(rules, st.restored, before, separations[..m][n]);
        }
      }
    }
  }

  /** The last preference the snapshot lists for a provider. */
  ghost function LastFor(providers: seq<Preference>, source: string): Option<bool> {
    if providers == [] then None
    else if providers[|providers| - 1].source == source then Some(providers[|providers| - 1].enabled)
    else LastFor(providers[..|providers| - 1], source)
  }

  /** It is the stored one; other providers are left alone. */
  ghost predicate Preferred(rows: seq<ProviderRow>, after: seq<ProviderRow>, providers: seq<Preference>, at: nat)
    requires at < |after|
  {
    match LastFor(providers, after[at].source)
    case Some(enabled) => after[at].enabled == enabled
    case None => at < |rows| && after[at] == rows[at]
  }

  lemma {:induction false} ProvidersDelivered(rows: seq<ProviderRow>, providers: seq<Preference>)
    requires AllPairs(rows, ProvidersDiffer)
    ensures AllPairs(AddProviders(rows, providers), ProvidersDiffer)
    ensures forall at: nat :: at < |AddProviders(rows, providers)| ==>
      Preferred(rows, AddProviders(rows, providers), providers, at)
    ensures forall n :: 0 <= n < |providers| ==> Stored(AddProviders(rows, providers), providers[n].source)
  {
    if providers != [] {
      var m := |providers| - 1;
      ProvidersDelivered(rows, providers[..m]);
      var before, p := AddProviders(rows, providers[..m]), providers[m];
      ProviderOneMore(before, p);
      var after := AddProvider(before, p);
      forall at: nat | at < |after| ensures Preferred(rows, after, providers, at) {
        assert after[at].source != p.source ==> Preferred(rows, before, providers[..m], at);
      }
      forall n | 0 <= n < |providers| ensures Stored(after, providers[n].source) {
        if n < m {
          assert Stored(before, providers[..m][n].source);
          StoredStays(before, p, providers[n].source);
        }
      }
    }
  }

  ghost predicate Stored(rows: seq<ProviderRow>, source: string) {
    exists i :: 0 <= i < |rows| && rows[i].source == source
  }

  lemma {:induction false} StoredStays(rows: seq<ProviderRow>, p: Preference, source: string)
    requires Stored(rows, source)
    ensures Stored(AddProvider(rows, p), source)
  {
    var i :| 0 <= i < |rows| && rows[i].source == source;
    assert AddProvider(rows, p)[i].source == source;
  }

  lemma {:induction false} ProviderOneMore(rows: seq<ProviderRow>, p: Preference)
    requires AllPairs(rows, ProvidersDiffer)
    ensures var after := AddProvider(rows, p);
      && AllPairs(after, ProvidersDiffer) && Stored(after, p.source)
      && (forall at: nat :: at < |after| ==>
           if after[at].source == p.source then after[at].enabled == p.enabled
           else at < |rows| && after[at] == rows[at])
  {
    var at := Find(rows, ProviderNamed(p.source));
    var after := AddProvider(rows, p);
    assert after[at].source == p.source;
    forall i, j | 0 <= i < j < |after| ensures ProvidersDiffer(after[i], after[j]) {
      if j < |rows| {
        assert ProvidersDiffer(rows[i], rows[j]);
      } else {
        assert !ProviderNamed(p.source)(rows[i]);
      }
    }
    forall k: nat | k < |after| && k != at ensures after[k].source != p.source && k < |rows| && after[k] == rows[k] {
      if at < |rows| {
        assert k < at ==> ProvidersDiffer(rows[k], rows[at]);
        assert at < k ==> ProvidersDiffer(rows[at], rows[k]);
      } else {
        assert !ProviderNamed(p.source)(rows[k]);
      }
    }
  }

  // ---------------------------------------------------------------- listings after the import

  /** Write `y` is the last one to its listing. */
  ghost predicate LastTo(writes: seq<Write>, y: nat, identity: nat) {
    && y < |writes| && writes[y].identity == identity
    && forall z :: y < z < |writes| ==> writes[z].identity != identity
  }

  /** The listing is the provider's, in the given series, with everything the source says. */
  ghost predicate Carries(row: IdentityRow, home: nat, s: Source) {
    && row.source == s.source && row.series == home && row.sourceId == s.sourceId && row.title == s.title
    && row.url == s.url && row.description == s.description && row.revision == s.revision
  }

  /** Two sources say the same of their listing. */
  ghost predicate Agree(s: Source, t: Source) {
    && s.source == t.source && s.sourceId == t.sourceId && s.title == t.title && s.url == t.url
    && s.description == t.description && s.revision == t.revision
  }

  /** A listing carries the last source written to it; one nobody wrote to is as before. */
  lemma {:induction false} RowsCarryLast(rows: seq<IdentityRow>, writes: seq<Write>, j: nat)
    requires Fits(rows, writes)
    ensures |rows| <= |Rows(rows, writes)|
    ensures forall y: nat :: LastTo(writes, y, j) ==>
      j < |Rows(rows, writes)| && Carries(Rows(rows, writes)[j], writes[y].home, writes[y].source)
    ensures j < |rows| && (forall y :: 0 <= y < |writes| ==> writes[y].identity != j) ==>
      Rows(rows, writes)[j] == rows[j]
  {
    if writes != [] {
      var n := |writes| - 1;
      RowsCarryLast(rows, writes[..n], j);
      forall y: nat | LastTo(writes, y, j)
        ensures j < |Rows(rows, writes)| && Carries(Rows(rows, writes)[j], writes[y].home, writes[y].source)
      {
        if y < n {
          assert LastTo(writes[..n], y, j);
          assert writes[n].identity != j;
        }
      }
    }
  }

  lemma {:induction false} LastWrite(writes: seq<Write>, x: nat) returns (y: nat)
    requires x < |writes|
    ensures x <= y && LastTo(writes, y, writes[x].identity)
    decreases |writes| - x
  {
    if z :| x < z < |writes| && writes[z].identity == writes[x].identity {
      y := LastWrite(writes, z);
    } else {
      y := x;
    }
  }

  // ---------------------------------------------------------------- alternates after the import

  ghost predicate Lists(rows: seq<AlternateRow>, source: string, sourceId: string) {
    exists i :: 0 <= i < |rows| && rows[i].source == source && rows[i].sourceId == sourceId
  }

  ghost predicate AllListed(rows: seq<AlternateRow>, s: Source, entries: seq<Alternate>) {
    forall k :: 0 <= k < |entries| ==> Lists(rows, s.source, entries[k].sourceId)
  }

  lemma {:induction false} AllListedStay(rows: seq<AlternateRow>, more: seq<AlternateRow>, s: Source,
                                         entries: seq<Alternate>)
    requires rows <= more && AllListed(rows, s, entries)
    ensures AllListed(more, s, entries)
  {
    forall k | 0 <= k < |entries| ensures Lists(more, s.source, entries[k].sourceId) {
      assert Lists(rows, s.source, entries[k].sourceId);
      var i :| 0 <= i < |rows| && rows[i].source == s.source && rows[i].sourceId == entries[k].sourceId;
      assert more[i] == rows[i];
    }
  }

  lemma {:induction false} AddAlternatesLists(rows: seq<AlternateRow>, identity: nat, s: Source,
                                              entries: seq<Alternate>)
    ensures rows <= AddAlternates(rows, identity, s, entries)
    ensures AllListed(AddAlternates(rows, identity, s, entries), s, entries)
  {
    if entries != [] {
      var n := |entries| - 1;
      AddAlternatesLists(rows, identity, s, entries[..n]);
      var before := AddAlternates(rows, identity, s, entries[..n]);
      var after := AddAlternate(before, identity, s, entries[n]);
      AllListedStay(before, after, s, entries[..n]);
      var at := Find(before, AlternateNamed(s.source, entries[n].sourceId));
      assert after[at].source == s.source && after[at].sourceId == entries[n].sourceId;
      forall k | 0 <= k < |entries| ensures Lists(after, s.source, entries[k].sourceId) {
        if k < n {
          assert Lists(after, s.source, entries[..n][k].sourceId);
        }
      }
    }
  }

  /** No alternate is lost, and every one the snapshot lists is there. */
  lemma {:induction false} AlternatesDelivered(rows: seq<AlternateRow>, writes: seq<Write>)
    ensures rows <= Alternates(rows, writes)
    ensures forall x :: 0 <= x < |writes| ==>
      AllListed(Alternates(rows, writes), writes[x].source, writes[x].source.alternates)
  {
    if writes != [] {
      var n := |writes| - 1;
      AlternatesDelivered(rows, writes[..n]);
      var before, after := Alternates(rows, writes[..n]), Alternates(rows, writes);
      AddAlternatesLists(before, writes[n].identity, writes[n].source, writes[n].source.alternates);
      forall x | 0 <= x < |writes| ensures AllListed(after, writes[x].source, writes[x].source.alternates) {
        if x < n {
          AllListedStay(before, after, writes[..n][x].source, writes[x].source.alternates);
        }
      }
    }
  }

  // ---------------------------------------------------------------- identifiers after the import

  type Entry = (string, string)

  ghost predicate Holds(rows: seq<ExternalRow>, e: Entry) {
    exists i :: 0 <= i < |rows| && rows[i].provider == e.0 && rows[i].value == e.1
  }

  /** The listing's own identifier at the provider is `e`, and its new value is nobody's. */
  ghost predicate Overwrites(rows: seq<ExternalRow>, identity: nat, entry: Entry, e: Entry) {
    && entry.0 == e.0 && entry.1 != e.1 && !Holds(rows, entry)
    && exists i :: 0 <= i < |rows| && rows[i] == ExternalRow(identity, e.0, e.1)
  }

  /** After one identifier is written it is stored, and another one is lost exactly by being overwritten. */
  lemma {:induction false} AddExternalHolds(rows: seq<ExternalRow>, identity: nat, entry: Entry, e: Entry)
    requires AllPairs(rows, ExternalsDiffer)
    ensures Holds(AddExternal(rows, identity, entry), e) <==>
      entry == e || (Holds(rows, e) && !Overwrites(rows, identity, entry, e))
  {
    var at, taken := Find(rows, ExternalFor(identity, entry.0)), Find(rows, ExternalValue(entry.0, entry.1));
    var after := AddExternal(rows, identity, entry);
    assert taken < |rows| <==> Holds(rows, entry) by {
      if i :| 0 <= i < |rows| && rows[i].provider == entry.0 && rows[i].value == entry.1 {
        assert ExternalValue(entry.0, entry.1)(rows[i]);
      }
    }
    if taken == |rows| && entry == e {
      assert after[at].provider == e.0 && after[at].value == e.1;
    } else if taken == |rows| {
      if at < |rows| {
        assert after[at].provider == entry.0 && after[at].value == entry.1;
        OverwrittenAt(rows, identity, entry, e, at);
      } else {
        assert after[at] == ExternalRow(identity, entry.0, entry.1);
        AppendedKeeps(rows, identity, entry, e);
      }
    }
  }

  lemma {:induction false} OverwrittenAt(rows: seq<ExternalRow>, identity: nat, entry: Entry, e: Entry, at: nat)
    requires AllPairs(rows, ExternalsDiffer) && at < |rows| && !Holds(rows, entry) && entry != e
    requires rows[at].identity == identity && rows[at].provider == entry.0
    ensures Holds(rows[at := rows[at].(value := entry.1)], e) <==>
      Holds(rows, e) && !Overwrites(rows, identity, entry, e)
  {
    var after := rows[at := rows[at].(value := entry.1)];
    if i :| 0 <= i < |rows| && rows[i].provider == e.0 && rows[i].value == e.1 {
      if i != at {
        assert after[i] == rows[i];
        assert i < at ==> ExternalsDiffer(rows[i], rows[at]);
        assert at < i ==> ExternalsDiffer(rows[at], rows[i]);
        if j :| 0 <= j < |rows| && rows[j] == ExternalRow(identity, e.0, e.1) {
          assert i < j ==> ExternalsDiffer(rows[i], rows[j]);
          assert j < i ==> ExternalsDiffer(rows[j], rows[i]);
        }
      } else if j :| 0 <= j < |after| && after[j].provider == e.0 && after[j].value == e.1 {
        assert j < at ==> ExternalsDiffer(rows[j], rows[at]);
        assert at < j ==> ExternalsDiffer(rows[at], rows[j]);
      } else if entry.0 == e.0 {
        assert rows[at] == ExternalRow(identity, e.0, e.1);
      }
    }
    if j :| 0 <= j < |after| && after[j].provider == e.0 && after[j].value == e.1 {
      assert j != at ==> rows[j] == after[j];
    }
  }

  lemma {:induction false} AppendedKeeps(rows: seq<ExternalRow>, identity: nat, entry: Entry, e: Entry)
    requires forall i :: 0 <= i < |rows| ==> !(rows[i].identity == identity && rows[i].provider == entry.0)
    requires entry != e
    ensures Holds(rows + [ExternalRow(identity, entry.0, entry.1)], e) <==>
      Holds(rows, e) && !Overwrites(rows, identity, entry, e)
  {
    var after := rows + [ExternalRow(identity, entry.0, entry.1)];
    if i :| 0 <= i < |rows| && rows[i].provider == e.0 && rows[i].value == e.1 {
      assert after[i] == rows[i];
    }
    if j :| 0 <= j < |after| && after[j].provider == e.0 && after[j].value == e.1 {
      assert j < |rows| && rows[j] == after[j];
    }
  }

  /** Identifiers written in turn: each with the listing it is written for. */
  datatype Op = Op(identity: nat, entry: Entry)
  type Ops = seq<Op>

  ghost function Fold(rows: seq<ExternalRow>, ops: Ops): seq<ExternalRow> {
    if ops == [] then rows
    else AddExternal(Fold(rows, ops[..|ops| - 1]), ops[|ops| - 1].identity, ops[|ops| - 1].entry)
  }

  ghost function OpsFor(identity: nat, entries: seq<Entry>): Ops {
    seq(|entries|, k requires 0 <= k < |entries| => Op(identity, entries[k]))
  }

  ghost function OpsOf(writes: seq<Write>): Ops {
    if writes == [] then []
    else
      var last := writes[|writes| - 1];
      OpsOf(writes[..|writes| - 1]) + OpsFor(last.identity, last.source.externals)
  }

  lemma {:induction false} FoldOne(rows: seq<ExternalRow>, ops: Ops, op: Op)
    ensures Fold(rows, ops + [op]) == AddExternal(Fold(rows, ops), op.identity, op.entry)
  {
    assert (ops + [op])[..|ops|] == ops;
  }

  lemma {:induction false} OpsForSplit(ops: Ops, identity: nat, entries: seq<Entry>)
    requires entries != []
    ensures var n := |entries| - 1;
      ops + OpsFor(identity, entries) == ops + OpsFor(identity, entries[..n]) + [Op(identity, entries[n])]
  {
  }

  lemma {:induction false} FoldAppend(rows: seq<ExternalRow>, ops: Ops, identity: nat, entries: seq<Entry>)
    ensures Fold(rows, ops + OpsFor(identity, entries)) == AddExternals(Fold(rows, ops), identity, entries)
  {
    if entries == [] {
      assert ops + OpsFor(identity, entries) == ops;
    } else {
      var n := |entries| - 1;
      FoldAppend(rows, ops, identity, entries[..n]);
      FoldOne(rows, ops + OpsFor(identity, entries[..n]), Op(identity, entries[n]));
      OpsForSplit(ops, identity, entries);
    }
  }

  lemma {:induction false} ExternalsAreOps(rows: seq<ExternalRow>, writes: seq<Write>)
    ensures Externals(rows, writes) == Fold(rows, OpsOf(writes))
  {
    if writes != [] {
      var last := writes[|writes| - 1];
      ExternalsAreOps(rows, writes[..|writes| - 1]);
      FoldAppend(rows, OpsOf(writes[..|writes| - 1]), last.identity, last.source.externals);
    }
  }

  lemma {:induction false} FoldKeepsUnique(rows: seq<ExternalRow>, ops: Ops)
    requires AllPairs(rows, ExternalsDiffer)
    ensures AllPairs(Fold(rows, ops), ExternalsDiffer)
  {
    if ops != [] {
      var last := ops[|ops| - 1];
      FoldKeepsUnique(rows, ops[..|ops| - 1]);
      AddExternalKeeps(Fold(rows, ops[..|ops| - 1]), last.identity, last.entry);
    }
  }

  /** The identifier was in the tables (`n` is 0), or is the one written by step `n - 1`. */
  ghost predicate WrittenAt(rows: seq<ExternalRow>, ops: Ops, n: nat, e: Entry) {
    n <= |ops| && if n == 0 then Holds(rows, e) else ops[n - 1].entry == e
  }

  /** Step `m` gives the listing that holds the identifier another, free value. */
  ghost predicate LostAt(rows: seq<ExternalRow>, ops: Ops, m: nat, e: Entry) {
    m < |ops| && Overwrites(Fold(rows, ops[..m]), ops[m].identity, ops[m].entry, e)
  }

  ghost predicate SafeSince(rows: seq<ExternalRow>, ops: Ops, n: nat, e: Entry) {
    WrittenAt(rows, ops, n, e) && forall m: nat :: n <= m < |ops| ==> !LostAt(rows, ops, m, e)
  }

  lemma {:induction false} SafeOneMore(rows: seq<ExternalRow>, ops: Ops, n: nat, e: Entry)
    requires ops != [] && n < |ops|
    ensures SafeSince(rows, ops, n, e) <==>
      SafeSince(rows, ops[..|ops| - 1], n, e) && !LostAt(rows, ops, |ops| - 1, e)
  {
    var before := ops[..|ops| - 1];
    forall m: nat | m < |before| ensures LostAt(rows, ops, m, e) <==> LostAt(rows, before, m, e) {
      assert before[..m] == ops[..m];
    }
  }

  ghost predicate SafeSomewhere(rows: seq<ExternalRow>, ops: Ops, e: Entry) {
    exists n: nat :: SafeSince(rows, ops, n, e)
  }

  lemma {:induction false} SomewhereOneMore(rows: seq<ExternalRow>, ops: Ops, e: Entry)
    requires ops != []
    ensures SafeSomewhere(rows, ops, e) <==>
      || ops[|ops| - 1].entry == e
      || (SafeSomewhere(rows, ops[..|ops| - 1], e) && !LostAt(rows, ops, |ops| - 1, e))
  {
    var k := |ops| - 1;
    if ops[k].entry == e {
      assert SafeSince(rows, ops, k + 1, e);
    }
    if n: nat :| SafeSince(rows, ops[..k], n, e) {
      SafeOneMore(rows, ops, n, e);
    }
    if n: nat :| SafeSince(rows, ops, n, e) && n <= k {
      SafeOneMore(rows, ops, n, e);
    }
  }

  /**
   An identifier is stored in the end exactly when it was there or is listed, and since then no listing
   that held it was given another value that was free.
   */
  lemma {:induction false} IdentifierStoredExactlyWhen(rows: seq<ExternalRow>, ops: Ops, e: Entry)
    requires AllPairs(rows, ExternalsDiffer)
    ensures Holds(Fold(rows, ops), e) <==> SafeSomewhere(rows, ops, e)
  {
    if ops == [] {
      assert Holds(rows, e) ==> SafeSince(rows, ops, 0, e);
    } else {
      var k := |ops| - 1;
      IdentifierStoredExactlyWhen(rows, ops[..k], e);
      FoldKeepsUnique(rows, ops[..k]);
      AddExternalHolds(Fold(rows, ops[..k]), ops[k].identity, ops[k].entry, e);
      SomewhereOneMore(rows, ops, e);
    }
  }

  /** An identifier the snapshot lists is stored unless a later entry gives another value at the same provider. */
  lemma {:induction false} ListedIdentifierStays(rows: seq<ExternalRow>, ops: Ops, n: nat)
    requires AllPairs(rows, ExternalsDiffer) && n < |ops|
    requires forall m :: n < m < |ops| && ops[m].entry.0 == ops[n].entry.0 ==> ops[m].entry == ops[n].entry
    ensures Holds(Fold(rows, ops), ops[n].entry)
  {
    assert SafeSince(rows, ops, n + 1, ops[n].entry);
    IdentifierStoredExactlyWhen(rows, ops, ops[n].entry);
  }

  // ---------------------------------------------------------------- the whole import

  /** What a successful import into any catalogue did: every write of every source, and nothing lost. */
  ghost predicate Arrived(rules: Rules, c: Catalog, s: Snapshot, d: Catalog, writes: seq<Write>, homes: seq<nat>) {
    && Grows(c, d) && AllDelivered(rules, d, s.series, homes)
    && WritesAll(rules, writes, homes, s.series, IdentityMap(rules, c.identities), |d.identities|)
    && d.identities == Rows(c.identities, writes) && Fits(c.identities, writes)
    && d.externals == Fold(c.externals, OpsOf(writes)) && d.alternates == Alternates(c.alternates, writes)
    && (forall n :: 0 <= n < |s.separations| ==>
          KeptApart(rules, Restores(rules, map[], writes), d.decisions, s.separations[n]))
    && (forall x :: x in c.decisions && x.rejected ==> x in d.decisions)
    && d.providers == AddProviders(c.providers, s.providers)
  }

  lemma {:induction false} ImportDelivers(rules: Rules, c: Catalog, s: Snapshot, d: Catalog)
    returns (writes: seq<Write>, homes: seq<nat>)
    requires Import(rules, c, s) == Some(d) && AllPairs(c.readings, ReadingsDiffer)
    ensures Arrived(rules, c, s, d, writes, homes)
  {
    var st := Importing(c, IdentityMap(rules, c.identities), map[]);
    FirstKeysLead(rules, c.identities);
    writes, homes := AddAllSeriesDelivers(rules, st, s.series);
    var t := AddAllSeries(rules, st, s.series).value;
    SeparationsDelivered(rules, t, s.separations);
    ExternalsAreOps(c.externals, writes);
    forall n | 0 <= n < |s.series| ensures Delivered(rules, d, s.series[n], homes[n]) {
      assert Delivered(rules, t.c, s.series[n], homes[n]);
    }
  }

  /**
   After a successful import every source of the snapshot has a listing of its provider, the known one if
   its key was known.  The listing carries the source, in the series' home, exactly when the last source
   written to the same listing says the same; all its alternates are listed, and every alias that
   means something is a name of the series.
   */
  lemma {:induction false} ImportedListing(rules: Rules, c: Catalog, s: Snapshot, d: Catalog, writes: seq<Write>,
                                           homes: seq<nat>, x: nat)
    returns (y: nat)
    requires Arrived(rules, c, s, d, writes, homes) && x < |Flat(s.series)|
    ensures x <= y && LastTo(writes, y, writes[x].identity)
    ensures var source, j := Flat(s.series)[x], writes[x].identity;
      && j < |d.identities| && Carries(d.identities[j], writes[y].home, Flat(s.series)[y])
      && (Carries(d.identities[j], writes[x].home, source) <==>
           writes[x].home == writes[y].home && Agree(source, Flat(s.series)[y]))
      && (SourceKey(rules, source) in IdentityMap(rules, c.identities) ==>
           j == IdentityMap(rules, c.identities)[SourceKey(rules, source)])
      && Home(s.series, x) < |homes| && writes[x].home == homes[Home(s.series, x)]
      && AllListed(d.alternates, source, source.alternates)
      && AllNamed(rules, d.aliases, writes[x].home, source.aliases)
  {
    y := LastWrite(writes, x);
    RowsCarryLast(c.identities, writes, writes[x].identity);
    AlternatesDelivered(c.alternates, writes);
    assert WriteOf(rules, writes[x], homes, s.series, x, IdentityMap(rules, c.identities), |d.identities|);
    assert WriteOf(rules, writes[y], homes, s.series, y, IdentityMap(rules, c.identities), |d.identities|);
    FlatHome(s.series, x);
    var i := Home(s.series, x);
    assert Delivered(rules, d, s.series[i], homes[i]);
    var a :| 0 <= a < |s.series[i].sources| && s.series[i].sources[a] == Flat(s.series)[x];
    assert AllNamed(rules, d.aliases, homes[i], s.series[i].sources[a].aliases);
  }
}
