/**
 Portable snapshots: the part of a catalogue worth carrying to another installation, how it is
 exported from the tables, planned against them and imported into them.
 */
module PortableState {

  import opened Options
  import TextOrder
  import opened Tables

  datatype Status = Untracked | Paused | CaughtUp | Interested | Reading
  datatype Progress = Unread | InProgress | Read

  function StatusRank(s: Status): nat {
    match s case Untracked => 0 case Paused => 1 case CaughtUp => 2 case Interested => 3 case Reading => 4
  }

  function ProgressRank(p: Progress): nat { match p case Unread => 0 case InProgress => 1 case Read => 2 }

  /** Text rules defined elsewhere. Listings are (provider, provider id, address). */
  datatype Rules = Rules(normalise: string -> string,
                         identity: (string, string) -> string,
                         equivalent: ((string, string, string), (string, string, string)) -> bool,
                         canonical: string -> string,
                         chapterBefore: (string, string) -> bool)

  // ---------------------------------------------------------------- tables; positions stand for ids

  datatype SeriesRow = SeriesRow(title: string, normalized: string, description: string, status: Status,
                                 downloaded: bool)
  datatype IdentityRow = IdentityRow(series: nat, source: string, sourceId: string, title: string, url: string,
                                     description: string, revision: string)
  datatype AliasRow = AliasRow(series: nat, identity: Option<nat>, display: string, normalized: string)
  datatype ExternalRow = ExternalRow(identity: nat, provider: string, value: string)
  datatype AlternateRow = AlternateRow(primary: nat, source: string, sourceId: string, title: string, url: string)
  datatype ReadingRow = ReadingRow(series: nat, number: string, status: Progress, readAt: Option<int>)
  datatype DecisionRow = DecisionRow(left: nat, right: nat, rejected: bool)
  datatype ProviderRow = ProviderRow(source: string, enabled: bool)

  datatype Catalog = Catalog(series: seq<SeriesRow>, identities: seq<IdentityRow>, aliases: seq<AliasRow>,
                             externals: seq<ExternalRow>, alternates: seq<AlternateRow>, readings: seq<ReadingRow>,
                             decisions: seq<DecisionRow>, providers: seq<ProviderRow>)

  const EmptyCatalog := Catalog([], [], [], [], [], [], [], [])

  // ---------------------------------------------------------------- snapshots

  datatype Ref = Ref(source: string, sourceId: string)
  datatype Alternate = Alternate(sourceId: string, title: string, url: string)
  datatype Source = Source(source: string, sourceId: string, title: string, url: string, description: string,
                           revision: string, aliases: seq<string>, externals: seq<(string, string)>,
                           alternates: seq<Alternate>)
  datatype ReadingState = ReadingState(chapter: string, status: Progress, readAt: Option<int>)
  datatype Series = Series(title: string, status: Status, downloaded: bool, description: string,
                           aliases: seq<string>, sources: seq<Source>, reading: seq<ReadingState>)
  datatype Separation = Separation(left: Ref, right: Ref)
  datatype Preference = Preference(source: string, enabled: bool)

  /** The export time is left out. */
  datatype Snapshot = Snapshot(series: seq<Series>, separations: seq<Separation>, providers: seq<Preference>)

  // ---------------------------------------------------------------- export

  function AliasKey(a: AliasRow): string { a.normalized }
  function ExternalKey(e: ExternalRow): string { e.provider }
  function AlternateKey(a: AlternateRow): string { a.sourceId }
  function ProviderKey(p: ProviderRow): string { p.source }
  function SeriesKey(s: (nat, SeriesRow)): string { s.1.normalized }

  predicate IdentityBefore(a: (nat, IdentityRow), b: (nat, IdentityRow)) {
    TextOrder.Less(a.1.source, b.1.source) || (a.1.source == b.1.source && TextOrder.Less(a.1.sourceId, b.1.sourceId))
  }

  function ReadingBefore(rules: Rules): (ReadingRow, ReadingRow) -> bool {
    (a: ReadingRow, b: ReadingRow) => rules.chapterBefore(a.number, b.number)
  }

  function AliasOf(identity: nat): AliasRow -> bool { (a: AliasRow) => a.identity == Some(identity) }
  function OwnAlias(series: nat): AliasRow -> bool { (a: AliasRow) => a.series == series && a.identity == None }
  function ExternalOf(identity: nat): ExternalRow -> bool { (e: ExternalRow) => e.identity == identity }
  function AlternateOf(identity: nat): AlternateRow -> bool { (a: AlternateRow) => a.primary == identity }
  function IdentityOf(series: nat): ((nat, IdentityRow)) -> bool { (i: (nat, IdentityRow)) => i.1.series == series }

  /** Chapters of the series that carry reading progress. */
  function ProgressOf(series: nat): ReadingRow -> bool {
    (r: ReadingRow) => r.series == series && (r.status != Unread || r.readAt != None)
  }

  function Display(a: AliasRow): string { a.display }
  function ExternalEntry(e: ExternalRow): (string, string) { (e.provider, e.value) }
  function AlternateEntry(a: AlternateRow): Alternate { Alternate(a.sourceId, a.title, a.url) }
  function ReadingEntry(r: ReadingRow): ReadingState { ReadingState(r.number, r.status, r.readAt) }
  function ProviderEntry(p: ProviderRow): Preference { Preference(p.source, p.enabled) }

  function AliasList(rows: seq<AliasRow>): seq<string> { Project(Sort(rows, ByText(AliasKey)), Display) }

  function SourceView(c: Catalog, identity: (nat, IdentityRow), seriesTitle: string): Source {
    var row := identity.1;
    Source(row.source, row.sourceId, if row.title != "" then row.title else seriesTitle, row.url, row.description,
           row.revision,
           AliasList(Keep(c.aliases, AliasOf(identity.0))),
           Project(Sort(Keep(c.externals, ExternalOf(identity.0)), ByText(ExternalKey)), ExternalEntry),
           Project(Sort(Keep(c.alternates, AlternateOf(identity.0)), ByText(AlternateKey)), AlternateEntry))
  }

  function SourceRows(c: Catalog, series: nat): seq<(nat, IdentityRow)> {
    Sort(Keep(Numbered(c.identities), IdentityOf(series)), IdentityBefore)
  }

  function SourceViewIn(c: Catalog, seriesTitle: string): ((nat, IdentityRow)) -> Source {
    (row: (nat, IdentityRow)) => SourceView(c, row, seriesTitle)
  }

  function SourceViews(c: Catalog, rows: seq<(nat, IdentityRow)>, seriesTitle: string): (views: seq<Source>)
    ensures |views| == |rows| && forall i :: 0 <= i < |rows| ==> views[i] == SourceView(c, rows[i], seriesTitle)
  {
    Project(rows, SourceViewIn(c, seriesTitle))
  }

  function SeriesView(rules: Rules, c: Catalog, series: (nat, SeriesRow)): Series {
    var row := series.1;
    Series(row.title,
           if row.downloaded && row.status == Untracked then Interested else row.status,
           row.downloaded, row.description,
           AliasList(Keep(c.aliases, OwnAlias(series.0))),
           SourceViews(c, SourceRows(c, series.0), row.title),
           Project(Sort(Keep(c.readings, ProgressOf(series.0)), ReadingBefore(rules)), ReadingEntry))
  }

  predicate RejectedTouches(c: Catalog, d: DecisionRow, series: nat) {
    && d.rejected
    && ((d.left < |c.identities| && c.identities[d.left].series == series)
        || (d.right < |c.identities| && c.identities[d.right].series == series))
  }

  /** Tracked, downloaded, merged from several identities, or kept apart by a rejected decision. */
  predicate Selected(c: Catalog, series: (nat, SeriesRow)) {
    || series.1.status != Untracked
    || series.1.downloaded
    || |Keep(Numbered(c.identities), IdentityOf(series.0))| > 1
    || (exists i :: 0 <= i < |c.decisions| && RejectedTouches(c, c.decisions[i], series.0))
  }

  /** Selected series by normalized title, without those no provider lists. */
  function ExportedRows(c: Catalog): seq<(nat, SeriesRow)> {
    Keep(Sort(Keep(Numbered(c.series), SelectedIn(c)), ByText(SeriesKey)), HasSources(c))
  }

  function SelectedIn(c: Catalog): ((nat, SeriesRow)) -> bool { (s: (nat, SeriesRow)) => Selected(c, s) }
  function HasSources(c: Catalog): ((nat, SeriesRow)) -> bool { (s: (nat, SeriesRow)) => SourceRows(c, s.0) != [] }

  function SeriesViews(rules: Rules, c: Catalog, rows: seq<(nat, SeriesRow)>): (views: seq<Series>)
    ensures |views| == |rows| && forall i :: 0 <= i < |rows| ==> views[i] == SeriesView(rules, c, rows[i])
  {
    seq(|rows|, i requires 0 <= i < |rows| => SeriesView(rules, c, rows[i]))
  }

  predicate IdentityExported(c: Catalog, identity: nat) {
    && identity < |c.identities|
    && exists i :: 0 <= i < |ExportedRows(c)| && ExportedRows(c)[i].0 == c.identities[identity].series
  }

  function RejectedIn(c: Catalog): DecisionRow -> bool {
    (d: DecisionRow) => d.rejected && IdentityExported(c, d.left) && IdentityExported(c, d.right)
  }

  function RefOf(c: Catalog, identity: nat): Ref {
    if identity < |c.identities| then Ref(c.identities[identity].source, c.identities[identity].sourceId)
    else Ref("", "")
  }

  function SeparationOf(c: Catalog): DecisionRow -> Separation {
    (d: DecisionRow) => Separation(RefOf(c, d.left), RefOf(c, d.right))
  }

  function Export(rules: Rules, c: Catalog): Snapshot {
    Snapshot(SeriesViews(rules, c, ExportedRows(c)),
             Project(Keep(c.decisions, RejectedIn(c)), SeparationOf(c)),
             Project(Sort(c.providers, ByText(ProviderKey)), ProviderEntry))
  }

  // ---------------------------------------------------------------- resolving identities

  type Key = (string, string)

  function KeyOf(rules: Rules, source: string, sourceId: string): Key { (source, rules.identity(source, sourceId)) }
  function SourceKey(rules: Rules, s: Source): Key { KeyOf(rules, s.source, s.sourceId) }

  function Listing(row: IdentityRow): (string, string, string) { (row.source, row.sourceId, row.url) }
  function SourceListing(s: Source): (string, string, string) { (s.source, s.sourceId, s.url) }

  /** The first identity of every key, in id order. */
  function IdentityMap(rules: Rules, identities: seq<IdentityRow>): map<Key, nat> {
    if identities == [] then map[]
    else
      var n := |identities| - 1;
      var before := IdentityMap(rules, identities[..n]);
      var key := KeyOf(rules, identities[n].source, identities[n].sourceId);
      if key in before then before else before[key := n]
  }

  datatype Resolution = Missing | Found(identity: nat) | Ambiguous

  function Matches(rules: Rules, c: Catalog, keys: map<Key, nat>, s: Source): set<nat> {
    set j | j in keys.Values && j < |c.identities| && c.identities[j].source == s.source
              && rules.equivalent(Listing(c.identities[j]), SourceListing(s))
  }

  ghost function Resolve(rules: Rules, c: Catalog, keys: map<Key, nat>, s: Source): Resolution {
    if SourceKey(rules, s) in keys then Found(keys[SourceKey(rules, s)])
    else
      var matches := Matches(rules, c, keys, s);
      if matches == {} then Missing
      else
        var j :| j in matches;
        if matches == {j} then Found(j) else Ambiguous
  }

  // ---------------------------------------------------------------- upserts

  function AliasNamed(series: nat, normalized: string): AliasRow -> bool {
    (a: AliasRow) => a.series == series && a.normalized == normalized
  }
  function ExternalFor(identity: nat, provider: string): ExternalRow -> bool {
    (e: ExternalRow) => e.identity == identity && e.provider == provider
  }
  function ExternalValue(provider: string, value: string): ExternalRow -> bool {
    (e: ExternalRow) => e.provider == provider && e.value == value
  }
  function AlternateNamed(source: string, sourceId: string): AlternateRow -> bool {
    (a: AlternateRow) => a.source == source && a.sourceId == sourceId
  }
  function ReadingFor(series: nat, number: string): ReadingRow -> bool {
    (r: ReadingRow) => r.series == series && r.number == number
  }
  function DecisionFor(left: nat, right: nat): DecisionRow -> bool {
    (d: DecisionRow) => d.left == left && d.right == right
  }
  function ProviderNamed(source: string): ProviderRow -> bool { (p: ProviderRow) => p.source == source }

  /** Adds an alias unless it normalises to nothing or the series already has it. */
  function AddAlias(rules: Rules, rows: seq<AliasRow>, series: nat, identity: Option<nat>,
                    value: string): seq<AliasRow> {
    var normalized := rules.normalise(value);
    if normalized == "" || Find(rows, AliasNamed(series, normalized)) < |rows| then rows
    else rows + [AliasRow(series, identity, value, normalized)]
  }

  function AddAliases(rules: Rules, rows: seq<AliasRow>, series: nat, identity: Option<nat>,
                      values: seq<string>): seq<AliasRow> {
    if values == [] then rows
    else AddAlias(rules, AddAliases(rules, rows, series, identity, values[..|values| - 1]), series, identity,
                  values[|values| - 1])
  }

  /** An identifier another listing holds is neither added nor taken over. */
  function AddExternal(rows: seq<ExternalRow>, identity: nat, entry: (string, string)): seq<ExternalRow> {
    var at := Find(rows, ExternalFor(identity, entry.0));
    var taken := Find(rows, ExternalValue(entry.0, entry.1)) < |rows|;
    if taken then rows
    else if at < |rows| then rows[at := rows[at].(value := entry.1)]
    else rows + [ExternalRow(identity, entry.0, entry.1)]
  }

  function AddExternals(rows: seq<ExternalRow>, identity: nat, entries: seq<(string, string)>): seq<ExternalRow> {
    if entries == [] then rows
    else AddExternal(AddExternals(rows, identity, entries[..|entries| - 1]), identity, entries[|entries| - 1])
  }

  function Filled(s: Source, a: Alternate): Alternate {
    Alternate(a.sourceId, if a.title != "" then a.title else s.title, if a.url != "" then a.url else s.url)
  }

  function NewAlternate(identity: nat, s: Source): Alternate -> AlternateRow {
    (a: Alternate) => AlternateRow(identity, s.source, a.sourceId, Filled(s, a).title, Filled(s, a).url)
  }

  function AddAlternate(rows: seq<AlternateRow>, identity: nat, s: Source, a: Alternate): seq<AlternateRow> {
    if Find(rows, AlternateNamed(s.source, a.sourceId)) < |rows| then rows else rows + [NewAlternate(identity, s)(a)]
  }

  function AddAlternates(rows: seq<AlternateRow>, identity: nat, s: Source,
                         entries: seq<Alternate>): seq<AlternateRow> {
    if entries == [] then rows
    else AddAlternate(AddAlternates(rows, identity, s, entries[..|entries| - 1]), identity, s, entries[|entries| - 1])
  }

  function RowOf(series: nat, s: Source): IdentityRow {
    IdentityRow(series, s.source, s.sourceId, s.title, s.url, s.description, s.revision)
  }

  function UpsertDetails(rules: Rules, c: Catalog, series: nat, identity: nat, s: Source): Catalog
    requires identity < |c.identities|
  {
    c.(identities := c.identities[identity := RowOf(series, s).(source := c.identities[identity].source)],
       aliases := AddAliases(rules, c.aliases, series, Some(identity), s.aliases),
       externals := AddExternals(c.externals, identity, s.externals),
       alternates := AddAlternates(c.alternates, identity, s, s.alternates))
  }

  /** Progress is only ever raised. */
  function AddReading(rules: Rules, rows: seq<ReadingRow>, series: nat, r: ReadingState): seq<ReadingRow> {
    var number := rules.canonical(r.chapter);
    var at := Find(rows, ReadingFor(series, number));
    if at == |rows| then rows + [ReadingRow(series, number, r.status, r.readAt)]
    else if ProgressRank(r.status) >= ProgressRank(rows[at].status) then
      rows[at := rows[at].(status := r.status, readAt := if r.readAt != None then r.readAt else rows[at].readAt)]
    else rows
  }

  function AddReadings(rules: Rules, rows: seq<ReadingRow>, series: nat, entries: seq<ReadingState>): seq<ReadingRow> {
    if entries == [] then rows
    else AddReading(rules, AddReadings(rules, rows, series, entries[..|entries| - 1]), series, entries[|entries| - 1])
  }

  // ---------------------------------------------------------------- import

  /** The catalogue, the identities known by key, and those this import has restored. */
  datatype Importing = Importing(c: Catalog, keys: map<Key, nat>, restored: map<Key, nat>)

  /** How each source of a series resolves before the series is imported. */
  ghost function Resolutions(rules: Rules, st: Importing, sources: seq<Source>): (r: seq<Resolution>)
    ensures |r| == |sources| && forall i :: 0 <= i < |sources| ==> r[i] == Resolve(rules, st.c, st.keys, sources[i])
  {
    seq(|sources|, i requires 0 <= i < |sources| => Resolve(rules, st.c, st.keys, sources[i]))
  }

  function Homes(c: Catalog, resolutions: seq<Resolution>): set<nat> {
    set i | 0 <= i < |resolutions| && resolutions[i].Found? && resolutions[i].identity < |c.identities|
      :: c.identities[resolutions[i].identity].series
  }

  function AddSource(rules: Rules, st: Importing, series: nat, s: Source, resolution: Resolution): Importing {
    var key := SourceKey(rules, s);
    if resolution.Found? && resolution.identity < |st.c.identities| then
      Importing(UpsertDetails(rules, st.c, series, resolution.identity, s), st.keys,
                st.restored[key := resolution.identity])
    else
      var j := |st.c.identities|;
      var blank := IdentityRow(series, s.source, s.sourceId, s.title, s.url, "", "");
      Importing(UpsertDetails(rules, st.c.(identities := st.c.identities + [blank]), series, j, s),
                st.keys[key := j], st.restored[key := j])
  }

  function AddSources(rules: Rules, st: Importing, series: nat, sources: seq<Source>,
                      resolutions: seq<Resolution>): Importing
    requires |sources| == |resolutions|
  {
    if sources == [] then st
    else
      var n := |sources| - 1;
      AddSource(rules, AddSources(rules, st, series, sources[..n], resolutions[..n]), series, sources[n],
                resolutions[n])
  }

  function NewRow(rules: Rules, p: Series): SeriesRow {
    SeriesRow(p.title, rules.normalise(p.title), p.description, p.status, false)
  }

  /** An existing series keeps its own title and description and takes a higher status. */
  function Refreshed(rules: Rules, row: SeriesRow, p: Series): SeriesRow {
    var title := if row.title != "" then row.title else p.title;
    SeriesRow(title, rules.normalise(title), if row.description != "" then row.description else p.description,
              if StatusRank(p.status) > StatusRank(row.status) then p.status else row.status, row.downloaded)
  }

  /** The canonical series of a portable one: an existing one, or a new one at the end. */
  function Place(rules: Rules, c: Catalog, home: Option<nat>, p: Series): Catalog {
    if home.Some? && home.value < |c.series|
    then c.(series := c.series[home.value := Refreshed(rules, c.series[home.value], p)])
    else c.(series := c.series + [NewRow(rules, p)])
  }

  /** Nothing when an identity is ambiguous, or when local series would have to be merged first. */
  ghost function AddSeries(rules: Rules, st: Importing, p: Series): Option<Importing> {
    var resolutions := Resolutions(rules, st, p.sources);
    var homes := Homes(st.c, resolutions);
    if Ambiguous in resolutions || |homes| > 1 then None
    else if homes == {} then Some(Filling(rules, st, None, p, resolutions))
    else
      var home :| home in homes;
      Some(Filling(rules, st, Some(home), p, resolutions))
  }

  function Filling(rules: Rules, st: Importing, home: Option<nat>, p: Series, resolutions: seq<Resolution>): Importing
    requires |resolutions| == |p.sources|
  {
    var series := if home.Some? && home.value < |st.c.series| then home.value else |st.c.series|;
    var placed := Place(rules, st.c, home, p);
    var named := placed.(aliases := AddAliases(rules, placed.aliases, series, None, p.aliases));
    var listed := AddSources(rules, st.(c := named), series, p.sources, resolutions);
    listed.(c := listed.c.(readings := AddReadings(rules, listed.c.readings, series, p.reading)))
  }

  ghost function AddAllSeries(rules: Rules, st: Importing, series: seq<Series>): Option<Importing> {
    if series == [] then Some(st)
    else
      var before := AddAllSeries(rules, st, series[..|series| - 1]);
      if before.None? then None else AddSeries(rules, before.value, series[|series| - 1])
  }

  function RefKey(rules: Rules, r: Ref): Key { KeyOf(rules, r.source, r.sourceId) }

  /** The restored pair of a separation, older identity first, unless they already share a series. */
  function PairOf(rules: Rules, st: Importing, s: Separation): Option<(nat, nat)> {
    var left, right := RefKey(rules, s.left), RefKey(rules, s.right);
    if left !in st.restored || right !in st.restored then None
    else
      var a, b := st.restored[left], st.restored[right];
      if a >= |st.c.identities| || b >= |st.c.identities| then None
      else if st.c.identities[a].series == st.c.identities[b].series then None
      else Some(if a < b then (a, b) else (b, a))
  }

  function AddDecision(rows: seq<DecisionRow>, pair: (nat, nat)): seq<DecisionRow> {
    var at := Find(rows, DecisionFor(pair.0, pair.1));
    if at < |rows| then rows[at := DecisionRow(pair.0, pair.1, true)] else rows + [DecisionRow(pair.0, pair.1, true)]
  }

  function AddSeparations(rules: Rules, st: Importing, separations: seq<Separation>): Option<seq<DecisionRow>> {
    if separations == [] then Some(st.c.decisions)
    else
      var before := AddSeparations(rules, st, separations[..|separations| - 1]);
      var pair := PairOf(rules, st, separations[|separations| - 1]);
      if before.None? || pair.None? then None else Some(AddDecision(before.value, pair.value))
  }

  function AddProvider(rows: seq<ProviderRow>, p: Preference): seq<ProviderRow> {
    var at := Find(rows, ProviderNamed(p.source));
    if at < |rows| then rows[at := ProviderRow(p.source, p.enabled)] else rows + [ProviderRow(p.source, p.enabled)]
  }

  function AddProviders(rows: seq<ProviderRow>, providers: seq<Preference>): seq<ProviderRow> {
    if providers == [] then rows
    else AddProvider(AddProviders(rows, providers[..|providers| - 1]), providers[|providers| - 1])
  }

  // ---------------------------------------------------------------- planning

  datatype Plan = Plan(createSeries: nat, createSources: nat, mergeSeries: nat, conflicts: nat, claimed: map<nat,
                       string>)

  const NoPlan := Plan(0, 0, 0, 0, map[])

  function CountMissing(resolutions: seq<Resolution>): nat {
    if resolutions == [] then 0
    else CountMissing(resolutions[..|resolutions| - 1]) + if resolutions[|resolutions| - 1] == Missing then 1 else 0
  }

  /** Local series that an earlier entry of another title already claims. */
  function Contested(plan: Plan, homes: set<nat>, title: string): set<nat> {
    set i | i in homes && i in plan.claimed && plan.claimed[i] != title
  }

  function PlanOne(plan: Plan, homes: set<nat>, missing: nat, title: string): Plan {
    Plan(plan.createSeries + (if homes == {} then 1 else 0),
         plan.createSources + missing,
         plan.mergeSeries + (if homes == {} then 0 else |homes| - 1),
         plan.conflicts + |Contested(plan, homes, title)|,
         plan.claimed + map i | i in homes :: title)
  }

  /** Planning stops at an ambiguous identity. */
  ghost function PlanSeries(rules: Rules, c: Catalog, keys: map<Key, nat>, series: seq<Series>): Option<Plan> {
    if series == [] then Some(NoPlan)
    else
      var before := PlanSeries(rules, c, keys, series[..|series| - 1]);
      var last := series[|series| - 1];
      var resolutions := Resolutions(rules, Importing(c, keys, map[]), last.sources);
      if before.None? || Ambiguous in resolutions then None
      else Some(PlanOne(before.value, Homes(c, resolutions), CountMissing(resolutions), last.title))
  }

  /** The position of the snapshot series that lists a key, or their number. */
  function Owner(rules: Rules, series: seq<Series>, key: Key): nat { Find(series, Lists(rules, key)) }

  function Lists(rules: Rules, key: Key): Series -> bool {
    (p: Series) => exists i :: 0 <= i < |p.sources| && SourceKey(rules, p.sources[i]) == key
  }

  function MergedAndSeparated(rules: Rules, series: seq<Series>): Separation -> bool {
    (s: Separation) => Owner(rules, series, RefKey(rules, s.left)) == Owner(rules, series, RefKey(rules, s.right))
  }

  /** Pairs that are both merged and separated are conflicts as well. */
  function WithSeparations(series: Option<Plan>, both: nat): Option<Plan> {
    if series.None? then None else Some(series.value.(conflicts := series.value.conflicts + both))
  }

  ghost function PlanImport(rules: Rules, c: Catalog, s: Snapshot): Option<Plan> {
    WithSeparations(PlanSeries(rules, c, IdentityMap(rules, c.identities), s.series),
                    |Keep(s.separations, MergedAndSeparated(rules, s.series))|)
  }

  /** The whole import: planned without conflict, then series, separations and providers in order. */
  ghost function Import(rules: Rules, c: Catalog, s: Snapshot): Option<Catalog> {
    var plan := PlanImport(rules, c, s);
    if plan.None? || plan.value.conflicts > 0 then None
    else
      var series := AddAllSeries(rules, Importing(c, IdentityMap(rules, c.identities), map[]), s.series);
      if series.None? then None
      else
        var separated := AddSeparations(rules, series.value, s.separations);
        if separated.None? then None
        else Some(series.value.c.(decisions := separated.value,
                                  providers := AddProviders(series.value.c.providers, s.providers)))
  }
}
