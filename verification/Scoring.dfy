/**
 Match scoring: how strongly two catalogue series look like the same work. The pairwise scorer
 queries per pair; the batched scorer loads all evidence once. Scores are reals.
 */
module Scoring {

  import opened Options
  import opened Reals

  function Abs(a: real): real { if a >= 0.0 then a else -a }

  /** Rounding to six decimals, ties to even. */
  function Round6(x: real): real {
    var n := (x * 1000000.0).Floor;
    var rest := x * 1000000.0 - n as real;
    (if rest < 0.5 || (rest == 0.5 && n % 2 == 0) then n else n + 1) as real / 1000000.0
  }

  // ---------------------------------------------------------------- evidence

  datatype SeriesRow = SeriesRow(title: string, description: string)
  datatype Alias = Alias(series: int, value: string)
  datatype ExternalId = ExternalId(series: int, provider: string, value: string)
  datatype Chapter = Chapter(series: int, number: string, sortNumber: Option<real>)
  datatype Identity = Identity(id: int, series: int)

  /** Tables in query order; `signatures` are the identities with a cover signature. */
  datatype Catalog = Catalog(series: map<int, SeriesRow>, aliases: seq<Alias>, externals: seq<ExternalId>,
                             chapters: seq<Chapter>, identities: seq<Identity>, signatures: set<int>)

  /** Outcome of the keypoint comparison: unusable, or good matches of which some are inliers. */
  datatype Geometry = Unusable | Matches(good: nat, inliers: nat)

  /** Text and image measures that are computed elsewhere. */
  datatype Measures = Measures(normalise: string -> string, tokens: string -> set<string>,
                               ratio: (string, string) -> real, fold: string -> string,
                               siteName: string -> bool,
                               hashDistance: (int, int) -> nat, geometry: (int, int) -> Geometry)

  ghost predicate Proper(m: Measures) {
    && (forall a, b :: 0.0 <= m.ratio(a, b) <= 1.0)
    && (forall a, b :: Consistent(m.geometry(a, b)))
    && (forall a :: m.normalise(a) != "" ==> m.tokens(m.normalise(a)) != {})
  }

  predicate Consistent(g: Geometry) { g.Matches? ==> g.inliers <= g.good }

  datatype CoverState =
    | UnavailableCover | InvalidCover | MatchingCover | LikelyCover | DifferentCover | InconclusiveCover

  datatype CoverEvidence = CoverEvidence(compared: bool, isMatch: bool, state: CoverState,
                                         distance: nat, inlierRatio: real, pair: Option<(int, int)>)

  const NoCover := CoverEvidence(false, false, UnavailableCover, 64, 0.0, None)

  function CompareSignatures(m: Measures, left: int, right: int): CoverEvidence {
    var distance := m.hashDistance(left, right);
    match m.geometry(left, right)
    case Unusable => CoverEvidence(false, false, InvalidCover, distance, 0.0, Some((left, right)))
    case Matches(good, inliers) =>
      var ratio := inliers as real / (if good == 0 then 1 else good) as real;
      var matched := (inliers >= 12 && ratio >= 0.65 && distance <= 18)
        || (inliers >= 4 && ratio >= 0.6 && distance <= 4);
      var likely := !matched
        && ((inliers >= 8 && ratio >= 0.5 && distance <= 22) || (inliers >= 4 && ratio >= 0.5 && distance <= 10));
      var different := distance >= 28 && inliers < 4;
      CoverEvidence(true, matched,
                    if matched then MatchingCover else if likely then LikelyCover
                    else if different then DifferentCover else InconclusiveCover,
                    distance, Round6(ratio), Some((left, right)))
  }

  function CoverSimilarity(e: CoverEvidence): real {
    if !e.compared then 0.0
    else
      var raw := Max(Max(0.0, 1.0 - e.distance as real / 32.0), e.inlierRatio);
      if e.state == MatchingCover || e.isMatch then Max(raw, 0.98)
      else if e.state == LikelyCover then Min(Max(raw, 0.7), 0.89)
      else if e.state == DifferentCover then Min(raw, 0.15)
      else Min(raw, 0.6)
  }

  function TitleSimilarity(m: Measures, left: string, right: string): real {
    var a, b := m.normalise(left), m.normalise(right);
    if a == "" || b == "" then 0.0
    else if a == b then 1.0
    else
      var common := m.tokens(a) * m.tokens(b);
      var all := m.tokens(a) + m.tokens(b);
      var token := if all == {} then 0.0 else |common| as real / |all| as real;
      var score := 0.6 * token + 0.4 * m.ratio(a, b);
      if |common| < 2 then Min(score, 0.45) else score
  }

  function TextSimilarity(m: Measures, left: string, right: string): real {
    var a, b := m.fold(left), m.fold(right);
    if a == "" || b == "" then 0.0 else m.ratio(a, b)
  }

  datatype Latest = Latest(compared: bool, similarity: real, isMatch: bool)

  function LatestValues(left: Option<real>, right: Option<real>): Latest {
    if left.None? || right.None? then Latest(false, 0.0, false)
    else
      var delta := Abs(left.value - right.value);
      var similarity := if delta <= 2.0 then 1.0 else if delta <= 6.0 then 1.0 - (delta - 2.0) / 4.0 else 0.0;
      Latest(true, Round6(similarity), delta <= 2.0)
  }

  function CombinedScore(title: real, cover: real, description: real, overlap: real, latest: Latest,
                         evidence: CoverEvidence): real {
    var score := 0.20 * title + 0.55 * cover + 0.08 * description + 0.05 * overlap + 0.12 * latest.similarity;
    if !evidence.isMatch then score
    else if latest.similarity == 1.0 || Max(title, description) >= 0.75 then Max(Max(score, 0.86), 0.90)
    else Max(score, 0.86)
  }

  datatype PairScore = PairScore(score: real, title: real, titleMatch: bool, cover: real, description: real,
                                 overlap: real, latest: Latest, evidence: CoverEvidence, shared: set<string>)

  function Result(shared: set<string>, title: real, cover: real, description: real, overlap: real,
                  latest: Latest, evidence: CoverEvidence): PairScore
  {
    PairScore(if shared != {} then 0.99
              else Round6(Min(CombinedScore(title, cover, description, overlap, latest, evidence), 0.98)),
              Round6(title), title >= 0.75, Round6(cover), Round6(description), Round6(overlap),
              latest, evidence, shared)
  }

  // ---------------------------------------------------------------- evidence of one series

  function AliasTitles(m: Measures, aliases: seq<Alias>, id: int): seq<string> {
    if aliases == [] then []
    else
      var last := aliases[|aliases| - 1];
      AliasTitles(m, aliases[..|aliases| - 1], id)
        + if last.series == id && !m.siteName(last.value) then [last.value] else []
  }

  function OwnTitle(c: Catalog, id: int): seq<string> { if id in c.series then [c.series[id].title] else [] }

  function TitlesOf(c: Catalog, m: Measures, id: int): seq<string> {
    OwnTitle(c, id) + AliasTitles(m, c.aliases, id)
  }

  function ExternalsIn(rows: seq<ExternalId>, id: int): set<string> {
    set e | e in rows && e.series == id :: e.provider + ":" + e.value
  }

  function NumbersIn(rows: seq<Chapter>, id: int): set<string> {
    set r | r in rows && r.series == id :: r.number
  }

  ghost predicate IsLatest(rows: seq<Chapter>, id: int, latest: Option<real>) {
    && (forall r :: r in rows && r.series == id && r.sortNumber.Some? ==>
          latest.Some? && r.sortNumber.value <= latest.value)
    && (latest.Some? ==> exists r :: r in rows && r.series == id && r.sortNumber == latest)
  }

  lemma {:induction false} LatestIsUnique(rows: seq<Chapter>, id: int, a: Option<real>, b: Option<real>)
    requires IsLatest(rows, id, a) && IsLatest(rows, id, b)
    ensures a == b
  {
  }

  function LatestIn(rows: seq<Chapter>, id: int): Option<real> {
    if rows == [] then None
    else
      var rest := LatestIn(rows[..|rows| - 1], id);
      var last := rows[|rows| - 1];
      if last.series == id && last.sortNumber.Some? && (rest.None? || last.sortNumber.value > rest.value)
      then last.sortNumber else rest
  }

  lemma {:induction false} LatestInIsLatest(rows: seq<Chapter>, id: int)
    ensures IsLatest(rows, id, LatestIn(rows, id))
  {
    if rows != [] {
      LatestInIsLatest(rows[..|rows| - 1], id);
      assert rows == rows[..|rows| - 1] + [rows[|rows| - 1]];
    }
  }

  function IdentitiesIn(rows: seq<Identity>, id: int): seq<int> {
    if rows == [] then []
    else IdentitiesIn(rows[..|rows| - 1], id) + if rows[|rows| - 1].series == id then [rows[|rows| - 1].id] else []
  }

  function DescriptionOf(c: Catalog, id: int): string { if id in c.series then c.series[id].description else "" }

  // ---------------------------------------------------------------- evidence of one pair

  function BestAgainst(m: Measures, left: string, rights: seq<string>): real {
    if rights == [] then 0.0
    else Max(BestAgainst(m, left, rights[..|rights| - 1]), TitleSimilarity(m, left, rights[|rights| - 1]))
  }

  /** The highest similarity over all title pairs, 0 when there is none. */
  function TitleScore(m: Measures, lefts: seq<string>, rights: seq<string>): real {
    if lefts == [] then 0.0
    else Max(TitleScore(m, lefts[..|lefts| - 1], rights), BestAgainst(m, lefts[|lefts| - 1], rights))
  }

  function Overlap(left: set<string>, right: set<string>): real {
    if left + right == {} then 0.0 else |left * right| as real / |left + right| as real
  }

  datatype Chosen = Chosen(cover: real, evidence: CoverEvidence)

  function Consider(chosen: Chosen, evidence: CoverEvidence): Chosen {
    if CoverSimilarity(evidence) > chosen.cover || !chosen.evidence.compared
    then Chosen(CoverSimilarity(evidence), evidence) else chosen
  }

  /** The running choice over a list of comparisons. */
  function Choose(found: seq<CoverEvidence>): Chosen {
    if found == [] then Chosen(0.0, NoCover)
    else Consider(Choose(found[..|found| - 1]), found[|found| - 1])
  }

  function CoverRow(m: Measures, signatures: set<int>, left: int, rights: seq<int>): seq<CoverEvidence> {
    if rights == [] then []
    else
      var last := rights[|rights| - 1];
      CoverRow(m, signatures, left,
               rights[..|rights| - 1]) + if last in signatures then [CompareSignatures(m, left, last)] else []
  }

  /** The comparisons of all pairs of signed identities, left first. */
  function Covers(m: Measures, signatures: set<int>, lefts: seq<int>, rights: seq<int>): seq<CoverEvidence> {
    if lefts == [] then []
    else
      var last := lefts[|lefts| - 1];
      Covers(m, signatures, lefts[..|lefts| - 1], rights)
        + if last in signatures then CoverRow(m, signatures, last, rights) else []
  }

  function CoversOf(c: Catalog, m: Measures, left: int, right: int): seq<CoverEvidence> {
    Covers(m, c.signatures, IdentitiesIn(c.identities, left), IdentitiesIn(c.identities, right))
  }

  function SharedIds(c: Catalog, left: int, right: int): set<string> {
    ExternalsIn(c.externals, left) * ExternalsIn(c.externals, right)
  }

  /** The score of a pair, straight from the tables. */
  function Score(c: Catalog, m: Measures, left: int, right: int): PairScore {
    var chosen := Choose(CoversOf(c, m, left, right));
    Result(SharedIds(c, left, right),
           TitleScore(m, TitlesOf(c, m, left), TitlesOf(c, m, right)),
           chosen.cover,
           TextSimilarity(m, DescriptionOf(c, left), DescriptionOf(c, right)),
           Overlap(NumbersIn(c.chapters, left), NumbersIn(c.chapters, right)),
           LatestValues(LatestIn(c.chapters, left), LatestIn(c.chapters, right)),
           chosen.evidence)
  }

  // ---------------------------------------------------------------- loading evidence

  function At<T>(loaded: map<int, seq<T>>, id: int): seq<T> { if id in loaded then loaded[id] else [] }
  function SetAt(loaded: map<int, set<string>>, id: int): set<string> { if id in loaded then loaded[id] else {} }
  function ValueAt(loaded: map<int, real>, id: int): Option<real> { if id in loaded then Some(loaded[id]) else None }

  ghost predicate TitlesLoaded(c: Catalog, m: Measures, ids: set<int>, titles: map<int, seq<string>>, k: nat)
    requires k <= |c.aliases|
  {
    forall id :: id in ids ==> At(titles, id) == OwnTitle(c, id) + AliasTitles(m, c.aliases[..k], id)
  }

  lemma {:induction false} TitlesOneMore(c: Catalog, m: Measures, ids: set<int>, titles: map<int, seq<string>>, k: nat)
    requires k < |c.aliases| && TitlesLoaded(c, m, ids, titles, k)
    ensures var alias := c.aliases[k];
      TitlesLoaded(c, m, ids,
                   if alias.series in ids && !m.siteName(alias.value)
                   then titles[alias.series := At(titles, alias.series) + [alias.value]] else titles, k + 1)
  {
    assert c.aliases[..k + 1][..k] == c.aliases[..k];
  }

  method LoadTitles(c: Catalog, m: Measures, ids: set<int>) returns (titles: map<int, seq<string>>)
    ensures forall id :: id in ids ==> At(titles, id) == TitlesOf(c, m, id)
  {
    titles := map id | id in ids && id in c.series :: [c.series[id].title];
    for k := 0 to |c.aliases|
      invariant TitlesLoaded(c, m, ids, titles, k)
    {
      var alias := c.aliases[k];
      TitlesOneMore(c, m, ids, titles, k);
      if alias.series in ids && !m.siteName(alias.value) {
        titles := titles[alias.series := At(titles, alias.series) + [alias.value]];
      }
    }
    assert c.aliases[..|c.aliases|] == c.aliases;
  }

  method LoadExternals(c: Catalog, ids: set<int>) returns (external: map<int, set<string>>)
    ensures forall id :: id in ids ==> SetAt(external, id) == ExternalsIn(c.externals, id)
  {
    external := map[];
    for k := 0 to |c.externals|
      invariant forall id :: id in ids ==> SetAt(external, id) == ExternalsIn(c.externals[..k], id)
    {
      var row := c.externals[k];
      assert c.externals[..k + 1] == c.externals[..k] + [row];
      if row.series in ids {
        external := external[row.series := SetAt(external, row.series) + {row.provider + ":" + row.value}];
      }
    }
    assert c.externals[..|c.externals|] == c.externals;
  }

  ghost predicate ChaptersLoaded(rows: seq<Chapter>, ids: set<int>, numbers: map<int, set<string>>,
                                 latest: map<int, real>)
  {
    forall id :: id in ids ==> SetAt(numbers, id) == NumbersIn(rows, id) && ValueAt(latest, id) == LatestIn(rows, id)
  }

  function WithNumber(numbers: map<int, set<string>>, row: Chapter): map<int, set<string>> {
    numbers[row.series := SetAt(numbers, row.series) + {row.number}]
  }

  /** The running maximum of a series. */
  function WithLatest(latest: map<int, real>, row: Chapter): map<int, real> {
    if row.sortNumber.None? then latest
    else
      var seen := if row.series in latest then latest[row.series] else row.sortNumber.value;
      latest[row.series := Max(seen, row.sortNumber.value)]
  }

  lemma {:induction false} ChaptersOneMore(rows: seq<Chapter>, row: Chapter, ids: set<int>, numbers: map<int,
                                           set<string>>, latest: map<int, real>)
    requires ChaptersLoaded(rows, ids, numbers, latest)
    ensures if row.series in ids
      then ChaptersLoaded(rows + [row], ids, WithNumber(numbers, row), WithLatest(latest, row))
      else ChaptersLoaded(rows + [row], ids, numbers, latest)
  {
    assert (rows + [row])[..|rows|] == rows;
    forall id
      ensures NumbersIn(rows + [row], id) == NumbersIn(rows, id) + if row.series == id then {row.number} else {}
    {
    }
  }

  /** One pass over the chapters gives the number sets and the running maxima. */
  method LoadChapters(c: Catalog, ids: set<int>) returns (numbers: map<int, set<string>>, latest: map<int, real>)
    ensures forall id :: id in ids ==> SetAt(numbers, id) == NumbersIn(c.chapters, id)
    ensures forall id :: id in ids ==> ValueAt(latest, id) == LatestIn(c.chapters, id)
  {
    numbers, latest := map[], map[];
    for k := 0 to |c.chapters|
      invariant ChaptersLoaded(c.chapters[..k], ids, numbers, latest)
    {
      assert c.chapters[..k + 1] == c.chapters[..k] + [c.chapters[k]];
      ChaptersOneMore(c.chapters[..k], c.chapters[k], ids, numbers, latest);
      if c.chapters[k].series in ids {
        numbers, latest := WithNumber(numbers, c.chapters[k]), WithLatest(latest, c.chapters[k]);
      }
    }
    assert c.chapters[..|c.chapters|] == c.chapters;
  }

  method LoadIdentities(c: Catalog, ids: set<int>) returns (identities: map<int, seq<int>>)
    ensures forall id :: id in ids ==> At(identities, id) == IdentitiesIn(c.identities, id)
  {
    identities := map[];
    for k := 0 to |c.identities|
      invariant forall id :: id in ids ==> At(identities, id) == IdentitiesIn(c.identities[..k], id)
    {
      var row := c.identities[k];
      assert c.identities[..k + 1][..k] == c.identities[..k];
      if row.series in ids {
        identities := identities[row.series := At(identities, row.series) + [row.id]];
      }
    }
    assert c.identities[..|c.identities|] == c.identities;
  }

  /** A result of the pairwise query for the numbered chapters of two series, highest first. */
  ghost predicate HighestFirst(ordered: seq<(int, real)>, c: Catalog, left: int, right: int) {
    && (forall row :: row in ordered <==>
          row.0 in {left, right} && exists r :: r in c.chapters && r.series == row.0 && r.sortNumber == Some(row.1))
    && (forall i, j :: 0 <= i < j < |ordered| && ordered[i].0 == ordered[j].0 ==> ordered[i].1 >= ordered[j].1)
  }

  method FirstOfEach(ordered: seq<(int, real)>, ghost c: Catalog, ghost left: int, ghost right: int)
    returns (values: map<int, real>)
    requires HighestFirst(ordered, c, left, right)
    ensures ValueAt(values, left) == LatestIn(c.chapters, left) && ValueAt(values, right) == LatestIn(c.chapters, right)
  {
    values := map[];
    for k := 0 to |ordered|
      invariant forall i :: 0 <= i < k ==> ordered[i].0 in values && ordered[i].1 <= values[ordered[i].0]
      invariant forall id :: id in values ==> exists i :: 0 <= i < k && ordered[i] == (id, values[id])
    {
      if ordered[k].0 !in values {
        values := values[ordered[k].0 := ordered[k].1];
      }
    }
    FirstIsLatest(ordered, c, left, right, values, left);
    FirstIsLatest(ordered, c, left, right, values, right);
  }

  lemma {:induction false} FirstIsLatest(ordered: seq<(int, real)>, c: Catalog, left: int, right: int,
                                         values: map<int, real>, id: int)
    requires HighestFirst(ordered, c, left, right) && id in {left, right}
    requires forall i :: 0 <= i < |ordered| ==> ordered[i].0 in values && ordered[i].1 <= values[ordered[i].0]
    requires forall x :: x in values ==> exists i :: 0 <= i < |ordered| && ordered[i] == (x, values[x])
    ensures ValueAt(values, id) == LatestIn(c.chapters, id)
  {
    forall r | r in c.chapters && r.series == id && r.sortNumber.Some?
      ensures id in values && r.sortNumber.value <= values[id]
    {
      assert (id, r.sortNumber.value) in ordered;
    }
    if id in values {
      assert (id, values[id]) in ordered;
    }
    LatestInIsLatest(c.chapters, id);
    LatestIsUnique(c.chapters, id, ValueAt(values, id), LatestIn(c.chapters, id));
  }

  /** The nested cover loop of both scorers. */
  method ChooseCover(m: Measures, signatures: set<int>, lefts: seq<int>, rights: seq<int>) returns (chosen: Chosen)
    ensures chosen == Choose(Covers(m, signatures, lefts, rights))
  {
    chosen := Chosen(0.0, NoCover);
    for i := 0 to |lefts|
      invariant chosen == Choose(Covers(m, signatures, lefts[..i], rights))
    {
      assert lefts[..i + 1][..i] == lefts[..i];
      if lefts[i] in signatures {
        chosen := ChooseInRow(m, signatures, lefts[i], rights, chosen, Covers(m, signatures, lefts[..i], rights));
      } else {
        assert Covers(m, signatures, lefts[..i + 1], rights) == Covers(m, signatures, lefts[..i], rights);
      }
    }
    assert lefts[..|lefts|] == lefts;
  }

  method ChooseInRow(m: Measures, signatures: set<int>, left: int, rights: seq<int>, start: Chosen,
                     ghost done: seq<CoverEvidence>)
    returns (chosen: Chosen)
    requires start == Choose(done)
    ensures chosen == Choose(done + CoverRow(m, signatures, left, rights))
  {
    chosen := start;
    assert done + CoverRow(m, signatures, left, rights[..0]) == done;
    for j := 0 to |rights|
      invariant chosen == Choose(done + CoverRow(m, signatures, left, rights[..j]))
    {
      assert rights[..j + 1][..j] == rights[..j];
      if rights[j] in signatures {
        var found := CompareSignatures(m, left, rights[j]);
        OneMore(done, CoverRow(m, signatures, left, rights[..j]), found);
        var similarity := CoverSimilarity(found);
        if similarity > chosen.cover || !chosen.evidence.compared {
          chosen := Chosen(similarity, found);
        }
      } else {
        assert CoverRow(m, signatures, left, rights[..j + 1]) == CoverRow(m, signatures, left, rights[..j]);
      }
    }
    assert rights[..|rights|] == rights;
  }

  lemma {:induction false} OneMore(done: seq<CoverEvidence>, row: seq<CoverEvidence>, found: CoverEvidence)
    ensures Choose(done + (row + [found])) == Consider(Choose(done + row), found)
  {
    var all := done + (row + [found]);
    assert all[..|all| - 1] == done + row;
  }

  // ---------------------------------------------------------------- the two scorers

  method ScoreSeriesPair(c: Catalog, m: Measures, left: int, right: int, ordered: seq<(int, real)>)
    returns (result: PairScore)
    requires Proper(m) && HighestFirst(ordered, c, left, right)
    ensures result == Score(c, m, left, right)
  {
    var external := LoadExternals(c, {left, right});
    var titles := LoadTitles(c, m, {left, right});
    var numbers, _ := LoadChapters(c, {left, right});
    var values := FirstOfEach(ordered, c, left, right);
    var identities := LoadIdentities(c, {left, right});
    var chosen := ChooseCover(m, c.signatures, At(identities, left), At(identities, right));
    CoversAreSound(c, m, left, right);
    ChosenInRange(CoversOf(c, m, left, right));
    result := Result(SetAt(external, left) * SetAt(external, right),
                     TitleScore(m, At(titles, left), At(titles, right)),
                     Min(chosen.cover, 1.0),
                     TextSimilarity(m, DescriptionOf(c, left), DescriptionOf(c, right)),
                     Overlap(SetAt(numbers, left), SetAt(numbers, right)),
                     LatestValues(ValueAt(values, left), ValueAt(values, right)),
                     chosen.evidence);
  }

  /** The pairwise scores of a candidate against every selected series. */
  ghost function Scored(c: Catalog, m: Measures, selected: seq<int>, candidate: int): (scored: seq<PairScore>)
    ensures |scored| == |selected|
  {
    if selected == [] then []
    else Scored(c, m, selected[..|selected| - 1], candidate) + [Score(c, m, selected[|selected| - 1], candidate)]
  }

  lemma {:induction false} ScoredAt(c: Catalog, m: Measures, selected: seq<int>, candidate: int, i: nat)
    requires i < |selected|
    ensures Scored(c, m, selected, candidate)[i] == Score(c, m, selected[i], candidate)
  {
    if i < |selected| - 1 {
      ScoredAt(c, m, selected[..|selected| - 1], candidate, i);
    }
  }

  ghost predicate FirstHighest(scored: seq<PairScore>, at: nat) {
    && at < |scored|
    && (forall i :: 0 <= i < |scored| ==> scored[i].score <= scored[at].score)
    && (forall i :: 0 <= i < at ==> scored[i].score < scored[at].score)
  }

  /** The first selected series with the highest pairwise score, and that score. */
  ghost predicate BestFor(c: Catalog, m: Measures, selected: seq<int>, candidate: int, best: (PairScore, int)) {
    exists at: nat :: at < |selected| && IsBest(Scored(c, m, selected, candidate), selected, best, at)
  }

  ghost predicate IsBest(scored: seq<PairScore>, selected: seq<int>, best: (PairScore, int), at: nat)
    requires |scored| == |selected|
  {
    FirstHighest(scored, at) && best == (scored[at], selected[at])
  }

  /** What a best entry means in terms of the pairwise scorer. */
  lemma {:induction false} BestIsHighest(c: Catalog, m: Measures, selected: seq<int>, candidate: int,
                                         best: (PairScore, int))
    requires BestFor(c, m, selected, candidate, best)
    ensures best.1 in selected && best.0 == Score(c, m, best.1, candidate)
    ensures forall id :: id in selected ==> Score(c, m, id, candidate).score <= best.0.score
  {
    var scored := Scored(c, m, selected, candidate);
    var at: nat :| at < |selected| && IsBest(scored, selected, best, at);
    ScoredAt(c, m, selected, candidate, at);
    forall id | id in selected ensures Score(c, m, id, candidate).score <= best.0.score {
      var i :| 0 <= i < |selected| && selected[i] == id;
      ScoredAt(c, m, selected, candidate, i);
    }
  }

  /** Every candidate gets the pairwise score against the first selected series that scores highest. */
  method ScoreCandidateSet(c: Catalog, m: Measures, selected: seq<int>, candidates: seq<int>)
    returns (result: map<int, (PairScore, int)>)
    ensures result.Keys == if selected == [] then {} else Ids(candidates)
    ensures AllBest(c, m, selected, result)
  {
    result := map[];
    if selected == [] || candidates == [] {
      return;
    }
    var ids := Ids(selected) + Ids(candidates);
    var loaded := Load(c, m, ids);
    for k := 0 to |candidates|
      invariant result.Keys == Ids(candidates[..k])
      invariant AllBest(c, m, selected, result)
    {
      assert Ids(candidates[..k + 1]) == Ids(candidates[..k]) + {candidates[k]};
      var best := BestOf(c, m, loaded, selected, candidates[k], ids);
      result := result[candidates[k] := best];
    }
    assert candidates[..|candidates|] == candidates;
  }

  function Ids(xs: seq<int>): set<int> { set x | x in xs }

  ghost predicate AllBest(c: Catalog, m: Measures, selected: seq<int>, result: map<int, (PairScore, int)>) {
    forall x :: x in result ==> BestFor(c, m, selected, x, result[x])
  }

  datatype Evidence = Evidence(titles: map<int, seq<string>>, external: map<int, set<string>>,
                               numbers: map<int, set<string>>, latest: map<int, real>, identities: map<int, seq<int>>)

  ghost predicate LoadedFor(c: Catalog, m: Measures, e: Evidence, id: int) {
    && At(e.titles, id) == TitlesOf(c, m, id) && SetAt(e.external, id) == ExternalsIn(c.externals, id)
    && SetAt(e.numbers, id) == NumbersIn(c.chapters, id) && ValueAt(e.latest, id) == LatestIn(c.chapters, id)
    && At(e.identities, id) == IdentitiesIn(c.identities, id)
  }

  method Load(c: Catalog, m: Measures, ids: set<int>) returns (e: Evidence)
    ensures forall id :: id in ids ==> LoadedFor(c, m, e, id)
  {
    var titles := LoadTitles(c, m, ids);
    var external := LoadExternals(c, ids);
    var numbers, latest := LoadChapters(c, ids);
    var identities := LoadIdentities(c, ids);
    e := Evidence(titles, external, numbers, latest, identities);
  }

  method BestOf(c: Catalog, m: Measures, e: Evidence, selected: seq<int>, candidate: int, ghost ids: set<int>)
    returns (best: (PairScore, int))
    requires selected != [] && candidate in ids && (forall x :: x in selected ==> x in ids)
    requires forall id :: id in ids ==> LoadedFor(c, m, e, id)
    ensures BestFor(c, m, selected, candidate, best)
  {
    var scored := ScoreAll(c, m, e, selected, candidate, ids);
    var at := Highest(scored);
    best := (scored[at], selected[at]);
    assert IsBest(scored, selected, best, at);
  }

  method ScoreAll(c: Catalog, m: Measures, e: Evidence, selected: seq<int>, candidate: int, ghost ids: set<int>)
    returns (scored: seq<PairScore>)
    requires candidate in ids && (forall x :: x in selected ==> x in ids)
    requires forall id :: id in ids ==> LoadedFor(c, m, e, id)
    ensures scored == Scored(c, m, selected, candidate)
  {
    scored := [];
    for i := 0 to |selected|
      invariant scored == Scored(c, m, selected[..i], candidate)
    {
      var score := ScoreLoaded(c, m, e, selected[i], candidate);
      ScoredOneMore(c, m, selected, candidate, i);
      scored := scored + [score];
    }
    assert selected[..|selected|] == selected;
  }

  lemma {:induction false} ScoredOneMore(c: Catalog, m: Measures, selected: seq<int>, candidate: int, i: nat)
    requires i < |selected|
    ensures Scored(c, m, selected[..i + 1], candidate)
      == Scored(c, m, selected[..i], candidate) + [Score(c, m, selected[i], candidate)]
  {
    assert selected[..i + 1][..i] == selected[..i];
  }

  method Highest(scored: seq<PairScore>) returns (at: nat)
    requires scored != []
    ensures FirstHighest(scored, at)
  {
    at := 0;
    for i := 1 to |scored|
      invariant at < i && FirstHighest(scored[..i], at)
    {
      if scored[i].score > scored[at].score {
        at := i;
      }
    }
    assert scored[..|scored|] == scored;
  }

  method ScoreLoaded(c: Catalog, m: Measures, e: Evidence, left: int, right: int) returns (result: PairScore)
    requires LoadedFor(c, m, e, left) && LoadedFor(c, m, e, right)
    ensures result == Score(c, m, left, right)
  {
    var chosen := ChooseCover(m, c.signatures, At(e.identities, left), At(e.identities, right));
    result := Result(SetAt(e.external, left) * SetAt(e.external, right),
                     TitleScore(m, At(e.titles, left), At(e.titles, right)),
                     chosen.cover,
                     TextSimilarity(m, DescriptionOf(c, left), DescriptionOf(c, right)),
                     Overlap(SetAt(e.numbers, left), SetAt(e.numbers, right)),
                     LatestValues(ValueAt(e.latest, left), ValueAt(e.latest, right)),
                     chosen.evidence);
  }

  // ---------------------------------------------------------------- what scores mean

  lemma {:induction false} Round6Monotone(x: real, y: real)
    requires x <= y
    ensures Round6(x) <= Round6(y)
  {
    var a, b := (x * 1000000.0).Floor, (y * 1000000.0).Floor;
    assert a <= b;
  }

  lemma {:induction false} Round6Fixed(k: int)
    ensures Round6(k as real / 1000000.0) == k as real / 1000000.0
  {
    assert (k as real / 1000000.0) * 1000000.0 == k as real;
  }

  /** Rounding keeps a value between any two six-decimal bounds. */
  lemma {:induction false} Round6Within(x: real, low: int, high: int)
    requires low as real / 1000000.0 <= x <= high as real / 1000000.0
    ensures low as real / 1000000.0 <= Round6(x) <= high as real / 1000000.0
  {
    Round6Fixed(low);
    Round6Fixed(high);
    Round6Monotone(low as real / 1000000.0, x);
    Round6Monotone(x, high as real / 1000000.0);
  }

  lemma {:induction false} FractionInRange(part: nat, whole: nat)
    requires part <= whole && whole > 0
    ensures 0.0 <= part as real / whole as real <= 1.0
  {
  }

  /** What every comparison satisfies; a match always outranks anything else. */
  ghost predicate Sound(e: CoverEvidence) {
    && 0.0 <= CoverSimilarity(e) <= 1.0
    && (e.isMatch ==> e.compared && CoverSimilarity(e) >= 0.98)
    && (!e.isMatch ==> CoverSimilarity(e) <= 0.89)
  }

  ghost predicate AllSound(found: seq<CoverEvidence>) { forall e :: e in found ==> Sound(e) }

  lemma {:induction false} ComparisonIsSound(m: Measures, left: int, right: int)
    requires Proper(m)
    ensures Sound(CompareSignatures(m, left, right))
  {
    var g := m.geometry(left, right);
    assert Consistent(g);
    if g.Matches? {
      var whole := if g.good == 0 then 1 else g.good;
      FractionInRange(g.inliers, whole);
      Round6Within(g.inliers as real / whole as real, 0, 1000000);
    }
  }

  /** `e` compares signed identities from the two lists. */
  ghost predicate Compares(m: Measures, signatures: set<int>, lefts: seq<int>, rights: seq<int>, e: CoverEvidence) {
    exists l, r :: l in lefts && l in signatures && r in rights && r in signatures && e == CompareSignatures(m, l, r)
  }

  lemma {:induction false} CoverRowExact(m: Measures, signatures: set<int>, left: int, rights: seq<int>,
                                         e: CoverEvidence)
    requires left in signatures
    ensures e in CoverRow(m, signatures, left, rights) <==> Compares(m, signatures, [left], rights, e)
  {
    if rights != [] {
      var before, last := rights[..|rights| - 1], rights[|rights| - 1];
      CoverRowExact(m, signatures, left, before, e);
      assert rights == before + [last];
      assert left in [left];
    }
  }

  lemma {:induction false} CoversExact(m: Measures, signatures: set<int>, lefts: seq<int>, rights: seq<int>,
                                       e: CoverEvidence)
    ensures e in Covers(m, signatures, lefts, rights) <==> Compares(m, signatures, lefts, rights, e)
  {
    if lefts != [] {
      var before, last := lefts[..|lefts| - 1], lefts[|lefts| - 1];
      CoversExact(m, signatures, before, rights, e);
      assert lefts == before + [last];
      if last in signatures {
        CoverRowExact(m, signatures, last, rights, e);
      }
    }
  }

  lemma {:induction false} CoversAreSound(c: Catalog, m: Measures, left: int, right: int)
    requires Proper(m)
    ensures AllSound(CoversOf(c, m, left, right))
  {
    var lefts, rights := IdentitiesIn(c.identities, left), IdentitiesIn(c.identities, right);
    forall e | e in CoversOf(c, m, left, right) ensures Sound(e) {
      CoversExact(m, c.signatures, lefts, rights, e);
      var l, r :| e == CompareSignatures(m, l, r);
      ComparisonIsSound(m, l, r);
    }
  }

  lemma {:induction false} ChosenInRange(found: seq<CoverEvidence>)
    requires AllSound(found)
    ensures Choose(found).cover == CoverSimilarity(Choose(found).evidence) && Sound(Choose(found).evidence)
  {
    if found != [] {
      ChosenInRange(found[..|found| - 1]);
      assert found[|found| - 1] in found;
    }
  }

  /** The choice is the first compared entry of highest similarity, if any could be compared. */
  lemma {:induction false} ChosenIsFirstBest(found: seq<CoverEvidence>)
    requires AllSound(found)
    ensures Choose(found).evidence.compared <==> exists e :: e in found && e.compared
    ensures Choose(found).evidence.compared ==> exists at: nat :: at < |found| && FirstBestCover(found, at)
  {
    if found != [] {
      var n := |found| - 1;
      var before, last := found[..n], found[n];
      assert found == before + [last];
      ChosenIsFirstBest(before);
      ChosenInRange(before);
      assert Sound(last) by {
        assert last in found;
      }
      if Choose(before).evidence.compared {
        var at: nat :| at < n && FirstBestCover(before, at);
        NextBest(found, at);
      } else if last.compared {
        assert FirstBestCover(found, n);
      }
    }
  }

  lemma {:induction false} NextBest(found: seq<CoverEvidence>, at: nat)
    requires AllSound(found) && found != [] && at < |found| - 1 && FirstBestCover(found[..|found| - 1], at)
    ensures exists next: nat :: next < |found| && FirstBestCover(found, next)
  {
    var n := |found| - 1;
    ChosenInRange(found[..n]);
    if CoverSimilarity(found[n]) > CoverSimilarity(found[at]) {
      assert found[n] in found;
      assert FirstBestCover(found, n);
    } else {
      assert FirstBestCover(found, at);
    }
  }

  ghost predicate FirstBestCover(found: seq<CoverEvidence>, at: nat)
    requires at < |found|
  {
    && Choose(found).evidence == found[at] && found[at].compared
    && (forall i :: 0 <= i < |found| && found[i].compared ==> CoverSimilarity(found[i]) <= CoverSimilarity(found[at]))
    && (forall i :: 0 <= i < at && found[i].compared ==> CoverSimilarity(found[i]) < CoverSimilarity(found[at]))
  }

  lemma {:induction false} TitleInRange(m: Measures, left: string, right: string)
    requires Proper(m)
    ensures 0.0 <= TitleSimilarity(m, left, right) <= 1.0
  {
    var a, b := m.normalise(left), m.normalise(right);
    var common, all := m.tokens(a) * m.tokens(b), m.tokens(a) + m.tokens(b);
    if all != {} {
      PartOfWhole(common, all);
    }
  }

  lemma {:induction false} PartOfWhole(part: set<string>, whole: set<string>)
    requires part <= whole && whole != {}
    ensures 0.0 <= |part| as real / |whole| as real <= 1.0
  {
    assert whole == part + (whole - part);
    FractionInRange(|part|, |whole|);
  }

  lemma {:induction false} BestAgainstInRange(m: Measures, left: string, rights: seq<string>)
    requires Proper(m)
    ensures 0.0 <= BestAgainst(m, left, rights) <= 1.0
  {
    if rights != [] {
      BestAgainstInRange(m, left, rights[..|rights| - 1]);
      TitleInRange(m, left, rights[|rights| - 1]);
    }
  }

  lemma {:induction false} TitleScoreInRange(m: Measures, lefts: seq<string>, rights: seq<string>)
    requires Proper(m)
    ensures 0.0 <= TitleScore(m, lefts, rights) <= 1.0
  {
    if lefts != [] {
      TitleScoreInRange(m, lefts[..|lefts| - 1], rights);
      BestAgainstInRange(m, lefts[|lefts| - 1], rights);
    }
  }

  lemma {:induction false} OverlapInRange(left: set<string>, right: set<string>)
    ensures 0.0 <= Overlap(left, right) <= 1.0
  {
    if left + right != {} {
      PartOfWhole(left * right, left + right);
    }
  }

  lemma {:induction false} LatestInRange(left: Option<real>, right: Option<real>)
    ensures 0.0 <= LatestValues(left, right).similarity <= 1.0
    ensures LatestValues(left, right).isMatch ==> LatestValues(left, right).similarity == 1.0
  {
    if left.Some? && right.Some? {
      var delta := Abs(left.value - right.value);
      var similarity := if delta <= 2.0 then 1.0 else if delta <= 6.0 then 1.0 - (delta - 2.0) / 4.0 else 0.0;
      Round6Within(similarity, 0, 1000000);
      Round6Fixed(1000000);
    }
  }

  /** Scores lie in [0, 0.99], and 0.99 means exactly a shared external identifier. */
  lemma {:induction false} ScoreInRange(c: Catalog, m: Measures, left: int, right: int)
    requires Proper(m)
    ensures var r := Score(c, m, left, right);
      && 0.0 <= r.score <= 0.99
      && (r.score == 0.99 <==> SharedIds(c, left, right) != {})
      && (SharedIds(c, left, right) == {} ==> r.score <= 0.98)
  {
    var raw := RawParts(c, m, left, right);
    Round6Within(Min(raw, 0.98), 0, 980000);
  }

  /** The unrounded combination is never negative. */
  lemma {:induction false} RawParts(c: Catalog, m: Measures, left: int, right: int) returns (raw: real)
    requires Proper(m)
    ensures raw >= 0.0
    ensures SharedIds(c, left, right) == {} ==> Score(c, m, left, right).score == Round6(Min(raw, 0.98))
    ensures Score(c, m, left, right).evidence.isMatch ==> raw >= 0.86
    ensures Score(c, m, left, right).evidence.isMatch && Corroborated(c, m, left, right) ==> raw >= 0.90
  {
    var chosen := Choose(CoversOf(c, m, left, right));
    CoversAreSound(c, m, left, right);
    ChosenInRange(CoversOf(c, m, left, right));
    TitleScoreInRange(m, TitlesOf(c, m, left), TitlesOf(c, m, right));
    OverlapInRange(NumbersIn(c.chapters, left), NumbersIn(c.chapters, right));
    LatestInRange(LatestIn(c.chapters, left), LatestIn(c.chapters, right));
    raw := CombinedScore(TitleScore(m, TitlesOf(c, m, left), TitlesOf(c, m, right)), chosen.cover,
                         TextSimilarity(m, DescriptionOf(c, left), DescriptionOf(c, right)),
                         Overlap(NumbersIn(c.chapters, left), NumbersIn(c.chapters, right)),
                         LatestValues(LatestIn(c.chapters, left), LatestIn(c.chapters, right)), chosen.evidence);
  }

  /** The latest chapters agree, or a title pair or the descriptions are at least 0.75 alike. */
  ghost predicate Corroborated(c: Catalog, m: Measures, left: int, right: int) {
    || LatestValues(LatestIn(c.chapters, left), LatestIn(c.chapters, right)).similarity == 1.0
    || TitleScore(m, TitlesOf(c, m, left), TitlesOf(c, m, right)) >= 0.75
    || TextSimilarity(m, DescriptionOf(c, left), DescriptionOf(c, right)) >= 0.75
  }

  /** One matching cover pair anywhere makes the chosen evidence a match and the score at least 0.86. */
  lemma {:induction false} MatchingCoverDecides(c: Catalog, m: Measures, left: int, right: int)
    requires Proper(m)
    ensures Score(c, m, left, right).evidence.isMatch <==> CoversMatch(c, m, left, right)
    ensures CoversMatch(c, m, left, right) ==> Score(c, m, left, right).score >= 0.86
    ensures CoversMatch(c, m, left, right) && Corroborated(c, m, left, right) ==> Score(c, m, left, right).score >= 0.90
  {
    MatchIsChosen(c, m, left, right);
    var raw := RawParts(c, m, left, right);
    if Score(c, m, left, right).evidence.isMatch {
      Round6Within(Min(raw, 0.98), if Corroborated(c, m, left, right) then 900000 else 860000, 980000);
    }
  }

  /** Some signed identity of one series has a cover matching a signed identity of the other. */
  ghost predicate CoversMatch(c: Catalog, m: Measures, left: int, right: int) {
    exists l, r ::
      && l in IdentitiesIn(c.identities, left) && l in c.signatures
      && r in IdentitiesIn(c.identities, right) && r in c.signatures
      && CompareSignatures(m, l, r).isMatch
  }

  lemma {:induction false} MatchIsChosen(c: Catalog, m: Measures, left: int, right: int)
    requires Proper(m)
    ensures Choose(CoversOf(c, m, left, right)).evidence.isMatch <==> CoversMatch(c, m, left, right)
  {
    var lefts, rights := IdentitiesIn(c.identities, left), IdentitiesIn(c.identities, right);
    var found := CoversOf(c, m, left, right);
    CoversAreSound(c, m, left, right);
    SomeMatchIsChosen(found);
    if CoversMatch(c, m, left, right) {
      var l, r :| l in lefts && l in c.signatures && r in rights && r in c.signatures
        && CompareSignatures(m, l, r).isMatch;
      CoversExact(m, c.signatures, lefts, rights, CompareSignatures(m, l, r));
    }
    if e :| e in found && e.isMatch {
      CoversExact(m, c.signatures, lefts, rights, e);
    }
  }

  lemma {:induction false} SomeMatchIsChosen(found: seq<CoverEvidence>)
    requires AllSound(found)
    ensures Choose(found).evidence.isMatch <==> exists e :: e in found && e.isMatch
  {
    ChosenIsFirstBest(found);
    ChosenInRange(found);
    if Choose(found).evidence.compared {
      var at: nat :| at < |found| && FirstBestCover(found, at);
      if e :| e in found && e.isMatch {
        var i :| 0 <= i < |found| && found[i] == e;
        assert Sound(e);
      }
    }
  }
}
