/** What each part of a match score means, and how the score depends on it. */
module ScoreParts {

  import opened Options
  import opened Reals
  import opened Scoring

  // ---------------------------------------------------------------- titles

  ghost predicate Attained(m: Measures, lefts: seq<string>, rights: seq<string>, value: real) {
    exists l, r :: l in lefts && r in rights && TitleSimilarity(m, l, r) == value
  }

  lemma {:induction false} BestAgainstIsHighest(m: Measures, left: string, rights: seq<string>)
    requires Proper(m)
    ensures forall r :: r in rights ==> TitleSimilarity(m, left, r) <= BestAgainst(m, left, rights)
    ensures rights != [] ==> exists r :: r in rights && TitleSimilarity(m, left, r) == BestAgainst(m, left, rights)
  {
    if rights != [] {
      var before, last := rights[..|rights| - 1], rights[|rights| - 1];
      BestAgainstIsHighest(m, left, before);
      TitleInRange(m, left, last);
      assert rights == before + [last] && last in rights;
    }
  }

  lemma {:induction false} TitleScoreBounds(m: Measures, lefts: seq<string>, rights: seq<string>, l: string, r: string)
    requires Proper(m) && l in lefts && r in rights
    ensures TitleSimilarity(m, l, r) <= TitleScore(m, lefts, rights)
  {
    var before, last := lefts[..|lefts| - 1], lefts[|lefts| - 1];
    assert lefts == before + [last];
    if l in before {
      TitleScoreBounds(m, before, rights, l, r);
    } else {
      BestAgainstIsHighest(m, last, rights);
    }
  }

  lemma {:induction false} TitleScoreAttained(m: Measures, lefts: seq<string>, rights: seq<string>)
    requires Proper(m) && lefts != [] && rights != []
    ensures Attained(m, lefts, rights, TitleScore(m, lefts, rights))
  {
    var before, last := lefts[..|lefts| - 1], lefts[|lefts| - 1];
    assert lefts == before + [last] && last in lefts;
    BestAgainstIsHighest(m, last, rights);
    BestAgainstInRange(m, last, rights);
    if before != [] && TitleScore(m, before, rights) > BestAgainst(m, last, rights) {
      TitleScoreAttained(m, before, rights);
      var l, r :| l in before && r in rights && TitleSimilarity(m, l, r) == TitleScore(m, before, rights);
      assert l in lefts && TitleScore(m, lefts, rights) == TitleSimilarity(m, l, r);
    } else {
      var r :| r in rights && TitleSimilarity(m, last, r) == BestAgainst(m, last, rights);
      assert TitleScore(m, lefts, rights) == TitleSimilarity(m, last, r);
    }
  }

  lemma {:induction false} NoTitlesNoScore(m: Measures, lefts: seq<string>)
    ensures TitleScore(m, lefts, []) == 0.0
  {
    if lefts != [] {
      NoTitlesNoScore(m, lefts[..|lefts| - 1]);
    }
  }

  /** The title score is at least the similarity of every pair of titles, and that of some pair if there is one. */
  lemma {:induction false} TitleScoreIsHighest(m: Measures, lefts: seq<string>, rights: seq<string>)
    requires Proper(m)
    ensures forall l, r :: l in lefts && r in rights ==> TitleSimilarity(m, l, r) <= TitleScore(m, lefts, rights)
    ensures if lefts == [] || rights == [] then TitleScore(m, lefts, rights) == 0.0
            else Attained(m, lefts, rights, TitleScore(m, lefts, rights))
  {
    forall l, r | l in lefts && r in rights ensures TitleSimilarity(m, l, r) <= TitleScore(m, lefts, rights) {
      TitleScoreBounds(m, lefts, rights, l, r);
    }
    if rights == [] {
      NoTitlesNoScore(m, lefts);
    } else if lefts != [] {
      TitleScoreAttained(m, lefts, rights);
    }
  }

  /** A series goes by its own title and by its aliases that are no site names. */
  lemma {:induction false} AliasTitlesExact(m: Measures, aliases: seq<Alias>, id: int, t: string)
    ensures t in AliasTitles(m, aliases, id) <==>
      exists a :: a in aliases && a.series == id && a.value == t && !m.siteName(t)
  {
    if aliases != [] {
      var before, last := aliases[..|aliases| - 1], aliases[|aliases| - 1];
      AliasTitlesExact(m, before, id, t);
      assert aliases == before + [last];
    }
  }

  ghost predicate GoesBy(c: Catalog, m: Measures, id: int, t: string) {
    || (id in c.series && c.series[id].title == t)
    || exists a :: a in c.aliases && a.series == id && a.value == t && !m.siteName(t)
  }

  lemma {:induction false} TitlesExact(c: Catalog, m: Measures, id: int, t: string)
    ensures t in TitlesOf(c, m, id) <==> GoesBy(c, m, id, t)
  {
    AliasTitlesExact(m, c.aliases, id, t);
  }

  /** Equal normalised titles are fully alike; otherwise fewer than two shared words keep them at most 0.45 alike. */
  lemma {:induction false} TitleSimilarityBands(m: Measures, left: string, right: string)
    requires Proper(m)
    ensures var a, b := m.normalise(left), m.normalise(right);
      && (a == "" || b == "" ==> TitleSimilarity(m, left, right) == 0.0)
      && (a == b != "" ==> TitleSimilarity(m, left, right) == 1.0)
      && (a != b && |m.tokens(a) * m.tokens(b)| < 2 ==> TitleSimilarity(m, left, right) <= 0.45)
      && (a != b && a != "" && b != "" && |m.tokens(a) * m.tokens(b)| >= 2 ==>
           TitleSimilarity(m, left, right)
           == 0.6 * Overlap(m.tokens(a), m.tokens(b)) + 0.4 * m.ratio(a, b))
  {
  }

  ghost predicate AlikePair(c: Catalog, m: Measures, left: int, right: int, t: string, u: string) {
    GoesBy(c, m, left, t) && GoesBy(c, m, right, u) && TitleSimilarity(m, t, u) >= 0.75
  }

  /** Titles match exactly when some title of one series is at least 0.75 like some title of the other. */
  lemma {:induction false} TitleMatchExactlyWhen(c: Catalog, m: Measures, left: int, right: int)
    requires Proper(m)
    ensures Score(c, m, left, right).titleMatch <==> exists t, u :: AlikePair(c, m, left, right, t, u)
  {
    var lefts, rights := TitlesOf(c, m, left), TitlesOf(c, m, right);
    TitleScoreIsHighest(m, lefts, rights);
    if t, u :| AlikePair(c, m, left, right, t, u) {
      TitlesExact(c, m, left, t);
      TitlesExact(c, m, right, u);
    }
    if Score(c, m, left, right).titleMatch {
      assert Attained(m, lefts, rights, TitleScore(m, lefts, rights));
      var t, u :| t in lefts && u in rights && TitleSimilarity(m, t, u) == TitleScore(m, lefts, rights);
      TitlesExact(c, m, left, t);
      TitlesExact(c, m, right, u);
      assert AlikePair(c, m, left, right, t, u);
    }
  }

  /** Two series that share a normalised title or alias match by title, with the full title score. */
  lemma {:induction false} SharedTitleMatches(c: Catalog, m: Measures, left: int, right: int, t: string, u: string)
    requires Proper(m) && GoesBy(c, m, left, t) && GoesBy(c, m, right, u)
    requires m.normalise(t) == m.normalise(u) != ""
    ensures Score(c, m, left, right).titleMatch && Score(c, m, left, right).title == 1.0
  {
    var lefts, rights := TitlesOf(c, m, left), TitlesOf(c, m, right);
    TitlesExact(c, m, left, t);
    TitlesExact(c, m, right, u);
    TitleScoreIsHighest(m, lefts, rights);
    TitleScoreInRange(m, lefts, rights);
    assert TitleSimilarity(m, t, u) == 1.0;
    assert TitleScore(m, lefts, rights) == 1.0;
    Round6One();
  }

  lemma {:induction false} Round6One()
    ensures Round6(1.0) == 1.0
  {
    Round6Fixed(1000000);
  }

  // ---------------------------------------------------------------- chapters and identifiers

  /** Chapter overlap is symmetric, whole for equal lists and nothing exactly for disjoint ones. */
  lemma {:induction false} OverlapEnds(left: set<string>, right: set<string>)
    ensures Overlap(left, right) == Overlap(right, left)
    ensures Overlap(left, right) == 0.0 <==> left * right == {}
    ensures left + right != {} ==> (Overlap(left, right) == 1.0 <==> left == right)
  {
    assert left * right == right * left && left + right == right + left;
    var part, whole := left * right, left + right;
    assert whole == part + (whole - part);
    if whole != {} && |part| == |whole| {
      assert whole - part == {};
      assert left == right;
    }
  }

  /** An external identifier is shared exactly when both series have a row with its provider and value. */
  lemma {:induction false} SharedExactly(c: Catalog, left: int, right: int, key: string)
    ensures key in SharedIds(c, left, right) <==>
      && (exists e :: e in c.externals && e.series == left && e.provider + ":" + e.value == key)
      && (exists e :: e in c.externals && e.series == right && e.provider + ":" + e.value == key)
  {
  }

  ghost function Distance(left: real, right: real): real { if left <= right then right - left else left - right }

  /** Latest chapters within two agree fully; up to six apart the agreement falls by a quarter a chapter. */
  lemma {:induction false} LatestAgreement(left: real, right: real)
    ensures var latest, delta := LatestValues(Some(left), Some(right)), Distance(left, right);
      && latest.compared && (latest.isMatch <==> delta <= 2.0)
      && (delta <= 2.0 ==> latest.similarity == 1.0) && (delta >= 6.0 ==> latest.similarity == 0.0)
      && (2.0 < delta < 6.0 ==>
           1.5 - delta / 4.0 - 0.000001 <= latest.similarity <= 1.5 - delta / 4.0 + 0.000001)
  {
    Round6Fixed(1000000);
    Round6Fixed(0);
    Round6Close(1.0 - (Distance(left, right) - 2.0) / 4.0);
  }

  lemma {:induction false} Round6Close(x: real)
    ensures x - 0.000001 <= Round6(x) <= x + 0.000001
  {
  }

  lemma {:induction false} LatestMissing(left: Option<real>, right: Option<real>)
    requires left.None? || right.None?
    ensures !LatestValues(left, right).compared && LatestValues(left, right).similarity == 0.0
  {
  }

  // ---------------------------------------------------------------- covers

  /** At least `n` inliers, at least `percent` of the good matches, and hashes within `distance`. */
  ghost predicate Agreeing(m: Measures, left: int, right: int, n: nat, percent: nat, distance: nat) {
    && m.geometry(left, right).Matches? && m.geometry(left, right).inliers >= n
    && 100 * m.geometry(left, right).inliers >= percent * m.geometry(left, right).good
    && m.hashDistance(left, right) <= distance
  }

  ghost predicate MatchingPair(m: Measures, left: int, right: int) {
    Agreeing(m, left, right, 12, 65, 18) || Agreeing(m, left, right, 4, 60, 4)
  }

  /** The outcome of a comparison in counts: a match, a likely match, and a difference. */
  lemma {:induction false} MatchExactlyWhen(m: Measures, left: int, right: int)
    requires Proper(m)
    ensures var e := CompareSignatures(m, left, right);
      && (e.compared <==> m.geometry(left, right).Matches?) && e.distance == m.hashDistance(left, right)
      && (e.isMatch <==> MatchingPair(m, left, right)) && (e.isMatch <==> e.state == MatchingCover)
      && (e.state == LikelyCover <==>
           && !MatchingPair(m, left, right)
           && (Agreeing(m, left, right, 8, 50, 22) || Agreeing(m, left, right, 4, 50, 10)))
      && (e.state == DifferentCover <==>
           m.geometry(left, right).Matches? && m.geometry(left, right).inliers < 4 && m.hashDistance(left, right) >= 28)
  {
    var g := m.geometry(left, right);
    assert Consistent(g);
    if g.Matches? {
      var whole := if g.good == 0 then 1 else g.good;
      ShareOf(g.inliers, whole, 65);
      ShareOf(g.inliers, whole, 60);
      ShareOf(g.inliers, whole, 50);
    }
  }

  lemma {:induction false} Scaled(r: real, s: real, m: real)
    requires m > 0.0
    ensures r >= s <==> r * m >= s * m
  {
  }

  lemma {:induction false} ShareOf(part: nat, whole: nat, percent: nat)
    requires whole > 0
    ensures part as real / whole as real >= percent as real / 100.0 <==> 100 * part >= percent * whole
  {
    var ratio := part as real / whole as real;
    assert ratio * whole as real == part as real;
    Scaled(ratio, percent as real / 100.0, whole as real);
    assert (percent as real / 100.0) * whole as real == (percent * whole) as real / 100.0;
  }

  /** The similarity of a comparison by its state. */
  lemma {:induction false} CoverBands(m: Measures, left: int, right: int)
    requires Proper(m)
    ensures var e := CompareSignatures(m, left, right); var similarity := CoverSimilarity(e);
      match e.state
      case MatchingCover => 0.98 <= similarity <= 1.0 && similarity >= e.inlierRatio
      case LikelyCover => 0.7 <= similarity <= 0.89
      case DifferentCover => similarity <= 0.15 && e.distance >= 28
      case InconclusiveCover => similarity <= 0.6
      case InvalidCover => similarity == 0.0 && m.geometry(left, right) == Unusable
      case UnavailableCover => false
  {
    ComparisonIsSound(m, left, right);
  }

  // ---------------------------------------------------------------- the combination

  /** With nothing alike the score is zero, and without a cover match each part counts by its weight alone. */
  lemma {:induction false} CombinedWeights(title: real, cover: real, description: real, overlap: real, latest: Latest,
                                           evidence: CoverEvidence, d: real)
    requires !evidence.isMatch
    ensures CombinedScore(0.0, 0.0, 0.0, 0.0, latest.(similarity := 0.0), evidence) == 0.0
    ensures var score := CombinedScore(title, cover, description, overlap, latest, evidence);
      && CombinedScore(title + d, cover, description, overlap, latest, evidence) == score + d / 5.0
      && CombinedScore(title, cover + d, description, overlap, latest, evidence) == score + d * 11.0 / 20.0
      && CombinedScore(title, cover, description + d, overlap, latest, evidence) == score + d * 2.0 / 25.0
      && CombinedScore(title, cover, description, overlap + d, latest, evidence) == score + d / 20.0
      && CombinedScore(title, cover, description, overlap, latest.(similarity := latest.similarity + d), evidence)
         == score + d * 3.0 / 25.0
  {
  }

  /** A cover match never lowers the score and lifts it to 0.86, or to 0.90 when something else agrees. */
  lemma {:induction false} CombinedFloor(title: real, cover: real, description: real, overlap: real, latest: Latest,
                                         evidence: CoverEvidence)
    requires evidence.isMatch
    ensures var score := CombinedScore(title, cover, description, overlap, latest, evidence);
      var plain := CombinedScore(title, cover, description, overlap, latest, evidence.(isMatch := false));
      var floor := if latest.similarity == 1.0 || title >= 0.75 || description >= 0.75 then 0.90 else 0.86;
      score >= plain && score >= floor && (score == plain || score == floor)
  {
  }

  /** Without a shared identifier or a matching cover the reported parts explain the score. */
  lemma {:induction false} ReportedPartsAddUp(c: Catalog, m: Measures, left: int, right: int)
    requires SharedIds(c, left, right) == {} && !Score(c, m, left, right).evidence.isMatch
    ensures var r := Score(c, m, left, right);
      var sum := (20.0 * r.title + 55.0 * r.cover + 8.0 * r.description + 5.0 * r.overlap
                  + 12.0 * r.latest.similarity) / 100.0;
      (if sum <= 0.98 then sum else 0.98) - 0.000002 <= r.score <= (if sum <= 0.98 then sum else 0.98) + 0.000002
  {
    var chosen := Choose(CoversOf(c, m, left, right));
    var title := TitleScore(m, TitlesOf(c, m, left), TitlesOf(c, m, right));
    var description := TextSimilarity(m, DescriptionOf(c, left), DescriptionOf(c, right));
    var overlap := Overlap(NumbersIn(c.chapters, left), NumbersIn(c.chapters, right));
    var latest := LatestValues(LatestIn(c.chapters, left), LatestIn(c.chapters, right));
    Round6Close(title);
    Round6Close(chosen.cover);
    Round6Close(description);
    Round6Close(overlap);
    Round6Close(Min(CombinedScore(title, chosen.cover, description, overlap, latest, chosen.evidence), 0.98));
  }

  /** The reported description and chapter overlap are those of the two series. */
  lemma {:induction false} ReportedTexts(c: Catalog, m: Measures, left: int, right: int)
    requires left in c.series && right in c.series
    ensures var r, a, b := Score(c, m, left, right), m.fold(c.series[left].description),
                           m.fold(c.series[right].description);
      && (a == "" || b == "" ==> r.description == 0.0)
      && (a != "" && b != "" ==> r.description == Round6(m.ratio(a, b)))
      && (NumbersIn(c.chapters, left) * NumbersIn(c.chapters, right) == {} ==> r.overlap == 0.0)
  {
    Round6Fixed(0);
    OverlapEnds(NumbersIn(c.chapters, left), NumbersIn(c.chapters, right));
  }
}
