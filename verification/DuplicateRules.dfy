/** When two listings of one provider count as the same work, said of the stored tables alone. */
module DuplicateRules {
  import TextOrder
  import opened Sequences
  import opened ProviderDuplicates

  // ---------------------------------------------------------------- the rule

  /** One provider, and one non-empty normalised id or one non-empty canonical address. */
  ghost predicate SameListing(p: Primitives, a: Identity, b: Identity) {
    && a.source == b.source
    && (|| (p.normalizeSourceId(a.sourceId) == p.normalizeSourceId(b.sourceId) != "")
        || (p.canonicalUrl(a.url) == p.canonicalUrl(b.url) != ""))
  }

  /** No external provider is listed on both sides with different identifiers. */
  ghost predicate ExternalsAgree(c: Catalog, a: Identity, b: Identity) {
    forall k :: a.id in c.external && b.id in c.external && k in c.external[a.id] && k in c.external[b.id] ==>
      c.external[a.id][k] == c.external[b.id][k]
  }

  /** Five chapters on both sides, and nine in ten of the shorter side's shared. */
  ghost predicate ChaptersOverlap(c: Catalog, a: Identity, b: Identity) {
    && a.id in c.chapters && b.id in c.chapters
    && |c.chapters[a.id]| >= 5 && |c.chapters[b.id]| >= 5
    && (|| 10 * |c.chapters[a.id] * c.chapters[b.id]| >= 9 * |c.chapters[a.id]|
        || 10 * |c.chapters[a.id] * c.chapters[b.id]| >= 9 * |c.chapters[b.id]|)
  }

  /** The title both are known by: normalised, or as stored when nothing is left of it. */
  ghost predicate Called(p: Primitives, a: Identity, title: string) {
    if p.normalizeTitle(a.title) != "" then title == p.normalizeTitle(a.title) else title == a.storedTitle
  }

  ghost predicate SharedTitle(p: Primitives, a: Identity, b: Identity) {
    exists title :: title != "" && Called(p, a, title) && Called(p, b, title)
  }

  /** A word of the title that says something. */
  ghost predicate Telling(p: Primitives, a: Identity, word: string) {
    word in p.words(p.normalizeTitle(a.title)) && |word| >= 2 && word !in {"an", "and", "of", "the", "to"}
  }

  ghost predicate SharedWord(p: Primitives, a: Identity, b: Identity, word: string) {
    Telling(p, a, word) && Telling(p, b, word)
  }

  ghost predicate TwoSharedWords(p: Primitives, a: Identity, b: Identity) {
    exists v, w :: v != w && SharedWord(p, a, b, v) && SharedWord(p, a, b, w)
  }

  /** Some stored cover hash of one side is within eight bits of one of the other. */
  ghost predicate CloseCovers(p: Primitives, c: Catalog, a: Identity, b: Identity) {
    && a.id in c.hashes && b.id in c.hashes
    && exists x, y :: x in c.hashes[a.id] && y in c.hashes[b.id] && p.hamming(x, y) <= 8
  }

  /** What makes two listings one work. */
  ghost predicate OneWork(p: Primitives, c: Catalog, a: Identity, b: Identity) {
    || SameListing(p, a, b)
    || (&& ExternalsAgree(c, a, b) && ChaptersOverlap(c, a, b)
        && (SharedTitle(p, a, b) || (CloseCovers(p, c, a, b) && TwoSharedWords(p, a, b))))
  }

  // ---------------------------------------------------------------- distances

  lemma {:induction false} MinDistanceIsMinimum(p: Primitives, left: string, right: seq<string>)
    requires right != []
    ensures forall y :: y in right ==> MinDistance(p, left, right) <= p.hamming(left, y)
    ensures exists y :: y in right && MinDistance(p, left, right) == p.hamming(left, y)
  {
    assert right[0] in right;
    if |right| > 1 {
      MinDistanceIsMinimum(p, left, right[1..]);
      assert right == [right[0]] + right[1..];
    }
  }

  /** The distance of two hash lists is a lower bound over all pairs, and some pair attains it. */
  lemma {:induction false} SignatureDistanceIsMinimum(p: Primitives, left: seq<string>, right: seq<string>)
    ensures left == [] || right == [] ==> SignatureDistance(p, left, right) == 64
    ensures forall x, y :: x in left && y in right ==> SignatureDistance(p, left, right) <= p.hamming(x, y)
    ensures left != [] && right != [] ==>
      exists x, y :: x in left && y in right && SignatureDistance(p, left, right) == p.hamming(x, y)
  {
    if left != [] && right != [] {
      MinDistanceIsMinimum(p, left[0], right);
      assert left[0] in left;
      if |left| > 1 {
        SignatureDistanceIsMinimum(p, left[1..], right);
        assert left == [left[0]] + left[1..];
      }
    }
  }

  lemma {:induction false} CloseExactlyWhen(p: Primitives, c: Catalog, a: Identity, b: Identity)
    ensures SignatureDistance(p, HashesOf(c, a.id), HashesOf(c, b.id)) <= 8 <==> CloseCovers(p, c, a, b)
  {
    SignatureDistanceIsMinimum(p, HashesOf(c, a.id), HashesOf(c, b.id));
  }

  // ---------------------------------------------------------------- titles and chapters

  lemma {:induction false} TwoElements<T>(s: set<T>)
    ensures |s| >= 2 <==> exists v, w :: v != w && v in s && w in s
  {
    if |s| >= 2 {
      var v :| v in s;
      assert |s - {v}| == |s| - 1;
      var w :| w in s - {v};
    }
    if v, w :| v != w && v in s && w in s {
      assert {v, w} <= s;
      assert |s - {v, w}| == |s| - 2;
    }
  }

  lemma {:induction false} WordsExactlyWhen(p: Primitives, a: Identity, b: Identity)
    ensures |TitleTokens(p, a.title) * TitleTokens(p, b.title)| >= 2 <==> TwoSharedWords(p, a, b)
  {
    var shared := TitleTokens(p, a.title) * TitleTokens(p, b.title);
    forall w ensures w in shared <==> SharedWord(p, a, b, w) {
    }
    TwoElements(shared);
  }

  lemma {:induction false} Scaled(r: real, s: real, m: real)
    requires m > 0.0
    ensures r >= s <==> r * m >= s * m
  {
  }

  lemma {:induction false} TenthsOf(overlap: nat, minimum: nat)
    requires minimum > 0
    ensures overlap as real / minimum as real >= 0.9 <==> 10 * overlap >= 9 * minimum
  {
    var ratio := overlap as real / minimum as real;
    assert ratio * minimum as real == overlap as real;
    Scaled(ratio, 0.9, minimum as real);
    assert 0.9 * minimum as real == (9 * minimum) as real / 10.0;
  }

  /** The verdict of the evidence on the stored tables is the rule. */
  lemma {:induction false} EquivalentExactlyWhen(p: Primitives, c: Catalog, a: Identity, b: Identity)
    ensures FullEvidence(p, c, a, b).equivalent <==> OneWork(p, c, a, b)
  {
    CloseExactlyWhen(p, c, a, b);
    WordsExactlyWhen(p, a, b);
    OverlapExactlyWhen(p, c, a, b);
    TitlesExactlyWhen(p, c, a, b);
    ConflictsExactlyWhen(p, c, a, b);
  }

  lemma {:induction false} OverlapExactlyWhen(p: Primitives, c: Catalog, a: Identity, b: Identity)
    ensures FullEvidence(p, c, a, b).strongChapterOverlap <==> ChaptersOverlap(c, a, b)
  {
    var left, right := ChaptersOf(c, a.id), ChaptersOf(c, b.id);
    var minimum := if |left| <= |right| then |left| else |right|;
    if minimum > 0 {
      TenthsOf(|left * right|, minimum);
    }
  }

  lemma {:induction false} TitlesExactlyWhen(p: Primitives, c: Catalog, a: Identity, b: Identity)
    ensures FullEvidence(p, c, a, b).titleAgrees <==> SharedTitle(p, a, b)
    ensures FullEvidence(p, c, a, b).identityEquivalent <==> SameListing(p, a, b)
  {
    assert Called(p, a, TitleOf(p, a)) && Called(p, b, TitleOf(p, b));
  }

  lemma {:induction false} ConflictsExactlyWhen(p: Primitives, c: Catalog, a: Identity, b: Identity)
    ensures FullEvidence(p, c, a, b).conflictingExternalIds == {} <==> ExternalsAgree(c, a, b)
  {
    var conflicts := FullEvidence(p, c, a, b).conflictingExternalIds;
    forall k ensures k in conflicts <==>
      && a.id in c.external && b.id in c.external && k in c.external[a.id] && k in c.external[b.id]
      && c.external[a.id][k] != c.external[b.id][k]
    {
    }
  }

  // ---------------------------------------------------------------- reported groups

  /** Any two members of a reported clique are one work of one provider. */
  lemma {:induction false} ReportedPairsAreOneWork(p: Primitives, c: Catalog, evidence: PairEvidence,
                                                   cliques: Grouping, reported: seq<seq<Identity>>,
                                                   result: seq<DuplicateGroup>, k: nat, i: nat, j: nat)
    requires DetectionRun(p, c, evidence, cliques, reported, result)
    requires k < |reported| && i < j < |reported[k]|
    ensures reported[k][i].source == reported[k][j].source && OneWork(p, c, reported[k][i], reported[k][j])
    ensures !SameListing(p, reported[k][i], reported[k][j]) ==> ExternalsAgree(c, reported[k][i], reported[k][j])
  {
    assert Describes(p, c, reported[k], result[k]);
    assert VerdictReported(p, c, reported[k], result[k], i, j);
    EquivalentExactlyWhen(p, c, reported[k][i], reported[k][j]);
  }

  /** The pairs with evidence are exactly the pairs of one provider that are one work. */
  lemma {:induction false} EvidenceExactlyForOneWork(p: Primitives, c: Catalog, evidence: PairEvidence, a: Identity,
                                                     b: Identity)
    requires ExactEvidence(p, c, evidence) && a in c.rows && b in c.rows && a.id < b.id
    ensures (a.id, b.id) in evidence <==> a.source == b.source && OneWork(p, c, a, b)
  {
    EquivalentExactlyWhen(p, c, a, b);
  }

  /** Two listings with different identifiers at one external provider are grouped only as one listing. */
  lemma {:induction false} ConflictsKeepApart(p: Primitives, c: Catalog, evidence: PairEvidence, a: Identity,
                                              b: Identity, provider: string)
    requires ExactEvidence(p, c, evidence) && a in c.rows && b in c.rows && a.id < b.id
    requires a.id in c.external && b.id in c.external && provider in c.external[a.id] && provider in c.external[b.id]
    requires c.external[a.id][provider] != c.external[b.id][provider]
    ensures (a.id, b.id) in evidence <==> SameListing(p, a, b)
  {
    EvidenceExactlyForOneWork(p, c, evidence, a, b);
  }
}
