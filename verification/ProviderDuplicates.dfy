/**
 Same-provider duplicate detection: a bucketed candidate index, the evidence rule it prunes for,
 and greedy cliques of mutually equivalent identities.

 Text normalisation and hash distance are parameters, so every result holds for any normaliser.
 */
module ProviderDuplicates {
  import SeriesClusters
  import TextOrder
  import opened Sequences

  const MINIMUM_STRONG_CHAPTERS := 5
  const MINIMUM_CHAPTER_OVERLAP_RATIO := 0.9
  const MAXIMUM_EQUIVALENT_COVER_HASH_DISTANCE := 8
  const MINIMUM_SHARED_TITLE_TOKENS := 2
  const NO_COVER_DISTANCE := 64
  const TITLE_TOKEN_STOP_WORDS := {"a", "an", "and", "of", "the", "to"}

  datatype Identity = Identity(id: nat, seriesId: nat, source: string, sourceId: string,
                               url: string, title: string, storedTitle: string)

  /** The text and hash primitives the detector is built on. */
  datatype Primitives = Primitives(
    normalizeTitle: string -> string,
    words: string -> seq<string>,
    normalizeSourceId: string -> string,
    canonicalUrl: string -> string,
    hamming: (string, string) -> nat)

  /** What the queries return: identities by ascending id, and per-identity side tables. */
  datatype Catalog = Catalog(rows: seq<Identity>,
                             chapters: map<nat, set<string>>,
                             external: map<nat, map<string, string>>,
                             hashes: map<nat, seq<string>>)

  ghost predicate AscendingIds(rows: seq<Identity>) {
    forall i, j :: 0 <= i < j < |rows| ==> rows[i].id < rows[j].id
  }

  function ChaptersOf(c: Catalog, id: nat): set<string> {
    if id in c.chapters then c.chapters[id] else {}
  }

  function ExternalOf(c: Catalog, id: nat): map<string, string> {
    if id in c.external then c.external[id] else map[]
  }

  function HashesOf(c: Catalog, id: nat): seq<string> {
    if id in c.hashes then c.hashes[id] else []
  }

  function MinDistance(p: Primitives, left: string, right: seq<string>): nat {
    if right == [] then NO_COVER_DISTANCE
    else if |right| == 1 || p.hamming(left, right[0]) <= MinDistance(p, left, right[1..])
      then p.hamming(left, right[0])
    else MinDistance(p, left, right[1..])
  }

  /** Smallest pairwise hash distance, 64 when either side has no hash. */
  function SignatureDistance(p: Primitives, left: seq<string>, right: seq<string>): nat {
    if left == [] || right == [] then NO_COVER_DISTANCE
    else
      var first := MinDistance(p, left[0], right);
      if |left| == 1 then first
      else
        var rest := SignatureDistance(p, left[1..], right);
        if first <= rest then first else rest
  }

  function TitleOf(p: Primitives, row: Identity): string {
    var normalized := p.normalizeTitle(row.title);
    if normalized != "" then normalized else row.storedTitle
  }

  function TitleTokens(p: Primitives, title: string): set<string> {
    set t | t in p.words(p.normalizeTitle(title)) && |t| > 1 && t !in TITLE_TOKEN_STOP_WORDS
  }

  predicate IdentitiesEquivalent(p: Primitives, left: Identity, right: Identity) {
    && left.source == right.source
    && var leftId, rightId := p.normalizeSourceId(left.sourceId), p.normalizeSourceId(right.sourceId);
       var leftUrl, rightUrl := p.canonicalUrl(left.url), p.canonicalUrl(right.url);
       (leftId != "" && leftId == rightId) || (leftUrl != "" && leftUrl == rightUrl)
  }

  datatype Evidence = Evidence(equivalent: bool,
                               identityEquivalent: bool,
                               titleAgrees: bool,
                               sharedTitleTokens: set<string>,
                               chapterOverlap: nat,
                               comparedChapters: nat,
                               strongChapterOverlap: bool,
                               coverHashDistance: nat,
                               strongCoverSimilarity: bool,
                               conflictingExternalIds: set<string>)

  /** Classifies two same-provider identities without trusting their title alone. */
  function DuplicateEvidence(p: Primitives, left: Identity, right: Identity,
                             leftChapters: set<string>, rightChapters: set<string>,
                             leftExternal: map<string, string>, rightExternal: map<string, string>,
                             coverDistance: nat): Evidence
  {
    var overlap := |leftChapters * rightChapters|;
    var minimum := if |leftChapters| <= |rightChapters| then |leftChapters| else |rightChapters|;
    var ratio := if minimum == 0 then 0.0 else overlap as real / minimum as real;
    var conflicts := set k | k in leftExternal && k in rightExternal && leftExternal[k] != rightExternal[k];
    var identityEquivalent := IdentitiesEquivalent(p, left, right);
    var titleAgrees := TitleOf(p, left) != "" && TitleOf(p, left) == TitleOf(p, right);
    var shared := TitleTokens(p, left.title) * TitleTokens(p, right.title);
    var strongOverlap := minimum >= MINIMUM_STRONG_CHAPTERS && ratio >= MINIMUM_CHAPTER_OVERLAP_RATIO;
    var strongCover := coverDistance <= MAXIMUM_EQUIVALENT_COVER_HASH_DISTANCE;
    Evidence(
      identityEquivalent
        || (titleAgrees && strongOverlap && conflicts == {})
        || (strongCover && |shared| >= MINIMUM_SHARED_TITLE_TOKENS && strongOverlap && conflicts == {}),
      identityEquivalent, titleAgrees, shared, overlap, minimum, strongOverlap, coverDistance,
      strongCover, conflicts)
  }

  /** The exhaustive verdict on a pair: the evidence computed from all stored data. */
  function FullEvidence(p: Primitives, c: Catalog, left: Identity, right: Identity): Evidence {
    DuplicateEvidence(p, left, right, ChaptersOf(c, left.id), ChaptersOf(c, right.id),
                      ExternalOf(c, left.id), ExternalOf(c, right.id),
                      SignatureDistance(p, HashesOf(c, left.id), HashesOf(c, right.id)))
  }

  // ---------------------------------------------------------------- candidate index

  datatype IndexKind = ByTitle | ByIdentity | ByTokenPair

  datatype BucketKey =
    | TitleKey(source: string, title: string)
    | SourceIdKey(source: string, value: string)
    | UrlKey(source: string, value: string)
    | TokenPairKey(source: string, first: string, second: string)

  /** The buckets one identity is filed under by one of the three indexes. */
  function KeysOf(p: Primitives, kind: IndexKind, row: Identity): set<BucketKey> {
    match kind
    case ByTitle =>
      if TitleOf(p, row) != "" then {TitleKey(row.source, TitleOf(p, row))} else {}
    case ByIdentity =>
      var id, url := p.normalizeSourceId(row.sourceId), p.canonicalUrl(row.url);
      (if id != "" then {SourceIdKey(row.source, id)} else {})
      + (if url != "" then {UrlKey(row.source, url)} else {})
    case ByTokenPair =>
      var tokens := TitleTokens(p, row.title);
      set a, b | a in tokens && b in tokens && TextOrder.Less(a, b) :: TokenPairKey(row.source, a, b)
  }

  type Buckets = map<BucketKey, seq<Identity>>

  ghost function FileUnder(buckets: Buckets, row: Identity, keys: set<BucketKey>): Buckets {
    map k | k in buckets.Keys + keys ::
      (if k in buckets then buckets[k] else []) + (if k in keys then [row] else [])
  }

  lemma {:induction false} FileNothing(buckets: Buckets, row: Identity)
    ensures FileUnder(buckets, row, {}) == buckets
  {
    assert forall k :: k in buckets ==> buckets[k] + [] == buckets[k];
  }

  lemma {:induction false} FileOneKey(buckets: Buckets, row: Identity, keys: set<BucketKey>, key: BucketKey)
    requires key !in keys
    ensures var filed := FileUnder(buckets, row, keys);
      filed[key := (if key in filed then filed[key] else []) + [row]] == FileUnder(buckets, row, keys + {key})
  {
    var filed, after := FileUnder(buckets, row, keys), FileUnder(buckets, row, keys + {key});
    assert key in buckets ==> filed[key] == buckets[key];
    assert after.Keys == filed.Keys + {key};
  }

  method FileRow(buckets: Buckets, row: Identity, keys: set<BucketKey>) returns (filed: Buckets)
    ensures filed == FileUnder(buckets, row, keys)
  {
    filed := buckets;
    var todo := keys;
    ghost var done: set<BucketKey> := {};
    FileNothing(buckets, row);
    while todo != {}
      invariant done + todo == keys && done !! todo
      invariant filed == FileUnder(buckets, row, done)
      decreases todo
    {
      var key :| key in todo;
      FileOneKey(buckets, row, done, key);
      var bucket := if key in filed then filed[key] else [];
      filed := filed[key := bucket + [row]];
      todo, done := todo - {key}, done + {key};
    }
    assert done == keys;
  }

  /** A bucket holds exactly the filed identities that carry its key, in id order. */
  ghost predicate BucketOk(p: Primitives, kind: IndexKind, rows: seq<Identity>, key: BucketKey, bucket: seq<Identity>) {
    && AscendingIds(bucket)
    && forall r :: r in bucket <==> r in rows && key in KeysOf(p, kind, r)
  }

  ghost predicate Indexed(p: Primitives, kind: IndexKind, rows: seq<Identity>, buckets: Buckets) {
    && (forall key :: key in buckets ==> BucketOk(p, kind, rows, key, buckets[key]))
    && (forall r, key :: r in rows && key in KeysOf(p, kind, r) ==> key in buckets)
  }

  lemma {:induction false} FilingKeepsIndex(p: Primitives, kind: IndexKind, rows: seq<Identity>, row: Identity,
                                            buckets: Buckets)
    requires AscendingIds(rows + [row]) && Indexed(p, kind, rows, buckets)
    ensures Indexed(p, kind, rows + [row], FileUnder(buckets, row, KeysOf(p, kind, row)))
  {
    var filed := FileUnder(buckets, row, KeysOf(p, kind, row));
    forall key | key in filed ensures BucketOk(p, kind, rows + [row], key, filed[key]) {
      var before := if key in buckets then buckets[key] else [];
      assert forall r :: r in before <==> r in rows && key in KeysOf(p, kind, r);
      forall i | 0 <= i < |before| ensures before[i].id < row.id {
        assert before[i] in rows;
        var k :| 0 <= k < |rows| && rows[k] == before[i];
        assert (rows + [row])[k].id < (rows + [row])[|rows|].id;
      }
    }
  }

  method BuildIndex(p: Primitives, kind: IndexKind, rows: seq<Identity>) returns (buckets: Buckets)
    requires AscendingIds(rows)
    ensures Indexed(p, kind, rows, buckets)
  {
    buckets := map[];
    for k := 0 to |rows|
      invariant Indexed(p, kind, rows[..k], buckets)
    {
      FilingKeepsIndex(p, kind, rows[..k], rows[k], buckets) by {
        assert rows[..k] + [rows[k]] == rows[..k + 1];
      }
      assert rows[..k] + [rows[k]] == rows[..k + 1];
      buckets := FileRow(buckets, rows[k], KeysOf(p, kind, rows[k]));
    }
    assert rows[..|rows|] == rows;
  }

  /** Every unordered pair of bucket members, smaller id first. */
  ghost function PairsIn(bucket: seq<Identity>): set<(nat, nat)> {
    set i, j | 0 <= i < j < |bucket| :: (bucket[i].id, bucket[j].id)
  }

  method Combinations(bucket: seq<Identity>) returns (pairs: set<(nat, nat)>)
    requires AscendingIds(bucket)
    ensures pairs == PairsIn(bucket)
  {
    pairs := {};
    for i := 0 to |bucket|
      invariant pairs == set a, b | 0 <= a < i && a < b < |bucket| :: (bucket[a].id, bucket[b].id)
    {
      ghost var done := pairs;
      for j := i + 1 to |bucket|
        invariant pairs == done + set b | i < b < j :: (bucket[i].id, bucket[b].id)
      {
        pairs := pairs + {(bucket[i].id, bucket[j].id)};
      }
    }
  }

  /** Both identities are filed in one bucket of the given index. */
  ghost predicate SharesBucket(p: Primitives, kind: IndexKind, a: Identity, b: Identity) {
    exists key :: key in KeysOf(p, kind, a) && key in KeysOf(p, kind, b)
  }

  /** Token-pair buckets only propose pairs whose covers are close; the other indexes all pairs. */
  predicate Admits(p: Primitives, c: Catalog, kind: IndexKind, i: nat, j: nat) {
    kind.ByTokenPair? ==>
      SignatureDistance(p, HashesOf(c, i), HashesOf(c, j)) <= MAXIMUM_EQUIVALENT_COVER_HASH_DISTANCE
  }

  ghost predicate Proposed(p: Primitives, c: Catalog, kind: IndexKind, i: nat, j: nat) {
    exists a, b :: a in c.rows && b in c.rows && a.id == i && b.id == j && i < j
      && SharesBucket(p, kind, a, b) && Admits(p, c, kind, i, j)
  }

  /** The pair is proposed through one particular bucket. */
  ghost predicate ProposedBy(p: Primitives, c: Catalog, kind: IndexKind, buckets: Buckets, key: BucketKey, i: nat,
                             j: nat) {
    key in buckets && (i, j) in PairsIn(buckets[key]) && Admits(p, c, kind, i, j)
  }

  lemma {:induction false} BucketPairProposed(p: Primitives, c: Catalog, kind: IndexKind, key: BucketKey,
                                              bucket: seq<Identity>, i: nat, j: nat)
    requires BucketOk(p, kind, c.rows, key, bucket) && (i, j) in PairsIn(bucket) && Admits(p, c, kind, i, j)
    ensures Proposed(p, c, kind, i, j)
  {
    var x, y :| 0 <= x < y < |bucket| && bucket[x].id == i && bucket[y].id == j;
    assert bucket[x] in bucket && bucket[y] in bucket;
    assert SharesBucket(p, kind, bucket[x], bucket[y]);
  }

  lemma {:induction false} ProposedInBucket(p: Primitives, c: Catalog, kind: IndexKind, buckets: Buckets, i: nat,
                                            j: nat)
    returns (key: BucketKey)
    requires Indexed(p, kind, c.rows, buckets) && Proposed(p, c, kind, i, j)
    ensures ProposedBy(p, c, kind, buckets, key, i, j)
  {
    var a, b :| a in c.rows && b in c.rows && a.id == i && b.id == j && i < j
      && SharesBucket(p, kind, a, b) && Admits(p, c, kind, i, j);
    key :| key in KeysOf(p, kind, a) && key in KeysOf(p, kind, b);
    assert BucketOk(p, kind, c.rows, key, buckets[key]);
    PairInBucket(buckets[key], a, b);
  }

  lemma {:induction false} PairInBucket(bucket: seq<Identity>, a: Identity, b: Identity)
    requires AscendingIds(bucket) && a in bucket && b in bucket && a.id < b.id
    ensures (a.id, b.id) in PairsIn(bucket)
  {
    var x :| 0 <= x < |bucket| && bucket[x] == a;
    var y :| 0 <= y < |bucket| && bucket[y] == b;
    assert (bucket[x].id, bucket[y].id) in PairsIn(bucket);
  }

  lemma {:induction false} BucketsPropose(p: Primitives, c: Catalog, kind: IndexKind, buckets: Buckets, i: nat, j: nat)
    requires Indexed(p, kind, c.rows, buckets)
    ensures Proposed(p, c, kind, i, j) <==> exists key :: ProposedBy(p, c, kind, buckets, key, i, j)
  {
    if key :| ProposedBy(p, c, kind, buckets, key, i, j) {
      BucketPairProposed(p, c, kind, key, buckets[key], i, j);
    }
    if Proposed(p, c, kind, i, j) {
      var key := ProposedInBucket(p, c, kind, buckets, i, j);
    }
  }

  /** All pairs one index proposes. */
  method CollectPairs(p: Primitives, c: Catalog, kind: IndexKind) returns (pairs: set<(nat, nat)>)
    requires AscendingIds(c.rows)
    ensures forall i: nat, j: nat :: (i, j) in pairs <==> Proposed(p, c, kind, i, j)
  {
    var buckets := BuildIndex(p, kind, c.rows);
    pairs := {};
    var todo := buckets.Keys;
    while todo != {}
      invariant todo <= buckets.Keys
      invariant forall i: nat, j: nat :: (i, j) in pairs <==>
        exists key :: key !in todo && ProposedBy(p, c, kind, buckets, key, i, j)
      decreases |todo|
    {
      var key :| key in todo;
      assert BucketOk(p, kind, c.rows, key, buckets[key]);
      var combos := Combinations(buckets[key]);
      ghost var before := pairs;
      pairs := pairs + set q | q in combos && Admits(p, c, kind, q.0, q.1);
      ProposedByOneMore(p, c, kind, buckets, key, todo, before, pairs);
      todo := todo - {key};
    }
    forall i: nat, j: nat ensures (i, j) in pairs <==> Proposed(p, c, kind, i, j) {
      BucketsPropose(p, c, kind, buckets, i, j);
    }
  }

  lemma {:induction false} ProposedByOneMore(p: Primitives, c: Catalog, kind: IndexKind, buckets: Buckets,
                                             key: BucketKey, todo: set<BucketKey>, before: set<(nat, nat)>,
                                             after: set<(nat, nat)>)
    requires key in todo && key in buckets
    requires forall i: nat, j: nat :: (i, j) in before <==>
      exists k :: k !in todo && ProposedBy(p, c, kind, buckets, k, i, j)
    requires after == before + set q | q in PairsIn(buckets[key]) && Admits(p, c, kind, q.0, q.1)
    ensures forall i: nat, j: nat :: (i, j) in after <==>
      exists k :: k !in todo - {key} && ProposedBy(p, c, kind, buckets, k, i, j)
  {
    forall i: nat, j: nat
      ensures (i, j) in after <==> exists k :: k !in todo - {key} && ProposedBy(p, c, kind, buckets, k, i, j)
    {
      if (i, j) in after && (i, j) !in before {
        assert ProposedBy(p, c, kind, buckets, key, i, j);
      }
      if k :| k !in todo - {key} && ProposedBy(p, c, kind, buckets, k, i, j) {
        if k == key {
          assert (i, j) in PairsIn(buckets[key]) && Admits(p, c, kind, i, j);
        } else {
          assert k !in todo;
        }
      }
    }
  }

  ghost predicate Candidate(p: Primitives, c: Catalog, i: nat, j: nat) {
    || Proposed(p, c, ByTitle, i, j)
    || Proposed(p, c, ByIdentity, i, j)
    || Proposed(p, c, ByTokenPair, i, j)
  }

  lemma {:induction false} TwoTokensShareBucket(p: Primitives, a: Identity, b: Identity)
    requires a.source == b.source
    requires |TitleTokens(p, a.title) * TitleTokens(p, b.title)| >= 2
    ensures SharesBucket(p, ByTokenPair, a, b)
  {
    var shared := TitleTokens(p, a.title) * TitleTokens(p, b.title);
    var x :| x in shared;
    assert |shared - {x}| == |shared| - 1;
    var y :| y in shared - {x};
    TextOrder.Total(x, y);
    var first, second := if TextOrder.Less(x, y) then x else y, if TextOrder.Less(x, y) then y else x;
    var key := TokenPairKey(a.source, first, second);
    assert key in KeysOf(p, ByTokenPair, a) && key in KeysOf(p, ByTokenPair, b);
  }

  /** The index is complete: no equivalent same-provider pair escapes it. */
  lemma {:induction false} EquivalentPairsAreCandidates(p: Primitives, c: Catalog, a: Identity, b: Identity)
    requires a in c.rows && b in c.rows && a.id < b.id && a.source == b.source
    requires FullEvidence(p, c, a, b).equivalent
    ensures Candidate(p, c, a.id, b.id)
  {
    var e := FullEvidence(p, c, a, b);
    if e.identityEquivalent {
      var id, url := p.normalizeSourceId(a.sourceId), p.canonicalUrl(a.url);
      var key := if id != "" && id == p.normalizeSourceId(b.sourceId)
        then SourceIdKey(a.source, id) else UrlKey(a.source, url);
      assert key in KeysOf(p, ByIdentity, a) && key in KeysOf(p, ByIdentity, b);
      assert SharesBucket(p, ByIdentity, a, b);
      assert Proposed(p, c, ByIdentity, a.id, b.id);
    } else if e.titleAgrees {
      var key := TitleKey(a.source, TitleOf(p, a));
      assert key in KeysOf(p, ByTitle, a) && key in KeysOf(p, ByTitle, b);
      assert SharesBucket(p, ByTitle, a, b);
      assert Proposed(p, c, ByTitle, a.id, b.id);
    } else {
      TwoTokensShareBucket(p, a, b);
      assert Proposed(p, c, ByTokenPair, a.id, b.id);
    }
  }

  method CandidatePairs(p: Primitives, c: Catalog) returns (pairs: set<(nat, nat)>)
    requires AscendingIds(c.rows)
    ensures forall i: nat, j: nat :: (i, j) in pairs <==> Candidate(p, c, i, j)
  {
    var titles := CollectPairs(p, c, ByTitle);
    var identities := CollectPairs(p, c, ByIdentity);
    var tokens := CollectPairs(p, c, ByTokenPair);
    pairs := titles + identities + tokens;
  }

  // ---------------------------------------------------------------- pair evidence

  type PairEvidence = map<(nat, nat), Evidence>

  predicate SameSourceEquivalent(p: Primitives, c: Catalog, a: Identity, b: Identity) {
    a.source == b.source && FullEvidence(p, c, a, b).equivalent
  }

  /** `byId` finds every row by its id, and nothing else. */
  ghost predicate ById(rows: seq<Identity>, byId: map<nat, Identity>) {
    && (forall r :: r in rows ==> r.id in byId && byId[r.id] == r)
    && (forall i :: i in byId ==> byId[i].id == i && byId[i] in rows)
  }

  method IndexById(rows: seq<Identity>) returns (byId: map<nat, Identity>)
    requires AscendingIds(rows)
    ensures ById(rows, byId)
  {
    byId := map[];
    for k := 0 to |rows|
      invariant ById(rows[..k], byId)
    {
      assert rows[..k + 1] == rows[..k] + [rows[k]];
      byId := byId[rows[k].id := rows[k]];
    }
    assert rows[..|rows|] == rows;
  }

  /** The verdicts for a set of proposed pairs, judged on all stored data. */
  ghost function EvidenceTable(p: Primitives, c: Catalog, byId: map<nat, Identity>,
                               pairs: set<(nat, nat)>): PairEvidence
    requires forall q :: q in pairs ==> q.0 in byId && q.1 in byId
  {
    map q | q in pairs && SameSourceEquivalent(p, c, byId[q.0], byId[q.1]) :: FullEvidence(p, c, byId[q.0], byId[q.1])
  }

  /** Chapters are read only for identities that occur in some candidate pair. */
  function LoadChapters(c: Catalog, candidates: set<nat>): Catalog {
    c.(chapters := map i | i in c.chapters && i in candidates :: c.chapters[i])
  }

  /** Exactly the equivalent same-provider pairs, with the exhaustive verdict attached. */
  ghost predicate ExactEvidence(p: Primitives, c: Catalog, evidence: PairEvidence) {
    && (forall a, b :: a in c.rows && b in c.rows && a.id < b.id ==>
         ((a.id, b.id) in evidence <==> SameSourceEquivalent(p, c, a, b)))
    && (forall a, b :: a in c.rows && b in c.rows && (a.id, b.id) in evidence ==>
         evidence[(a.id, b.id)] == FullEvidence(p, c, a, b))
    && (forall i: nat, j: nat :: (i, j) in evidence ==>
         i < j && exists a, b :: a in c.rows && b in c.rows && a.id == i && b.id == j)
  }

  lemma {:induction false} LoadedIsEnough(p: Primitives, c: Catalog, candidates: set<nat>, left: Identity,
                                          right: Identity)
    requires left.id in candidates && right.id in candidates
    ensures FullEvidence(p, LoadChapters(c, candidates), left, right) == FullEvidence(p, c, left, right)
  {
  }

  lemma {:induction false} JudgeOneMore(p: Primitives, c: Catalog, byId: map<nat, Identity>, done: set<(nat, nat)>,
                                        q: (nat, nat))
    requires forall r :: r in done ==> r.0 in byId && r.1 in byId
    requires q !in done && q.0 in byId && q.1 in byId
    ensures EvidenceTable(p, c, byId, done + {q})
         == if SameSourceEquivalent(p, c, byId[q.0], byId[q.1])
            then EvidenceTable(p, c, byId, done)[q := FullEvidence(p, c, byId[q.0], byId[q.1])]
            else EvidenceTable(p, c, byId, done)
  {
  }

  /** The verdict on one candidate pair, from the chapters loaded for candidates. */
  method JudgePair(p: Primitives, c: Catalog, candidates: set<nat>, left: Identity, right: Identity)
    returns (equivalent: bool, verdict: Evidence)
    requires left.id in candidates && right.id in candidates
    ensures equivalent == SameSourceEquivalent(p, c, left, right)
    ensures equivalent ==> verdict == FullEvidence(p, c, left, right)
  {
    LoadedIsEnough(p, c, candidates, left, right);
    verdict := FullEvidence(p, LoadChapters(c, candidates), left, right);
    equivalent := left.source == right.source && verdict.equivalent;
  }

  method JudgePairs(p: Primitives, c: Catalog, byId: map<nat, Identity>, pairs: set<(nat, nat)>)
    returns (evidence: PairEvidence)
    requires forall q :: q in pairs ==> q.0 in byId && q.1 in byId
    requires forall i :: i in byId ==> byId[i].id == i
    ensures evidence == EvidenceTable(p, c, byId, pairs)
  {
    var candidates := (set q | q in pairs :: q.0) + (set q | q in pairs :: q.1);
    evidence := map[];
    var todo := pairs;
    ghost var done: set<(nat, nat)> := {};
    while todo != {}
      invariant done + todo == pairs && done !! todo
      invariant evidence == EvidenceTable(p, c, byId, done)
      decreases todo
    {
      var q :| q in todo;
      JudgeOneMore(p, c, byId, done, q);
      var equivalent, verdict := JudgePair(p, c, candidates, byId[q.0], byId[q.1]);
      if equivalent {
        evidence := evidence[q := verdict];
      }
      todo, done := todo - {q}, done + {q};
    }
    assert done == pairs;
  }

  lemma {:induction false} CandidateVerdictsAreExact(p: Primitives, c: Catalog, byId: map<nat, Identity>,
                                                     pairs: set<(nat, nat)>)
    requires ById(c.rows, byId)
    requires forall i: nat, j: nat :: (i, j) in pairs <==> Candidate(p, c, i, j)
    requires forall q :: q in pairs ==> q.0 in byId && q.1 in byId
    ensures ExactEvidence(p, c, EvidenceTable(p, c, byId, pairs))
  {
    var table := EvidenceTable(p, c, byId, pairs);
    forall a, b | a in c.rows && b in c.rows && a.id < b.id
      ensures (a.id, b.id) in table <==> SameSourceEquivalent(p, c, a, b)
    {
      if SameSourceEquivalent(p, c, a, b) {
        EquivalentPairsAreCandidates(p, c, a, b);
      }
    }
    forall i: nat, j: nat | (i, j) in table
      ensures i < j && exists a, b :: a in c.rows && b in c.rows && a.id == i && b.id == j
    {
      assert Candidate(p, c, i, j);
      assert byId[i] in c.rows && byId[j] in c.rows;
    }
  }

  /**
   The pruned search: candidates from three indexes, chapters for candidates only.  It returns
   exactly what judging every pair on all data would.
   */
  method EquivalentPairs(p: Primitives, c: Catalog) returns (evidence: PairEvidence)
    requires AscendingIds(c.rows)
    ensures ExactEvidence(p, c, evidence)
  {
    var pairs := CandidatePairs(p, c);
    var byId := IndexById(c.rows);
    forall q | q in pairs ensures q.0 in byId && q.1 in byId {
      assert (q.0, q.1) in pairs;
      assert Candidate(p, c, q.0, q.1);
    }
    evidence := JudgePairs(p, c, byId, pairs);
    CandidateVerdictsAreExact(p, c, byId, pairs);
  }

  // ---------------------------------------------------------------- greedy cliques

  function PairOf(x: nat, y: nat): (nat, nat) {
    if x <= y then (x, y) else (y, x)
  }

  predicate Joined(evidence: PairEvidence, a: Identity, b: Identity) {
    PairOf(a.id, b.id) in evidence
  }

  ghost predicate JoinsAll(evidence: PairEvidence, row: Identity, group: seq<Identity>) {
    forall m :: m in group ==> Joined(evidence, row, m)
  }

  ghost predicate Clique(evidence: PairEvidence, group: seq<Identity>) {
    forall i, j :: 0 <= i < j < |group| ==> Joined(evidence, group[i], group[j])
  }

  /** Some member of one group is not equivalent to some member of the other. */
  ghost predicate Separated(evidence: PairEvidence, g: seq<Identity>, h: seq<Identity>) {
    exists a, b :: a in g && b in h && !Joined(evidence, a, b)
  }

  /** Non-empty cliques in id order, no two of which could be joined into one. */
  ghost predicate MaximalCliques(evidence: PairEvidence, groups: seq<seq<Identity>>) {
    && (forall i :: 0 <= i < |groups| ==> groups[i] != [] && AscendingIds(groups[i]) && Clique(evidence, groups[i]))
    && (forall i, j :: 0 <= i < j < |groups| ==> Separated(evidence, groups[i], groups[j]))
  }

  /** Every row is in exactly one group, and groups hold nothing else. */
  ghost predicate Partitions(groups: seq<seq<Identity>>, rows: seq<Identity>) {
    && (forall r :: r in rows ==> exists i :: 0 <= i < |groups| && r in groups[i])
    && (forall i, r :: 0 <= i < |groups| && r in groups[i] ==> r in rows)
    && (forall i, j, r :: 0 <= i < j < |groups| && r in groups[i] ==> r !in groups[j])
  }

  /** First-fit search for a group every member of which is equivalent to the row. */
  method FindGroup(evidence: PairEvidence, groups: seq<seq<Identity>>, row: Identity) returns (target: nat)
    ensures target <= |groups|
    ensures target < |groups| ==> JoinsAll(evidence, row, groups[target])
    ensures forall i :: 0 <= i < target ==> !JoinsAll(evidence, row, groups[i])
  {
    target := 0;
    while target < |groups|
      invariant target <= |groups|
      invariant forall i :: 0 <= i < target ==> !JoinsAll(evidence, row, groups[i])
    {
      var group, k := groups[target], 0;
      while k < |group| && Joined(evidence, row, group[k])
        invariant k <= |group| && forall x :: 0 <= x < k ==> Joined(evidence, row, group[x])
      {
        k := k + 1;
      }
      if k == |group| {
        return;
      }
      assert group[k] in group;
      target := target + 1;
    }
  }

  lemma {:induction false} OpeningKeepsCliques(evidence: PairEvidence, groups: seq<seq<Identity>>, row: Identity)
    requires MaximalCliques(evidence, groups)
    requires forall i :: 0 <= i < |groups| ==> !JoinsAll(evidence, row, groups[i])
    ensures MaximalCliques(evidence, groups + [[row]])
  {
    forall i | 0 <= i < |groups| ensures Separated(evidence, groups[i], [row]) {
      assert !JoinsAll(evidence, row, groups[i]);
      var m :| m in groups[i] && !Joined(evidence, row, m);
      assert row in [row] && !Joined(evidence, m, row);
    }
  }

  lemma {:induction false} JoiningKeepsCliques(evidence: PairEvidence, groups: seq<seq<Identity>>, row: Identity,
                                               t: nat)
    requires MaximalCliques(evidence, groups) && t < |groups|
    requires JoinsAll(evidence, row, groups[t]) && forall m :: m in groups[t] ==> m.id < row.id
    ensures MaximalCliques(evidence, groups[t := groups[t] + [row]])
  {
    var grown := groups[t := groups[t] + [row]];
    JoiningKeepsClique(evidence, groups[t], row);
    forall i, j | 0 <= i < j < |grown| ensures Separated(evidence, grown[i], grown[j]) {
      LargerStaySeparated(evidence, groups[i], groups[j], grown[i], grown[j]);
    }
  }

  lemma {:induction false} JoiningKeepsClique(evidence: PairEvidence, group: seq<Identity>, row: Identity)
    requires Clique(evidence, group) && AscendingIds(group)
    requires JoinsAll(evidence, row, group) && forall m :: m in group ==> m.id < row.id
    ensures Clique(evidence, group + [row]) && AscendingIds(group + [row])
  {
    assert forall k :: 0 <= k < |group| ==> group[k] in group;
  }

  lemma {:induction false} LargerStaySeparated(evidence: PairEvidence, g: seq<Identity>, h: seq<Identity>,
                                               g': seq<Identity>, h': seq<Identity>)
    requires Separated(evidence, g, h) && g <= g' && h <= h'
    ensures Separated(evidence, g', h')
  {
    var a, b :| a in g && b in h && !Joined(evidence, a, b);
    assert a in g' && b in h';
  }

  lemma {:induction false} OpeningPartitions(groups: seq<seq<Identity>>, rows: seq<Identity>, row: Identity)
    requires Partitions(groups, rows) && row !in rows
    ensures Partitions(groups + [[row]], rows + [row])
  {
    var grown := groups + [[row]];
    forall r | r in rows + [row] ensures exists i :: 0 <= i < |grown| && r in grown[i] {
      if r in rows {
        var i :| 0 <= i < |groups| && r in groups[i];
        assert r in grown[i];
      } else {
        assert r in grown[|groups|];
      }
    }
  }

  lemma {:induction false} JoiningPartitions(groups: seq<seq<Identity>>, rows: seq<Identity>, row: Identity, t: nat)
    requires Partitions(groups, rows) && row !in rows && t < |groups|
    ensures Partitions(groups[t := groups[t] + [row]], rows + [row])
  {
    var grown := groups[t := groups[t] + [row]];
    forall r | r in rows + [row] ensures exists i :: 0 <= i < |grown| && r in grown[i] {
      if r in rows {
        var i :| 0 <= i < |groups| && r in groups[i];
        assert r in grown[i];
      } else {
        assert r in grown[t];
      }
    }
  }

  /** Greedy grouping of one provider's identities, in id order. */
  method GroupRows(evidence: PairEvidence, rows: seq<Identity>) returns (groups: seq<seq<Identity>>)
    requires AscendingIds(rows)
    ensures MaximalCliques(evidence, groups) && Partitions(groups, rows)
  {
    groups := [];
    for k := 0 to |rows|
      invariant MaximalCliques(evidence, groups) && Partitions(groups, rows[..k])
    {
      var row := rows[k];
      assert rows[..k + 1] == rows[..k] + [row];
      assert forall r :: r in rows[..k] ==> r.id < row.id;
      var target := FindGroup(evidence, groups, row);
      if target == |groups| {
        OpeningKeepsCliques(evidence, groups, row);
        OpeningPartitions(groups, rows[..k], row);
        groups := groups + [[row]];
      } else {
        JoiningKeepsCliques(evidence, groups, row, target);
        JoiningPartitions(groups, rows[..k], row, target);
        groups := groups[target := groups[target] + [row]];
      }
    }
    assert rows[..|rows|] == rows;
  }

  // ---------------------------------------------------------------- reported groups

  datatype DuplicateGroup = DuplicateGroup(source: string, title: string, identityIds: seq<nat>,
                                           seriesIds: seq<nat>, evidence: PairEvidence)

  ghost function SeriesSet(group: seq<Identity>): set<nat> {
    set r | r in group :: r.seriesId
  }

  /** The report carries the exhaustive, positive verdict on members `i` and `j`. */
  ghost predicate VerdictReported(p: Primitives, c: Catalog, group: seq<Identity>, d: DuplicateGroup, i: nat, j: nat) {
    i < j < |group| ==>
      && SameSourceEquivalent(p, c, group[i], group[j])
      && (group[i].id, group[j].id) in d.evidence
      && d.evidence[(group[i].id, group[j].id)] == FullEvidence(p, c, group[i], group[j])
  }

  /** The report names the group's members, its series in order, and the verdict on every pair. */
  ghost predicate Describes(p: Primitives, c: Catalog, group: seq<Identity>, d: DuplicateGroup) {
    && |group| >= 2
    && d.source == group[0].source && d.title == TitleOf(p, group[0])
    && d.identityIds == seq(|group|, i requires 0 <= i < |group| => group[i].id)
    && Ascending(d.seriesIds) && Elements(d.seriesIds) == SeriesSet(group)
    && d.evidence.Keys == PairsIn(group)
    && forall i: nat, j: nat :: VerdictReported(p, c, group, d, i, j)
  }

  /** `sorted({row.series_id for row in group})` */
  method SeriesOf(group: seq<Identity>) returns (ids: seq<nat>)
    ensures Ascending(ids) && Elements(ids) == SeriesSet(group)
  {
    var values: seq<nat> := [];
    for k := 0 to |group|
      invariant Distinct(values) && Elements(values) == SeriesSet(group[..k])
    {
      assert group[..k + 1] == group[..k] + [group[k]];
      assert SeriesSet(group[..k + 1]) == SeriesSet(group[..k]) + {group[k].seriesId};
      assert group[k].seriesId in values <==> group[k].seriesId in Elements(values);
      if group[k].seriesId !in values {
        assert Elements(values + [group[k].seriesId]) == Elements(values) + {group[k].seriesId};
        values := values + [group[k].seriesId];
      }
    }
    assert group[..|group|] == group;
    ids := SeriesClusters.SortIds(values);
    assert Elements(ids) == Elements(values);
  }

  lemma {:induction false} CliqueVerdicts(p: Primitives, c: Catalog, evidence: PairEvidence, group: seq<Identity>,
                                          i: nat, j: nat)
    requires ExactEvidence(p, c, evidence) && Clique(evidence, group) && AscendingIds(group)
    requires forall r :: r in group ==> r in c.rows
    requires i < j < |group|
    ensures (group[i].id, group[j].id) in evidence
    ensures evidence[(group[i].id, group[j].id)] == FullEvidence(p, c, group[i], group[j])
    ensures SameSourceEquivalent(p, c, group[i], group[j])
  {
    assert Joined(evidence, group[i], group[j]);
    assert group[i] in group && group[j] in group;
  }

  /** Every evidence lookup for a clique succeeds. */
  lemma {:induction false} LookupsSucceed(evidence: PairEvidence, group: seq<Identity>)
    requires Clique(evidence, group) && AscendingIds(group)
    ensures PairsIn(group) <= evidence.Keys
  {
    forall q | q in PairsIn(group) ensures q in evidence {
      var i, j :| 0 <= i < j < |group| && q == (group[i].id, group[j].id);
      assert Joined(evidence, group[i], group[j]);
    }
  }

  /** Looks up the verdict on every pair of a clique. */
  method CliqueEvidence(evidence: PairEvidence, group: seq<Identity>) returns (rows: PairEvidence)
    requires Clique(evidence, group) && AscendingIds(group)
    ensures rows.Keys == PairsIn(group) && rows.Keys <= evidence.Keys
    ensures forall q :: q in rows ==> rows[q] == evidence[q]
  {
    LookupsSucceed(evidence, group);
    var pairs := Combinations(group);
    rows := map q | q in pairs :: evidence[q];
  }

  /** Writes the report for one clique. */
  method Report(p: Primitives, c: Catalog, evidence: PairEvidence, group: seq<Identity>) returns (d: DuplicateGroup)
    requires ExactEvidence(p, c, evidence) && Clique(evidence, group) && AscendingIds(group)
    requires |group| >= 2 && forall r :: r in group ==> r in c.rows
    ensures Describes(p, c, group, d)
  {
    var rows := CliqueEvidence(evidence, group);
    var series := SeriesOf(group);
    d := DuplicateGroup(group[0].source, TitleOf(p, group[0]),
                        seq(|group|, i requires 0 <= i < |group| => group[i].id), series, rows);
    forall i: nat, j: nat ensures VerdictReported(p, c, group, d, i, j) {
      if i < j < |group| {
        CliqueVerdicts(p, c, evidence, group, i, j);
        assert (group[i].id, group[j].id) in PairsIn(group);
      }
    }
  }

  function RowsOf(rows: seq<Identity>, source: string): (r: seq<Identity>)
    ensures forall x :: x in r <==> x in rows && x.source == source
  {
    if rows == [] then []
    else
      var rest := RowsOf(rows[..|rows| - 1], source);
      var last := rows[|rows| - 1];
      assert rows == rows[..|rows| - 1] + [last];
      if last.source == source then rest + [last] else rest
  }

  lemma {:induction false} RowsOfAscending(rows: seq<Identity>, source: string)
    requires AscendingIds(rows)
    ensures AscendingIds(RowsOf(rows, source))
  {
    if rows != [] {
      RowsOfAscending(rows[..|rows| - 1], source);
      var rest := RowsOf(rows[..|rows| - 1], source);
      forall i | 0 <= i < |rest| ensures rest[i].id < rows[|rows| - 1].id {
        assert rest[i] in rows[..|rows| - 1];
      }
    }
  }

  type Grouping = map<string, seq<seq<Identity>>>

  /** Per provider, the identities are partitioned into cliques no two of which could be joined. */
  ghost predicate GroupedSource(evidence: PairEvidence, rows: seq<Identity>, cliques: Grouping, source: string) {
    source in cliques && MaximalCliques(evidence, cliques[source]) && Partitions(cliques[source], RowsOf(rows, source))
  }

  /** The cliques that get a report: those with at least two members. */
  ghost function Duplicated(groups: seq<seq<Identity>>): (r: seq<seq<Identity>>)
    ensures forall g :: g in r <==> g in groups && |g| >= 2
  {
    if groups == [] then []
    else
      var last := groups[|groups| - 1];
      assert groups == groups[..|groups| - 1] + [last];
      Duplicated(groups[..|groups| - 1]) + (if |last| >= 2 then [last] else [])
  }

  ghost predicate DescribesAll(p: Primitives, c: Catalog, groups: seq<seq<Identity>>, reports: seq<DuplicateGroup>) {
    |groups| == |reports| && forall k :: 0 <= k < |groups| ==> Describes(p, c, groups[k], reports[k])
  }

  /** A clique whose members are all catalog rows. */
  ghost predicate Reportable(c: Catalog, evidence: PairEvidence, group: seq<Identity>) {
    Clique(evidence, group) && AscendingIds(group) && forall r :: r in group ==> r in c.rows
  }

  method ReportCliques(p: Primitives, c: Catalog, evidence: PairEvidence, groups: seq<seq<Identity>>)
    returns (reports: seq<DuplicateGroup>)
    requires ExactEvidence(p, c, evidence)
    requires forall i :: 0 <= i < |groups| ==> Reportable(c, evidence, groups[i])
    ensures DescribesAll(p, c, Duplicated(groups), reports)
  {
    reports := [];
    for k := 0 to |groups|
      invariant DescribesAll(p, c, Duplicated(groups[..k]), reports)
    {
      DuplicatedOneMore(groups, k);
      if |groups[k]| >= 2 {
        var d := Report(p, c, evidence, groups[k]);
        DescribesMore(p, c, Duplicated(groups[..k]), reports, [groups[k]], [d]);
        reports := reports + [d];
      }
    }
    assert groups[..|groups|] == groups;
  }

  lemma {:induction false} DuplicatedOneMore(groups: seq<seq<Identity>>, k: nat)
    requires k < |groups|
    ensures Duplicated(groups[..k + 1]) == Duplicated(groups[..k]) + (if |groups[k]| >= 2 then [groups[k]] else [])
  {
    assert groups[..k + 1][..k] == groups[..k];
  }

  /** Reports come provider by provider, in text order. */
  ghost predicate InSourceOrder(reported: seq<seq<Identity>>) {
    forall i, j :: 0 <= i < j < |reported| && reported[i] != [] && reported[j] != [] ==>
      !TextOrder.Less(reported[j][0].source, reported[i][0].source)
  }

  /** Exactly the cliques with at least two members are reported, once each, in provider order. */
  ghost predicate ReportsAll(cliques: Grouping, reported: seq<seq<Identity>>) {
    && Distinct(reported) && InSourceOrder(reported)
    && (forall g :: g in reported ==> |g| >= 2 && exists source :: source in cliques && g in cliques[source])
    && (forall source, g :: source in cliques && g in cliques[source] && |g| >= 2 ==> g in reported)
  }

  /** Groups and reports one provider. */
  method ReportSource(p: Primitives, c: Catalog, evidence: PairEvidence, source: string)
    returns (groups: seq<seq<Identity>>, reports: seq<DuplicateGroup>)
    requires AscendingIds(c.rows) && ExactEvidence(p, c, evidence)
    ensures MaximalCliques(evidence, groups) && Partitions(groups, RowsOf(c.rows, source))
    ensures DescribesAll(p, c, Duplicated(groups), reports)
  {
    RowsOfAscending(c.rows, source);
    groups := GroupRows(evidence, RowsOf(c.rows, source));
    forall i | 0 <= i < |groups| ensures Reportable(c, evidence, groups[i]) {
      assert forall r :: r in groups[i] ==> r in RowsOf(c.rows, source);
    }
    reports := ReportCliques(p, c, evidence, groups);
  }

  /** The duplicated groups of a partition are listed once each. */
  lemma {:induction false} DuplicatedOnce(groups: seq<seq<Identity>>)
    requires forall i, j, r :: 0 <= i < j < |groups| && r in groups[i] ==> r !in groups[j]
    ensures Distinct(Duplicated(groups))
  {
    if groups != [] {
      var before, last := groups[..|groups| - 1], groups[|groups| - 1];
      DuplicatedOnce(before);
      var earlier := Duplicated(before);
      if |last| >= 2 {
        forall k | 0 <= k < |earlier| ensures earlier[k] != last {
          assert earlier[k] in earlier;
          assert earlier[k] in before;
          var i :| 0 <= i < |before| && before[i] == earlier[k];
          assert last[0] in last && groups[i] == before[i];
        }
      }
    }
  }

  /** Every group belongs to the provider. */
  ghost predicate OfSource(groups: seq<seq<Identity>>, source: string) {
    forall g, r :: g in groups && r in g ==> r.source == source
  }

  ghost predicate BelongsBefore(group: seq<Identity>, source: string) {
    |group| >= 2 && TextOrder.Less(group[0].source, source)
  }

  lemma {:induction false} AppendInOrder(reported: seq<seq<Identity>>, more: seq<seq<Identity>>, source: string)
    requires Distinct(reported) && InSourceOrder(reported) && Distinct(more) && OfSource(more, source)
    requires forall g :: g in reported ==> BelongsBefore(g, source)
    requires forall g: seq<Identity> :: g in more ==> |g| >= 2
    ensures Distinct(reported + more) && InSourceOrder(reported + more)
  {
    var all: seq<seq<Identity>> := reported + more;
    TextOrder.Irreflexive(source);
    forall i, j | 0 <= i < j < |all|
      ensures all[i] != all[j] && (all[i] != [] && all[j] != [] ==> !TextOrder.Less(all[j][0].source, all[i][0].source))
    {
      if i < |reported| {
        assert all[i] in reported;
      } else {
        assert all[i] in more && all[i][0] in all[i];
      }
      if j >= |reported| {
        assert all[j] in more && all[j][0] in all[j];
        if i < |reported| && TextOrder.Less(source, all[i][0].source) {
          TextOrder.Transitive(source, all[i][0].source, source);
        }
      }
    }
  }

  lemma {:induction false} ReportsOneMore(evidence: PairEvidence, rows: seq<Identity>, cliques: Grouping,
                                          reported: seq<seq<Identity>>, source: string, groups: seq<seq<Identity>>)
    requires ReportsAll(cliques, reported) && source !in cliques && Partitions(groups, RowsOf(rows, source))
    requires forall s :: s in cliques ==> GroupedSource(evidence, rows, cliques, s) && TextOrder.Less(s, source)
    ensures ReportsAll(cliques[source := groups], reported + Duplicated(groups))
  {
    DuplicatedOnce(groups);
    ReportedBefore(evidence, rows, cliques, reported, source);
    DuplicatedOfSource(rows, source, groups);
    AppendInOrder(reported, Duplicated(groups), source);
    GrownGroups(cliques, reported, source, groups);
  }

  lemma {:induction false} ReportedBefore(evidence: PairEvidence, rows: seq<Identity>, cliques: Grouping,
                                          reported: seq<seq<Identity>>, source: string)
    requires ReportsAll(cliques, reported)
    requires forall s :: s in cliques ==> GroupedSource(evidence, rows, cliques, s) && TextOrder.Less(s, source)
    ensures forall g :: g in reported ==> BelongsBefore(g, source)
  {
    forall g | g in reported ensures BelongsBefore(g, source) {
      var s :| s in cliques && g in cliques[s];
      var i :| 0 <= i < |cliques[s]| && cliques[s][i] == g;
      assert GroupedSource(evidence, rows, cliques, s) && g[0] in g;
      assert g[0] in RowsOf(rows, s);
    }
  }

  lemma {:induction false} DuplicatedOfSource(rows: seq<Identity>, source: string, groups: seq<seq<Identity>>)
    requires Partitions(groups, RowsOf(rows, source))
    ensures OfSource(Duplicated(groups), source)
  {
    forall g, r | g in Duplicated(groups) && r in g ensures r.source == source {
      var i :| 0 <= i < |groups| && groups[i] == g;
      assert r in RowsOf(rows, source);
    }
  }

  lemma {:induction false} GrownGroups(cliques: Grouping, reported: seq<seq<Identity>>, source: string,
                                       groups: seq<seq<Identity>>)
    requires ReportsAll(cliques, reported) && source !in cliques
    ensures var grown, more := cliques[source := groups], reported + Duplicated(groups);
      && (forall g :: g in more ==> |g| >= 2 && exists s :: s in grown && g in grown[s])
      && (forall s, g :: s in grown && g in grown[s] && |g| >= 2 ==> g in more)
  {
    var grown := cliques[source := groups];
    forall g | g in reported + Duplicated(groups) ensures |g| >= 2 && exists s :: s in grown && g in grown[s] {
      if g in reported {
        var s :| s in cliques && g in cliques[s];
        assert s in grown && g in grown[s];
      } else {
        assert source in grown && g in grown[source];
      }
    }
  }

  lemma {:induction false} DescribesMore(p: Primitives, c: Catalog, groups: seq<seq<Identity>>,
                                         reports: seq<DuplicateGroup>, moreGroups: seq<seq<Identity>>,
                                         moreReports: seq<DuplicateGroup>)
    requires DescribesAll(p, c, groups, reports) && DescribesAll(p, c, moreGroups, moreReports)
    ensures DescribesAll(p, c, groups + moreGroups, reports + moreReports)
  {
    var allGroups, allReports := groups + moreGroups, reports + moreReports;
    forall k | 0 <= k < |allGroups| ensures Describes(p, c, allGroups[k], allReports[k]) {
      if k < |groups| {
        assert allGroups[k] == groups[k] && allReports[k] == reports[k];
      } else {
        assert allGroups[k] == moreGroups[k - |groups|] && allReports[k] == moreReports[k - |groups|];
      }
    }
  }

  /** `sorted(...)` of provider names. */
  method SortNames(names: set<string>) returns (sorted: seq<string>)
    ensures AscendingText(sorted) && Elements(sorted) == names
  {
    sorted := [];
    var todo := names;
    while todo != {}
      invariant AscendingText(sorted) && Elements(sorted) + todo == names && (forall n :: n in sorted ==> n !in todo)
      decreases todo
    {
      var name :| name in todo;
      var at := 0;
      while at < |sorted| && TextOrder.Less(sorted[at], name)
        invariant at <= |sorted| && forall i :: 0 <= i < at ==> TextOrder.Less(sorted[i], name)
      {
        at := at + 1;
      }
      InsertName(sorted, name, at);
      sorted, todo := sorted[..at] + [name] + sorted[at..], todo - {name};
    }
  }

  lemma {:induction false} InsertName(sorted: seq<string>, name: string, at: nat)
    requires AscendingText(sorted) && name !in sorted && at <= |sorted|
    requires forall i :: 0 <= i < at ==> TextOrder.Less(sorted[i], name)
    requires at < |sorted| ==> !TextOrder.Less(sorted[at], name)
    ensures var after := sorted[..at] + [name] + sorted[at..];
      AscendingText(after) && forall n :: n in after <==> n == name || n in sorted
  {
    NameFits(sorted, name, at);
    assert sorted == sorted[..at] + sorted[at..];
  }

  /** From the insertion point on every name comes after the new one. */
  lemma {:induction false} NameFits(sorted: seq<string>, name: string, at: nat)
    requires AscendingText(sorted) && name !in sorted && at <= |sorted|
    requires at < |sorted| ==> !TextOrder.Less(sorted[at], name)
    ensures forall k :: at <= k < |sorted| ==> TextOrder.Less(name, sorted[k])
  {
    forall k | at <= k < |sorted| ensures TextOrder.Less(name, sorted[k]) {
      TextOrder.Total(name, sorted[at]);
      assert sorted[at] in sorted;
      if k > at {
        TextOrder.Transitive(name, sorted[at], sorted[k]);
      }
    }
  }

  /**
   The complete account of a detection run: exact pair evidence, one partition into unjoinable
   cliques per provider, and one report for exactly every clique of two or more.
   */
  ghost predicate DetectionRun(p: Primitives, c: Catalog, evidence: PairEvidence, cliques: Grouping,
                               reported: seq<seq<Identity>>, result: seq<DuplicateGroup>)
  {
    && ExactEvidence(p, c, evidence)
    && cliques.Keys == (set r | r in c.rows :: r.source)
    && (forall source :: source in cliques ==> GroupedSource(evidence, c.rows, cliques, source))
    && ReportsAll(cliques, reported) && DescribesAll(p, c, reported, result)
  }

  /**
   Disjoint, mutually equivalent same-provider identity groups.  The ghost results name the
   partition behind the report: `cliques` per provider, `reported` the members behind each entry.
   */
  method ProviderDuplicateGroups(p: Primitives, c: Catalog)
    returns (result: seq<DuplicateGroup>, ghost evidence: PairEvidence, ghost cliques: Grouping,
             ghost reported: seq<seq<Identity>>)
    requires AscendingIds(c.rows)
    ensures DetectionRun(p, c, evidence, cliques, reported, result)
  {
    var pairEvidence := EquivalentPairs(p, c);
    evidence, cliques, reported, result := pairEvidence, map[], [], [];
    var sources := SortNames(set r | r in c.rows :: r.source);
    for k := 0 to |sources|
      invariant cliques.Keys == Elements(sources[..k])
      invariant forall source :: source in cliques ==> GroupedSource(evidence, c.rows, cliques, source)
      invariant ReportsAll(cliques, reported)
      invariant DescribesAll(p, c, reported, result)
    {
      var source := sources[k];
      NextSource(sources, k);
      var groups, reports := ReportSource(p, c, pairEvidence, source);
      ReportsOneMore(evidence, c.rows, cliques, reported, source, groups);
      DescribesMore(p, c, reported, result, Duplicated(groups), reports);
      cliques, reported := cliques[source := groups], reported + Duplicated(groups);
      result := result + reports;
    }
    assert sources[..|sources|] == sources;
  }

  lemma {:induction false} NextSource(sources: seq<string>, k: nat)
    requires AscendingText(sources) && k < |sources|
    ensures sources[k] !in sources[..k] && forall s :: s in sources[..k] ==> TextOrder.Less(s, sources[k])
    ensures Elements(sources[..k + 1]) == Elements(sources[..k]) + {sources[k]}
  {
    TextOrder.Irreflexive(sources[k]);
    assert sources[..k + 1] == sources[..k] + [sources[k]];
  }

  lemma {:induction false} ReportedSeriesKnown(p: Primitives, c: Catalog, evidence: PairEvidence, cliques: Grouping,
                                               group: seq<Identity>, source: string, s: nat)
    requires GroupedSource(evidence, c.rows, cliques, source) && group in cliques[source] && s in SeriesSet(group)
    ensures exists r :: r in c.rows && r.seriesId == s
  {
    var r :| r in group && r.seriesId == s;
    var i :| 0 <= i < |cliques[source]| && cliques[source][i] == group;
    assert r in RowsOf(c.rows, source);
  }

  function SeriesLists(groups: seq<DuplicateGroup>): seq<seq<nat>> {
    seq(|groups|, i requires 0 <= i < |groups| => groups[i].seriesIds)
  }

  lemma {:induction false} ReportedSeriesAllKnown(p: Primitives, c: Catalog, evidence: PairEvidence,
                                                  cliques: Grouping, reported: seq<seq<Identity>>,
                                                  groups: seq<DuplicateGroup>, g: seq<nat>, x: nat)
    requires DetectionRun(p, c, evidence, cliques, reported, groups)
    requires g in SeriesLists(groups) && x in g
    ensures exists r :: r in c.rows && r.seriesId == x
  {
    var k :| 0 <= k < |groups| && groups[k].seriesIds == g;
    assert Describes(p, c, reported[k], groups[k]) && x in Elements(groups[k].seriesIds);
    assert reported[k] in reported;
    var source :| source in cliques && reported[k] in cliques[source];
    ReportedSeriesKnown(p, c, evidence, cliques, reported[k], source, x);
  }

  lemma {:induction false} ReportedSeriesWithin(p: Primitives, c: Catalog, evidence: PairEvidence, cliques: Grouping,
                                                reported: seq<seq<Identity>>, groups: seq<DuplicateGroup>,
                                                ids: set<nat>)
    requires DetectionRun(p, c, evidence, cliques, reported, groups)
    requires forall r :: r in c.rows ==> r.seriesId in ids
    ensures forall g, x :: g in SeriesLists(groups) && x in g ==> x in ids
  {
    forall g, x | g in SeriesLists(groups) && x in g ensures x in ids {
      ReportedSeriesAllKnown(p, c, evidence, cliques, reported, groups, g, x);
    }
  }

  /** Closes the reported groups over the requested canonical series. */
  method EquivalentSeries(p: Primitives, c: Catalog, ids: set<nat>)
    returns (bySeries: map<nat, seq<nat>>, groups: seq<DuplicateGroup>, ghost evidence: PairEvidence,
             ghost cliques: Grouping, ghost reported: seq<seq<Identity>>)
    requires AscendingIds(c.rows) && forall r :: r in c.rows ==> r.seriesId in ids
    ensures DetectionRun(p, c, evidence, cliques, reported, groups)
    ensures SeriesClusters.ExactClusters(bySeries, ids, SeriesLists(groups))
  {
    groups, evidence, cliques, reported := ProviderDuplicateGroups(p, c);
    ReportedSeriesWithin(p, c, evidence, cliques, reported, groups, ids);
    bySeries := SeriesClusters.EquivalentSeriesClusters(ids, SeriesLists(groups));
  }
}
