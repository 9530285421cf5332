/**
 Library repair coalescing: repair requests for one series are merged into one active job, and
 legacy jobs are collapsed into it, without losing any storage key that still has to be cleaned up.
 */
module LibraryRepair {

  import opened Options
  import TextOrder
  import opened Sequences

  type SeriesId = n: int | n > 0 witness 1

  datatype Payload = Payload(series: SeriesId, reason: string, obsolete: seq<string>)

  datatype Status = Queued | Leased | RetryWait | Succeeded | Failed | Cancelled

  /**
   The text column naming a job's series: blank, a spelling of a number (spelling 0 is the plain
   decimal one), or text that is no number.
   */
  datatype SeriesKey = Blank | Numeric(id: SeriesId, spelling: nat) | Unreadable(text: string)

  /** `Canonical(n)` is the text "series:n:repair"; every other dedupe key is legacy. */
  datatype DedupeKey = Canonical(id: SeriesId) | Legacy(text: string)

  datatype Job = Job(status: Status, seriesKey: SeriesKey, dedupe: DedupeKey,
                     payload: Payload, pending: Option<Payload>, priority: int)

  predicate Active(job: Job) { job.status in {Queued, Leased, RetryWait} }

  // ---------------------------------------------------------------- merging payloads

  function Rank(reason: string): nat {
    match reason
    case "merge" => 60
    case "manual_repair" => 50
    case "legacy_recovery" => 40
    case "tracking" => 30
    case "download" => 20
    case "automatic_projection_repair" => 10
    case _ => 0
  }

  /** The first reason of highest rank. */
  function TopReason(payloads: seq<Payload>): string {
    if payloads == [] then "metadata"
    else if |payloads| == 1 then payloads[0].reason
    else
      var rest := TopReason(payloads[1..]);
      if Rank(payloads[0].reason) >= Rank(rest) then payloads[0].reason else rest
  }

  /** Inserts a key into an ascending list, once. */
  function Insert(key: string, keys: seq<string>): seq<string> {
    if keys == [] || TextOrder.Less(key, keys[0]) then [key] + keys
    else if key == keys[0] then keys
    else [keys[0]] + Insert(key, keys[1..])
  }

  function SortedKeys(keys: seq<string>): seq<string> {
    if keys == [] then []
    else if keys[0] == "" then SortedKeys(keys[1..])
    else Insert(keys[0], SortedKeys(keys[1..]))
  }

  function AllKeys(payloads: seq<Payload>): seq<string> {
    if payloads == [] then [] else payloads[0].obsolete + AllKeys(payloads[1..])
  }

  function Merge(series: SeriesId, payloads: seq<Payload>): Payload {
    var keys := SortedKeys(AllKeys(payloads));
    Payload(series, if keys != [] then "merge" else TopReason(payloads), keys)
  }

  /** The storage keys that still need cleaning up. */
  ghost function Cleanup(keys: seq<string>): set<string> { Elements(keys) - {""} }

  ghost function CleanupOf(payloads: seq<Payload>): set<string> { Cleanup(AllKeys(payloads)) }

  lemma {:induction false} InsertSorts(key: string, keys: seq<string>)
    requires AscendingText(keys)
    ensures AscendingText(Insert(key, keys))
    ensures forall k :: k in Insert(key, keys) <==> k == key || k in keys
  {
    if keys == [] {
    } else if TextOrder.Less(key, keys[0]) {
      forall j | 0 < j < |keys| ensures TextOrder.Less(key, keys[j]) {
        TextOrder.Transitive(key, keys[0], keys[j]);
      }
    } else if key != keys[0] {
      var rest := keys[1..];
      InsertSorts(key, rest);
      TextOrder.Total(key, keys[0]);
      assert keys == [keys[0]] + rest;
      forall k | k in Insert(key, rest) ensures TextOrder.Less(keys[0], k) {
        if k != key {
          var at :| 0 <= at < |rest| && rest[at] == k;
          assert keys[at + 1] == k;
        }
      }
    } else {
      assert keys[0] in keys;
    }
  }

  lemma {:induction false} SortedKeysAreTheCleanup(keys: seq<string>)
    ensures AscendingText(SortedKeys(keys)) && Cleanup(keys) == Elements(SortedKeys(keys))
    ensures "" !in SortedKeys(keys)
  {
    if keys != [] {
      var rest := keys[1..];
      SortedKeysAreTheCleanup(rest);
      assert keys == [keys[0]] + rest;
      if keys[0] != "" {
        InsertSorts(keys[0], SortedKeys(rest));
        assert Elements(SortedKeys(keys)) == {keys[0]} + Elements(SortedKeys(rest));
      }
      assert Elements(keys) == {keys[0]} + Elements(rest);
    }
  }

  /** An ascending list is determined by its elements. */
  lemma {:induction false} AscendingIsUnique(a: seq<string>, b: seq<string>)
    requires AscendingText(a) && AscendingText(b) && Elements(a) == Elements(b)
    ensures a == b
  {
    assert a != [] ==> a[0] in Elements(a);
    assert b != [] ==> b[0] in Elements(b);
    if a != [] && b != [] {
      LeastLeads(a, b);
      assert a == [a[0]] + a[1..] && b == [b[0]] + b[1..];
      TailElements(a);
      TailElements(b);
      AscendingIsUnique(a[1..], b[1..]);
    }
  }

  lemma {:induction false} LeastLeads(a: seq<string>, b: seq<string>)
    requires AscendingText(a) && AscendingText(b) && a != [] && b != []
    requires Elements(a) == Elements(b)
    ensures a[0] == b[0]
  {
    assert a[0] in Elements(a) && b[0] in Elements(b);
    var i :| 0 <= i < |b| && b[i] == a[0];
    var j :| 0 <= j < |a| && a[j] == b[0];
    if i > 0 && j > 0 {
      TextOrder.Transitive(a[0], b[0], a[0]);
      TextOrder.Irreflexive(a[0]);
    }
  }

  lemma {:induction false} TailElements(a: seq<string>)
    requires AscendingText(a) && a != []
    ensures Elements(a[1..]) == Elements(a) - {a[0]}
  {
    TextOrder.Irreflexive(a[0]);
    assert a == [a[0]] + a[1..];
    forall k | k in a[1..] ensures k != a[0] {
      var i :| 0 <= i < |a[1..]| && a[1..][i] == k;
      assert a[i + 1] == k;
    }
  }

  lemma {:induction false} SameCleanupSameKeys(a: seq<string>, b: seq<string>)
    requires Cleanup(a) == Cleanup(b)
    ensures SortedKeys(a) == SortedKeys(b)
  {
    SortedKeysAreTheCleanup(a);
    SortedKeysAreTheCleanup(b);
    AscendingIsUnique(SortedKeys(a), SortedKeys(b));
  }

  lemma {:induction false} AllKeysSplit(a: seq<Payload>, b: seq<Payload>)
    ensures AllKeys(a + b) == AllKeys(a) + AllKeys(b)
  {
    if a == [] {
      assert a + b == b;
    } else {
      AllKeysSplit(a[1..], b);
      assert (a + b)[1..] == a[1..] + b;
      assert (a + b)[0] == a[0];
      SplitAgain(a[0].obsolete, AllKeys(a[1..]), AllKeys(b));
    }
  }

  lemma {:induction false} SplitAgain(x: seq<string>, y: seq<string>, z: seq<string>)
    ensures x + (y + z) == x + y + z
  {
  }

  lemma {:induction false} CleanupSplit(a: seq<Payload>, b: seq<Payload>)
    ensures CleanupOf(a + b) == CleanupOf(a) + CleanupOf(b)
  {
    AllKeysSplit(a, b);
  }

  /** Merging loses no key and invents none; it keeps them sorted, once each, and marks cleanup work. */
  lemma {:induction false} MergeConserves(series: SeriesId, payloads: seq<Payload>)
    ensures Cleanup(Merge(series, payloads).obsolete) == CleanupOf(payloads)
    ensures AscendingText(Merge(series, payloads).obsolete) && "" !in Merge(series, payloads).obsolete
    ensures CleanupOf(payloads) != {} ==> Merge(series, payloads).reason == "merge"
    ensures CleanupOf(payloads) == {} ==> Merge(series, payloads).obsolete == []
  {
    SortedKeysAreTheCleanup(AllKeys(payloads));
    var keys := SortedKeys(AllKeys(payloads));
    assert Cleanup(keys) == Elements(keys);
    assert keys != [] ==> keys[0] in CleanupOf(payloads);
  }

  /** Some reason of the list attains the highest rank, and earlier ones rank strictly below. */
  lemma {:induction false} TopReasonIsFirstHighest(payloads: seq<Payload>) returns (at: nat)
    requires payloads != []
    ensures at < |payloads| && TopReason(payloads) == payloads[at].reason
    ensures forall i :: 0 <= i < |payloads| ==> Rank(payloads[i].reason) <= Rank(payloads[at].reason)
    ensures forall i :: 0 <= i < at ==> Rank(payloads[i].reason) < Rank(payloads[at].reason)
  {
    if |payloads| == 1 {
      return 0;
    }
    var rest := TopReasonIsFirstHighest(payloads[1..]);
    assert payloads == [payloads[0]] + payloads[1..];
    if Rank(payloads[0].reason) >= Rank(TopReason(payloads[1..])) {
      return 0;
    }
    return rest + 1;
  }

  lemma {:induction false} TopReasonSplit(a: seq<Payload>, b: seq<Payload>)
    requires a != [] && b != []
    ensures TopReason(a + b) == if Rank(TopReason(a)) >= Rank(TopReason(b)) then TopReason(a) else TopReason(b)
  {
    assert (a + b)[0] == a[0];
    if |a| == 1 {
      assert (a + b)[1..] == b;
    } else {
      TopReasonSplit(a[1..], b);
      assert (a + b)[1..] == a[1..] + b;
    }
  }

  lemma {:induction false} CleanupOfOne(p: Payload)
    ensures CleanupOf([p]) == Cleanup(p.obsolete)
  {
    assert AllKeys([p]) == p.obsolete + AllKeys([p][1..]);
  }

  /**
   Associativity, for every bracketing: merging a non-empty part of the list first changes nothing.
   */
  lemma {:induction false} MergeIsAssociative(series: SeriesId, a: seq<Payload>, b: seq<Payload>, c: seq<Payload>)
    requires b != []
    ensures Merge(series, a + [Merge(series, b)] + c) == Merge(series, a + b + c)
  {
    var inner := Merge(series, b);
    MergeConserves(series, b);
    CleanupOfOne(inner);
    CleanupSplit(a + [inner], c);
    CleanupSplit(a, [inner]);
    CleanupSplit(a + b, c);
    CleanupSplit(a, b);
    SameCleanupSameKeys(AllKeys(a + [inner] + c), AllKeys(a + b + c));
    MergeConserves(series, a + b + c);
    if CleanupOf(a + b + c) == {} {
      assert inner.reason == TopReason(b) == TopReason([inner]);
      SameTopInContext(a, [inner], b, c);
    }
  }

  lemma {:induction false} SameTopInContext(a: seq<Payload>, x: seq<Payload>, b: seq<Payload>, c: seq<Payload>)
    requires x != [] && b != [] && TopReason(x) == TopReason(b)
    ensures TopReason(a + x + c) == TopReason(a + b + c)
  {
    if a != [] {
      TopReasonSplit(a, x);
      TopReasonSplit(a, b);
    } else {
      assert a + x == x && a + b == b;
    }
    if c != [] {
      TopReasonSplit(a + x, c);
      TopReasonSplit(a + b, c);
    } else {
      assert a + x + c == a + x && a + b + c == a + b;
    }
  }

  /** An empty list has no neutral merge: its default reason can win over nothing but itself. */
  lemma {:induction false} EmptyMergeIsNotNeutral()
    ensures Merge(1, [Merge(1, []), Payload(1, "retitled", [])]) != Merge(1, [Payload(1, "retitled", [])])
  {
    var q := Payload(1, "retitled", []);
    assert AllKeys([]) == [];
    var p := Merge(1, []);
    assert [p, q][1..] == [q];
    CleanupOfOne(q);
    MergeConserves(1, [p, q]);
    assert AllKeys([p, q]) == p.obsolete + AllKeys([q]);
    assert AllKeys([q]) == [] + AllKeys([q][1..]);
  }

  /** The outcome cannot depend on the order: cleanup work, a ranked reason, or one reason only. */
  ghost predicate OrderFree(payloads: seq<Payload>) {
    || CleanupOf(payloads) != {}
    || (exists p :: p in payloads && Rank(p.reason) > 0)
    || (forall p, q :: p in payloads && q in payloads ==> p.reason == q.reason)
  }

  /** Order matters exactly when there is nothing to clean up and only differing unranked reasons. */
  lemma {:induction false} MergeOrderMattersExactlyWhen(series: SeriesId, payloads: seq<Payload>)
    ensures OrderFree(payloads) <==>
      (forall other: seq<Payload> :: multiset(other) == multiset(payloads) ==>
         Merge(series, other) == Merge(series, payloads))
  {
    if OrderFree(payloads) {
      forall other: seq<Payload> | multiset(other) == multiset(payloads)
        ensures Merge(series, other) == Merge(series, payloads)
      {
        SameElements(other, payloads);
        MergeOrderFree(series, payloads, other);
      }
    } else {
      var other := MergeOrderSeen(series, payloads);
      assert multiset(other) == multiset(payloads);
    }
  }

  lemma {:induction false} SameElements(a: seq<Payload>, b: seq<Payload>)
    requires multiset(a) == multiset(b)
    ensures |a| == |b| && forall p :: p in a <==> p in b
  {
    assert |multiset(a)| == |a| && |multiset(b)| == |b|;
    forall p ensures p in a <==> p in b {
      assert p in a <==> p in multiset(a);
      assert p in b <==> p in multiset(b);
    }
  }

  lemma {:induction false} KeyComesFrom(payloads: seq<Payload>, k: string)
    ensures k in AllKeys(payloads) <==> exists p :: p in payloads && k in p.obsolete
  {
    if payloads != [] {
      KeyComesFrom(payloads[1..], k);
      assert payloads == [payloads[0]] + payloads[1..];
    }
  }

  lemma {:induction false} MergeOrderFree(series: SeriesId, a: seq<Payload>, b: seq<Payload>)
    requires OrderFree(a) && |a| == |b| && forall p :: p in a <==> p in b
    ensures Merge(series, a) == Merge(series, b)
  {
    forall k ensures k in AllKeys(a) <==> k in AllKeys(b) {
      KeyComesFrom(a, k);
      KeyComesFrom(b, k);
    }
    assert CleanupOf(a) == CleanupOf(b);
    SameCleanupSameKeys(AllKeys(a), AllKeys(b));
    MergeConserves(series, a);
    if a != [] && CleanupOf(a) == {} {
      SameTopReason(a, b);
    }
  }

  lemma {:induction false} SameTopReason(a: seq<Payload>, b: seq<Payload>)
    requires OrderFree(a) && CleanupOf(a) == {} && a != [] && b != [] && forall p :: p in a <==> p in b
    ensures TopReason(a) == TopReason(b)
  {
    var i := TopReasonIsFirstHighest(a);
    var j := TopReasonIsFirstHighest(b);
    assert a[i] in b && b[j] in a;
    var i' :| 0 <= i' < |b| && b[i'] == a[i];
    var j' :| 0 <= j' < |a| && a[j'] == b[j];
    if Rank(a[i].reason) > 0 {
      RankIsInjective(a[i].reason, b[j].reason);
    }
  }

  lemma {:induction false} RankIsInjective(a: string, b: string)
    requires Rank(a) == Rank(b) > 0
    ensures a == b
  {
  }

  lemma {:induction false} MergeOrderSeen(series: SeriesId, payloads: seq<Payload>) returns (other: seq<Payload>)
    requires !OrderFree(payloads)
    ensures multiset(other) == multiset(payloads) && Merge(series, other) != Merge(series, payloads)
  {
    var at :| 0 < at < |payloads| && payloads[at].reason != payloads[0].reason;
    other := payloads[0 := payloads[at]][at := payloads[0]];
    SameElements(other, payloads);
    forall k ensures k in AllKeys(payloads) <==> k in AllKeys(other) {
      KeyComesFrom(payloads, k);
      KeyComesFrom(other, k);
    }
    assert CleanupOf(other) == CleanupOf(payloads);
    MergeConserves(series, other);
    MergeConserves(series, payloads);
    var i := TopReasonIsFirstHighest(other);
    var j := TopReasonIsFirstHighest(payloads);
    assert other[0] in payloads && payloads[0] in payloads;
  }

  // ---------------------------------------------------------------- the order of reasons

  const REASONS: seq<string> :=
    ["merge", "manual_repair", "legacy_recovery", "tracking", "download", "automatic_projection_repair"]

  /** The reason stands earlier in the list, or is listed and the other is not. */
  ghost predicate Before(a: string, b: string) {
    exists i :: 0 <= i < |REASONS| && REASONS[i] == a && b !in REASONS[..i + 1]
  }

  lemma {:induction false} RanksFollowTheList(a: string, b: string)
    ensures Rank(a) > Rank(b) <==> Before(a, b)
  {
    assert REASONS[..1] == [REASONS[0]] && REASONS[..2] == [REASONS[0], REASONS[1]];
    assert REASONS[..3] == [REASONS[0], REASONS[1], REASONS[2]];
    assert REASONS[..4] == [REASONS[0], REASONS[1], REASONS[2], REASONS[3]];
    assert REASONS[..5] == [REASONS[0], REASONS[1], REASONS[2], REASONS[3], REASONS[4]] && REASONS[..6] == REASONS;
    if a in REASONS && Rank(a) > Rank(b) {
      var i :| 0 <= i < |REASONS| && REASONS[i] == a;
      assert b !in REASONS[..i + 1];
    }
  }

  /** Without keys to clean up, the merged reason is the first one no other reason comes before. */
  lemma {:induction false} MergedReasonLeads(series: SeriesId, payloads: seq<Payload>) returns (at: nat)
    requires payloads != [] && CleanupOf(payloads) == {}
    ensures at < |payloads| && LeadsAll(payloads, at) && Merge(series, payloads).reason == payloads[at].reason
  {
    MergeConserves(series, payloads);
    at := TopReasonIsFirstHighest(payloads);
    forall i | 0 <= i < |payloads|
      ensures !Before(payloads[i].reason, payloads[at].reason)
        && (i < at ==> Before(payloads[at].reason, payloads[i].reason))
    {
      RanksFollowTheList(payloads[i].reason, payloads[at].reason);
      RanksFollowTheList(payloads[at].reason, payloads[i].reason);
    }
  }

  ghost predicate LeadsAll(payloads: seq<Payload>, at: nat)
    requires at < |payloads|
  {
    forall i :: 0 <= i < |payloads| ==>
      && !Before(payloads[i].reason, payloads[at].reason)
      && (i < at ==> Before(payloads[at].reason, payloads[i].reason))
  }
}
