/** No cleanup work is lost: one enqueue, one collapse, and whole runs of the repair queue. */
module RepairRuns {

  import opened Options
  import opened LibraryRepair
  import opened RepairQueue

  /** Storage keys a job still has to clean up. */
  ghost function Work(job: Job): set<string> { CleanupOf(PayloadsOf(job)) }

  /** Every series that was merged away, with the series its rows belong to now. */
  type Heirs = map<SeriesId, SeriesId>

  /** The series a key text belongs to, whatever its spelling and whatever was merged since. */
  ghost function Home(heirs: Heirs, key: SeriesKey): SeriesKey {
    if !key.Numeric? then key
    else if key.id in heirs then Numeric(heirs[key.id], 0)
    else Numeric(key.id, 0)
  }

  ghost predicate OwedAt(heirs: Heirs, job: Job, home: SeriesKey, k: string) {
    Active(job) && Home(heirs, job.seriesKey) == home && k in Work(job)
  }

  ghost predicate Owed(heirs: Heirs, jobs: seq<Job>, home: SeriesKey, k: string) {
    exists i: nat :: i < |jobs| && OwedAt(heirs, jobs[i], home, k)
  }

  // ---------------------------------------------------------------- what the table keeps

  /** An active job under the canonical key of a series is a job of that series or of its heir. */
  ghost predicate FiledUnder(heirs: Heirs, jobs: seq<Job>, series: SeriesId) {
    forall i: nat :: i < |jobs| && Holds(jobs[i], Canonical(series)) ==>
      Home(heirs, jobs[i].seriesKey) == Home(heirs, Numeric(series, 0))
  }

  ghost predicate Filed(heirs: Heirs, jobs: seq<Job>) {
    forall i: nat :: i < |jobs| && Active(jobs[i]) && jobs[i].dedupe.Canonical? ==>
      Home(heirs, jobs[i].seriesKey) == Home(heirs, Numeric(jobs[i].dedupe.id, 0))
  }

  /** The unique index on active dedupe keys. */
  ghost predicate UniqueDedupe(jobs: seq<Job>) {
    forall i: nat, j: nat :: i < j < |jobs| && Active(jobs[i]) && Active(jobs[j]) ==> jobs[i].dedupe != jobs[j].dedupe
  }

  /** The unique index on leased series keys. */
  ghost predicate OneLease(jobs: seq<Job>) {
    forall i: nat, j: nat :: i < j < |jobs| && jobs[i].status == Leased && jobs[j].status == Leased ==>
      jobs[i].seriesKey != jobs[j].seriesKey || jobs[i].seriesKey == Blank
  }

  ghost predicate Healthy(heirs: Heirs, jobs: seq<Job>) {
    Filed(heirs, jobs) && UniqueDedupe(jobs) && OneLease(jobs)
  }

  // ---------------------------------------------------------------- enqueue

  lemma {:induction false} WorkParts(job: Job)
    ensures Work(job) ==
      Cleanup(job.payload.obsolete) + if job.pending.Some? then Cleanup(job.pending.value.obsolete) else {}
  {
    CleanupOfOne(job.payload);
    if job.pending.Some? {
      CleanupOfOne(job.pending.value);
      CleanupSplit([job.payload], [job.pending.value]);
    } else {
      assert PayloadsOf(job) == [job.payload];
    }
  }

  lemma {:induction false} MergeIntoWork(job: Job, incoming: Payload, priority: int)
    ensures var merged := MergeInto(job, incoming, priority);
      && Work(merged) == Work(job) + Cleanup(incoming.obsolete)
      && merged.status == job.status && merged.seriesKey == job.seriesKey && merged.dedupe == job.dedupe
  {
    var payloads := [job.payload, incoming] + PayloadsOf(job)[1..];
    assert payloads == [job.payload] + ([incoming] + PayloadsOf(job)[1..]);
    CleanupSplit([job.payload], [incoming] + PayloadsOf(job)[1..]);
    CleanupSplit([incoming], PayloadsOf(job)[1..]);
    CleanupSplit([job.payload], PayloadsOf(job)[1..]);
    assert PayloadsOf(job) == [job.payload] + PayloadsOf(job)[1..];
    CleanupOfOne(incoming);
    MergeConserves(incoming.series, payloads);
    WorkParts(job);
    WorkParts(MergeInto(job, incoming, priority));
  }

  /** The one row a request changes or adds. */
  lemma {:induction false} EnqueuedRow(jobs: seq<Job>, incoming: Payload, priority: int)
    ensures var at, after := Find(jobs, Canonical(incoming.series), 0), Enqueue(jobs, incoming, priority);
      && at < |after| && Holds(after[at], Canonical(incoming.series))
      && Work(after[at]) == (if at < |jobs| then Work(jobs[at]) else {}) + Cleanup(incoming.obsolete)
      && (at < |jobs| ==>
        && after == jobs[at := after[at]] && Holds(jobs[at], Canonical(incoming.series))
        && after[at].seriesKey == jobs[at].seriesKey && after[at].status == jobs[at].status)
      && (at == |jobs| ==>
        && after == jobs + [after[at]]
        && after[at].seriesKey == Numeric(incoming.series, 0) && after[at].status == Queued)
  {
    var at, after := Find(jobs, Canonical(incoming.series), 0), Enqueue(jobs, incoming, priority);
    if at < |jobs| {
      MergeIntoWork(jobs[at], incoming, priority);
    } else {
      WorkParts(after[at]);
    }
  }

  /** The active job of the series takes the smaller, more urgent of both priorities, a new one the request's. */
  lemma {:induction false} EnqueueTakesUrgency(jobs: seq<Job>, incoming: Payload, priority: int)
    ensures var at, after := Find(jobs, Canonical(incoming.series), 0), Enqueue(jobs, incoming, priority);
      && at < |after| && after[at].priority <= priority
      && (at < |jobs| ==>
           after[at].priority <= jobs[at].priority && after[at].priority in {priority, jobs[at].priority})
      && (at == |jobs| ==>
           after[at].priority == priority && after[at].payload == incoming && after[at].pending == None)
      && (at < |jobs| && jobs[at].status != Leased ==>
           after[at].payload == Merge(incoming.series, [jobs[at].payload, incoming] + PayloadsOf(jobs[at])[1..]))
      && forall i :: 0 <= i < |jobs| && i != at ==> after[i] == jobs[i]
  {
  }

  /** Enqueueing adds exactly the incoming keys to the series, and nothing anywhere else. */
  lemma {:induction false} EnqueueConserves(heirs: Heirs, jobs: seq<Job>, incoming: Payload, priority: int,
                                            home: SeriesKey, k: string)
    requires FiledUnder(heirs, jobs, incoming.series)
    ensures Owed(heirs, Enqueue(jobs, incoming, priority), home, k) <==>
      || Owed(heirs, jobs, home, k)
      || (home == Home(heirs, Numeric(incoming.series, 0)) && k in Cleanup(incoming.obsolete))
  {
    var after := Enqueue(jobs, incoming, priority);
    var at := Find(jobs, Canonical(incoming.series), 0);
    EnqueuedRow(jobs, incoming, priority);
    assert Home(heirs, after[at].seriesKey) == Home(heirs, Numeric(incoming.series, 0)) && Active(after[at]);
    if home == Home(heirs, Numeric(incoming.series, 0)) && k in Cleanup(incoming.obsolete) {
      assert OwedAt(heirs, after[at], home, k);
    }
    if Owed(heirs, jobs, home, k) {
      var i: nat :| i < |jobs| && OwedAt(heirs, jobs[i], home, k);
      assert OwedAt(heirs, after[i], home, k);
    }
    if Owed(heirs, after, home, k) {
      var i: nat :| i < |after| && OwedAt(heirs, after[i], home, k);
      if i != at {
        assert OwedAt(heirs, jobs[i], home, k);
      }
    }
  }

  lemma {:induction false} EnqueueKeepsHealthy(heirs: Heirs, jobs: seq<Job>, incoming: Payload, priority: int)
    requires Healthy(heirs, jobs)
    ensures Healthy(heirs, Enqueue(jobs, incoming, priority))
  {
    EnqueuedRow(jobs, incoming, priority);
  }

  // ---------------------------------------------------------------- collapse

  lemma {:induction false} GroupWork(jobs: seq<Job>, group: seq<nat>, k: string)
    requires Rows(jobs, group)
    ensures k in CleanupOf(GroupPayloads(jobs, group)) <==>
      exists g: nat :: g < |group| && k in Work(jobs[group[g]])
  {
    if group != [] {
      var before, last := group[..|group| - 1], group[|group| - 1];
      GroupWork(jobs, before, k);
      CleanupSplit(GroupPayloads(jobs, before), PayloadsOf(jobs[last]));
      if g: nat :| g < |before| && k in Work(jobs[before[g]]) {
        assert group[g] == before[g];
      }
      if g: nat :| g < |group| && k in Work(jobs[group[g]]) {
        if g < |before| {
          assert k in Work(jobs[before[g]]);
        }
      }
    }
  }

  lemma {:induction false} MemberWork(jobs: seq<Job>, group: seq<nat>, g: nat)
    requires Rows(jobs, group) && g < |group|
    ensures Work(jobs[group[g]]) <= CleanupOf(GroupPayloads(jobs, group))
  {
    forall x | x in Work(jobs[group[g]]) ensures x in CleanupOf(GroupPayloads(jobs, group)) {
      GroupWork(jobs, group, x);
    }
  }

  lemma {:induction false} KeptWork(job: Job, series: SeriesId, merged: Payload)
    requires Work(job) <= Cleanup(merged.obsolete) && "" !in merged.obsolete
    ensures Work(Kept(job, series, merged)) == Cleanup(merged.obsolete)
  {
    WorkParts(job);
    WorkParts(Kept(job, series, merged));
  }

  /** What collapsing makes of the keeper: all work of its group. */
  lemma {:induction false} KeeperTakesGroup(jobs: seq<Job>, at: nat, k: string)
    requires at < |jobs| && Active(jobs[at]) && jobs[at].seriesKey.Numeric?
    ensures var group := Members(jobs, jobs[at].seriesKey, |jobs|);
      && at in group
      && var row := CollapsedRow(jobs, Keeper(jobs, group));
      && Active(row) && row.seriesKey == jobs[at].seriesKey && row.dedupe == Canonical(jobs[at].seriesKey.id)
      && (k in Work(row) <==> exists g: nat :: g < |group| && k in Work(jobs[group[g]]))
  {
    var key := jobs[at].seriesKey;
    var group := Members(jobs, key, |jobs|);
    MembersExact(jobs, key, at);
    var keeper := Keeper(jobs, group);
    MembersExact(jobs, key, keeper);
    var place :| 0 <= place < |group| && group[place] == keeper;
    GroupWork(jobs, group, k);
    if !Settled(jobs, key.id, group) {
      var payloads := GroupPayloads(jobs, group);
      MergeConserves(key.id, payloads);
      MemberWork(jobs, group, place);
      KeptWork(jobs[keeper], key.id, Merge(key.id, payloads));
    }
  }

  /** A collapse changes the work of no series. */
  lemma {:induction false} CollapseConserves(heirs: Heirs, jobs: seq<Job>, home: SeriesKey, k: string)
    ensures Owed(heirs, Collapse(jobs), home, k) <==> Owed(heirs, jobs, home, k)
  {
    var after := Collapse(jobs);
    if i: nat :| i < |jobs| && OwedAt(heirs, jobs[i], home, k) {
      var j := StillOwed(heirs, jobs, i, home, k);
      assert OwedAt(heirs, after[j], home, k);
    }
    if i: nat :| i < |after| && OwedAt(heirs, after[i], home, k) {
      var j := OwedBefore(heirs, jobs, i, home, k);
    }
  }

  lemma {:induction false} StillOwed(heirs: Heirs, jobs: seq<Job>, i: nat, home: SeriesKey, k: string) returns (j: nat)
    requires i < |jobs| && OwedAt(heirs, jobs[i], home, k)
    ensures j < |jobs| && OwedAt(heirs, CollapsedRow(jobs, j), home, k)
  {
    j := i;
    if jobs[i].seriesKey.Numeric? {
      KeeperTakesGroup(jobs, i, k);
      var group := Members(jobs, jobs[i].seriesKey, |jobs|);
      var g: nat :| g < |group| && group[g] == i;
      j := Keeper(jobs, group);
    }
  }

  lemma {:induction false} OwedBefore(heirs: Heirs, jobs: seq<Job>, i: nat, home: SeriesKey, k: string) returns (j: nat)
    requires i < |jobs| && OwedAt(heirs, CollapsedRow(jobs, i), home, k)
    ensures j < |jobs| && OwedAt(heirs, jobs[j], home, k)
  {
    j := i;
    if jobs[i].seriesKey.Numeric? {
      SurvivorIsKeeper(jobs, i);
      KeeperTakesGroup(jobs, i, k);
      var group := Members(jobs, jobs[i].seriesKey, |jobs|);
      var g: nat :| g < |group| && k in Work(jobs[group[g]]);
      j := group[g];
    }
  }

  /** The one row of a numeric series key that stays active is the keeper of its group. */
  lemma {:induction false} SurvivorIsKeeper(jobs: seq<Job>, i: nat)
    requires i < |jobs| && Active(CollapsedRow(jobs, i)) && jobs[i].seriesKey.Numeric?
    ensures Active(jobs[i]) && Members(jobs, jobs[i].seriesKey, |jobs|) != []
    ensures i == Keeper(jobs, Members(jobs, jobs[i].seriesKey, |jobs|))
  {
    MembersExact(jobs, jobs[i].seriesKey, i);
  }

  ghost predicate OnlyJob(jobs: seq<Job>, key: SeriesKey, at: nat)
    requires at < |jobs|
  {
    Files(jobs[at], key) && forall j: nat :: j < |jobs| && Files(jobs[j], key) ==> j == at
  }

  /** After a collapse every numeric series key has at most one active job, and one if it had any. */
  lemma {:induction false} CollapseLeavesOne(jobs: seq<Job>, i: nat)
    requires i < |jobs| && Active(jobs[i]) && jobs[i].seriesKey.Numeric?
    ensures exists keeper: nat :: keeper < |jobs| && OnlyJob(Collapse(jobs), jobs[i].seriesKey, keeper)
  {
    KeeperTakesGroup(jobs, i, "");
    var keeper := Keeper(jobs, Members(jobs, jobs[i].seriesKey, |jobs|));
    forall j: nat | j < |jobs| && Files(Collapse(jobs)[j], jobs[i].seriesKey) ensures j == keeper {
      SurvivorIsKeeper(jobs, j);
    }
    assert OnlyJob(Collapse(jobs), jobs[i].seriesKey, keeper);
  }

  lemma {:induction false} LeasedMemberLeasedKeeper(jobs: seq<Job>, group: seq<nat>, g: nat)
    requires Rows(jobs, group) && g < |group| && jobs[group[g]].status == Leased
    ensures jobs[Keeper(jobs, group)].status == Leased
  {
    if g > 0 {
      LeasedMemberLeasedKeeper(jobs, group[1..], g - 1);
    }
  }

  /** A worker never loses its lease to a collapse. */
  lemma {:induction false} CollapseKeepsLeases(jobs: seq<Job>, i: nat)
    requires OneLease(jobs) && i < |jobs|
    ensures Collapse(jobs)[i].status == Leased <==> jobs[i].status == Leased
  {
    if jobs[i].status == Leased && jobs[i].seriesKey.Numeric? {
      var group := Members(jobs, jobs[i].seriesKey, |jobs|);
      MembersExact(jobs, jobs[i].seriesKey, i);
      var g :| 0 <= g < |group| && group[g] == i;
      LeasedMemberLeasedKeeper(jobs, group, g);
      MembersExact(jobs, jobs[i].seriesKey, Keeper(jobs, group));
    }
  }

  /** No number is spelled two ways among the active jobs. */
  ghost predicate SpelledOnce(jobs: seq<Job>) {
    forall i: nat, j: nat :: i < |jobs| && j < |jobs| ==> !SpelledTwiceAt(jobs[i], jobs[j])
  }

  ghost predicate SpelledTwiceAt(job: Job, other: Job) {
    && Active(job) && Active(other) && job.seriesKey.Numeric? && other.seriesKey.Numeric?
    && job.seriesKey.id == other.seriesKey.id && job.seriesKey != other.seriesKey
  }

  ghost predicate Lists(order: seq<SeriesKey>, jobs: seq<Job>) {
    forall i: nat :: i < |jobs| && Active(jobs[i]) && jobs[i].seriesKey.Numeric? ==> jobs[i].seriesKey in order
  }

  /** The table when the first `n` groups have been collapsed. */
  ghost function Stage(jobs: seq<Job>, order: seq<SeriesKey>, n: nat): seq<Job>
    requires n <= |order|
  {
    CollapsedFor(jobs, set key | key in order[..n])
  }

  /** A collapse writes the new dedupe key of each group before it turns to the next one. */
  ghost predicate StagesRespectIndex(jobs: seq<Job>, order: seq<SeriesKey>) {
    forall n: nat :: n <= |order| ==> UniqueDedupe(Stage(jobs, order, n))
  }

  /** The job's group is among the first `n`; text that is no number is passed over. */
  ghost predicate Collapsed(job: Job, order: seq<SeriesKey>, n: nat)
    requires n <= |order|
  {
    job.seriesKey.Numeric? && job.seriesKey in order[..n]
  }

  /**
   When group `p` gets its canonical key, job `j` of another group still holds it: a job left from a
   series merge or misfiled, whose own group has not been collapsed yet.
   */
  ghost predicate StrayAt(jobs: seq<Job>, order: seq<SeriesKey>, p: nat, j: nat) {
    && p < |order| && j < |jobs| && order[p].Numeric? && (exists i: nat :: i < |jobs| && Files(jobs[i], order[p]))
    && Holds(jobs[j], Canonical(order[p].id)) && !Collapsed(jobs[j], order, p + 1)
  }

  ghost predicate NoStray(jobs: seq<Job>, order: seq<SeriesKey>) {
    forall p: nat, j: nat :: !StrayAt(jobs, order, p, j)
  }

  lemma {:induction false} CollapsedDedupe(jobs: seq<Job>, i: nat)
    requires i < |jobs| && Active(CollapsedRow(jobs, i))
    ensures var row := CollapsedRow(jobs, i);
      && Active(jobs[i]) && row.seriesKey == jobs[i].seriesKey
      && (if row.seriesKey.Numeric? then row.dedupe == Canonical(row.seriesKey.id) else row == jobs[i])
  {
    if jobs[i].seriesKey.Numeric? {
      SurvivorIsKeeper(jobs, i);
      KeeperTakesGroup(jobs, i, "");
    }
  }

  lemma {:induction false} PrefixGrows(job: Job, order: seq<SeriesKey>, m: nat, n: nat)
    requires m <= n <= |order|
    ensures Collapsed(job, order, m) ==> Collapsed(job, order, n)
  {
    if Collapsed(job, order, m) {
      var q: nat :| q < m && order[..m][q] == job.seriesKey;
      assert order[..n][q] == job.seriesKey;
    }
  }

  /** One group's new dedupe key against the rest of the table at that stage. */
  lemma {:induction false} StageKeepsApart(jobs: seq<Job>, order: seq<SeriesKey>, n: nat, i: nat, j: nat)
    requires UniqueDedupe(jobs) && SpelledOnce(jobs) && NoStray(jobs, order)
    requires n <= |order| && i < |jobs| && j < |jobs| && i != j
    requires Active(Stage(jobs, order, n)[i]) && Active(Stage(jobs, order, n)[j])
    requires Collapsed(jobs[i], order, n)
    ensures Stage(jobs, order, n)[i].dedupe != Stage(jobs, order, n)[j].dedupe
  {
    CollapsedDedupe(jobs, i);
    if Collapsed(jobs[j], order, n) {
      CollapsedDedupe(jobs, j);
    }
    if jobs[j].seriesKey == jobs[i].seriesKey {
      SurvivorIsKeeper(jobs, i);
      SurvivorIsKeeper(jobs, j);
    } else if !Collapsed(jobs[j], order, n) {
      var p: nat :| p < n && order[p] == jobs[i].seriesKey;
      assert Files(jobs[i], order[p]) && !StrayAt(jobs, order, p, j);
      PrefixGrows(jobs[j], order, p + 1, n);
    }
  }

  /** Once its group is collapsed, an active job's keeper holds the canonical key of its number. */
  lemma {:induction false} KeeperHolds(jobs: seq<Job>, order: seq<SeriesKey>, n: nat, i: nat) returns (keeper: nat)
    requires n <= |order| && i < |jobs| && Active(jobs[i]) && Collapsed(jobs[i], order, n)
    ensures keeper < |jobs| && jobs[keeper].seriesKey == jobs[i].seriesKey
    ensures Holds(Stage(jobs, order, n)[keeper], Canonical(jobs[i].seriesKey.id))
  {
    KeeperTakesGroup(jobs, i, "");
    keeper := Keeper(jobs, Members(jobs, jobs[i].seriesKey, |jobs|));
    CollapsedDedupe(jobs, keeper);
  }

  lemma {:induction false} SpelledTwiceBreaks(jobs: seq<Job>, order: seq<SeriesKey>, i: nat, j: nat)
    requires Lists(order, jobs) && i < |jobs| && j < |jobs| && SpelledTwiceAt(jobs[i], jobs[j])
    ensures !UniqueDedupe(Stage(jobs, order, |order|))
  {
    assert order[..|order|] == order;
    var a := KeeperHolds(jobs, order, |order|, i);
    var b := KeeperHolds(jobs, order, |order|, j);
    assert a != b;
  }

  lemma {:induction false} StrayBreaks(jobs: seq<Job>, order: seq<SeriesKey>, p: nat, j: nat)
    requires StrayAt(jobs, order, p, j)
    ensures !UniqueDedupe(Stage(jobs, order, p + 1))
  {
    var i: nat :| i < |jobs| && Files(jobs[i], order[p]);
    assert order[..p + 1][p] == order[p];
    var a := KeeperHolds(jobs, order, p + 1, i);
    assert a != j && Holds(Stage(jobs, order, p + 1)[j], Canonical(order[p].id));
  }

  /**
   A collapse that takes the groups in a given order respects the unique dedupe index throughout
   exactly when no number is spelled two ways and no stray job holds a key that is being assigned.
   */
  lemma {:induction false} CollapseRespectsIndexExactlyWhen(jobs: seq<Job>, order: seq<SeriesKey>)
    requires UniqueDedupe(jobs) && Lists(order, jobs)
    ensures StagesRespectIndex(jobs, order) <==> SpelledOnce(jobs) && NoStray(jobs, order)
  {
    if SpelledOnce(jobs) && NoStray(jobs, order) {
      forall n: nat, i: nat, j: nat | n <= |order| && i < j < |jobs|
          && Active(Stage(jobs, order, n)[i]) && Active(Stage(jobs, order, n)[j])
        ensures Stage(jobs, order, n)[i].dedupe != Stage(jobs, order, n)[j].dedupe
      {
        if Collapsed(jobs[i], order, n) {
          StageKeepsApart(jobs, order, n, i, j);
        } else if Collapsed(jobs[j], order, n) {
          StageKeepsApart(jobs, order, n, j, i);
        }
      }
    }
    if i: nat, j: nat :| i < |jobs| && j < |jobs| && SpelledTwiceAt(jobs[i], jobs[j]) {
      SpelledTwiceBreaks(jobs, order, i, j);
    }
    if p: nat, j: nat :| StrayAt(jobs, order, p, j) {
      StrayBreaks(jobs, order, p, j);
    }
  }

  function Waiting(key: SeriesKey, dedupe: DedupeKey, series: SeriesId): Job {
    Job(Queued, key, dedupe, Payload(series, "download", []), None, 100)
  }

  /** Two spellings of one number break the index. */
  lemma {:induction false} SpelledTwiceRollsBack(jobs: seq<Job>)
    requires jobs == [Waiting(Numeric(7, 0), Legacy("a"), 7), Waiting(Numeric(7, 1), Legacy("b"), 7)]
    ensures UniqueDedupe(jobs) && !StagesRespectIndex(jobs, [Numeric(7, 0), Numeric(7, 1)])
  {
    assert SpelledTwiceAt(jobs[0], jobs[1]);
    CollapseRespectsIndexExactlyWhen(jobs, [Numeric(7, 0), Numeric(7, 1)]);
  }

  /** Two waiting jobs of their own series, of which the second holds the first one's canonical key. */
  ghost predicate StrayPair(jobs: seq<Job>, first: SeriesKey, second: SeriesKey) {
    && |jobs| == 2 && first.Numeric? && second.Numeric? && first.id != second.id
    && Files(jobs[0], first) && Files(jobs[1], second)
    && jobs[0].dedupe.Legacy? && jobs[1].dedupe == Canonical(first.id)
  }

  /** A stray job breaks the index when the group that needs its key comes first. */
  lemma {:induction false} StrayBreaksFirst(jobs: seq<Job>, first: SeriesKey, second: SeriesKey)
    requires StrayPair(jobs, first, second)
    ensures UniqueDedupe(jobs) && !StagesRespectIndex(jobs, [first, second])
  {
    var order := [first, second];
    assert Files(jobs[0], order[0]) && order[..1] == [first];
    assert StrayAt(jobs, order, 0, 1);
    StrayBreaks(jobs, order, 0, 1);
  }

  /** It does not when its own group comes first and gives the key up. */
  lemma {:induction false} StrayYieldsFirst(jobs: seq<Job>, first: SeriesKey, second: SeriesKey)
    requires StrayPair(jobs, first, second)
    ensures StagesRespectIndex(jobs, [second, first])
  {
    var order := [second, first];
    assert order[..1] == [second] && order[..2] == order;
    forall p: nat, j: nat ensures !StrayAt(jobs, order, p, j) {
    }
    CollapseRespectsIndexExactlyWhen(jobs, order);
  }

  /** A stray job breaks the index in one order and not in the other. */
  lemma {:induction false} StrayRollsBackInOneOrder(jobs: seq<Job>)
    requires jobs == [Waiting(Numeric(7, 0), Legacy("a"), 7), Waiting(Numeric(8, 0), Canonical(7), 8)]
    ensures UniqueDedupe(jobs)
    ensures !StagesRespectIndex(jobs, [Numeric(7, 0), Numeric(8, 0)])
    ensures StagesRespectIndex(jobs, [Numeric(8, 0), Numeric(7, 0)])
  {
    StrayBreaksFirst(jobs, Numeric(7, 0), Numeric(8, 0));
    StrayYieldsFirst(jobs, Numeric(7, 0), Numeric(8, 0));
  }

  lemma {:induction false} LastStage(jobs: seq<Job>, order: seq<SeriesKey>)
    requires Lists(order, jobs)
    ensures Stage(jobs, order, |order|) == Collapse(jobs)
  {
    assert order[..|order|] == order;
  }

  lemma {:induction false} CollapseKeepsFiled(heirs: Heirs, jobs: seq<Job>)
    requires Filed(heirs, jobs)
    ensures Filed(heirs, Collapse(jobs))
  {
    var after := Collapse(jobs);
    forall i: nat | i < |after| && Active(after[i]) && after[i].dedupe.Canonical?
      ensures Home(heirs, after[i].seriesKey) == Home(heirs, Numeric(after[i].dedupe.id, 0))
    {
      CollapsedDedupe(jobs, i);
    }
  }

  lemma {:induction false} CollapseKeepsOneLease(jobs: seq<Job>)
    requires OneLease(jobs)
    ensures OneLease(Collapse(jobs))
  {
    var after := Collapse(jobs);
    forall i: nat | i < |after|
      ensures (after[i].status == Leased <==> jobs[i].status == Leased) && after[i].seriesKey == jobs[i].seriesKey
    {
      CollapseKeepsLeases(jobs, i);
    }
  }

  // ---------------------------------------------------------------- series merges

  /** A series merge moves every row under the plain key of `source` to the target; dedupe keys stay. */
  ghost function Rekeyed(jobs: seq<Job>, source: SeriesId, target: SeriesId): seq<Job> {
    seq(|jobs|, i requires 0 <= i < |jobs| =>
      if jobs[i].seriesKey == Numeric(source, 0) then jobs[i].(seriesKey := Numeric(target, 0)) else jobs[i])
  }

  /** A merge is refused while a job of either series is leased; merged series do not come back. */
  ghost predicate Mergeable(heirs: Heirs, jobs: seq<Job>, source: SeriesId, target: SeriesId) {
    && source != target && source !in heirs && target !in heirs
    && forall i: nat :: i < |jobs| && jobs[i].status == Leased ==>
      jobs[i].seriesKey != Numeric(source, 0) && jobs[i].seriesKey != Numeric(target, 0)
  }

  ghost function Inherited(heirs: Heirs, source: SeriesId, target: SeriesId): Heirs {
    (map series | series in heirs :: if heirs[series] == source then target else heirs[series])[source := target]
  }

  ghost function Moved(home: SeriesKey, source: SeriesId, target: SeriesId): SeriesKey {
    if home == Numeric(source, 0) then Numeric(target, 0) else home
  }

  lemma {:induction false} RekeyedHome(heirs: Heirs, jobs: seq<Job>, source: SeriesId, target: SeriesId, i: nat)
    requires Mergeable(heirs, jobs, source, target) && i < |jobs|
    ensures Home(Inherited(heirs, source, target), Rekeyed(jobs, source, target)[i].seriesKey)
      == Moved(Home(heirs, jobs[i].seriesKey), source, target)
  {
  }

  /** What either series owed, the target owes afterwards; the source owes nothing. */
  lemma {:induction false} MergeMovesWork(heirs: Heirs, jobs: seq<Job>, source: SeriesId, target: SeriesId,
                                          home: SeriesKey, k: string)
    requires Mergeable(heirs, jobs, source, target)
    ensures Owed(Inherited(heirs, source, target), Rekeyed(jobs, source, target), home, k) <==>
      exists old_home :: Moved(old_home, source, target) == home && Owed(heirs, jobs, old_home, k)
  {
    var after, inherited := Rekeyed(jobs, source, target), Inherited(heirs, source, target);
    if i: nat :| i < |after| && OwedAt(inherited, after[i], home, k) {
      RekeyedHome(heirs, jobs, source, target, i);
      assert OwedAt(heirs, jobs[i], Home(heirs, jobs[i].seriesKey), k);
      assert Owed(heirs, jobs, Home(heirs, jobs[i].seriesKey), k);
    }
    if old_home :| Moved(old_home, source, target) == home && Owed(heirs, jobs, old_home, k) {
      var i: nat :| i < |jobs| && OwedAt(heirs, jobs[i], old_home, k);
      RekeyedHome(heirs, jobs, source, target, i);
      assert OwedAt(inherited, after[i], home, k);
    }
  }

  lemma {:induction false} MergeKeepsHealthy(heirs: Heirs, jobs: seq<Job>, source: SeriesId, target: SeriesId)
    requires Healthy(heirs, jobs) && Mergeable(heirs, jobs, source, target)
    ensures Healthy(Inherited(heirs, source, target), Rekeyed(jobs, source, target))
  {
    var after, inherited := Rekeyed(jobs, source, target), Inherited(heirs, source, target);
    forall i: nat | i < |after| && Active(after[i]) && after[i].dedupe.Canonical?
      ensures Home(inherited, after[i].seriesKey) == Home(inherited, Numeric(after[i].dedupe.id, 0))
    {
      RekeyedHome(heirs, jobs, source, target, i);
    }
  }

  // ---------------------------------------------------------------- whole runs

  type Tags = set<(SeriesKey, string)>

  /** The table, the series merged away, every key ever asked to be cleaned up, and every key some ended job held. */
  datatype World = World(jobs: seq<Job>, heirs: Heirs, requested: Tags, ended: Tags)

  datatype Event =
    | Request(incoming: Payload, priority: int)
    | Reconcile(order: seq<SeriesKey>)
    | Absorb(source: SeriesId, target: SeriesId)
    | Claim(at: nat)
    | Complete(at: nat)
    | Retry(at: nat)
    | Abandon(at: nat)

  ghost function Tagged(heirs: Heirs, key: SeriesKey, keys: set<string>): Tags {
    set k | k in keys :: (Home(heirs, key), k)
  }

  ghost function MovedTags(tags: Tags, source: SeriesId, target: SeriesId): Tags {
    set tag | tag in tags :: (Moved(tag.0, source, target), tag.1)
  }

  ghost predicate Claimable(jobs: seq<Job>, at: nat) {
    && at < |jobs| && jobs[at].status in {Queued, RetryWait}
    && forall i: nat :: i < |jobs| && jobs[i].status == Leased ==>
      jobs[i].seriesKey != jobs[at].seriesKey || jobs[i].seriesKey == Blank
  }

  /** A job that succeeds with pending work goes back to the queue with it. */
  ghost function Completed(job: Job): Job {
    if job.pending.Some? then job.(payload := job.pending.value, pending := None, status := Queued)
    else job.(status := Succeeded)
  }

  /** A collapse that breaks the unique index on its way is rolled back; a series merge may be refused. */
  ghost function Do(w: World, e: Event): World {
    match e
    case Request(incoming, priority) =>
      w.(jobs := Enqueue(w.jobs, incoming, priority),
         requested := w.requested + Tagged(w.heirs, Numeric(incoming.series, 0), Cleanup(incoming.obsolete)))
    case Reconcile(order) =>
      if Lists(order, w.jobs) && StagesRespectIndex(w.jobs, order) then w.(jobs := Collapse(w.jobs)) else w
    case Absorb(source, target) =>
      if Mergeable(w.heirs, w.jobs, source, target) then
        World(Rekeyed(w.jobs, source, target), Inherited(w.heirs, source, target),
              MovedTags(w.requested, source, target), MovedTags(w.ended, source, target))
      else w
    case Claim(at) =>
      if Claimable(w.jobs, at) then w.(jobs := w.jobs[at := w.jobs[at].(status := Leased)]) else w
    case Complete(at) =>
      if at < |w.jobs| && w.jobs[at].status == Leased then
        w.(jobs := w.jobs[at := Completed(w.jobs[at])],
           ended := w.ended + Tagged(w.heirs, w.jobs[at].seriesKey, Cleanup(w.jobs[at].payload.obsolete)))
      else w
    case Retry(at) =>
      if at < |w.jobs| && w.jobs[at].status == Leased then
        w.(jobs := w.jobs[at := w.jobs[at].(status := RetryWait)])
      else w
    case Abandon(at) =>
      if at < |w.jobs| && Active(w.jobs[at]) then
        w.(jobs := w.jobs[at := w.jobs[at].(status := Failed)],
           ended := w.ended + Tagged(w.heirs, w.jobs[at].seriesKey, Work(w.jobs[at])))
      else w
  }

  ghost function Run(w: World, events: seq<Event>): World {
    if events == [] then w else Do(Run(w, events[..|events| - 1]), events[|events| - 1])
  }

  ghost predicate BalancedAt(w: World, home: SeriesKey, k: string) {
    (home, k) in w.requested <==> Owed(w.heirs, w.jobs, home, k) || (home, k) in w.ended
  }

  ghost predicate Balanced(w: World) { forall home, k :: BalancedAt(w, home, k) }

  /** Changing one row, when the work it loses is booked as ended. */
  lemma {:induction false} RowChange(heirs: Heirs, jobs: seq<Job>, at: nat, row: Job, home: SeriesKey, k: string)
    requires at < |jobs|
    requires OwedAt(heirs, row, home, k) ==> OwedAt(heirs, jobs[at], home, k)
    ensures Owed(heirs, jobs[at := row], home, k) ==> Owed(heirs, jobs, home, k)
    ensures Owed(heirs, jobs, home, k) ==> Owed(heirs, jobs[at := row], home, k) || OwedAt(heirs, jobs[at], home, k)
    ensures OwedAt(heirs, row, home, k) ==> Owed(heirs, jobs[at := row], home, k)
    ensures OwedAt(heirs, jobs[at], home, k) ==> Owed(heirs, jobs, home, k)
  {
    var after := jobs[at := row];
    if i: nat :| i < |after| && OwedAt(heirs, after[i], home, k) {
      assert OwedAt(heirs, jobs[i], home, k);
    }
    if i: nat :| i < |jobs| && OwedAt(heirs, jobs[i], home, k) {
      assert i == at || OwedAt(heirs, after[i], home, k);
    }
    assert after[at] == row;
  }

  lemma {:induction false} CompletedWork(job: Job)
    ensures Active(Completed(job)) ==>
      Work(Completed(job)) <= Work(job) <= Work(Completed(job)) + Cleanup(job.payload.obsolete)
    ensures !Active(Completed(job)) ==> Work(job) == Cleanup(job.payload.obsolete)
  {
    WorkParts(job);
    WorkParts(Completed(job));
  }

  lemma {:induction false} MergeBalances(w: World, source: SeriesId, target: SeriesId, home: SeriesKey, k: string)
    requires Balanced(w) && Mergeable(w.heirs, w.jobs, source, target)
    ensures BalancedAt(Do(w, Absorb(source, target)), home, k)
  {
    MergeMovesWork(w.heirs, w.jobs, source, target, home, k);
    var a, b := Numeric(source, 0), Numeric(target, 0);
    assert BalancedAt(w, a, k) && BalancedAt(w, b, k) && BalancedAt(w, home, k);
    MovedTag(w.requested, source, target, home, k);
    MovedTag(w.ended, source, target, home, k);
    if home != a {
      assert Moved(home, source, target) == home && (home == b ==> Moved(a, source, target) == home);
    }
  }

  lemma {:induction false} MovedTag(tags: Tags, source: SeriesId, target: SeriesId, home: SeriesKey, k: string)
    requires source != target
    ensures (home, k) in MovedTags(tags, source, target) <==>
      && home != Numeric(source, 0)
      && ((home, k) in tags || (home == Numeric(target, 0) && (Numeric(source, 0), k) in tags))
  {
    var after, a := MovedTags(tags, source, target), Numeric(source, 0);
    if (home, k) in tags && home != a {
      assert (Moved((home, k).0, source, target), (home, k).1) in after;
    }
    if home == Numeric(target, 0) && (a, k) in tags {
      assert (Moved((a, k).0, source, target), (a, k).1) in after;
    }
  }

  lemma {:induction false} DoBalances(w: World, e: Event, home: SeriesKey, k: string)
    requires Filed(w.heirs, w.jobs) && Balanced(w)
    ensures BalancedAt(Do(w, e), home, k)
  {
    assert BalancedAt(w, home, k);
    match e
    case Request(incoming, priority) => EnqueueConserves(w.heirs, w.jobs, incoming, priority, home, k);
    case Reconcile(order) => CollapseConserves(w.heirs, w.jobs, home, k);
    case Absorb(source, target) =>
      if Mergeable(w.heirs, w.jobs, source, target) {
        MergeBalances(w, source, target, home, k);
      }
    case Claim(at) =>
      if Claimable(w.jobs, at) {
        RowChange(w.heirs, w.jobs, at, w.jobs[at].(status := Leased), home, k);
      }
    case Complete(at) =>
      if at < |w.jobs| && w.jobs[at].status == Leased {
        CompletedWork(w.jobs[at]);
        WorkParts(w.jobs[at]);
        RowChange(w.heirs, w.jobs, at, Completed(w.jobs[at]), home, k);
      }
    case Retry(at) =>
      if at < |w.jobs| && w.jobs[at].status == Leased {
        RowChange(w.heirs, w.jobs, at, w.jobs[at].(status := RetryWait), home, k);
      }
    case Abandon(at) =>
      if at < |w.jobs| && Active(w.jobs[at]) {
        RowChange(w.heirs, w.jobs, at, w.jobs[at].(status := Failed), home, k);
      }
  }

  lemma {:induction false} DoKeepsHealthy(w: World, e: Event)
    requires Healthy(w.heirs, w.jobs)
    ensures Healthy(Do(w, e).heirs, Do(w, e).jobs)
  {
    match e
    case Request(incoming, priority) => EnqueueKeepsHealthy(w.heirs, w.jobs, incoming, priority);
    case Absorb(source, target) =>
      if Mergeable(w.heirs, w.jobs, source, target) {
        MergeKeepsHealthy(w.heirs, w.jobs, source, target);
      }
    case Reconcile(order) =>
      if Lists(order, w.jobs) && StagesRespectIndex(w.jobs, order) {
        LastStage(w.jobs, order);
        CollapseKeepsFiled(w.heirs, w.jobs);
        CollapseKeepsOneLease(w.jobs);
      }
    case _ =>
  }

  /**
   Over every run of requests, collapses, series merges, claims, completions, retries and failures,
   the keys ever requested for a series or the series merged into it are exactly those its active jobs
   still owe and those some ended job held.
   */
  lemma {:induction false} RunsConserveCleanup(w: World, events: seq<Event>)
    requires Healthy(w.heirs, w.jobs) && Balanced(w)
    ensures Healthy(Run(w, events).heirs, Run(w, events).jobs) && Balanced(Run(w, events))
  {
    if events != [] {
      var before, last := events[..|events| - 1], events[|events| - 1];
      RunsConserveCleanup(w, before);
      var now := Run(w, before);
      DoKeepsHealthy(now, last);
      forall home, k ensures BalancedAt(Do(now, last), home, k) {
        DoBalances(now, last, home, k);
      }
    }
  }

  // ---------------------------------------------------------------- no rollback

  /**
   Series keys are spelled plainly; only a series that was merged away leaves its canonical key on
   another series' job, and then no job is filed under that series.
   */
  ghost predicate Tidy(heirs: Heirs, jobs: seq<Job>) {
    && (forall i: nat :: i < |jobs| && Active(jobs[i]) && jobs[i].seriesKey.Numeric? ==>
      jobs[i].seriesKey.spelling == 0)
    && (forall i: nat :: i < |jobs| && Active(jobs[i]) && jobs[i].dedupe.Canonical? && jobs[i].dedupe.id !in heirs ==>
      jobs[i].seriesKey == Numeric(jobs[i].dedupe.id, 0))
    && forall i: nat, j: nat :: i < |jobs| && j < |jobs| && Active(jobs[i]) && jobs[i].seriesKey.Numeric? ==>
      Holds(jobs[j], Canonical(jobs[i].seriesKey.id)) ==> jobs[j].seriesKey == jobs[i].seriesKey
  }

  lemma {:induction false} CollapseKeepsTidy(heirs: Heirs, jobs: seq<Job>)
    requires Tidy(heirs, jobs)
    ensures Tidy(heirs, Collapse(jobs))
  {
    var after := Collapse(jobs);
    forall i: nat | i < |after| && Active(after[i])
      ensures Active(jobs[i]) && after[i].seriesKey == jobs[i].seriesKey
      ensures if after[i].seriesKey.Numeric? then after[i].dedupe == Canonical(after[i].seriesKey.id)
        else after[i] == jobs[i]
    {
      CollapsedDedupe(jobs, i);
    }
  }

  lemma {:induction false} EnqueueKeepsTidy(heirs: Heirs, jobs: seq<Job>, incoming: Payload, priority: int)
    requires Tidy(heirs, jobs)
    ensures Tidy(heirs, Enqueue(jobs, incoming, priority))
  {
    EnqueuedRow(jobs, incoming, priority);
  }

  lemma {:induction false} DoKeepsTidy(w: World, e: Event)
    requires Tidy(w.heirs, w.jobs)
    ensures Tidy(Do(w, e).heirs, Do(w, e).jobs)
  {
    match e
    case Request(incoming, priority) => EnqueueKeepsTidy(w.heirs, w.jobs, incoming, priority);
    case Reconcile(order) => CollapseKeepsTidy(w.heirs, w.jobs);
    case _ =>
  }

  /** From a tidy table no run ever comes to a collapse that is rolled back, series merges included. */
  lemma {:induction false} TidyRunsNeverRollBack(w: World, events: seq<Event>, order: seq<SeriesKey>)
    requires Healthy(w.heirs, w.jobs) && Tidy(w.heirs, w.jobs) && Lists(order, Run(w, events).jobs)
    ensures StagesRespectIndex(Run(w, events).jobs, order)
  {
    var now := TidyRuns(w, events);
    forall p: nat, j: nat ensures !StrayAt(now.jobs, order, p, j) {
      assert p < |order| ==> order[..p + 1][p] == order[p];
    }
    CollapseRespectsIndexExactlyWhen(now.jobs, order);
  }

  lemma {:induction false} TidyRuns(w: World, events: seq<Event>) returns (now: World)
    requires Healthy(w.heirs, w.jobs) && Tidy(w.heirs, w.jobs)
    ensures now == Run(w, events) && Healthy(now.heirs, now.jobs) && Tidy(now.heirs, now.jobs)
  {
    now := w;
    if events != [] {
      var before := TidyRuns(w, events[..|events| - 1]);
      now := Do(before, events[|events| - 1]);
      DoKeepsHealthy(before, events[|events| - 1]);
      DoKeepsTidy(before, events[|events| - 1]);
    }
  }

  // ---------------------------------------------------------------- running jobs

  /** Neither a request nor a collapse changes what a running job is working on. */
  lemma {:induction false} RunningPayloadStands(jobs: seq<Job>, incoming: Payload, priority: int, i: nat)
    requires OneLease(jobs) && i < |jobs| && jobs[i].status == Leased
    ensures Enqueue(jobs, incoming, priority)[i].payload == jobs[i].payload
    ensures Collapse(jobs)[i].payload == jobs[i].payload && Collapse(jobs)[i].priority == jobs[i].priority
  {
    CollapseKeepsLeases(jobs, i);
  }

  /** An active job of the same series key has a key to clean up that this one does not have. */
  ghost predicate BringsMore(jobs: seq<Job>, i: nat, g: nat, k: string)
    requires i < |jobs|
  {
    g < |jobs| && Files(jobs[g], jobs[i].seriesKey) && k in Work(jobs[g]) && k !in Work(jobs[i])
  }

  /** A collapse gives a running job pending work exactly when its group brings a key it does not have yet. */
  lemma {:induction false} RunningJobGainsExactlyWhen(jobs: seq<Job>, i: nat)
    requires OneLease(jobs) && i < |jobs| && jobs[i].status == Leased && jobs[i].seriesKey.Numeric?
    ensures Collapse(jobs)[i].pending != jobs[i].pending <==> exists g: nat, k :: BringsMore(jobs, i, g, k)
  {
    CollapseKeepsLeases(jobs, i);
    SurvivorIsKeeper(jobs, i);
    var group := Members(jobs, jobs[i].seriesKey, |jobs|);
    if Collapse(jobs)[i].pending != jobs[i].pending {
      var g, k := GainFrom(jobs, i, group);
    }
    if g: nat, k :| BringsMore(jobs, i, g, k) {
      MembersExact(jobs, jobs[i].seriesKey, g);
      var a: nat :| a < |group| && group[a] == g;
      KeeperTakesGroup(jobs, i, k);
      RunningPayloadStands(jobs, jobs[i].payload, 0, i);
      WorkParts(jobs[i]);
      WorkParts(Collapse(jobs)[i]);
    }
  }

  lemma {:induction false} GainFrom(jobs: seq<Job>, i: nat, group: seq<nat>) returns (g: nat, k: string)
    requires i < |jobs| && jobs[i].seriesKey.Numeric? && group == Members(jobs, jobs[i].seriesKey, |jobs|)
    requires group != [] && i == Keeper(jobs, group) && jobs[i].status == Leased && Active(jobs[i])
    requires Collapse(jobs)[i].pending != jobs[i].pending
    ensures BringsMore(jobs, i, g, k)
  {
    var payloads := GroupPayloads(jobs, group);
    var merged := Merge(jobs[i].seriesKey.id, payloads);
    MergeConserves(jobs[i].seriesKey.id, payloads);
    WorkParts(jobs[i]);
    k :| k in merged.obsolete && k !in jobs[i].payload.obsolete
      && !(jobs[i].pending.Some? && k in jobs[i].pending.value.obsolete);
    assert k in Cleanup(merged.obsolete);
    GroupWork(jobs, group, k);
    var a: nat :| a < |group| && k in Work(jobs[group[a]]);
    g := group[a];
  }
}
