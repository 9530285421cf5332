/** The repair rows of the job table, in id order, and the two operations that coalesce them. */
module RepairQueue {

  import opened Options
  import opened LibraryRepair
  import opened Sequences

  function PayloadsOf(job: Job): seq<Payload> {
    [job.payload] + if job.pending.Some? then [job.pending.value] else []
  }

  // ---------------------------------------------------------------- enqueue

  /** A leased job keeps the payload it is working on and collects new work as pending. */
  function MergeInto(job: Job, incoming: Payload, priority: int): Job {
    var merged := Merge(incoming.series, [job.payload, incoming] + PayloadsOf(job)[1..]);
    var current := if job.status == Leased && job.pending.Some? then job.pending.value else job.payload;
    var urgent := job.(priority := if priority < job.priority then priority else job.priority);
    if merged == current then urgent
    else if job.status == Leased then urgent.(pending := Some(merged))
    else urgent.(payload := merged)
  }

  predicate Holds(job: Job, dedupe: DedupeKey) { Active(job) && job.dedupe == dedupe }

  /** The first row at or after `from` that is active under the dedupe key, or the table's length. */
  function Find(jobs: seq<Job>, dedupe: DedupeKey, from: nat): (at: nat)
    requires from <= |jobs|
    ensures from <= at <= |jobs| && (at < |jobs| ==> Holds(jobs[at], dedupe))
    ensures forall i :: from <= i < at ==> !Holds(jobs[i], dedupe)
    decreases |jobs| - from
  {
    if from == |jobs| || Holds(jobs[from], dedupe) then from else Find(jobs, dedupe, from + 1)
  }

  function Enqueue(jobs: seq<Job>, incoming: Payload, priority: int): seq<Job> {
    var at := Find(jobs, Canonical(incoming.series), 0);
    if at < |jobs| then jobs[at := MergeInto(jobs[at], incoming, priority)]
    else jobs + [Job(Queued, Numeric(incoming.series, 0), Canonical(incoming.series), incoming, None, priority)]
  }

  // ---------------------------------------------------------------- collapse

  predicate Files(job: Job, key: SeriesKey) { Active(job) && job.seriesKey == key }

  /** The active rows of one series key, in id order. */
  function Members(jobs: seq<Job>, key: SeriesKey, n: nat): (group: seq<nat>)
    requires n <= |jobs|
    ensures Rows(jobs, group) && AllFile(jobs, key, group)
  {
    if n == 0 then []
    else Members(jobs, key, n - 1) + if Files(jobs[n - 1], key) then [n - 1] else []
  }

  predicate Rows(jobs: seq<Job>, group: seq<nat>) { forall g :: 0 <= g < |group| ==> group[g] < |jobs| }

  predicate AllFile(jobs: seq<Job>, key: SeriesKey, group: seq<nat>)
    requires Rows(jobs, group)
  {
    forall g :: 0 <= g < |group| ==> Files(jobs[group[g]], key)
  }

  lemma {:induction false} MembersComplete(jobs: seq<Job>, key: SeriesKey, n: nat, i: nat)
    requires i < n <= |jobs| && Files(jobs[i], key)
    ensures i in Members(jobs, key, n)
  {
    if i < n - 1 {
      MembersComplete(jobs, key, n - 1, i);
    }
  }

  lemma {:induction false} MembersExact(jobs: seq<Job>, key: SeriesKey, i: nat)
    requires i < |jobs|
    ensures i in Members(jobs, key, |jobs|) <==> Files(jobs[i], key)
  {
    if Files(jobs[i], key) {
      MembersComplete(jobs, key, |jobs|, i);
    }
  }

  lemma {:induction false} MembersIncrease(jobs: seq<Job>, key: SeriesKey, n: nat)
    requires n <= |jobs|
    ensures Ascending(Members(jobs, key, n))
    ensures forall g :: 0 <= g < |Members(jobs, key, n)| ==> Members(jobs, key, n)[g] < n
  {
    if n > 0 {
      MembersIncrease(jobs, key, n - 1);
    }
  }

  /** The first leased row of the group, otherwise its first row. */
  function Keeper(jobs: seq<Job>, group: seq<nat>): (keeper: nat)
    requires group != [] && Rows(jobs, group)
    ensures keeper in group
  {
    if jobs[group[0]].status == Leased || |group| == 1 then group[0]
    else
      var rest := Keeper(jobs, group[1..]);
      if jobs[rest].status == Leased then rest else group[0]
  }

  function GroupPayloads(jobs: seq<Job>, group: seq<nat>): seq<Payload>
    requires Rows(jobs, group)
  {
    if group == [] then []
    else GroupPayloads(jobs, group[..|group| - 1]) + PayloadsOf(jobs[group[|group| - 1]])
  }

  /** A leased keeper takes the merge as pending only if it brings keys it does not have. */
  function Kept(job: Job, series: SeriesId, merged: Payload): Job {
    var renamed := job.(dedupe := Canonical(series));
    if job.status == Leased then
      if forall k :: k in merged.obsolete ==>
        k in job.payload.obsolete || (job.pending.Some? && k in job.pending.value.obsolete)
      then renamed
      else renamed.(pending := Some(merged))
    else renamed.(payload := merged, pending := None)
  }

  predicate Settled(jobs: seq<Job>, series: SeriesId, group: seq<nat>)
    requires group != [] && Rows(jobs, group)
  {
    |group| == 1 && jobs[group[0]].dedupe == Canonical(series)
  }

  function CollapsedRow(jobs: seq<Job>, at: nat): Job
    requires at < |jobs|
  {
    var job := jobs[at];
    if !Active(job) || !job.seriesKey.Numeric? then job
    else
      var group := Members(jobs, job.seriesKey, |jobs|);
      var series := job.seriesKey.id;
      MembersExact(jobs, job.seriesKey, at);
      if Settled(jobs, series, group) then job
      else if at == Keeper(jobs, group) then Kept(job, series, Merge(series, GroupPayloads(jobs, group)))
      else job.(status := Cancelled)
  }

  /** The table with the groups of the given keys collapsed. */
  function CollapsedFor(jobs: seq<Job>, keys: set<SeriesKey>): seq<Job> {
    seq(|jobs|, i requires 0 <= i < |jobs| => if jobs[i].seriesKey in keys then CollapsedRow(jobs, i) else jobs[i])
  }

  function Collapse(jobs: seq<Job>): seq<Job> {
    seq(|jobs|, i requires 0 <= i < |jobs| => CollapsedRow(jobs, i))
  }

  function Cancelling(jobs: seq<Job>, group: seq<nat>, keeper: nat): seq<Job> {
    seq(|jobs|,
        i requires 0 <= i < |jobs| => if i in group && i != keeper then jobs[i].(status := Cancelled) else jobs[i])
  }

  /** One group collapsed; `before` is the table the run started with. */
  ghost function GroupCollapsed(before: seq<Job>, jobs: seq<Job>, key: SeriesKey, group: seq<nat>): seq<Job>
    requires key.Numeric? && group != [] && Rows(before, group) && |jobs| == |before|
  {
    if Settled(before, key.id, group) then jobs
    else
      var keeper := Keeper(before, group);
      Cancelling(jobs, group,
                 keeper)[keeper := Kept(before[keeper], key.id, Merge(key.id, GroupPayloads(before, group)))]
  }

  function WithRow(grouped: map<SeriesKey, seq<nat>>, key: SeriesKey, n: nat): map<SeriesKey, seq<nat>> {
    grouped[key := (if key in grouped then grouped[key] else []) + [n]]
  }

  /** Rows without a series key are not selected. */
  method GroupRows(jobs: seq<Job>) returns (grouped: map<SeriesKey, seq<nat>>)
    ensures Grouped(jobs, grouped, |jobs|)
  {
    grouped := map[];
    for n := 0 to |jobs|
      invariant Grouped(jobs, grouped, n)
    {
      GroupedGrows(jobs, grouped, n);
      if Active(jobs[n]) && jobs[n].seriesKey != Blank {
        grouped := WithRow(grouped, jobs[n].seriesKey, n);
      }
    }
  }

  method ChooseKeeper(jobs: seq<Job>, group: seq<nat>) returns (keeper: nat)
    requires group != [] && Rows(jobs, group)
    ensures keeper == Keeper(jobs, group)
  {
    var g := 0;
    while g < |group| && jobs[group[g]].status != Leased
      invariant g <= |group|
      invariant forall a :: 0 <= a < g ==> jobs[group[a]].status != Leased
    {
      g := g + 1;
    }
    KeeperIsFirstLeased(jobs, group, g);
    keeper := group[if g < |group| then g else 0];
  }

  method Gather(jobs: seq<Job>, group: seq<nat>) returns (payloads: seq<Payload>)
    requires Rows(jobs, group)
    ensures payloads == GroupPayloads(jobs, group)
  {
    payloads := [];
    for g := 0 to |group|
      invariant payloads == GroupPayloads(jobs, group[..g])
    {
      var job := jobs[group[g]];
      ghost var before := payloads;
      payloads := payloads + [job.payload];
      if job.pending.Some? {
        payloads := payloads + [job.pending.value];
      }
      assert group[..g + 1][..g] == group[..g];
      assert payloads == before + PayloadsOf(job);
    }
    assert group[..|group|] == group;
  }

  ghost predicate SameGroup(before: seq<Job>, jobs: seq<Job>, group: seq<nat>) {
    |jobs| == |before| && forall g :: 0 <= g < |group| ==> group[g] < |jobs| && jobs[group[g]] == before[group[g]]
  }

  class RepairJobs {
    var jobs: seq<Job>

    constructor ()
      ensures jobs == []
    {
      jobs := [];
    }

    method EnqueueLibraryRepair(series: SeriesId, reason: string, priority: int, obsolete: seq<string>)
      returns (at: nat, created: bool)
      modifies this
      ensures jobs == Enqueue(old(jobs), Payload(series, reason, obsolete), priority)
      ensures at < |jobs| && Holds(jobs[at], Canonical(series))
      ensures created <==> !exists job :: job in old(jobs) && Holds(job, Canonical(series))
    {
      var incoming := Payload(series, reason, obsolete);
      at := 0;
      while at < |jobs| && !Holds(jobs[at], Canonical(series))
        invariant at <= |jobs| && Find(jobs, Canonical(series), at) == Find(jobs, Canonical(series), 0)
        invariant forall i :: 0 <= i < at ==> !Holds(jobs[i], Canonical(series))
      {
        at := at + 1;
      }
      created := at == |jobs|;
      if created {
        jobs := jobs + [Job(Queued, Numeric(series, 0), Canonical(series), incoming, None, priority)];
      } else {
        var job := jobs[at];
        var payloads := [job.payload, incoming];
        if job.pending.Some? {
          payloads := payloads + [job.pending.value];
        }
        assert payloads == [job.payload, incoming] + PayloadsOf(job)[1..];
        var merged := Merge(series, payloads);
        var current := if job.status == Leased && job.pending.Some? then job.pending.value else job.payload;
        job := job.(priority := if priority < job.priority then priority else job.priority);
        if merged != current {
          if job.status == Leased {
            job := job.(pending := Some(merged));
          } else {
            job := job.(payload := merged);
          }
        }
        assert job == MergeInto(jobs[at], incoming, priority);
        jobs := jobs[at := job];
      }
    }

    method ReconcileActiveJobs() returns (canonicalized: nat, cancelled: nat)
      modifies this
      ensures jobs == Collapse(old(jobs))
      ensures cancelled == |Dropped(old(jobs), jobs)| && canonicalized == |Renamed(old(jobs), jobs)|
    {
      ghost var before := jobs;
      var grouped := GroupRows(jobs);
      canonicalized, cancelled := 0, 0;
      var todo := grouped.Keys;
      ghost var done: set<SeriesKey> := {};
      NothingChanged(before);
      while todo != {}
        invariant done + todo == grouped.Keys && done !! todo
        invariant jobs == CollapsedFor(before, done)
        invariant cancelled == |Dropped(before, jobs)| && canonicalized == |Renamed(before, jobs)|
        decreases todo
      {
        var key :| key in todo;
        assert GroupedAt(before, grouped, |before|, key);
        GroupUntouched(before, done, key);
        CollapsedForMore(before, done, key);
        if key.Numeric? {
          var renamed, dropped := CollapseGroup(before, key, grouped[key]);
          canonicalized, cancelled := canonicalized + renamed, cancelled + dropped;
        }
        todo, done := todo - {key}, done + {key};
      }
      CollapsedForAll(before, done, grouped);
    }

    method CollapseGroup(ghost before: seq<Job>, key: SeriesKey, group: seq<nat>) returns (renamed: nat, dropped: nat)
      requires key.Numeric? && group != [] && group == Members(before, key, |before|)
      requires SameGroup(before, jobs, group)
      modifies this
      ensures jobs == GroupCollapsed(before, old(jobs), key, group)
      ensures |Dropped(before, jobs)| == |Dropped(before, old(jobs))| + dropped
      ensures |Renamed(before, jobs)| == |Renamed(before, old(jobs))| + renamed
    {
      renamed, dropped := 0, 0;
      var series := key.id;
      if |group| == 1 && jobs[group[0]].dedupe == Canonical(series) {
        return;
      }
      GroupFrame(before, jobs, group);
      MembersIncrease(before, key, |before|);
      var keeper := ChooseKeeper(jobs, group);
      var payloads := Gather(jobs, group);
      dropped := CancelOthers(before, group, keeper);
      KeeperUntouched(before, old(jobs), group);
      renamed := KeepOne(before, keeper, series, Merge(series, payloads));
    }

    method KeepOne(ghost before: seq<Job>, keeper: nat, series: SeriesId, merged: Payload) returns (renamed: nat)
      requires |before| == |jobs| && keeper < |jobs| && jobs[keeper] == before[keeper]
      modifies this
      ensures jobs == old(jobs)[keeper := Kept(before[keeper], series, merged)]
      ensures Dropped(before, jobs) == Dropped(before, old(jobs))
      ensures |Renamed(before, jobs)| == |Renamed(before, old(jobs))| + renamed
    {
      KeepingCounts(before, jobs, keeper, Kept(jobs[keeper], series, merged));
      renamed := 0;
      var job := jobs[keeper];
      if job.status == Leased {
        var held := job.payload.obsolete + if job.pending.Some? then job.pending.value.obsolete else [];
        if exists k :: k in merged.obsolete && k !in held {
          job := job.(pending := Some(merged));
        }
      } else {
        job := job.(payload := merged, pending := None);
      }
      if job.dedupe != Canonical(series) {
        job := job.(dedupe := Canonical(series));
        renamed := 1;
      }
      jobs := jobs[keeper := job];
    }

    method CancelOthers(ghost before: seq<Job>, group: seq<nat>, keeper: nat) returns (dropped: nat)
      requires SameGroup(before, jobs, group)
      requires forall g :: 0 <= g < |group| ==> Active(before[group[g]])
      requires Ascending(group)
      modifies this
      ensures jobs == Cancelling(old(jobs), group, keeper)
      ensures |Dropped(before, jobs)| == |Dropped(before, old(jobs))| + dropped
      ensures Renamed(before, jobs) == Renamed(before, old(jobs))
    {
      dropped := 0;
      ghost var start := jobs;
      assert jobs == Cancelling(start, [], keeper);
      for g := 0 to |group|
        invariant jobs == Cancelling(start, group[..g], keeper)
        invariant |Dropped(before, jobs)| == |Dropped(before, start)| + dropped
        invariant Renamed(before, jobs) == Renamed(before, start)
      {
        var id := group[g];
        CancellingOneMore(start, group, g, keeper);
        if id != keeper {
          CancellingCounts(before, jobs, id);
          jobs := jobs[id := jobs[id].(status := Cancelled)];
          dropped := dropped + 1;
        }
      }
      assert group[..|group|] == group;
    }
  }

  lemma {:induction false} CancellingOneMore(start: seq<Job>, group: seq<nat>, g: nat, keeper: nat)
    requires g < |group| && Rows(start, group) && Ascending(group)
    ensures var id, cancelled := group[g], Cancelling(start, group[..g], keeper);
      && cancelled[id] == start[id]
      && Cancelling(start, group[..g + 1], keeper)
         == if id == keeper then cancelled else cancelled[id := cancelled[id].(status := Cancelled)]
  {
    assert group[..g + 1] == group[..g] + [group[g]];
    assert group[g] !in group[..g];
  }

  /** A group whose key is not handled yet still has its original rows. */
  lemma {:induction false} GroupUntouched(before: seq<Job>, done: set<SeriesKey>, key: SeriesKey)
    requires key !in done
    ensures SameGroup(before, CollapsedFor(before, done), Members(before, key, |before|))
  {
    var group := Members(before, key, |before|);
    assert AllFile(before, key, group);
  }

  lemma {:induction false} CollapsedForMore(before: seq<Job>, done: set<SeriesKey>, key: SeriesKey)
    requires key !in done
    requires Members(before, key, |before|) != []
    ensures CollapsedFor(before, done + {key}) ==
      if key.Numeric? then GroupCollapsed(before, CollapsedFor(before, done), key, Members(before, key, |before|))
      else CollapsedFor(before, done)
  {
    var jobs, more := CollapsedFor(before, done), CollapsedFor(before, done + {key});
    if key.Numeric? {
      var after := GroupCollapsed(before, jobs, key, Members(before, key, |before|));
      forall i: nat | i < |before| ensures more[i] == after[i] {
        CollapsedForRow(before, done, key, i);
      }
    } else {
      assert forall i: nat :: i < |before| ==> more[i] == jobs[i];
    }
  }

  lemma {:induction false} CollapsedForRow(before: seq<Job>, done: set<SeriesKey>, key: SeriesKey, i: nat)
    requires key !in done && key.Numeric? && i < |before|
    requires Members(before, key, |before|) != []
    ensures CollapsedFor(before, done + {key})[i]
      == GroupCollapsed(before, CollapsedFor(before, done), key, Members(before, key, |before|))[i]
  {
    var group := Members(before, key, |before|);
    var keeper := Keeper(before, group);
    MembersExact(before, key, i);
    MembersExact(before, key, keeper);
    if before[i].seriesKey == key {
      assert CollapsedFor(before, done + {key})[i] == CollapsedRow(before, i);
    }
  }

  lemma {:induction false} CollapsedForAll(before: seq<Job>, done: set<SeriesKey>, grouped: map<SeriesKey, seq<nat>>)
    requires Grouped(before, grouped, |before|) && done == grouped.Keys
    ensures CollapsedFor(before, done) == Collapse(before)
  {
    forall i: nat | i < |before| && Active(before[i]) && before[i].seriesKey != Blank
      ensures before[i].seriesKey in done
    {
      MembersExact(before, before[i].seriesKey, i);
      assert GroupedAt(before, grouped, |before|, before[i].seriesKey);
    }
  }

  lemma {:induction false} KeeperUntouched(before: seq<Job>, jobs: seq<Job>, group: seq<nat>)
    requires group != [] && Rows(before, group) && SameGroup(before, jobs, group)
    ensures var keeper := Keeper(before, group);
      keeper < |jobs| && Cancelling(jobs, group, keeper)[keeper] == before[keeper]
  {
  }

  ghost predicate Grouped(jobs: seq<Job>, grouped: map<SeriesKey, seq<nat>>, n: nat)
    requires n <= |jobs|
  {
    forall key :: GroupedAt(jobs, grouped, n, key)
  }

  ghost predicate GroupedAt(jobs: seq<Job>, grouped: map<SeriesKey, seq<nat>>, n: nat, key: SeriesKey)
    requires n <= |jobs|
  {
    && (key in grouped <==> key != Blank && Members(jobs, key, n) != [])
    && (key in grouped ==> grouped[key] == Members(jobs, key, n))
  }

  lemma {:induction false} GroupedGrows(jobs: seq<Job>, grouped: map<SeriesKey, seq<nat>>, n: nat)
    requires n < |jobs| && Grouped(jobs, grouped, n)
    ensures Active(jobs[n]) && jobs[n].seriesKey != Blank ==>
      Grouped(jobs, WithRow(grouped, jobs[n].seriesKey, n), n + 1)
    ensures !Active(jobs[n]) || jobs[n].seriesKey == Blank ==> Grouped(jobs, grouped, n + 1)
  {
    var after :=
      if Active(jobs[n]) && jobs[n].seriesKey != Blank then WithRow(grouped, jobs[n].seriesKey, n) else grouped;
    var m := n + 1;
    forall key ensures GroupedAt(jobs, after, m, key) {
      assert GroupedAt(jobs, grouped, n, key);
    }
  }

  /** Rows that were active and no longer are. */
  ghost function Dropped(before: seq<Job>, after: seq<Job>): set<nat> {
    set i: nat | i < |before| && i < |after| && Active(before[i]) && !Active(after[i])
  }

  /** Rows whose dedupe key changed. */
  ghost function Renamed(before: seq<Job>, after: seq<Job>): set<nat> {
    set i: nat | i < |before| && i < |after| && before[i].dedupe != after[i].dedupe
  }

  lemma {:induction false} NothingChanged(jobs: seq<Job>)
    ensures Dropped(jobs, jobs) == {} && Renamed(jobs, jobs) == {}
  {
  }

  lemma {:induction false} CancellingCounts(before: seq<Job>, jobs: seq<Job>, id: nat)
    requires |before| == |jobs| && id < |jobs| && jobs[id] == before[id] && Active(jobs[id])
    ensures var after := jobs[id := jobs[id].(status := Cancelled)];
      |Dropped(before, after)| == |Dropped(before, jobs)| + 1 && Renamed(before, after) == Renamed(before, jobs)
  {
    var after := jobs[id := jobs[id].(status := Cancelled)];
    SameRenamed(before, jobs, after);
    forall i: nat ensures i in Dropped(before, after) <==> i in Dropped(before, jobs) || i == id {
    }
    assert Dropped(before, after) == Dropped(before, jobs) + {id} && id !in Dropped(before, jobs);
  }

  lemma {:induction false} SameRenamed(before: seq<Job>, jobs: seq<Job>, after: seq<Job>)
    requires |before| == |jobs| == |after| && forall i: nat :: i < |jobs| ==> after[i].dedupe == jobs[i].dedupe
    ensures Renamed(before, after) == Renamed(before, jobs)
  {
  }

  lemma {:induction false} KeepingCounts(before: seq<Job>, jobs: seq<Job>, keeper: nat, kept: Job)
    requires |before| == |jobs| && keeper < |jobs| && jobs[keeper] == before[keeper] && kept.status
      == before[keeper].status
    ensures var after := jobs[keeper := kept];
      && Dropped(before, after) == Dropped(before, jobs)
      && |Renamed(before, after)| == |Renamed(before, jobs)| + if kept.dedupe != before[keeper].dedupe then 1 else 0
  {
    var after := jobs[keeper := kept];
    assert keeper !in Renamed(before, jobs);
    assert Renamed(before, after)
      == Renamed(before, jobs) + if kept.dedupe != before[keeper].dedupe then {keeper} else {};
  }

  lemma {:induction false} KeeperIsFirstLeased(jobs: seq<Job>, group: seq<nat>, g: nat)
    requires group != [] && Rows(jobs, group) && g <= |group|
    requires forall a :: 0 <= a < g ==> jobs[group[a]].status != Leased
    requires g < |group| ==> jobs[group[g]].status == Leased
    ensures Keeper(jobs, group) == group[if g < |group| then g else 0]
  {
    if g > 0 && |group| > 1 {
      KeeperIsFirstLeased(jobs, group[1..], g - 1);
    }
  }

  lemma {:induction false} GroupFrame(before: seq<Job>, jobs: seq<Job>, group: seq<nat>)
    requires Rows(before, group) && SameGroup(before, jobs, group)
    ensures GroupPayloads(jobs, group) == GroupPayloads(before, group)
    ensures group != [] ==> Keeper(jobs, group) == Keeper(before, group)
  {
    if group != [] {
      GroupFrame(before, jobs, group[..|group| - 1]);
      KeeperFrame(before, jobs, group);
    }
  }

  lemma {:induction false} KeeperFrame(before: seq<Job>, jobs: seq<Job>, group: seq<nat>)
    requires group != [] && Rows(before, group) && SameGroup(before, jobs, group)
    ensures Keeper(jobs, group) == Keeper(before, group)
  {
    if |group| > 1 {
      KeeperFrame(before, jobs, group[1..]);
    }
  }
}
