/** Which chapters form the waves of a download plan, and what a first track queues. */
module PlanWaves {
  import opened Options
  import opened Sequences
  import opened DownloadPlans
  import opened PlanProperties
  import opened PlanStore
  import opened PlanRuns

  // ---------------------------------------------------------------- tiers of new intents

  /** The first two and the last two of `n` positions. */
  ghost predicate AtAnEnd(c: nat, n: nat) { c < 2 || c + 2 >= n }

  ghost predicate DistinctIds(chapters: seq<Chapter>) {
    forall a, b :: 0 <= a < b < |chapters| ==> chapters[a].id != chapters[b].id
  }

  /** The tier of the chapter at position `c`, under a plan as it was when the intent was created. */
  ghost predicate RightTier(plan: Plan, v: View, c: nat, intent: Intent)
    requires c < |v.chapters|
  {
    && intent.chapter == v.chapters[c].id
    && (intent.tier == Current <==> v.chapters[c].createdAt > plan.createdAt)
    && (intent.tier == Priority <==>
         v.chapters[c].createdAt <= plan.createdAt && AtAnEnd(c, |v.chapters|) && plan.phase == PriorityPhase)
  }

  /** A new intent: stored chapters are satisfied, backfill waits unless it is open, the rest is pending. */
  ghost predicate RightState(plan: Plan, v: View, intent: Intent) {
    && intent.job == None
    && (intent.state == Satisfied <==> intent.chapter in v.stored)
    && (intent.chapter !in v.stored ==>
         intent.state == if intent.tier == Backfill && plan.phase != BackfillPhase then Blocked else Pending)
  }

  ghost predicate RightRow(plan: Plan, v: View, intent: Intent) {
    RightState(plan, v, intent) && exists c: nat :: c < |v.chapters| && RightTier(plan, v, c, intent)
  }

  lemma {:induction false} WaveIdsAreEnds(chapters: seq<Chapter>, c: nat)
    requires DistinctIds(chapters) && c < |chapters|
    ensures chapters[c].id in PriorityIds(chapters) <==> AtAnEnd(c, |chapters|)
  {
    if chapters[c].id in PriorityIds(chapters) {
      var i :| 0 <= i < |chapters| && (i < 2 || i >= |chapters| - 2) && chapters[i].id == chapters[c].id;
      assert i == c;
    }
  }

  lemma {:induction false} NewIntentIsRight(plan: Plan, v: View, c: nat, id: nat)
    requires DistinctIds(v.chapters) && c < |v.chapters|
    ensures RightTier(plan, v, c, NewIntent(plan, v, v.chapters[c], id))
    ensures RightRow(plan, v, NewIntent(plan, v, v.chapters[c], id))
  {
    WaveIdsAreEnds(v.chapters, c);
    var intent := NewIntent(plan, v, v.chapters[c], id);
    assert RightTier(plan, v, c, intent) && RightState(plan, v, intent);
  }

  ghost predicate DistinctChapters(intents: seq<Intent>) {
    forall a, b :: 0 <= a < b < |intents| ==> intents[a].chapter != intents[b].chapter
  }

  /** Synchronising keeps the rows it finds and adds right rows only, one per chapter. */
  lemma {:induction false} SyncAddsRightRows(w: Work, v: View, k: nat)
    requires k <= |v.chapters| && DistinctIds(v.chapters)
    ensures var r := SyncFrom(w, v, k);
      && w.intents <= r.intents
      && (forall i :: |w.intents| <= i < |r.intents| ==> RightRow(w.plan, v, r.intents[i]))
      && (DistinctChapters(w.intents) ==> DistinctChapters(r.intents))
    decreases |v.chapters| - k
  {
    if k < |v.chapters| {
      if HasIntent(w.intents, v.chapters[k].id) {
        SyncAddsRightRows(w, v, k + 1);
      } else {
        NewIntentIsRight(w.plan, v, k, w.nextIntent);
        var next := w.(intents := w.intents + [NewIntent(w.plan, v, v.chapters[k], w.nextIntent)],
                       nextIntent := w.nextIntent + 1);
        SyncAddsRightRows(next, v, k + 1);
      }
    }
  }

  /** Tier and chapter of a row, and that it is at least the row the pass started from. */
  ghost predicate RowKept(w: Work, v: View, r: Work, i: nat) {
    && i < |r.intents|
    && (i < |w.intents| ==> SameIntent(w.intents[i], r.intents[i]))
    && (i >= |w.intents| ==> exists c: nat :: c < |v.chapters| && RightTier(w.plan, v, c, r.intents[i]))
  }

  /**
   After a reconcile every chapter has an intent; the intents there were keep chapter and tier; a new
   one is current exactly if its chapter is newer than the plan, and priority exactly if it is not and
   stands among the first or last two while the plan is in the priority phase.
   */
  lemma {:induction false} ReconcileTiers(w: Work, v: View)
    requires JobsBelow(w) && w.plan.status == Active && DistinctIds(v.chapters)
    ensures var r := Reconcile(w, v);
      && |w.intents| <= |r.intents| && AllSynced(r.intents, v.chapters) && r.plan.createdAt == w.plan.createdAt
      && (forall i: nat :: i < |r.intents| ==> RowKept(w, v, r, i))
  {
    SyncAddsRightRows(w, v, 0);
    PassKeepsRows(w, v);
    var r := Reconcile(w, v);
    forall i: nat | i < |r.intents| ensures RowKept(w, v, r, i) {
      KeptRow(w, v, r.intents, i);
    }
  }

  /** The same rows with the same tiers, whatever their states and links. */
  ghost predicate SameRows(before: seq<Intent>, after: seq<Intent>) {
    |before| == |after| && forall i :: 0 <= i < |before| ==> SameIntent(before[i], after[i])
  }

  lemma {:induction false} DecidingKeepsRows(w: Work, v: View)
    ensures SameRows(SyncFrom(w, v, 0).intents, Decided(w, v).intents)
    ensures Decided(w, v).plan.createdAt == w.plan.createdAt
  {
    SyncCovers(w, v, 0);
  }

  lemma {:induction false} DecidedIsObserved(w: Work, v: View)
    requires JobsBelow(w)
    ensures Observed(Decided(w, v), v)
  {
    ObserveObserves(w, v);
    AdvanceKeepsObserved(Observe(w, v), v);
  }

  lemma {:induction false} EnqueueKeepsRows(d: Work, v: View)
    requires Observed(d, v)
    ensures var r := Summarise(EnqueueReady(d, v));
      SameRows(d.intents, r.intents) && AllSynced(r.intents, v.chapters) && r.plan.createdAt == d.plan.createdAt
  {
    EnqueueDrains(d, v);
  }

  /** Past synchronising, a reconcile changes neither rows nor tiers, only states and links. */
  lemma {:induction false} PassKeepsRows(w: Work, v: View)
    requires JobsBelow(w) && w.plan.status == Active
    ensures var r := Reconcile(w, v);
      && SameRows(SyncFrom(w, v, 0).intents, r.intents) && AllSynced(r.intents, v.chapters)
      && r.plan.createdAt == w.plan.createdAt
  {
    DecidingKeepsRows(w, v);
    DecidedIsObserved(w, v);
    EnqueueKeepsRows(Decided(w, v), v);
  }

  // ---------------------------------------------------------------- tracking

  /** What a track request starts from: a new plan dates from the request, an old one keeps its date. */
  lemma {:induction false} TrackTiers(s: Store, series: nat, now: int, window: int)
    requires Safe(s) && DistinctIds(ViewOf(s, series, now, window).chapters)
    ensures var t, v := Track(s, series, now, window), ViewOf(s, series, now, window);
      var start := TrackedPlan(s, series, now);
      && series in t.plans && t.plans[series].createdAt == start.createdAt
      && start.createdAt == (if series in s.plans then s.plans[series].createdAt else now)
      && (start.phase == BackfillPhase <==> InBackfill(s, series)) && start.phase in {PriorityPhase, BackfillPhase}
      && AllSynced(IntentsOf(t, series), v.chapters)
      && |IntentsOf(s, series)| <= |IntentsOf(t, series)|
      && (forall i: nat :: i < |IntentsOf(t, series)| ==>
           RowKept(WorkOf(s, series, start), v, WorkOf(t, series, t.plans[series]), i))
  {
    var t, v, start := Track(s, series, now, window), ViewOf(s, series, now, window), TrackedPlan(s, series, now);
    var w := WorkOf(s, series, start);
    var synced := SyncFrom(w, v, 0);
    SyncCovers(w, v, 0);
    SyncAddsRightRows(w, v, 0);
    SyncNothing(synced, v, 0);
    PassKeepsRows(synced, v);
    forall i: nat | i < |IntentsOf(t, series)|
      ensures RowKept(w, v, WorkOf(t, series, t.plans[series]), i)
    {
      KeptRow(w, v, Reconcile(synced, v).intents, i);
    }
  }

  lemma {:induction false} KeptRow(w: Work, v: View, rows: seq<Intent>, i: nat)
    requires DistinctIds(v.chapters) && SameRows(SyncFrom(w, v, 0).intents, rows) && i < |rows|
    ensures forall r: Work :: r.intents == rows ==> RowKept(w, v, r, i)
  {
    SyncAddsRightRows(w, v, 0);
    var synced := SyncFrom(w, v, 0);
    assert SameIntent(synced.intents[i], rows[i]);
    if i >= |w.intents| {
      assert RightRow(w.plan, v, synced.intents[i]);
      var c: nat :| c < |v.chapters| && RightTier(w.plan, v, c, synced.intents[i]);
      assert RightTier(w.plan, v, c, rows[i]);
    }
  }

  // ---------------------------------------------------------------- the first track of a series

  /** Position `c` is one of the ends and its chapter still has to be downloaded. */
  ghost predicate MissingEnd(v: View, c: nat) {
    c < |v.chapters| && AtAnEnd(c, |v.chapters|) && v.chapters[c].id !in v.stored
  }

  /** A series without plan and intents, none of its chapters newer than now, and an end not stored yet. */
  ghost predicate FirstTrack(s: Store, series: nat, v: View) {
    && Safe(s) && series !in s.plans && IntentsOf(s, series) == [] && DistinctIds(v.chapters)
    && (forall c: nat :: c < |v.chapters| ==> v.chapters[c].createdAt <= v.now)
    && exists c: nat :: MissingEnd(v, c)
  }

  /** What the first track synchronises before its reconcile. */
  ghost function FirstRows(s: Store, series: nat, v: View): Work {
    SyncFrom(WorkOf(s, series, Plan(Active, PriorityPhase, v.now, 0, 0, 0)), v, 0)
  }

  ghost predicate FirstRow(v: View, intent: Intent, c: nat) {
    && c < |v.chapters| && intent.chapter == v.chapters[c].id && intent.job == None
    && intent.tier == (if AtAnEnd(c, |v.chapters|) then Priority else Backfill)
    && intent.state == if intent.chapter in v.stored then Satisfied
                       else if AtAnEnd(c, |v.chapters|) then Pending else Blocked
  }

  ghost predicate IsFirstRow(v: View, intent: Intent) { exists c: nat :: FirstRow(v, intent, c) }

  lemma {:induction false} RightRowIsFirst(plan: Plan, v: View, intent: Intent, c: nat)
    requires c < |v.chapters| && v.chapters[c].createdAt <= plan.createdAt && plan.phase == PriorityPhase
    requires RightState(plan, v, intent) && RightTier(plan, v, c, intent)
    ensures FirstRow(v, intent, c)
  {
    assert intent.tier.Current? || intent.tier.Priority? || intent.tier.Backfill?;
  }

  /** The ends are priority, everything between them is blocked backfill. */
  lemma {:induction false} FirstRowsAreWaves(s: Store, series: nat, v: View)
    requires FirstTrack(s, series, v)
    ensures var w := FirstRows(s, series, v);
      && w.jobs == s.jobs && w.nextJob == s.nextJob && w.plan == Plan(Active, PriorityPhase, v.now, 0, 0, 0)
      && AllSynced(w.intents, v.chapters) && DistinctChapters(w.intents)
      && forall i :: 0 <= i < |w.intents| ==> IsFirstRow(v, w.intents[i])
  {
    var start := WorkOf(s, series, Plan(Active, PriorityPhase, v.now, 0, 0, 0));
    SyncCovers(start, v, 0);
    SyncAddsRightRows(start, v, 0);
    var w := FirstRows(s, series, v);
    forall i | 0 <= i < |w.intents| ensures IsFirstRow(v, w.intents[i]) {
      assert RightRow(start.plan, v, w.intents[i]);
      var c: nat :| c < |v.chapters| && RightTier(start.plan, v, c, w.intents[i]);
      RightRowIsFirst(start.plan, v, w.intents[i], c);
    }
  }

  /** The chapter at an end has a pending priority intent. */
  lemma {:induction false} EndIsPending(s: Store, series: nat, v: View, c: nat) returns (i: nat)
    requires FirstTrack(s, series, v) && MissingEnd(v, c)
    ensures i < |FirstRows(s, series, v).intents|
    ensures var intent := FirstRows(s, series, v).intents[i];
      intent.chapter == v.chapters[c].id && intent.tier == Priority && intent.state == Pending && intent.job == None
  {
    FirstRowsAreWaves(s, series, v);
    var w := FirstRows(s, series, v);
    assert HasIntent(w.intents, v.chapters[c].id);
    i :| 0 <= i < |w.intents| && w.intents[i].chapter == v.chapters[c].id;
    assert IsFirstRow(v, w.intents[i]);
    var x: nat :| FirstRow(v, w.intents[i], x);
    assert x == c;
  }

  /** The reconcile of a first track decides nothing: nothing is stored but what was, and the wave is open. */
  lemma {:induction false} FirstTrackDecides(s: Store, series: nat, v: View)
    requires FirstTrack(s, series, v)
    ensures var w := FirstRows(s, series, v); Observed(w, v) && Decided(w, v) == w
  {
    var w := FirstRows(s, series, v);
    FirstRowsAreWaves(s, series, v);
    forall i | 0 <= i < |w.intents| ensures Fixed(w.intents[i], v.stored, w.jobs) {
      assert IsFirstRow(v, w.intents[i]);
    }
    ObserveIsIdentity(w, v);
    var c: nat :| MissingEnd(v, c);
    var i := EndIsPending(s, series, v, c);
  }

  lemma {:induction false} FirstTrackIs(s: Store, series: nat, v: View)
    requires FirstTrack(s, series, v) && v == ViewOf(s, series, v.now, v.window)
    ensures var t := Track(s, series, v.now, v.window);
      && t == Save(s, series, Summarise(EnqueueReady(FirstRows(s, series, v), v)))
      && t.jobs == EnqueueReady(FirstRows(s, series, v), v).jobs
      && IntentsOf(t, series) == EnqueueReady(FirstRows(s, series, v), v).intents
  {
    FirstTrackDecides(s, series, v);
    FirstRowsAreWaves(s, series, v);
  }

  /** A new job of a first track: for an end that is not stored, urgent, with its best release. */
  ghost predicate EndJob(v: View, job: Job, c: nat) {
    && MissingEnd(v, c) && job.key == ChapterKey(v.chapters[c].id) && job.status == JobQueued && job.priority == 20
    && exists best :: BestFor(best, v, v.chapters[c].id) && job.release == best.id && job.source == best.source
  }

  lemma {:induction false} FirstTrackJob(s: Store, series: nat, v: View, j: nat) returns (i: nat, c: nat)
    requires FirstTrack(s, series, v)
    requires j in EnqueueReady(FirstRows(s, series, v), v).jobs && j !in s.jobs
    ensures var w, r := FirstRows(s, series, v), EnqueueReady(FirstRows(s, series, v), v);
      && i < |w.intents| && |r.intents| == |w.intents| && r.intents[i].job == Some(j)
      && c < |v.chapters| && w.intents[i].chapter == v.chapters[c].id
    ensures EndJob(v, EnqueueReady(FirstRows(s, series, v), v).jobs[j], c)
  {
    var w := FirstRows(s, series, v);
    FirstRowsAreWaves(s, series, v);
    FirstTrackDecides(s, series, v);
    var order, active := IntentOrder(w.intents), QueuedBackfill(w.intents);
    IntentOrderCovers(w.intents);
    assert forall x :: 0 <= x < |order| ==> order[x] in order;
    i := NewJobsArePending(w, v, order, 0, active, v.stored, j);
    assert IsFirstRow(v, w.intents[i]);
    c :| FirstRow(v, w.intents[i], c);
  }

  // ---------------------------------------------------------------- at most four jobs

  ghost function EndIds(chapters: seq<Chapter>): set<nat> {
    set c | 0 <= c < |chapters| && AtAnEnd(c, |chapters|) :: chapters[c].id
  }

  lemma {:induction false} SubsetSize<T>(a: set<T>, b: set<T>)
    requires a <= b
    ensures |a| <= |b|
  {
    assert b == a + (b - a);
  }

  lemma {:induction false} FourEnds(chapters: seq<Chapter>)
    ensures |EndIds(chapters)| <= 4
  {
    var n := |chapters|;
    if n >= 4 {
      var ends := {chapters[0].id, chapters[1].id, chapters[n - 2].id, chapters[n - 1].id};
      SubsetSize(EndIds(chapters), ends);
    } else if n > 0 {
      var ends := {chapters[0].id, chapters[n / 2].id, chapters[n - 1].id};
      SubsetSize(EndIds(chapters), ends);
    }
  }

  lemma {:induction false} OnePerKey(jobs: set<nat>, key: map<nat, nat>, keys: set<nat>)
    requires jobs <= key.Keys && (forall j :: j in jobs ==> key[j] in keys)
    requires forall a, b :: a in jobs && b in jobs && key[a] == key[b] ==> a == b
    ensures |jobs| <= |keys|
  {
    if jobs != {} {
      var j :| j in jobs;
      OnePerKey(jobs - {j}, key, keys - {key[j]});
    }
  }

  /** The jobs a pass over the first rows creates. */
  ghost function FirstJobs(s: Store, series: nat, v: View): map<nat, Job> {
    EnqueueReady(FirstRows(s, series, v), v).jobs - s.jobs.Keys
  }

  lemma {:induction false} FirstJobsAtMostFour(s: Store, series: nat, v: View)
    requires FirstTrack(s, series, v)
    ensures |FirstJobs(s, series, v).Keys| <= 4
    ensures forall j :: j in FirstJobs(s, series, v) ==> exists c: nat :: EndJob(v, FirstJobs(s, series, v)[j], c)
  {
    var jobs := FirstJobs(s, series, v);
    forall j | j in jobs ensures exists c: nat :: EndJob(v, jobs[j], c) {
      var i, c := FirstTrackJob(s, series, v, j);
    }
    var key := map j | j in jobs :: jobs[j].key.chapter;
    forall j | j in jobs ensures key[j] in EndIds(v.chapters) {
      var c: nat :| EndJob(v, jobs[j], c);
    }
    forall a, b | a in jobs && b in jobs && key[a] == key[b] ensures a == b {
      var c: nat :| EndJob(v, jobs[a], c);
      var d: nat :| EndJob(v, jobs[b], d);
      SameChapterSameJob(s, series, v, a, b);
    }
    OnePerKey(jobs.Keys, key, EndIds(v.chapters));
    FourEnds(v.chapters);
  }

  /**
   A first track queues at most four jobs, all for the first two or last two chapters: no other
   chapter is queued before the wave is settled.
   */
  lemma {:induction false} FirstTrackQueuesAtMostFour(s: Store, series: nat, now: int, window: int)
    requires FirstTrack(s, series, ViewOf(s, series, now, window))
    ensures var t, v := Track(s, series, now, window), ViewOf(s, series, now, window);
      && |t.jobs.Keys - s.jobs.Keys| <= 4
      && forall j :: j in t.jobs && j !in s.jobs ==> exists c: nat :: EndJob(v, t.jobs[j], c)
  {
    var v := ViewOf(s, series, now, window);
    FirstTrackIs(s, series, v);
    FirstJobsAtMostFour(s, series, v);
    var t, jobs := Track(s, series, now, window), FirstJobs(s, series, v);
    assert jobs.Keys == t.jobs.Keys - s.jobs.Keys;
    forall j | j in t.jobs && j !in s.jobs ensures exists c: nat :: EndJob(v, t.jobs[j], c) {
      assert j in jobs && jobs[j] == t.jobs[j];
    }
  }

  lemma {:induction false} SameChapterSameJob(s: Store, series: nat, v: View, a: nat, b: nat)
    requires FirstTrack(s, series, v)
    requires var jobs := EnqueueReady(FirstRows(s, series, v), v).jobs;
      a in jobs && b in jobs && a !in s.jobs && b !in s.jobs && jobs[a].key == jobs[b].key
    ensures a == b
  {
    var i, c := FirstTrackJob(s, series, v, a);
    var k, d := FirstTrackJob(s, series, v, b);
    FirstRowsAreWaves(s, series, v);
    assert i == k;
  }

  // ---------------------------------------------------------------- none of the four is missed

  lemma {:induction false} AttentionMeansNoRelease(w: Work, v: View, order: seq<nat>, k: nat, active: nat, i: nat)
    requires k <= |order| && ValidOrder(w, order) && i < |w.intents| && w.intents[i].state != Attention
    ensures var r := EnqueueFrom(w, v, order, k, active);
      r.intents[i].chapter == w.intents[i].chapter
      && (r.intents[i].state == Attention ==> BestRelease(v.releases, w.intents[i].chapter, v.now) == None)
    decreases |order| - k
  {
    if k < |order| {
      var next := EnqueueOne(w, v, order[k], active);
      if next.intents[i].state != Attention {
        AttentionMeansNoRelease(next, v, order, k + 1, CountAfter(w, next, order[k], active), i);
      } else {
        AttentionStays(next, v, order, k + 1, CountAfter(w, next, order[k], active), i);
      }
    }
  }

  lemma {:induction false} AttentionStays(w: Work, v: View, order: seq<nat>, k: nat, active: nat, i: nat)
    requires k <= |order| && ValidOrder(w, order) && i < |w.intents| && w.intents[i].state == Attention
    ensures EnqueueFrom(w, v, order, k, active).intents[i] == w.intents[i]
    decreases |order| - k
  {
    if k < |order| {
      var next := EnqueueOne(w, v, order[k], active);
      AttentionStays(next, v, order, k + 1, CountAfter(w, next, order[k], active), i);
    }
  }

  /** After a first track every end that is not stored and has an available release is queued with an active job. */
  lemma {:induction false} FirstTrackQueuesEnds(s: Store, series: nat, now: int, window: int, c: nat,
                                                release: Release) returns (i: nat)
    requires var v := ViewOf(s, series, now, window);
      && FirstTrack(s, series, v) && MissingEnd(v, c)
      && release in v.releases && release.chapter == v.chapters[c].id && Available(release, now)
    ensures var t := Track(s, series, now, window);
      && i < |IntentsOf(t, series)| && IntentsOf(t, series)[i].state == Queued
      && IntentsOf(t, series)[i].chapter == ViewOf(s, series, now, window).chapters[c].id
      && IntentsOf(t, series)[i].tier == Priority && Served(IntentsOf(t, series)[i], t.jobs)
  {
    var v := ViewOf(s, series, now, window);
    var w := FirstRows(s, series, v);
    FirstTrackIs(s, series, v);
    FirstTrackDecides(s, series, v);
    i := EndIsPending(s, series, v, c);
    PassOffers(w, v, i);
    EnqueueKeepsRows(w, v);
    IntentOrderCovers(w.intents);
    assert forall x :: 0 <= x < |IntentOrder(w.intents)| ==> IntentOrder(w.intents)[x] in IntentOrder(w.intents);
    AttentionMeansNoRelease(w, v, IntentOrder(w.intents), 0, QueuedBackfill(w.intents), i);
    var chapter := v.chapters[c].id;
    BestIsPreferred(v.releases, (r: Release) => r.chapter == chapter && Available(r, v.now));
    assert SameIntent(w.intents[i], EnqueueReady(w, v).intents[i]);
  }

  // ---------------------------------------------------------------- what a reconcile queues and observes

  const PROVIDERS: seq<string> := ["asura", "mangadex", "mangafire", "kingofshojo"]

  /** The provider stands earlier in the list of known ones, or is known and the other is not. */
  ghost predicate Before(a: string, b: string) {
    exists i :: 0 <= i < |PROVIDERS| && PROVIDERS[i] == a && b !in PROVIDERS[..i + 1]
  }

  /** The provider decides; quality and id only between providers that rank alike. */
  lemma {:induction false} PreferredExactlyWhen(a: Release, b: Release)
    ensures Preferred(a, b) <==>
      || Before(a.source, b.source)
      || (!Before(b.source, a.source) && (a.quality > b.quality || (a.quality == b.quality && a.id > b.id)))
  {
    BeforeExactlyWhen(a.source, b.source);
    BeforeExactlyWhen(b.source, a.source);
  }

  lemma {:induction false} BeforeExactlyWhen(a: string, b: string)
    ensures Before(a, b) <==> SourcePriority(a) > SourcePriority(b)
  {
    assert PROVIDERS[..1] == [PROVIDERS[0]] && PROVIDERS[..2] == [PROVIDERS[0], PROVIDERS[1]];
    assert PROVIDERS[..3] == [PROVIDERS[0], PROVIDERS[1], PROVIDERS[2]] && PROVIDERS[..4] == PROVIDERS;
    if a in PROVIDERS && SourcePriority(a) > SourcePriority(b) {
      var i :| 0 <= i < |PROVIDERS| && PROVIDERS[i] == a;
      assert b !in PROVIDERS[..i + 1];
    }
  }

  /** Every job a reconcile creates belongs to one of its intents and carries that intent's best release. */
  lemma {:induction false} ReconcileQueuesBest(w: Work, v: View, j: nat) returns (i: nat)
    requires JobsBelow(w) && w.plan.status == Active && j in Reconcile(w, v).jobs && j !in w.jobs
    ensures var r := Reconcile(w, v);
      i < |r.intents| && r.intents[i].job == Some(j) && r.intents[i].state == Queued
      && CarriesBest(r.jobs[j], r.intents[i], v)
  {
    var d := Decided(w, v);
    DecidedIsObserved(w, v);
    SyncCovers(w, v, 0);
    var order, active := IntentOrder(d.intents), QueuedBackfill(d.intents);
    IntentOrderCovers(d.intents);
    assert forall x :: 0 <= x < |order| ==> order[x] in order;
    i := NewJobsArePending(d, v, order, 0, active, v.stored, j);
    EnqueueKeepsRows(d, v);
    assert SameIntent(d.intents[i], EnqueueReady(d, v).intents[i]);
  }

  /** What a reconcile makes of an intent that is stored, or whose job row exists. */
  lemma {:induction false} ReconcileObserves(w: Work, v: View, i: nat)
    requires JobsBelow(w) && w.plan.status == Active && i < |w.intents|
    requires w.intents[i].chapter in v.stored || (w.intents[i].job != None && w.intents[i].job.value in w.jobs)
    ensures var r := Reconcile(w, v);
      && i < |r.intents|
      && r.intents[i] == w.intents[i].(state :=
           if w.intents[i].chapter in v.stored || w.jobs[w.intents[i].job.value].status == JobSucceeded then Satisfied
           else if w.jobs[w.intents[i].job.value].status in {JobFailed, JobCancelled} then Attention
           else Queued)
  {
    SyncCovers(w, v, 0);
    assert Observe(w, v).intents[i] == Settle(w.intents[i], v.stored, w.jobs);
    DecidedIsObserved(w, v);
    PassOffers(Decided(w, v), v, i);
  }
}
