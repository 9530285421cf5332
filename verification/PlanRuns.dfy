/** Whole runs of the coordinator: the backfill wave waits for its release, and what untracking stops. */
module PlanRuns {
  import opened Options
  import opened DownloadPlans
  import opened PlanProperties
  import opened PlanStore

  datatype Step =
    | TrackStep(series: nat, now: int)
    | UntrackStep(series: nat)
    | ReconcileStep(series: nat, now: int)
    | RerouteStep(job: nat, snap: Snapshot, retryAt: int, now: int)
    | BypassStep(source: string, retryAfter: int, now: int)
    | OutsideStep(next: Store)

  ghost predicate SamePayload(a: Job, b: Job) {
    a.release == b.release && a.attempted == b.attempted && a.preferredOnly == b.preferredOnly && a.source == b.source
  }

  /** An intent as the rest of the system may leave it: a deleted job row only clears the link. */
  ghost predicate KeepsIntent(a: Intent, b: Intent) {
    SameIntent(a, b) && a.state == b.state && (b.job == a.job || b.job == None)
  }

  ghost predicate KeepsIntents(a: seq<Intent>, b: seq<Intent>) {
    |a| == |b| && forall i :: 0 <= i < |a| ==> KeepsIntent(a[i], b[i])
  }

  /**
   Everything else that happens: workers lease, finish, fail and delete jobs, others enqueue new
   ones, the catalog gains chapters and releases, artifacts come and go.
   */
  ghost predicate Outside(s: Store, t: Store) {
    && t.plans == s.plans && t.attempts == s.attempts && s.nextJob <= t.nextJob
    && t.intents.Keys == s.intents.Keys
    && (forall x :: x in s.intents ==> KeepsIntents(s.intents[x], t.intents[x]))
    && (forall j :: j in t.jobs ==> j < t.nextJob)
    && (forall j :: j in s.jobs && j in t.jobs ==> SamePayload(s.jobs[j], t.jobs[j]))
    && (forall j :: j in t.jobs && j < s.nextJob ==> j in s.jobs)
    && (forall j, r :: j in s.jobs && j in t.jobs && r in t.releases && r.id == t.jobs[j].release ==>
         exists q :: q in s.releases && q.id == r.id && q.chapter == r.chapter)
  }

  ghost predicate Enabled(s: Store, step: Step) {
    step.OutsideStep? ==> Outside(s, step.next)
  }

  ghost function Next(s: Store, step: Step, window: int): Store {
    match step
    case TrackStep(series, now) => Track(s, series, now, window)
    case UntrackStep(series) => Untrack(s, series)
    case ReconcileStep(series, now) => ReconcileSeries(s, series, now, window)
    case RerouteStep(job, snap, retryAt, now) => Reroute(s, job, snap, retryAt, now).0
    case BypassStep(source, retryAfter, now) => BypassCoolingSource(s, source, retryAfter, now)
    case OutsideStep(next) => next
  }

  ghost predicate IsRun(stores: seq<Store>, steps: seq<Step>, window: int) {
    && |stores| == |steps| + 1
    && forall k :: 0 <= k < |steps| ==>
         Enabled(stores[k], steps[k]) && stores[k + 1] == Next(stores[k], steps[k], window)
  }

  // ---------------------------------------------------------------- wave safety, one pass

  ghost predicate NoPendingBackfill(intents: seq<Intent>) {
    forall i :: 0 <= i < |intents| ==> !(intents[i].tier == Backfill && intents[i].state == Pending)
  }

  /** An active plan is in the priority or backfill phase; outside the backfill phase no backfill is pending. */
  ghost predicate SafePlan(plan: Plan, intents: seq<Intent>) {
    && (plan.status == Active <==> plan.phase in {PriorityPhase, BackfillPhase})
    && (plan.phase != BackfillPhase ==> NoPendingBackfill(intents))
  }

  lemma {:induction false} SyncSafe(w: Work, v: View, k: nat)
    requires k <= |v.chapters|
    ensures var r := SyncFrom(w, v, k);
      && r.plan == w.plan && r.jobs == w.jobs && r.nextJob == w.nextJob
      && (w.plan.phase != BackfillPhase && NoPendingBackfill(w.intents) ==> NoPendingBackfill(r.intents))
    decreases |v.chapters| - k
  {
    if k < |v.chapters| {
      if HasIntent(w.intents, v.chapters[k].id) {
        SyncSafe(w, v, k + 1);
      } else {
        SyncSafe(w.(intents := w.intents + [NewIntent(w.plan, v, v.chapters[k], w.nextIntent)],
                    nextIntent := w.nextIntent + 1), v, k + 1);
      }
    }
  }

  lemma {:induction false} ObserveSafe(w: Work, v: View)
    requires SafePlan(w.plan, w.intents)
    ensures Observe(w, v).plan == w.plan && SafePlan(w.plan, Observe(w, v).intents)
  {
    SyncSafe(w, v, 0);
    var synced, r := SyncFrom(w, v, 0), Observe(w, v);
    if w.plan.phase != BackfillPhase {
      forall i | 0 <= i < |r.intents| ensures !(r.intents[i].tier == Backfill && r.intents[i].state == Pending) {
        assert r.intents[i] == Settle(synced.intents[i], v.stored, synced.jobs);
      }
    }
  }

  /** The view of the intents on which a pass decides about the backfill. */
  ghost function Decided(w: Work, v: View): Work {
    AdvancePhase(Observe(w, v))
  }

  lemma {:induction false} DecidedSafe(w: Work, v: View)
    requires SafePlan(w.plan, w.intents) && w.plan.status == Active
    ensures var d := Decided(w, v);
      && SafePlan(d.plan, d.intents) && d.plan.status == Active
      && (d.plan.phase == BackfillPhase ==> w.plan.phase == BackfillPhase || PrioritySettled(Observe(w, v).intents))
  {
    ObserveSafe(w, v);
  }

  /** A job row the pass created belongs to an intent that was pending. */
  ghost predicate NewJobOwned(w: Work, r: Work, j: nat, i: nat) {
    && i < |w.intents| && i < |r.intents| && j in r.jobs
    && w.intents[i].state == Pending && r.intents[i].state == Queued && r.intents[i].job == Some(j)
    && r.jobs[j].key == ChapterKey(w.intents[i].chapter)
  }

  /** The row no other available release of its chapter is preferred to. */
  ghost predicate BestFor(best: Release, v: View, chapter: nat) {
    && best in v.releases && best.chapter == chapter && Available(best, v.now)
    && forall r :: r in v.releases && r.chapter == chapter && Available(r, v.now) ==> !Preferred(r, best)
  }

  /** A job as an intent asks for it: its best release, more urgent the higher the tier. */
  ghost predicate CarriesBest(job: Job, intent: Intent, v: View) {
    && job.key == ChapterKey(intent.chapter) && job.status == JobQueued && job.attempted == {} && !job.preferredOnly
    && job.priority == (match intent.tier case Current => 5 case Priority => 20 case Backfill => 100)
    && exists best :: BestFor(best, v, intent.chapter) && job.release == best.id && job.source == best.source
  }

  lemma {:induction false} OfferedJobCarriesBest(w: Work, v: View, i: nat, active: nat, j: nat)
    requires i < |w.intents| && JobsBelow(w) && j in EnqueueOne(w, v, i, active).jobs && j !in w.jobs
    ensures CarriesBest(EnqueueOne(w, v, i, active).jobs[j], w.intents[i], v)
  {
    var chapter := w.intents[i].chapter;
    BestIsPreferred(v.releases, (r: Release) => r.chapter == chapter && Available(r, v.now));
    assert BestFor(BestRelease(v.releases, chapter, v.now).value, v, chapter);
  }

  lemma {:induction false} NewJobsArePending(w: Work, v: View, order: seq<nat>, k: nat, active: nat, stored: set<nat>,
                                             j: nat)
    returns (i: nat)
    requires k <= |order| && ValidOrder(w, order) && JobsBelow(w) && AllFixed(w, stored)
    requires j in EnqueueFrom(w, v, order, k, active).jobs && j !in w.jobs
    ensures NewJobOwned(w, EnqueueFrom(w, v, order, k, active), j, i)
    ensures CarriesBest(EnqueueFrom(w, v, order, k, active).jobs[j], w.intents[i], v)
    decreases |order| - k
  {
    var next := EnqueueOne(w, v, order[k], active);
    var count := CountAfter(w, next, order[k], active);
    EnqueueOneProgress(w, v, order[k], active, stored);
    EnqueuePass(next, v, order, k + 1, count, stored);
    if j in next.jobs {
      i := order[k];
      OfferedJobCarriesBest(w, v, i, active, j);
    } else {
      i := NewJobsArePending(next, v, order, k + 1, count, stored, j);
    }
  }

  /** From `d` to `r` every backfill intent is untouched and every new job is for another tier. */
  ghost predicate NoBackfillWork(d: Work, r: Work) {
    && |r.intents| == |d.intents|
    && (forall i :: 0 <= i < |d.intents| && d.intents[i].tier == Backfill ==> r.intents[i] == d.intents[i])
    && (forall j :: j in r.jobs && j !in d.jobs ==>
          exists i: nat :: NewJobOwned(d, r, j, i) && d.intents[i].tier != Backfill)
  }

  lemma {:induction false} PassSkipsBackfill(d: Work, v: View)
    requires Observed(d, v) && NoPendingBackfill(d.intents)
    ensures NoBackfillWork(d, EnqueueReady(d, v))
  {
    var order, active := IntentOrder(d.intents), QueuedBackfill(d.intents);
    IntentOrderCovers(d.intents);
    assert forall x :: 0 <= x < |order| ==> order[x] in order;
    EnqueuePass(d, v, order, 0, active, v.stored);
    var r := EnqueueReady(d, v);
    forall j | j in r.jobs && j !in d.jobs
      ensures exists i: nat :: NewJobOwned(d, r, j, i) && d.intents[i].tier != Backfill
    {
      var i := NewJobsArePending(d, v, order, 0, active, v.stored, j);
    }
  }

  lemma {:induction false} SameRowsNoBackfill(d: Work, r: Work, t: Work)
    requires NoBackfillWork(d, r) && t.intents == r.intents && t.jobs == r.jobs
    ensures NoBackfillWork(d, t)
  {
    forall j | j in t.jobs && j !in d.jobs
      ensures exists i: nat :: NewJobOwned(d, t, j, i) && d.intents[i].tier != Backfill
    {
      var i: nat :| NewJobOwned(d, r, j, i) && d.intents[i].tier != Backfill;
      assert NewJobOwned(d, t, j, i);
    }
  }

  /**
   No backfill job is created before the release: unless the plan was in the backfill phase, or
   this very pass saw the whole priority wave settled, every backfill intent is left untouched and
   every new job belongs to an intent of another tier.
   */
  lemma {:induction false} BackfillWaitsForRelease(w: Work, v: View)
    requires SafePlan(w.plan, w.intents) && w.plan.status == Active && JobsBelow(w)
    requires w.plan.phase != BackfillPhase && !PrioritySettled(Observe(w, v).intents)
    ensures NoBackfillWork(Decided(w, v), Reconcile(w, v)) && Decided(w, v).jobs == w.jobs
  {
    var d := Decided(w, v);
    DecidedSafe(w, v);
    ObserveObserves(w, v);
    SyncSafe(w, v, 0);
    AdvanceKeepsObserved(Observe(w, v), v);
    PassSkipsBackfill(d, v);
    SameRowsNoBackfill(d, EnqueueReady(d, v), Reconcile(w, v));
  }

  lemma {:induction false} ReconcileSafe(w: Work, v: View)
    requires SafePlan(w.plan, w.intents) && JobsBelow(w)
    ensures var r := Reconcile(w, v);
      && SafePlan(r.plan, r.intents) && JobsBelow(r) && JobsGrow(w.jobs, r.jobs) && w.nextJob <= r.nextJob
      && (r.plan.phase == BackfillPhase ==> w.plan.phase == BackfillPhase || PrioritySettled(Observe(w, v).intents))
  {
    if w.plan.status == Active {
      DecidedSafe(w, v);
      ObserveObserves(w, v);
      SyncSafe(w, v, 0);
      AdvanceKeepsObserved(Observe(w, v), v);
      EnqueueSafe(Decided(w, v), v);
      SummariseSafe(EnqueueReady(Decided(w, v), v));
    }
  }

  lemma {:induction false} EnqueueSafe(d: Work, v: View)
    requires SafePlan(d.plan, d.intents) && Observed(d, v)
    ensures var r := EnqueueReady(d, v);
      && r.plan == d.plan && SafePlan(r.plan, r.intents) && JobsBelow(r)
      && JobsGrow(d.jobs, r.jobs) && d.nextJob <= r.nextJob
  {
    EnqueueDrains(d, v);
    var r := EnqueueReady(d, v);
    if d.plan.phase != BackfillPhase {
      forall i | 0 <= i < |r.intents| ensures !(r.intents[i].tier == Backfill && r.intents[i].state == Pending) {
        assert SameIntent(d.intents[i], r.intents[i]);
      }
    }
  }

  lemma {:induction false} SummariseSafe(w: Work)
    requires SafePlan(w.plan, w.intents) && w.plan.status == Active
    ensures var r := Summarise(w);
      SafePlan(r.plan, r.intents) && (r.plan.phase == BackfillPhase ==> w.plan.phase == BackfillPhase)
  {
  }

  // ---------------------------------------------------------------- wave safety, whole runs

  ghost predicate SafeSeries(s: Store, series: nat) {
    if series in s.plans then SafePlan(s.plans[series], IntentsOf(s, series))
    else NoPendingBackfill(IntentsOf(s, series))
  }

  ghost predicate Safe(s: Store) {
    && (forall j :: j in s.jobs ==> j < s.nextJob)
    && (forall series: nat :: SafeSeries(s, series))
  }

  /** The pass of a step that works on `series`: the rows it starts from. */
  ghost function StartOf(s: Store, step: Step, window: int): Work
    requires step.TrackStep? || (step.ReconcileStep? && step.series in s.plans)
  {
    if step.TrackStep? then
      SyncFrom(WorkOf(s, step.series, TrackedPlan(s, step.series, step.now)),
               ViewOf(s, step.series, step.now, window), 0)
    else WorkOf(s, step.series, s.plans[step.series])
  }

  /** The step reconciles `series` and sees its whole priority wave settled. */
  ghost predicate SeesRelease(s: Store, step: Step, window: int, series: nat) {
    && (step.TrackStep? || step.ReconcileStep?) && step.series == series
    && (step.ReconcileStep? ==> series in s.plans)
    && PrioritySettled(Observe(StartOf(s, step, window), ViewOf(s, series, step.now, window)).intents)
  }

  ghost predicate InBackfill(s: Store, series: nat) {
    series in s.plans && s.plans[series].phase == BackfillPhase
  }

  /** Writing back the rows of one series keeps the tables safe if those rows are. */
  lemma {:induction false} SaveSafe(s: Store, series: nat, w: Work)
    requires Safe(s) && SafePlan(w.plan, w.intents) && JobsBelow(w)
    ensures Safe(Save(s, series, w))
  {
    var t := Save(s, series, w);
    forall x: nat ensures SafeSeries(t, x) {
      assert SafeSeries(s, x);
    }
  }

  lemma {:induction false} TrackStartSafe(s: Store, series: nat, now: int, window: int)
    requires Safe(s)
    ensures var w := StartOf(s, TrackStep(series, now), window);
      SafePlan(w.plan, w.intents) && JobsBelow(w) && w.plan.status == Active
      && (w.plan.phase == BackfillPhase ==> InBackfill(s, series))
  {
    assert SafeSeries(s, series);
    SyncSafe(WorkOf(s, series, TrackedPlan(s, series, now)), ViewOf(s, series, now, window), 0);
  }

  lemma {:induction false} TrackSafe(s: Store, series: nat, now: int, window: int)
    requires Safe(s)
    ensures Safe(Track(s, series, now, window))
    ensures InBackfill(Track(s, series, now, window), series) ==>
      InBackfill(s, series) || SeesRelease(s, TrackStep(series, now), window, series)
  {
    TrackStartSafe(s, series, now, window);
    var start, v := StartOf(s, TrackStep(series, now), window), ViewOf(s, series, now, window);
    ReconcileSafe(start, v);
    SaveSafe(s, series, Reconcile(start, v));
  }

  lemma {:induction false} ReconcileSeriesSafe(s: Store, series: nat, now: int, window: int)
    requires Safe(s)
    ensures Safe(ReconcileSeries(s, series, now, window))
    ensures InBackfill(ReconcileSeries(s, series, now, window), series) ==>
      InBackfill(s, series) || SeesRelease(s, ReconcileStep(series, now), window, series)
  {
    assert SafeSeries(s, series);
    if series in s.plans && s.plans[series].status == Active {
      var w, v := WorkOf(s, series, s.plans[series]), ViewOf(s, series, now, window);
      ReconcileSafe(w, v);
      SaveSafe(s, series, Reconcile(w, v));
    }
  }

  lemma {:induction false} CancelKeepsJobs(jobs: map<nat, Job>, intents: seq<Intent>, k: nat)
    requires k <= |intents|
    ensures CancelFrom(jobs, intents, k).Keys == jobs.Keys
    ensures forall j :: j in jobs ==> SamePayload(jobs[j], CancelFrom(jobs, intents, k)[j])
    decreases |intents| - k
  {
    if k < |intents| {
      CancelKeepsJobs(if Unfinished(intents[k].state) then CancelJob(jobs, intents[k].job) else jobs, intents, k + 1);
    }
  }

  lemma {:induction false} UntrackSafe(s: Store, series: nat)
    requires Safe(s)
    ensures Safe(Untrack(s, series)) && !InBackfill(Untrack(s, series), series)
  {
    CancelKeepsJobs(s.jobs, IntentsOf(s, series), 0);
    var t := Untrack(s, series);
    forall x: nat ensures SafeSeries(t, x) {
      assert SafeSeries(s, x);
    }
  }

  /** Attaching jobs to intents never makes one pending. */
  lemma {:induction false} AttachSafe(s: Store, t: Store, chapter: nat, job: nat)
    requires Safe(s) && t.plans == s.plans && t.nextJob == s.nextJob && t.jobs.Keys == s.jobs.Keys
    requires t.intents == s.intents || t.intents == AttachJob(s.intents, chapter, job)
    ensures Safe(t)
  {
    forall x: nat ensures SafeSeries(t, x) {
      assert SafeSeries(s, x);
    }
  }

  lemma {:induction false} RerouteSafe(s: Store, job: nat, snap: Snapshot, retryAt: int, now: int)
    requires Safe(s)
    ensures Safe(Reroute(s, job, snap, retryAt, now).0) && Reroute(s, job, snap, retryAt, now).0.plans == s.plans
  {
    var t := Reroute(s, job, snap, retryAt, now).0;
    var found := FindRelease(s.releases, snap.release);
    AttachSafe(s, t, if found == None then 0 else found.value.chapter, job);
  }

  lemma {:induction false} BypassJobSafe(s: Store, job: nat, source: string, retryAfter: int, now: int)
    requires Safe(s) && Waiting(s, job, source)
    ensures Safe(BypassJob(s, job, source, retryAfter, now))
    ensures BypassJob(s, job, source, retryAfter, now).plans == s.plans
  {
    var t := BypassJob(s, job, source, retryAfter, now);
    var found := FindRelease(s.releases, s.jobs[job].release);
    AttachSafe(s, t, if found == None then 0 else found.value.chapter, job);
  }

  lemma {:induction false} BypassSafe(s: Store, k: nat, limit: nat, source: string, retryAfter: int, now: int)
    requires Safe(s) && k <= limit
    ensures Safe(BypassFrom(s, k, limit, source, retryAfter, now))
    ensures BypassFrom(s, k, limit, source, retryAfter, now).plans == s.plans
    decreases limit - k
  {
    if k < limit {
      if Waiting(s, k, source) {
        BypassJobSafe(s, k, source, retryAfter, now);
        BypassSafe(BypassJob(s, k, source, retryAfter, now), k + 1, limit, source, retryAfter, now);
      } else {
        BypassSafe(s, k + 1, limit, source, retryAfter, now);
      }
    }
  }

  lemma {:induction false} OutsideSafe(s: Store, t: Store)
    requires Safe(s) && Outside(s, t)
    ensures Safe(t)
  {
    forall x: nat ensures SafeSeries(t, x) {
      assert SafeSeries(s, x);
      if x in s.intents {
        assert KeepsIntents(s.intents[x], t.intents[x]);
        forall i | 0 <= i < |t.intents[x]|
          ensures t.intents[x][i].tier == s.intents[x][i].tier && t.intents[x][i].state == s.intents[x][i].state
        {
          assert KeepsIntent(s.intents[x][i], t.intents[x][i]);
        }
      }
    }
  }

  /** One step keeps the tables safe and enters the backfill phase only by seeing the release. */
  lemma {:induction false} StepSafe(s: Store, step: Step, window: int, series: nat)
    requires Safe(s) && Enabled(s, step)
    ensures Safe(Next(s, step, window))
    ensures InBackfill(Next(s, step, window), series) ==> InBackfill(s, series) || SeesRelease(s, step, window, series)
  {
    match step
    case TrackStep(x, now) => TrackSafe(s, x, now, window);
    case UntrackStep(x) => UntrackSafe(s, x);
    case ReconcileStep(x, now) => ReconcileSeriesSafe(s, x, now, window);
    case RerouteStep(job, snap, retryAt, now) => RerouteSafe(s, job, snap, retryAt, now);
    case BypassStep(source, retryAfter, now) => BypassSafe(s, 0, s.nextJob, source, retryAfter, now);
    case OutsideStep(next) => OutsideSafe(s, next);
  }

  lemma {:induction false} RunsStaySafe(stores: seq<Store>, steps: seq<Step>, window: int, k: nat)
    requires IsRun(stores, steps, window) && Safe(stores[0]) && k < |stores|
    ensures Safe(stores[k])
  {
    if k > 0 {
      RunsStaySafe(stores, steps, window, k - 1);
      StepSafe(stores[k - 1], steps[k - 1], window, 0);
    }
  }

  /**
   In every run, a series in the backfill phase got there at a step that reconciled it and saw its
   whole priority wave settled, and it has been in that phase ever since.
   */
  lemma {:induction false} BackfillWasReleased(stores: seq<Store>, steps: seq<Step>, window: int, series: nat, m: nat)
    returns (k: nat)
    requires IsRun(stores, steps, window) && Safe(stores[0]) && !InBackfill(stores[0], series)
    requires m < |stores| && InBackfill(stores[m], series)
    ensures k < m && !InBackfill(stores[k], series) && SeesRelease(stores[k], steps[k], window, series)
    ensures forall x :: k < x <= m ==> InBackfill(stores[x], series)
    decreases m
  {
    RunsStaySafe(stores, steps, window, m - 1);
    StepSafe(stores[m - 1], steps[m - 1], window, series);
    if InBackfill(stores[m - 1], series) {
      k := BackfillWasReleased(stores, steps, window, series, m - 1);
    } else {
      k := m - 1;
    }
  }

  // ---------------------------------------------------------------- backfill jobs, whole runs

  /** The step creates job `j` and gives it to a backfill intent of the series. */
  ghost predicate GivesBackfillJob(s: Store, t: Store, series: nat, j: nat) {
    j !in s.jobs && j in t.jobs && exists i: nat :: NewlyLinked(IntentsOf(s, series), IntentsOf(t, series), i, j)
  }

  ghost predicate NewlyLinked(before: seq<Intent>, after: seq<Intent>, i: nat, j: nat) {
    && i < |after| && after[i].tier == Backfill && after[i].job == Some(j)
    && (i < |before| ==> before[i].job != Some(j))
  }

  /** No intent of `after` links a job it did not link before. */
  ghost predicate LinksKept(before: seq<Intent>, after: seq<Intent>) {
    |before| <= |after| && forall i :: 0 <= i < |after| ==>
      after[i].job == None || (i < |before| && after[i].job == before[i].job)
  }

  lemma {:induction false} LinksKeptTransitive(a: seq<Intent>, b: seq<Intent>, c: seq<Intent>)
    requires LinksKept(a, b) && LinksKept(b, c)
    ensures LinksKept(a, c)
  {
  }

  lemma {:induction false} SyncKeepsLinks(w: Work, v: View, k: nat)
    requires k <= |v.chapters|
    ensures LinksKept(w.intents, SyncFrom(w, v, k).intents)
    decreases |v.chapters| - k
  {
    if k < |v.chapters| {
      if HasIntent(w.intents, v.chapters[k].id) {
        SyncKeepsLinks(w, v, k + 1);
      } else {
        var next := w.(intents := w.intents + [NewIntent(w.plan, v, v.chapters[k], w.nextIntent)],
                       nextIntent := w.nextIntent + 1);
        SyncKeepsLinks(next, v, k + 1);
        LinksKeptTransitive(w.intents, next.intents, SyncFrom(next, v, k + 1).intents);
      }
    }
  }

  lemma {:induction false} DecidedKeepsLinks(w: Work, v: View)
    ensures LinksKept(w.intents, Decided(w, v).intents)
  {
    SyncKeepsLinks(w, v, 0);
    LinksKeptTransitive(w.intents, SyncFrom(w, v, 0).intents, Decided(w, v).intents);
  }

  /** A pass that does not release the backfill links no backfill intent to another job. */
  lemma {:induction false} PassLinksNone(w: Work, v: View, i: nat)
    requires SafePlan(w.plan, w.intents) && w.plan.status == Active && JobsBelow(w)
    requires w.plan.phase != BackfillPhase && !PrioritySettled(Observe(w, v).intents)
    ensures var r := Reconcile(w, v);
      i < |r.intents| && r.intents[i].tier == Backfill ==>
        r.intents[i].job == None || (i < |w.intents| && r.intents[i].job == w.intents[i].job)
  {
    var d := Decided(w, v);
    BackfillWaitsForRelease(w, v);
    DecidedKeepsLinks(w, v);
    ObserveObserves(w, v);
    AdvanceKeepsObserved(Observe(w, v), v);
    EnqueueDrains(d, v);
    if i < |d.intents| {
      assert SameIntent(d.intents[i], EnqueueReady(d, v).intents[i]);
    }
  }

  /** Outside the backfill phase only a step that sees the release gives a backfill intent a new job. */
  lemma {:induction false} PassStepGives(s: Store, step: Step, window: int, series: nat, j: nat)
    requires Safe(s) && (step.TrackStep? || step.ReconcileStep?) && step.series == series
    requires GivesBackfillJob(s, Next(s, step, window), series, j)
    ensures InBackfill(s, series) || SeesRelease(s, step, window, series)
  {
    assert SafeSeries(s, series);
    var t := Next(s, step, window);
    var v := ViewOf(s, series, step.now, window);
    var i: nat :| NewlyLinked(IntentsOf(s, series), IntentsOf(t, series), i, j);
    if !InBackfill(s, series) && !SeesRelease(s, step, window, series) {
      if step.TrackStep? {
        TrackStartSafe(s, series, step.now, window);
        SyncKeepsLinks(WorkOf(s, series, TrackedPlan(s, series, step.now)), v, 0);
        PassLinksNone(StartOf(s, step, window), v, i);
      } else {
        PassLinksNone(WorkOf(s, series, s.plans[series]), v, i);
      }
    }
  }

  lemma {:induction false} StepGives(s: Store, step: Step, window: int, series: nat, j: nat)
    requires Safe(s) && Enabled(s, step) && GivesBackfillJob(s, Next(s, step, window), series, j)
    ensures InBackfill(s, series) || SeesRelease(s, step, window, series)
  {
    match step
    case TrackStep(x, _) =>
      assert x == series;
      PassStepGives(s, step, window, series, j);
    case ReconcileStep(x, _) =>
      assert x == series;
      PassStepGives(s, step, window, series, j);
    case UntrackStep(x) => CancelKeepsJobs(s.jobs, IntentsOf(s, x), 0);
    case RerouteStep(_, _, _, _) =>
    case BypassStep(source, retryAfter, now) => BypassKeepsJobs(s, 0, s.nextJob, source, retryAfter, now);
    case OutsideStep(next) => OutsideLinksNone(s, next, series, j);
  }

  lemma {:induction false} BypassKeepsJobs(s: Store, k: nat, limit: nat, source: string, retryAfter: int, now: int)
    requires k <= limit
    ensures BypassFrom(s, k, limit, source, retryAfter, now).jobs.Keys == s.jobs.Keys
    decreases limit - k
  {
    if k < limit {
      var next := if Waiting(s, k, source) then BypassJob(s, k, source, retryAfter, now) else s;
      assert next.jobs.Keys == s.jobs.Keys;
      BypassKeepsJobs(next, k + 1, limit, source, retryAfter, now);
    }
  }

  lemma {:induction false} OutsideLinksNone(s: Store, t: Store, series: nat, j: nat)
    requires Outside(s, t)
    ensures !GivesBackfillJob(s, t, series, j)
  {
    if series in s.intents {
      assert KeepsIntents(s.intents[series], t.intents[series]);
      forall i: nat ensures !NewlyLinked(IntentsOf(s, series), IntentsOf(t, series), i, j) {
        if i < |t.intents[series]| {
          assert KeepsIntent(s.intents[series][i], t.intents[series][i]);
        }
      }
    }
  }

  /**
   No backfill job before the release, over whole runs: when a step gives a backfill intent a new
   job, that step or an earlier one reconciled the series and saw its priority wave settled.
   */
  lemma {:induction false} BackfillJobsFollowRelease(stores: seq<Store>, steps: seq<Step>, window: int, series: nat,
                                                     m: nat, j: nat)
    returns (k: nat)
    requires IsRun(stores, steps, window) && Safe(stores[0]) && !InBackfill(stores[0], series)
    requires m < |steps| && GivesBackfillJob(stores[m], stores[m + 1], series, j)
    ensures k <= m && SeesRelease(stores[k], steps[k], window, series)
  {
    RunsStaySafe(stores, steps, window, m);
    StepGives(stores[m], steps[m], window, series, j);
    if SeesRelease(stores[m], steps[m], window, series) {
      k := m;
    } else {
      k := BackfillWasReleased(stores, steps, window, series, m);
    }
  }

  // ---------------------------------------------------------------- deleted jobs

  function ClearLinks(rows: seq<Intent>, gone: set<nat>): seq<Intent> {
    seq(|rows|, i requires 0 <= i < |rows| =>
      if rows[i].job != None && rows[i].job.value in gone then rows[i].(job := None) else rows[i])
  }

  /** Retention deletes finished jobs; the schema clears every link to them. */
  function Pruned(s: Store, gone: set<nat>): Store {
    s.(jobs := s.jobs - gone, intents := map x | x in s.intents :: ClearLinks(s.intents[x], gone))
  }

  predicate AllFinished(jobs: map<nat, Job>, gone: set<nat>) {
    forall j :: j in gone ==> j in jobs && !JobActive(jobs[j])
  }

  lemma {:induction false} PruningIsOutside(s: Store, gone: set<nat>)
    requires Safe(s) && AllFinished(s.jobs, gone)
    ensures Enabled(s, OutsideStep(Pruned(s, gone)))
  {
    var t := Pruned(s, gone);
    forall x | x in s.intents ensures KeepsIntents(s.intents[x], t.intents[x]) {
    }
    forall j, r | j in s.jobs && j in t.jobs && r in t.releases && r.id == t.jobs[j].release
      ensures exists q :: q in s.releases && q.id == r.id && q.chapter == r.chapter
    {
      assert r in s.releases;
    }
  }

  /**
   Whether an intent of a finished job is settled depends on who comes first.  A reconcile before the
   pruning settles it; after the pruning no number of reconciles does, and the plan stays active.
   */
  lemma {:induction false} PruningStrandsQueued(s: Store, gone: set<nat>, series: nat, i: nat, views: seq<View>)
    requires Safe(s) && AllFinished(s.jobs, gone)
    requires series in s.plans && s.plans[series].status == Active && i < |IntentsOf(s, series)|
    requires var intent := IntentsOf(s, series)[i];
      && intent.state == Queued && intent.job != None && intent.job.value in gone
      && forall k :: 0 <= k < |views| ==> intent.chapter !in views[k].stored
    ensures Enabled(s, OutsideStep(Pruned(s, gone)))
    ensures var r := ReconcileAll(WorkOf(Pruned(s, gone), series, s.plans[series]), views);
      r.plan.status == Active && i < |r.intents| && r.intents[i] == IntentsOf(s, series)[i].(job := None)
    ensures forall v: View :: IntentsOf(s, series)[i].chapter !in v.stored ==>
      var r := Reconcile(WorkOf(s, series, s.plans[series]), v);
      i < |r.intents| && r.intents[i].state in {Satisfied, Attention}
  {
    PruningIsOutside(s, gone);
    ClearedLinkStaysQueued(WorkOf(Pruned(s, gone), series, s.plans[series]), views, i);
    forall v: View | IntentsOf(s, series)[i].chapter !in v.stored
      ensures var r := Reconcile(WorkOf(s, series, s.plans[series]), v);
        i < |r.intents| && r.intents[i].state in {Satisfied, Attention}
    {
      FinishedJobSettles(WorkOf(s, series, s.plans[series]), v, i);
    }
  }

  // ---------------------------------------------------------------- what untracking stops

  ghost predicate OwnedFrom(intents: seq<Intent>, k: nat, job: nat) {
    exists i :: k <= i < |intents| && Unfinished(intents[i].state) && intents[i].job == Some(job)
  }

  /** Only a waiting job can be cancelled. */
  function AfterCancel(job: Job, owned: bool): Job {
    if owned && job.status in {JobQueued, JobRetryWait} then job.(status := JobCancelled) else job
  }

  lemma {:induction false} CancelsExactly(jobs: map<nat, Job>, intents: seq<Intent>, k: nat, job: nat)
    requires k <= |intents|
    ensures CancelFrom(jobs, intents, k).Keys == jobs.Keys
    ensures job in jobs ==> CancelFrom(jobs, intents, k)[job] == AfterCancel(jobs[job], OwnedFrom(intents, k, job))
    decreases |intents| - k
  {
    if k < |intents| {
      var next := if Unfinished(intents[k].state) then CancelJob(jobs, intents[k].job) else jobs;
      CancelsExactly(next, intents, k + 1, job);
      assert OwnedFrom(intents, k, job) <==>
        OwnedFrom(intents, k + 1, job) || (Unfinished(intents[k].state) && intents[k].job == Some(job));
    }
  }

  /**
   Untracking leaves no unfinished intent, cancels exactly the waiting jobs its unfinished intents
   own, lets running jobs finish, and touches no other series.
   */
  lemma {:induction false} UntrackStops(s: Store, series: nat, job: nat)
    ensures var t := Untrack(s, series);
      && |IntentsOf(t, series)| == |IntentsOf(s, series)|
      && (forall i :: 0 <= i < |IntentsOf(s, series)| ==>
           IntentsOf(t, series)[i] ==
             if IntentsOf(s, series)[i].state in {Blocked, Pending, Queued}
             then IntentsOf(s, series)[i].(state := Cancelled) else IntentsOf(s, series)[i])
      && (forall other :: other != series ==> IntentsOf(t, other) == IntentsOf(s, other))
      && (series in s.plans ==> t.plans[series].status == CancelledPlan)
      && t.jobs.Keys == s.jobs.Keys
      && (job in s.jobs ==> t.jobs[job] == AfterCancel(s.jobs[job], OwnedFrom(IntentsOf(s, series), 0, job)))
  {
    CancelsExactly(s.jobs, IntentsOf(s, series), 0, job);
  }
}
