/**
 The download tables of all series, the coordinator operations on them, and the worker's reroute.
 Transition functions first; `DownloadPlanCoordinator` implements them over mutable fields.
 */
module PlanStore {
  import opened Options
  import opened DownloadPlans

  datatype AttemptOutcome = FailedAttempt | FallbackQueued
  datatype Attempt = Attempt(chapter: nat, release: nat, job: nat, outcome: AttemptOutcome)

  datatype Store = Store(plans: map<nat, Plan>,
                         intents: map<nat, seq<Intent>>,
                         jobs: map<nat, Job>,
                         chapters: map<nat, seq<Chapter>>,
                         releases: seq<Release>,
                         stored: set<nat>,
                         attempts: seq<Attempt>,
                         nextIntent: nat,
                         nextJob: nat)

  function IntentsOf(s: Store, series: nat): seq<Intent> {
    if series in s.intents then s.intents[series] else []
  }

  function ViewOf(s: Store, series: nat, now: int, window: int): View {
    View(if series in s.chapters then s.chapters[series] else [], s.releases, s.stored, now, window)
  }

  function WorkOf(s: Store, series: nat, plan: Plan): Work {
    Work(plan, IntentsOf(s, series), s.jobs, s.nextIntent, s.nextJob)
  }

  function Save(s: Store, series: nat, w: Work): Store {
    s.(plans := s.plans[series := w.plan], intents := s.intents[series := w.intents],
       jobs := w.jobs, nextIntent := w.nextIntent, nextJob := w.nextJob)
  }

  function ReconcileSeries(s: Store, series: nat, now: int, window: int): Store {
    if series !in s.plans || s.plans[series].status != Active then s
    else Save(s, series, Reconcile(WorkOf(s, series, s.plans[series]), ViewOf(s, series, now, window)))
  }

  /** The plan a track request starts from: new, or revived from a finished one. */
  function TrackedPlan(s: Store, series: nat, now: int): Plan {
    var plan := if series in s.plans then s.plans[series] else Plan(Active, PriorityPhase, now, 0, 0, 0);
    plan.(status := Active,
          phase := if plan.phase in {CompletePhase, CancelledPhase} then PriorityPhase else plan.phase)
  }

  function Track(s: Store, series: nat, now: int, window: int): Store {
    var v := ViewOf(s, series, now, window);
    Save(s, series, Reconcile(SyncFrom(WorkOf(s, series, TrackedPlan(s, series, now)), v, 0), v))
  }

  predicate Unfinished(state: IntentState) {
    state in {Blocked, Pending, Queued}
  }

  function CancelJob(jobs: map<nat, Job>, job: Option<nat>): map<nat, Job> {
    if job != None && job.value in jobs && jobs[job.value].status in {JobQueued, JobRetryWait}
    then jobs[job.value := jobs[job.value].(status := JobCancelled)] else jobs
  }

  function CancelFrom(jobs: map<nat, Job>, intents: seq<Intent>, k: nat): map<nat, Job>
    requires k <= |intents|
    decreases |intents| - k
  {
    if k == |intents| then jobs
    else CancelFrom(if Unfinished(intents[k].state) then CancelJob(jobs, intents[k].job) else jobs, intents, k + 1)
  }

  function CancelIntents(intents: seq<Intent>): seq<Intent> {
    seq(|intents|, i requires 0 <= i < |intents| =>
      if Unfinished(intents[i].state) then intents[i].(state := Cancelled) else intents[i])
  }

  function Untrack(s: Store, series: nat): Store {
    var plans := if series in s.plans
      then s.plans[series := s.plans[series].(status := CancelledPlan, phase := CancelledPhase)] else s.plans;
    s.(plans := plans, jobs := CancelFrom(s.jobs, IntentsOf(s, series), 0),
       intents := if series in s.intents then s.intents[series := CancelIntents(s.intents[series])] else s.intents)
  }

  // ---------------------------------------------------------------- moving a job to another provider

  function FindRelease(releases: seq<Release>, id: nat): Option<Release> {
    if releases == [] then None
    else if releases[0].id == id then Some(releases[0])
    else FindRelease(releases[1..], id)
  }

  function Postpone(releases: seq<Release>, id: nat, until: int): seq<Release> {
    seq(|releases|, i requires 0 <= i < |releases| =>
      if releases[i].id == id then releases[i].(availableAt := Some(until)) else releases[i])
  }

  /** The intent of a chapter now waits for `job`. */
  function AttachJob(intents: map<nat, seq<Intent>>, chapter: nat, job: nat): map<nat, seq<Intent>> {
    map s | s in intents :: AttachIn(intents[s], chapter, job)
  }

  function AttachIn(rows: seq<Intent>, chapter: nat, job: nat): seq<Intent> {
    seq(|rows|, i requires 0 <= i < |rows| =>
      if rows[i].chapter == chapter then rows[i].(job := Some(job), state := Queued) else rows[i])
  }

  /** What a worker remembers of the release it was leased for. */
  datatype Snapshot = Snapshot(release: nat, chapter: nat, source: string)

  /** Rewrites the payload for the alternative release and logs the fallback. */
  function MoveJob(s: Store, job: nat, attempted: set<string>, alternative: Release): Store
    requires job in s.jobs
  {
    s.(jobs := s.jobs[job := s.jobs[job].(release := alternative.id, source := alternative.source,
                                          attempted := attempted, status := JobRetryWait)],
       attempts := s.attempts + [Attempt(alternative.chapter, alternative.id, job, FallbackQueued)])
  }

  /** A leased worker gives up on its release; `true` when the job moved to another provider. */
  function Reroute(s: Store, job: nat, snap: Snapshot, retryAt: int, now: int): (Store, bool) {
    if job !in s.jobs || FindRelease(s.releases, snap.release) == None then (s, false)
    else if s.jobs[job].status != JobLeased then (s, false)
    else
      var row := s.jobs[job];
      var failed := FindRelease(s.releases, snap.release).value;
      var attempted := row.attempted + {snap.source};
      var postponed := s.(releases := Postpone(s.releases, snap.release, retryAt));
      if row.preferredOnly then (postponed, false)
      else
        var alternative := FallbackRelease(s.releases, snap.chapter, snap.release, attempted, now);
        if alternative == None then
          (postponed.(jobs := s.jobs[job := row.(attempted := attempted)],
                      attempts := s.attempts + [Attempt(snap.chapter, snap.release, job, FailedAttempt)]), false)
        else
          var logged := postponed.(attempts := s.attempts + [Attempt(failed.chapter, failed.id, job, FailedAttempt)]);
          var moved := MoveJob(logged, job, row.attempted + {failed.source}, alternative.value);
          (moved.(intents := AttachJob(s.intents, failed.chapter, job)), true)
  }

  predicate Waiting(s: Store, job: nat, source: string) {
    job in s.jobs && s.jobs[job].source == source && s.jobs[job].status in {JobQueued, JobRetryWait}
  }

  /** Moves one waiting job away from a cooling provider, or parks it. */
  function BypassJob(s: Store, job: nat, source: string, retryAfter: int, now: int): Store
    requires Waiting(s, job, source)
  {
    var row := s.jobs[job];
    var release := FindRelease(s.releases, row.release);
    if release == None then s
    else
      var failed := release.value;
      var attempted := row.attempted + {source};
      var alternative := FallbackRelease(s.releases, failed.chapter, failed.id, attempted, now);
      if row.preferredOnly || alternative == None then
        s.(jobs := s.jobs[job := row.(status := JobRetryWait)], releases := Postpone(s.releases, failed.id, retryAfter))
      else
        MoveJob(s, job, attempted, alternative.value).(intents := AttachJob(s.intents, failed.chapter, job))
  }

  function BypassFrom(s: Store, k: nat, limit: nat, source: string, retryAfter: int, now: int): Store
    requires k <= limit
    decreases limit - k
  {
    if k == limit then s
    else BypassFrom(if Waiting(s, k, source) then BypassJob(s, k, source, retryAfter, now) else s,
                    k + 1, limit, source, retryAfter, now)
  }

  function BypassCoolingSource(s: Store, source: string, retryAfter: int, now: int): Store {
    BypassFrom(s, 0, s.nextJob, source, retryAfter, now)
  }

  // ---------------------------------------------------------------- the coordinator object

  class DownloadPlanCoordinator {
    const window: int
    var plans: map<nat, Plan>
    var intents: map<nat, seq<Intent>>
    var jobs: map<nat, Job>
    var chapters: map<nat, seq<Chapter>>
    var releases: seq<Release>
    var stored: set<nat>
    var attempts: seq<Attempt>
    var nextIntent: nat
    var nextJob: nat

    ghost function Rows(): Store
      reads this
    {
      Store(plans, intents, jobs, chapters, releases, stored, attempts, nextIntent, nextJob)
    }

    /** `_sync_chapters`: an intent for every chapter that has none. */
    method SyncChapters(plan: Plan, rows: seq<Intent>, v: View) returns (synced: seq<Intent>)
      modifies this`nextIntent
      ensures var w := SyncFrom(Work(plan, rows, jobs, old(nextIntent), nextJob), v, 0);
        w == Work(plan, synced, jobs, nextIntent, nextJob)
    {
      synced := rows;
      ghost var goal := SyncFrom(Work(plan, rows, jobs, nextIntent, nextJob), v, 0);
      for k := 0 to |v.chapters|
        invariant SyncFrom(Work(plan, synced, jobs, nextIntent, nextJob), v, k) == goal
      {
        if !HasIntent(synced, v.chapters[k].id) {
          synced := synced + [NewIntent(plan, v, v.chapters[k], nextIntent)];
          nextIntent := nextIntent + 1;
        }
      }
    }

    method SettleIntents(rows: seq<Intent>, v: View) returns (settled: seq<Intent>)
      ensures settled == SettleAll(rows, v.stored, jobs)
    {
      settled := [];
      for k := 0 to |rows|
        invariant |settled| == k && forall i :: 0 <= i < k ==> settled[i] == Settle(rows[i], v.stored, jobs)
      {
        settled := settled + [Settle(rows[k], v.stored, jobs)];
      }
    }

    method UnblockBackfill(rows: seq<Intent>) returns (unblocked: seq<Intent>)
      ensures unblocked == Unblock(rows)
    {
      unblocked := rows;
      for k := 0 to |rows|
        invariant |unblocked| == |rows|
        invariant forall i :: 0 <= i < k ==> unblocked[i] == Unblock(rows)[i]
        invariant forall i :: k <= i < |rows| ==> unblocked[i] == rows[i]
      {
        if rows[k].tier == Backfill && rows[k].state == Blocked {
          unblocked := unblocked[k := rows[k].(state := Pending)];
        }
      }
    }

    /** Offers one intent to the queue and keeps the window counter. */
    method Offer(plan: Plan, rows: seq<Intent>, v: View, i: nat, active: nat)
      returns (offered: seq<Intent>, count: nat)
      requires i < |rows|
      modifies this`jobs, this`nextJob
      ensures var before := Work(plan, rows, old(jobs), nextIntent, old(nextJob));
        && EnqueueOne(before, v, i, active) == Work(plan, offered, jobs, nextIntent, nextJob)
        && count == CountAfter(before, EnqueueOne(before, v, i, active), i, active)
    {
      offered, count := rows, active;
      var intent := rows[i];
      if intent.state == Pending && !(intent.tier == Backfill && active >= v.window) {
        var best := BestRelease(v.releases, intent.chapter, v.now);
        if best == None {
          offered := rows[i := intent.(state := Attention)];
        } else {
          var key := ChapterKey(intent.chapter);
          var job := FindJob(jobs, nextJob, key);
          if job == None {
            job := Some(nextJob);
            jobs := jobs[nextJob := Job(key, JobQueued, best.value.id, {}, false, best.value.source,
                                        JobPriority(intent.tier))];
            nextJob := nextJob + 1;
          }
          offered := rows[i := intent.(state := Queued, job := job)];
          if intent.tier == Backfill {
            count := active + 1;
          }
        }
      }
    }

    /** `_enqueue_ready`: offers every pending intent to the queue, in intent order. */
    method EnqueuePending(plan: Plan, rows: seq<Intent>, v: View) returns (queued: seq<Intent>)
      modifies this`jobs, this`nextJob
      ensures EnqueueReady(Work(plan, rows, old(jobs), nextIntent, old(nextJob)), v)
           == Work(plan, queued, jobs, nextIntent, nextJob)
    {
      var order := IntentOrder(rows);
      IntentOrderCovers(rows);
      assert forall x :: 0 <= x < |order| ==> order[x] in order;
      queued := rows;
      var active: nat := QueuedBackfill(rows);
      ghost var goal := EnqueueReady(Work(plan, rows, jobs, nextIntent, nextJob), v);
      for k := 0 to |order|
        invariant |queued| == |rows|
        invariant EnqueueFrom(Work(plan, queued, jobs, nextIntent, nextJob), v, order, k, active) == goal
      {
        queued, active := Offer(plan, queued, v, order[k], active);
      }
    }

    /** The body of `reconcile` for a plan known to be active. */
    method ReconcilePlan(series: nat, plan: Plan, rows: seq<Intent>, v: View)
      requires plan.status == Active
      modifies this`plans, this`intents, this`jobs, this`nextIntent, this`nextJob
      ensures Rows() == Save(old(Rows()), series,
                             Reconcile(Work(plan, rows, old(jobs), old(nextIntent), old(nextJob)), v))
    {
      var advanced, current := DecidePhase(plan, rows, v);
      current := EnqueuePending(advanced, current, v);
      var counted := CountPlan(advanced, current);
      plans, intents := plans[series := counted], intents[series := current];
    }

    /** Observes the rows and opens the backfill if the whole priority wave is settled. */
    method DecidePhase(plan: Plan, rows: seq<Intent>, v: View) returns (advanced: Plan, decided: seq<Intent>)
      modifies this`nextIntent
      ensures AdvancePhase(Observe(Work(plan, rows, jobs, old(nextIntent), nextJob), v))
        == Work(advanced, decided, jobs, nextIntent, nextJob)
    {
      var synced := SyncChapters(plan, rows, v);
      advanced := plan;
      decided := SettleIntents(synced, v);
      assert Observe(Work(plan, rows, jobs, old(nextIntent), nextJob), v)
        == Work(plan, decided, jobs, nextIntent, nextJob);
      if plan.phase == PriorityPhase && PrioritySettled(decided) {
        advanced := plan.(phase := BackfillPhase);
        decided := UnblockBackfill(decided);
      }
    }

    method CountPlan(plan: Plan, rows: seq<Intent>) returns (counted: Plan)
      ensures counted == Summary(plan, rows)
    {
      var satisfied, attention, unfinished := 0, 0, false;
      for k := 0 to |rows|
        invariant satisfied == CountState(rows[..k], Satisfied) && attention == CountState(rows[..k], Attention)
        invariant unfinished <==> !AllSettled(rows[..k])
      {
        assert rows[..k + 1][..k] == rows[..k];
        match rows[k].state
        case Satisfied => satisfied := satisfied + 1;
        case Attention => attention := attention + 1;
        case Cancelled =>
        case _ => unfinished := true;
      }
      assert rows[..|rows|] == rows;
      counted := plan.(total := |rows|, satisfied := satisfied, attention := attention);
      if !unfinished && rows != [] {
        counted := counted.(status := Complete, phase := CompletePhase);
      }
    }

    method ReconcileOne(series: nat, now: int)
      modifies this`plans, this`intents, this`jobs, this`nextIntent, this`nextJob
      ensures Rows() == ReconcileSeries(old(Rows()), series, now, window)
    {
      if series in plans && plans[series].status == Active {
        ReconcilePlan(series, plans[series], if series in intents then intents[series] else [],
                      View(if series in chapters then chapters[series] else [], releases, stored, now, window));
      }
    }

    method TrackSeries(series: nat, now: int)
      modifies this`plans, this`intents, this`jobs, this`nextIntent, this`nextJob
      ensures Rows() == Track(old(Rows()), series, now, window)
    {
      var plan := if series in plans then plans[series] else Plan(Active, PriorityPhase, now, 0, 0, 0);
      plan := plan.(status := Active);
      if plan.phase in {CompletePhase, CancelledPhase} {
        plan := plan.(phase := PriorityPhase);
      }
      var v := View(if series in chapters then chapters[series] else [], releases, stored, now, window);
      var synced := SyncChapters(plan, if series in intents then intents[series] else [], v);
      ReconcilePlan(series, plan, synced, v);
    }

    method UntrackSeries(series: nat)
      modifies this`plans, this`intents, this`jobs
      ensures Rows() == Untrack(old(Rows()), series)
    {
      if series in plans {
        plans := plans[series := plans[series].(status := CancelledPlan, phase := CancelledPhase)];
      }
      if series in intents {
        var rows := intents[series];
        var cancelled := rows;
        ghost var goal := CancelFrom(jobs, rows, 0);
        for k := 0 to |rows|
          modifies this`jobs
          invariant |cancelled| == |rows| && CancelFrom(jobs, rows, k) == goal
          invariant forall i :: 0 <= i < k ==> cancelled[i] == CancelIntents(rows)[i]
          invariant forall i :: k <= i < |rows| ==> cancelled[i] == rows[i]
        {
          if Unfinished(rows[k].state) {
            if rows[k].job != None && rows[k].job.value in jobs
               && jobs[rows[k].job.value].status in {JobQueued, JobRetryWait} {
              jobs := jobs[rows[k].job.value := jobs[rows[k].job.value].(status := JobCancelled)];
            }
            cancelled := cancelled[k := rows[k].(state := Cancelled)];
          }
        }
        assert cancelled == CancelIntents(rows);
        intents := intents[series := cancelled];
      } else {
        assert CancelFrom(jobs, [], 0) == jobs;
      }
    }

    method RerouteLeased(job: nat, snap: Snapshot, retryAt: int, now: int) returns (moved: bool)
      modifies this`jobs, this`releases, this`attempts, this`intents
      ensures (Rows(), moved) == Reroute(old(Rows()), job, snap, retryAt, now)
    {
      var found := FindRelease(releases, snap.release);
      if job !in jobs || found == None || jobs[job].status != JobLeased {
        return false;
      }
      var row, failed := jobs[job], found.value;
      var attempted := row.attempted + {snap.source};
      if row.preferredOnly {
        releases := Postpone(releases, snap.release, retryAt);
        return false;
      }
      var alternative := FallbackRelease(releases, snap.chapter, snap.release, attempted, now);
      releases := Postpone(releases, snap.release, retryAt);
      if alternative == None {
        jobs := jobs[job := row.(attempted := attempted)];
        attempts := attempts + [Attempt(snap.chapter, snap.release, job, FailedAttempt)];
        return false;
      }
      attempts := attempts + [Attempt(failed.chapter, failed.id, job, FailedAttempt)];
      jobs := jobs[job := row.(release := alternative.value.id, source := alternative.value.source,
                               attempted := row.attempted + {failed.source}, status := JobRetryWait)];
      attempts := attempts + [Attempt(alternative.value.chapter, alternative.value.id, job, FallbackQueued)];
      intents := AttachJob(intents, failed.chapter, job);
      return true;
    }

    /** Returns how many jobs moved. */
    method Bypass(source: string, retryAfter: int, now: int) returns (rerouted: nat)
      modifies this`jobs, this`releases, this`attempts, this`intents
      ensures Rows() == BypassCoolingSource(old(Rows()), source, retryAfter, now)
      ensures |attempts| == |old(attempts)| + rerouted
    {
      rerouted := 0;
      ghost var goal := BypassCoolingSource(Rows(), source, retryAfter, now);
      for k := 0 to nextJob
        invariant BypassFrom(Rows(), k, nextJob, source, retryAfter, now) == goal
        invariant |attempts| == |old(attempts)| + rerouted
      {
        if k in jobs && jobs[k].source == source && jobs[k].status in {JobQueued, JobRetryWait} {
          var moved := BypassOne(k, source, retryAfter, now);
          if moved {
            rerouted := rerouted + 1;
          }
        }
      }
    }

    method BypassOne(job: nat, source: string, retryAfter: int, now: int) returns (moved: bool)
      requires Waiting(Rows(), job, source)
      modifies this`jobs, this`releases, this`attempts, this`intents
      ensures Rows() == BypassJob(old(Rows()), job, source, retryAfter, now)
      ensures |attempts| == |old(attempts)| + if moved then 1 else 0
    {
      var row := jobs[job];
      var found := FindRelease(releases, row.release);
      if found == None {
        return false;
      }
      var failed := found.value;
      var attempted := row.attempted + {source};
      var alternative := FallbackRelease(releases, failed.chapter, failed.id, attempted, now);
      if row.preferredOnly || alternative == None {
        jobs := jobs[job := row.(status := JobRetryWait)];
        releases := Postpone(releases, failed.id, retryAfter);
        return false;
      }
      jobs := jobs[job := row.(release := alternative.value.id, source := alternative.value.source,
                               attempted := attempted, status := JobRetryWait)];
      attempts := attempts + [Attempt(alternative.value.chapter, alternative.value.id, job, FallbackQueued)];
      intents := AttachJob(intents, failed.chapter, job);
      return true;
    }
  }
}
