/** Provider fallback terminates: how often, and on what condition, a chapter job can move. */
module Rerouting {
  import opened Options
  import opened DownloadPlans
  import opened PlanProperties
  import opened PlanStore
  import opened PlanRuns

  /** The providers a job has been on, including the current one. */
  ghost function Used(s: Store, job: nat): set<string>
    requires job in s.jobs
  {
    s.jobs[job].attempted + {s.jobs[job].source}
  }

  /** How often the job was moved: its logged fallbacks. */
  ghost function Moves(attempts: seq<Attempt>, job: nat): nat {
    if attempts == [] then 0
    else
      var last := attempts[|attempts| - 1];
      Moves(attempts[..|attempts| - 1], job) + (if last.job == job && last.outcome == FallbackQueued then 1 else 0)
  }

  lemma {:induction false} MovesAppend(attempts: seq<Attempt>, a: Attempt, job: nat)
    ensures Moves(attempts + [a], job)
         == Moves(attempts, job) + (if a.job == job && a.outcome == FallbackQueued then 1 else 0)
  {
    assert (attempts + [a])[..|attempts|] == attempts;
  }

  ghost predicate UniqueReleases(releases: seq<Release>) {
    forall i, j :: 0 <= i < j < |releases| ==> releases[i].id != releases[j].id
  }

  /** The job's release, wherever it is listed, belongs to chapter `c`. */
  ghost predicate OnChapter(s: Store, job: nat, c: nat)
    requires job in s.jobs
  {
    forall r :: r in s.releases && r.id == s.jobs[job].release ==> r.chapter == c
  }

  lemma {:induction false} FindReleaseFinds(releases: seq<Release>, id: nat)
    ensures match FindRelease(releases, id)
      case Some(r) => r in releases && r.id == id
      case None => forall r :: r in releases ==> r.id != id
  {
    if releases != [] {
      FindReleaseFinds(releases[1..], id);
      assert releases == [releases[0]] + releases[1..];
    }
  }

  /** The reroute gets past its first checks: a leased job, and a release that still exists. */
  ghost predicate Reaches(s: Store, job: nat, snap: Snapshot) {
    job in s.jobs && s.jobs[job].status == JobLeased && FindRelease(s.releases, snap.release) != None
  }

  /** The release the reroute would fall back to. */
  ghost function FallbackFor(s: Store, job: nat, snap: Snapshot, now: int): Option<Release>
    requires job in s.jobs
  {
    FallbackRelease(s.releases, snap.chapter, snap.release, s.jobs[job].attempted + {snap.source}, now)
  }

  ghost predicate WillMove(s: Store, job: nat, snap: Snapshot, now: int) {
    Reaches(s, job, snap) && !s.jobs[job].preferredOnly && FallbackFor(s, job, snap, now) != None
  }

  /** The snapshot names the provider its release has. */
  ghost predicate Honest(s: Store, snap: Snapshot) {
    forall r :: r in s.releases && r.id == snap.release ==> r.source == snap.source
  }

  /**
   The job's current provider is among the ones the worker excludes, or is the very one it would
   fall back to while its own was not recorded yet.
   */
  ghost predicate Gains(s: Store, job: nat, snap: Snapshot, now: int)
    requires WillMove(s, job, snap, now)
  {
    var row := s.jobs[job];
    || row.source in row.attempted + {snap.source}
    || (FallbackFor(s, job, snap, now).value.source == row.source && snap.source !in row.attempted)
  }

  /** The job's current release exists and belongs to the snapshot's chapter. */
  ghost predicate SameChapter(s: Store, job: nat, snap: Snapshot)
    requires job in s.jobs
  {
    exists r :: r in s.releases && r.id == s.jobs[job].release && r.chapter == snap.chapter
  }

  /** What a rerouting worker, current or stale, must satisfy; `RerouteAdvancesExactlyWhen` shows it cannot be less. */
  ghost predicate Covered(s: Store, job: nat, snap: Snapshot, now: int) {
    Reaches(s, job, snap) ==>
      Honest(s, snap) && (WillMove(s, job, snap, now) ==> Gains(s, job, snap, now) && SameChapter(s, job, snap))
  }

  /** The snapshot is of the release the job is on now. */
  ghost predicate Fresh(s: Store, job: nat, snap: Snapshot) {
    job in s.jobs && s.jobs[job].status == JobLeased ==>
      && snap.release == s.jobs[job].release && snap.source == s.jobs[job].source
      && forall r :: r in s.releases && r.id == snap.release ==> r.source == snap.source && r.chapter == snap.chapter
  }

  /** A worker whose snapshot is current is covered. */
  lemma {:induction false} FreshIsCovered(s: Store, job: nat, snap: Snapshot, now: int)
    requires Fresh(s, job, snap)
    ensures Covered(s, job, snap, now)
  {
    if Reaches(s, job, snap) {
      FindReleaseFinds(s.releases, snap.release);
    }
  }

  ghost predicate SourcesIn(releases: seq<Release>, known: set<string>) {
    forall r :: r in releases ==> r.source in known
  }

  ghost predicate KeepsChapter(s: Store, t: Store, job: nat)
    requires job in s.jobs && job in t.jobs
  {
    forall c: nat :: OnChapter(s, job, c) ==> OnChapter(t, job, c)
  }

  /**
   From `s` to `t` the job only gains providers, all of them known and at least one per move; it
   stays on its chapter; and a preferred-only job is not moved at all.
   */
  ghost predicate Advances(s: Store, t: Store, job: nat, known: set<string>) {
    && job in s.jobs && job in t.jobs
    && Used(s, job) <= Used(t, job) <= Used(s, job) + known
    && KeepsChapter(s, t, job)
    && Moves(t.attempts, job) >= Moves(s.attempts, job)
    && Moves(t.attempts, job) - Moves(s.attempts, job) <= |Used(t, job)| - |Used(s, job)|
    && t.jobs[job].preferredOnly == s.jobs[job].preferredOnly
    && (s.jobs[job].preferredOnly ==>
          SamePayload(s.jobs[job], t.jobs[job]) && Moves(t.attempts, job) == Moves(s.attempts, job))
  }

  lemma {:induction false} AdvancesTransitive(a: Store, b: Store, c: Store, job: nat, known: set<string>)
    requires Advances(a, b, job, known) && Advances(b, c, job, known)
    ensures Advances(a, c, job, known)
  {
  }

  lemma {:induction false} SamePayloadAdvances(s: Store, t: Store, job: nat, known: set<string>)
    requires job in s.jobs && job in t.jobs && SamePayload(s.jobs[job], t.jobs[job])
    requires Moves(t.attempts, job) == Moves(s.attempts, job)
    requires forall r :: r in t.releases && r.id == t.jobs[job].release ==>
      exists q :: q in s.releases && q.id == r.id && q.chapter == r.chapter
    ensures Advances(s, t, job, known)
  {
  }

  /** Postponing a release changes neither its id nor its chapter. */
  lemma {:induction false} PostponeKeeps(releases: seq<Release>, id: nat, until: int)
    ensures forall r :: r in Postpone(releases, id, until) ==>
      exists q :: q in releases && q.id == r.id && q.chapter == r.chapter
  {
    var after := Postpone(releases, id, until);
    forall r | r in after ensures exists q :: q in releases && q.id == r.id && q.chapter == r.chapter {
      var i :| 0 <= i < |after| && after[i] == r;
      assert releases[i] in releases;
    }
  }

  lemma {:induction false} FallbackIsNew(releases: seq<Release>, chapter: nat, failed: nat, excluded: set<string>,
                                         now: int)
    ensures var alt := FallbackRelease(releases, chapter, failed, excluded, now);
      alt != None ==> alt.value in releases && alt.value.chapter == chapter && alt.value.source !in excluded
  {
    BestIsPreferred(releases,
                    (r: Release) => r.chapter
                      == chapter && r.id != failed && r.source !in excluded && Available(r, now));
  }

  lemma {:induction false} MoreIsLarger(a: set<string>, b: set<string>, x: string)
    requires a <= b && x in b && x !in a
    ensures |b| >= |a| + 1
  {
    SubsetSize(a, b - {x});
  }

  lemma {:induction false} SubsetSize(a: set<string>, b: set<string>)
    requires a <= b
    ensures |a| <= |b|
  {
    if a != {} {
      var x :| x in a;
      SubsetSize(a - {x}, b - {x});
    }
  }

  /** Moving a job so that it gains a provider, on the same chapter. */
  lemma {:induction false} MoveAdvances(s: Store, t: Store, job: nat, alternative: Release, chapter: nat,
                                        known: set<string>)
    requires job in s.jobs && job in t.jobs && !s.jobs[job].preferredOnly && !t.jobs[job].preferredOnly
    requires Used(s, job) < Used(t, job) <= Used(s, job) + known
    requires Moves(t.attempts, job) == Moves(s.attempts, job) + 1 && t.jobs[job].release == alternative.id
    requires UniqueReleases(s.releases) && alternative in s.releases && alternative.chapter == chapter
    requires exists r :: r in s.releases && r.id == s.jobs[job].release && r.chapter == chapter
    requires forall r :: r in t.releases ==> exists q :: q in s.releases && q.id == r.id && q.chapter == r.chapter
    ensures Advances(s, t, job, known)
  {
    var x :| x in Used(t, job) && x !in Used(s, job);
    MoreIsLarger(Used(s, job), Used(t, job), x);
    forall r | r in t.releases && r.id == alternative.id ensures r.chapter == chapter {
      var q :| q in s.releases && q.id == r.id && q.chapter == r.chapter;
      assert q == alternative;
    }
  }

  /** The rows after a reroute that moves the job: payload, log and releases, no other job. */
  ghost predicate MovedTo(s: Store, t: Store, job: nat, snap: Snapshot, alternative: Release) {
    && job in s.jobs && !s.jobs[job].preferredOnly
    && t.jobs == s.jobs[job := s.jobs[job].(release := alternative.id, source := alternative.source,
                                            attempted := s.jobs[job].attempted + {snap.source}, status := JobRetryWait)]
    && alternative in s.releases && alternative.chapter == snap.chapter
    && alternative.source !in s.jobs[job].attempted + {snap.source}
    && (exists failed: Release ::
          t.attempts == s.attempts + [Attempt(failed.chapter, failed.id, job, FailedAttempt)]
                        + [Attempt(alternative.chapter, alternative.id, job, FallbackQueued)])
    && (forall r :: r in t.releases ==> exists q :: q in s.releases && q.id == r.id && q.chapter == r.chapter)
  }

  lemma {:induction false} RerouteMoves(s: Store, job: nat, snap: Snapshot, retryAt: int, now: int)
    requires WillMove(s, job, snap, now) && Honest(s, snap)
    ensures Reroute(s, job, snap, retryAt, now).1
    ensures MovedTo(s, Reroute(s, job, snap, retryAt, now).0, job, snap, FallbackFor(s, job, snap, now).value)
  {
    FindReleaseFinds(s.releases, snap.release);
    FallbackIsNew(s.releases, snap.chapter, snap.release, s.jobs[job].attempted + {snap.source}, now);
    PostponeKeeps(s.releases, snap.release, retryAt);
  }

  lemma {:induction false} MovedCounts(s: Store, t: Store, job: nat, snap: Snapshot, alternative: Release, j: nat)
    requires MovedTo(s, t, job, snap, alternative)
    ensures Moves(t.attempts, j) == Moves(s.attempts, j) + if j == job then 1 else 0
  {
    var failed: Release :|
      t.attempts == s.attempts + [Attempt(failed.chapter, failed.id, job, FailedAttempt)]
                    + [Attempt(alternative.chapter, alternative.id, job, FallbackQueued)];
    MovesAppend(s.attempts, Attempt(failed.chapter, failed.id, job, FailedAttempt), j);
    MovesAppend(s.attempts + [Attempt(failed.chapter, failed.id, job, FailedAttempt)],
                Attempt(alternative.chapter, alternative.id, job, FallbackQueued), j);
  }

  lemma {:induction false} SnapshotProviderIsKnown(s: Store, job: nat, snap: Snapshot, known: set<string>)
    requires Reaches(s, job, snap) && Honest(s, snap) && SourcesIn(s.releases, known)
    ensures snap.source in known
  {
    FindReleaseFinds(s.releases, snap.release);
  }

  /** The rows after a reroute that does not move the job: at most its provider is recorded. */
  ghost predicate StayedOn(s: Store, t: Store, job: nat, snap: Snapshot, j: nat) {
    && Moves(t.attempts, j) == Moves(s.attempts, j)
    && (forall r :: r in t.releases ==> exists q :: q in s.releases && q.id == r.id && q.chapter == r.chapter)
    && (t.jobs == s.jobs
        || (Reaches(s, job, snap) && !s.jobs[job].preferredOnly
            && t.jobs == s.jobs[job := s.jobs[job].(attempted := s.jobs[job].attempted + {snap.source})]))
  }

  lemma {:induction false} RerouteStaysOn(s: Store, job: nat, snap: Snapshot, retryAt: int, now: int, j: nat)
    requires !WillMove(s, job, snap, now)
    ensures !Reroute(s, job, snap, retryAt, now).1
    ensures StayedOn(s, Reroute(s, job, snap, retryAt, now).0, job, snap, j)
  {
    var t := Reroute(s, job, snap, retryAt, now).0;
    MovesAppend(s.attempts, Attempt(snap.chapter, snap.release, job, FailedAttempt), j);
    RerouteReleases(s, job, snap, retryAt, now);
    assert t.attempts == s.attempts
      || t.attempts == s.attempts + [Attempt(snap.chapter, snap.release, job, FailedAttempt)];
  }

  lemma {:induction false} RerouteReleases(s: Store, job: nat, snap: Snapshot, retryAt: int, now: int)
    ensures forall r :: r in Reroute(s, job, snap, retryAt, now).0.releases ==>
      exists q :: q in s.releases && q.id == r.id && q.chapter == r.chapter
  {
    PostponeKeeps(s.releases, snap.release, retryAt);
  }

  lemma {:induction false} StayAdvances(s: Store, t: Store, job: nat, snap: Snapshot, j: nat, known: set<string>)
    requires j in s.jobs && StayedOn(s, t, job, snap, j) && SourcesIn(s.releases, known)
    requires Reaches(s, job, snap) ==> Honest(s, snap)
    ensures Advances(s, t, j, known)
  {
    if t.jobs != s.jobs && j == job {
      SnapshotProviderIsKnown(s, job, snap, known);
      assert Used(t, j) == Used(s, j) + {snap.source};
      SubsetSize(Used(s, j), Used(t, j));
    } else {
      SamePayloadAdvances(s, t, j, known);
    }
  }

  /** The used providers after a reroute that moves the job. */
  lemma {:induction false} UsedAfterMove(s: Store, t: Store, job: nat, snap: Snapshot, alternative: Release)
    requires MovedTo(s, t, job, snap, alternative)
    ensures job in t.jobs && Used(t, job) == s.jobs[job].attempted + {snap.source, alternative.source}
    ensures Used(s, job) < Used(t, job) <==>
      || s.jobs[job].source in s.jobs[job].attempted + {snap.source}
      || (alternative.source == s.jobs[job].source && snap.source !in s.jobs[job].attempted)
  {
    var row := s.jobs[job];
    if row.source in row.attempted + {snap.source} {
      assert alternative.source in Used(t, job) && alternative.source !in Used(s, job);
    }
    if alternative.source == row.source && snap.source !in row.attempted {
      assert snap.source in Used(t, job) && snap.source !in Used(s, job);
    }
  }

  lemma {:induction false} RerouteAdvances(s: Store, job: nat, snap: Snapshot, retryAt: int, now: int, j: nat,
                                           known: set<string>)
    requires j in s.jobs && Covered(s, job, snap, now) && UniqueReleases(s.releases) && SourcesIn(s.releases, known)
    ensures Advances(s, Reroute(s, job, snap, retryAt, now).0, j, known)
  {
    if WillMove(s, job, snap, now) {
      var t, alternative := Reroute(s, job, snap, retryAt, now).0, FallbackFor(s, job, snap, now).value;
      RerouteMoves(s, job, snap, retryAt, now);
      MovedCounts(s, t, job, snap, alternative, j);
      if j == job {
        UsedAfterMove(s, t, job, snap, alternative);
        SnapshotProviderIsKnown(s, job, snap, known);
        MoveAdvances(s, t, job, alternative, snap.chapter, known);
      } else {
        SamePayloadAdvances(s, t, j, known);
      }
    } else {
      RerouteStaysOn(s, job, snap, retryAt, now, j);
      StayAdvances(s, Reroute(s, job, snap, retryAt, now).0, job, snap, j, known);
    }
  }

  lemma {:induction false} BypassJobAdvances(s: Store, job: nat, source: string, retryAfter: int, now: int, j: nat,
                                             known: set<string>)
    requires j in s.jobs && Waiting(s, job, source) && UniqueReleases(s.releases) && SourcesIn(s.releases, known)
    ensures var t := BypassJob(s, job, source, retryAfter, now);
      Advances(s, t, j, known) && UniqueReleases(t.releases) && SourcesIn(t.releases, known)
  {
    var t := BypassJob(s, job, source, retryAfter, now);
    var row := s.jobs[job];
    FindReleaseFinds(s.releases, row.release);
    PostponeKeeps(s.releases, row.release, retryAfter);
    if t.attempts != s.attempts {
      var failed := FindRelease(s.releases, row.release).value;
      var attempted := row.attempted + {source};
      var alternative := FallbackRelease(s.releases, failed.chapter, failed.id, attempted, now).value;
      FallbackIsNew(s.releases, failed.chapter, failed.id, attempted, now);
      MovesAppend(s.attempts, Attempt(alternative.chapter, alternative.id, job, FallbackQueued), j);
      if j == job {
        assert alternative.source in Used(t, job) && alternative.source !in Used(s, job);
        MoveAdvances(s, t, job, alternative, failed.chapter, known);
      } else {
        SamePayloadAdvances(s, t, j, known);
      }
    } else {
      SamePayloadAdvances(s, t, j, known);
      PostponeKeepsSources(s.releases, row.release, retryAfter, known);
    }
  }

  lemma {:induction false} PostponeKeepsSources(releases: seq<Release>, id: nat, until: int, known: set<string>)
    requires UniqueReleases(releases) && SourcesIn(releases, known)
    ensures UniqueReleases(Postpone(releases, id, until)) && SourcesIn(Postpone(releases, id, until), known)
  {
    var after := Postpone(releases, id, until);
    forall r | r in after ensures r.source in known {
      var i :| 0 <= i < |after| && after[i] == r;
      assert releases[i] in releases;
    }
  }

  lemma {:induction false} BypassAdvances(s: Store, k: nat, limit: nat, source: string, retryAfter: int, now: int,
                                          j: nat, known: set<string>)
    requires j in s.jobs && k <= limit && UniqueReleases(s.releases) && SourcesIn(s.releases, known)
    ensures Advances(s, BypassFrom(s, k, limit, source, retryAfter, now), j, known)
    decreases limit - k
  {
    if k < limit {
      if Waiting(s, k, source) {
        var t := BypassJob(s, k, source, retryAfter, now);
        BypassJobAdvances(s, k, source, retryAfter, now, j, known);
        BypassAdvances(t, k + 1, limit, source, retryAfter, now, j, known);
        AdvancesTransitive(s, t, BypassFrom(t, k + 1, limit, source, retryAfter, now), j, known);
      } else {
        BypassAdvances(s, k + 1, limit, source, retryAfter, now, j, known);
      }
    } else {
      SamePayloadAdvances(s, s, j, known);
    }
  }

  lemma {:induction false} PassAdvances(s: Store, step: Step, window: int, j: nat, known: set<string>)
    requires Safe(s) && j in s.jobs && (step.TrackStep? || step.ReconcileStep?)
    ensures Advances(s, Next(s, step, window), j, known)
  {
    var series := step.series;
    assert SafeSeries(s, series);
    var v := ViewOf(s, series, step.now, window);
    if step.TrackStep? {
      SyncSafe(WorkOf(s, series, TrackedPlan(s, series, step.now)), v, 0);
      ReconcileSafe(StartOf(s, step, window), v);
    } else if series in s.plans {
      ReconcileSafe(WorkOf(s, series, s.plans[series]), v);
    }
    SamePayloadAdvances(s, Next(s, step, window), j, known);
  }

  /** Every step, if its worker is covered, advances every job that survives it. */
  lemma {:induction false} StepAdvances(s: Store, step: Step, window: int, j: nat, known: set<string>)
    requires Safe(s) && Enabled(s, step) && (step.RerouteStep? ==> Covered(s, step.job, step.snap, step.now))
    requires UniqueReleases(s.releases) && SourcesIn(s.releases, known)
    requires j in s.jobs && j in Next(s, step, window).jobs
    ensures Advances(s, Next(s, step, window), j, known)
  {
    match step
    case TrackStep(_, _) => PassAdvances(s, step, window, j, known);
    case ReconcileStep(_, _) => PassAdvances(s, step, window, j, known);
    case UntrackStep(x) =>
      CancelKeepsJobs(s.jobs, IntentsOf(s, x), 0);
      SamePayloadAdvances(s, Next(s, step, window), j, known);
    case RerouteStep(job, snap, retryAt, now) => RerouteAdvances(s, job, snap, retryAt, now, j, known);
    case BypassStep(source, retryAfter, now) => BypassAdvances(s, 0, s.nextJob, source, retryAfter, now, j, known);
    case OutsideStep(next) => SamePayloadAdvances(s, next, j, known);
  }

  /** Release ids are a key, every release is from a known provider, and every rerouting worker is covered. */
  ghost predicate CoveredRun(stores: seq<Store>, steps: seq<Step>, window: int, known: set<string>) {
    && IsRun(stores, steps, window) && Safe(stores[0])
    && (forall k :: 0 <= k < |stores| ==> UniqueReleases(stores[k].releases) && SourcesIn(stores[k].releases, known))
    && (forall k :: 0 <= k < |steps| && steps[k].RerouteStep? ==>
          Covered(stores[k], steps[k].job, steps[k].snap, steps[k].now))
  }

  lemma {:induction false} CoveredStepAdvances(stores: seq<Store>, steps: seq<Step>, window: int, j: nat, k: nat,
                                               known: set<string>)
    requires CoveredRun(stores, steps, window, known) && k < |steps|
    requires j in stores[k].jobs && j in stores[k + 1].jobs
    ensures Advances(stores[k], stores[k + 1], j, known)
  {
    RunsStaySafe(stores, steps, window, k);
    assert stores[k + 1] == Next(stores[k], steps[k], window);
    StepAdvances(stores[k], steps[k], window, j, known);
  }

  lemma {:induction false} RunAdvances(stores: seq<Store>, steps: seq<Step>, window: int, j: nat, k: nat, m: nat,
                                       known: set<string>)
    requires CoveredRun(stores, steps, window, known) && k <= m < |stores|
    requires forall i :: k <= i <= m ==> j in stores[i].jobs
    ensures Advances(stores[k], stores[m], j, known)
    decreases m
  {
    if k < m {
      RunAdvances(stores, steps, window, j, k, m - 1, known);
      CoveredStepAdvances(stores, steps, window, j, m - 1, known);
      AdvancesTransitive(stores[k], stores[m - 1], stores[m], j, known);
    } else {
      SamePayloadAdvances(stores[k], stores[k], j, known);
    }
  }

  /**
   Over any run of covered reroutes, bypasses and everything else, a job that starts on known
   providers moves at most once fewer than there are known providers, never leaves its chapter,
   and is not moved at all when it is preferred-only.
   */
  lemma {:induction false} MovesAreBounded(stores: seq<Store>, steps: seq<Step>, window: int, j: nat, k: nat, m: nat,
                                           known: set<string>)
    requires CoveredRun(stores, steps, window, known) && k <= m < |stores|
    requires forall i :: k <= i <= m ==> j in stores[i].jobs
    requires Used(stores[k], j) <= known
    ensures Moves(stores[m].attempts, j) - Moves(stores[k].attempts, j) <= |known| - 1
    ensures KeepsChapter(stores[k], stores[m], j)
    ensures stores[k].jobs[j].preferredOnly ==>
      SamePayload(stores[k].jobs[j], stores[m].jobs[j]) && Moves(stores[m].attempts, j) == Moves(stores[k].attempts, j)
  {
    RunAdvances(stores, steps, window, j, k, m, known);
    SubsetSize(Used(stores[m], j), known);
    SubsetSize({stores[k].jobs[j].source}, Used(stores[k], j));
  }

  // ---------------------------------------------------------------- stale workers

  /** Exactly when a reroute that moves the job makes it gain a provider, whatever the snapshot. */
  lemma {:induction false} RerouteGrowsExactlyWhen(s: Store, job: nat, snap: Snapshot, retryAt: int, now: int)
    requires WillMove(s, job, snap, now) && Honest(s, snap)
    ensures var t := Reroute(s, job, snap, retryAt, now).0;
      job in t.jobs && (Used(s, job) < Used(t, job) <==> Gains(s, job, snap, now))
  {
    RerouteMoves(s, job, snap, retryAt, now);
    UsedAfterMove(s, Reroute(s, job, snap, retryAt, now).0, job, snap, FallbackFor(s, job, snap, now).value);
  }

  /** The guard is exact: a reroute that moves the job advances it if and only if its worker is covered. */
  lemma {:induction false} RerouteAdvancesExactlyWhen(s: Store, job: nat, snap: Snapshot, retryAt: int, now: int,
                                                      known: set<string>)
    requires WillMove(s, job, snap, now) && Honest(s, snap) && UniqueReleases(s.releases)
    requires SourcesIn(s.releases, known)
    ensures Advances(s, Reroute(s, job, snap, retryAt, now).0, job, known) <==> Covered(s, job, snap, now)
  {
    var t, alternative := Reroute(s, job, snap, retryAt, now).0, FallbackFor(s, job, snap, now).value;
    RerouteMoves(s, job, snap, retryAt, now);
    MovedCounts(s, t, job, snap, alternative, job);
    RerouteGrowsExactlyWhen(s, job, snap, retryAt, now);
    if Covered(s, job, snap, now) {
      RerouteAdvances(s, job, snap, retryAt, now, job, known);
    }
    if Advances(s, t, job, known) {
      assert Used(s, job) != Used(t, job);
      StaysOnChapter(s, t, job, snap, retryAt, alternative);
    }
  }

  /** A move that keeps every chapter the job might be on comes from a listed release of that chapter. */
  lemma {:induction false} StaysOnChapter(s: Store, t: Store, job: nat, snap: Snapshot, retryAt: int,
                                          alternative: Release)
    requires MovedTo(s, t, job, snap, alternative) && UniqueReleases(s.releases)
    requires t.releases == Postpone(s.releases, snap.release, retryAt) && KeepsChapter(s, t, job)
    ensures SameChapter(s, job, snap)
  {
    var i :| 0 <= i < |s.releases| && s.releases[i] == alternative;
    assert t.releases[i] in t.releases && t.releases[i].id == alternative.id && t.releases[i].chapter == snap.chapter;
    assert !OnChapter(t, job, snap.chapter + 1);
    assert !OnChapter(s, job, snap.chapter + 1);
    var r :| r in s.releases && r.id == s.jobs[job].release && r.chapter != snap.chapter + 1;
    forall q | q in s.releases && q.id == r.id ensures q.chapter == r.chapter {
      assert q == r;
    }
    assert OnChapter(s, job, r.chapter);
    assert OnChapter(t, job, r.chapter);
  }

  /** A worker left over from an earlier lease of the same job breaks the bound. */
  lemma {:induction false} StaleRerouteShrinks()
    ensures var releases := [Release(1, 9, "asura", 0, None), Release(2, 9, "mangadex", 0, Some(50)),
                             Release(3, 9, "mangafire", 0, None)];
      var row := Job(ChapterKey(9), JobLeased, 2, {"asura"}, false, "mangadex", 20);
      var s := Store(map[], map[], map[0 := row], map[], releases, {}, [], 0, 1);
      var (t, moved) := Reroute(s, 0, Snapshot(1, 9, "asura"), 100, 10);
      && moved && !Covered(s, 0, Snapshot(1, 9, "asura"), 10)
      && "mangadex" in Used(s, 0) && "mangadex" !in Used(t, 0)
  {
    var releases := [Release(1, 9, "asura", 0, None), Release(2, 9, "mangadex", 0, Some(50)),
                     Release(3, 9, "mangafire", 0, None)];
    var eligible := (r: Release) => r.chapter
      == 9 && r.id != 1 && r.source !in {"asura"} + {"asura"} && Available(r, 10);
    assert releases[1..] == [Release(2, 9, "mangadex", 0, Some(50)), Release(3, 9, "mangafire", 0, None)];
    assert releases[1..][1..] == [Release(3, 9, "mangafire", 0, None)];
    assert Best(releases[1..][1..], eligible) == Some(Release(3, 9, "mangafire", 0, None));
    assert Best(releases[1..], eligible) == Some(Release(3, 9, "mangafire", 0, None));
    assert Best(releases, eligible) == Some(Release(3, 9, "mangafire", 0, None));
    var row := Job(ChapterKey(9), JobLeased, 2, {"asura"}, false, "mangadex", 20);
    var s := Store(map[], map[], map[0 := row], map[], releases, {}, [], 0, 1);
    assert FallbackRelease(s.releases, 9, 1, row.attempted + {"asura"}, 10) != None by {
      BestIsPreferred(releases,
                      (r: Release) => r.chapter
                        == 9 && r.id != 1 && r.source !in row.attempted + {"asura"} && Available(r, 10));
      assert releases[2] in releases;
    }
    FallbackIsNew(s.releases, 9, 1, row.attempted + {"asura"}, 10);
  }

  // ---------------------------------------------------------------- what a reroute writes

  /** Exactly the failed release is held back until the given time. */
  ghost predicate HeldBack(before: seq<Release>, after: seq<Release>, failed: nat, until: int) {
    |before| == |after| && forall i :: 0 <= i < |before| ==>
      after[i] == if before[i].id == failed then before[i].(availableAt := Some(until)) else before[i]
  }

  /** A release the job can go over to: of the chapter, not the failed one, of no excluded provider, available. */
  ghost predicate Alternative(r: Release, releases: seq<Release>, chapter: nat, failed: nat, excluded: set<string>,
                              now: int) {
    && r in releases && r.chapter == chapter && r.id != failed && r.source !in excluded
    && (r.availableAt == None || r.availableAt.value <= now)
  }

  ghost predicate BestAlternative(r: Release, releases: seq<Release>, chapter: nat, failed: nat,
                                  excluded: set<string>, now: int) {
    && Alternative(r, releases, chapter, failed, excluded, now)
    && forall q :: Alternative(q, releases, chapter, failed, excluded, now) ==> !Preferred(q, r)
  }

  lemma {:induction false} FallbackIsBest(releases: seq<Release>, chapter: nat, failed: nat, excluded: set<string>,
                                          now: int)
    ensures match FallbackRelease(releases, chapter, failed, excluded, now)
      case Some(r) => BestAlternative(r, releases, chapter, failed, excluded, now)
      case None => forall r :: !Alternative(r, releases, chapter, failed, excluded, now)
  {
    var eligible := (r: Release) =>
      r.chapter == chapter && r.id != failed && r.source !in excluded && Available(r, now);
    BestIsPreferred(releases, eligible);
  }

  /** The job is on the best alternative, waits again, and remembers the providers it has tried. */
  ghost predicate OnBestAlternative(s: Store, t: Store, job: nat, chapter: nat, failed: nat, excluded: set<string>,
                                    now: int)
    requires job in s.jobs
  {
    && job in t.jobs && t.jobs.Keys == s.jobs.Keys
    && (forall j :: j in s.jobs && j != job ==> t.jobs[j] == s.jobs[j])
    && exists r :: BestAlternative(r, s.releases, chapter, failed, excluded, now)
         && t.jobs[job] == s.jobs[job].(release := r.id, source := r.source, status := JobRetryWait,
                                        attempted := t.jobs[job].attempted)
  }

  /** Exactly the intents of the chapter now wait for the job. */
  ghost predicate Attached(before: map<nat, seq<Intent>>, after: map<nat, seq<Intent>>, chapter: nat, job: nat) {
    before.Keys == after.Keys && forall x :: x in before ==> AttachedRows(before[x], after[x], chapter, job)
  }

  ghost predicate AttachedRows(before: seq<Intent>, after: seq<Intent>, chapter: nat, job: nat) {
    |before| == |after| && forall i :: 0 <= i < |before| ==>
      after[i] == if before[i].chapter == chapter then before[i].(state := Queued, job := Some(job)) else before[i]
  }

  /** The job remembers the provider of the release that failed, and that chapter's intents wait for it. */
  ghost predicate LeftFailed(s: Store, t: Store, job: nat, failed: Release)
    requires job in s.jobs && job in t.jobs
  {
    && t.jobs[job].attempted == s.jobs[job].attempted + {failed.source}
    && Attached(s.intents, t.intents, failed.chapter, job)
  }

  /**
   A leased reroute: the failed release is held back unless the checks fail; the job moves exactly
   when it may use other providers and an untried alternative exists, and then to the best one.
   */
  lemma {:induction false} RerouteWrites(s: Store, job: nat, snap: Snapshot, retryAt: int, now: int)
    ensures var (t, moved) := Reroute(s, job, snap, retryAt, now);
      && (!Reaches(s, job, snap) ==> t == s && !moved)
      && (Reaches(s, job, snap) ==>
           var excluded := s.jobs[job].attempted + {snap.source};
           && HeldBack(s.releases, t.releases, snap.release, retryAt)
           && (moved <==> !s.jobs[job].preferredOnly
                          && exists r :: Alternative(r, s.releases, snap.chapter, snap.release, excluded, now))
           && (moved ==>
                && OnBestAlternative(s, t, job, snap.chapter, snap.release, excluded, now)
                && exists failed :: failed in s.releases && failed.id == snap.release && LeftFailed(s, t, job, failed))
           && (!moved ==>
                t.attempts == s.attempts + if s.jobs[job].preferredOnly then []
                                           else [Attempt(snap.chapter, snap.release, job, FailedAttempt)])
           && (!moved ==> t.intents == s.intents && t.jobs == s.jobs[job := s.jobs[job].(attempted :=
                 if s.jobs[job].preferredOnly then s.jobs[job].attempted else excluded)]))
  {
    if Reaches(s, job, snap) {
      var excluded := s.jobs[job].attempted + {snap.source};
      FallbackIsBest(s.releases, snap.chapter, snap.release, excluded, now);
      FindReleaseFinds(s.releases, snap.release);
      var (t, moved) := Reroute(s, job, snap, retryAt, now);
      if moved {
        assert LeftFailed(s, t, job, FindRelease(s.releases, snap.release).value);
      }
    }
  }

  /**
   Bypassing a cooling provider: a waiting job whose release exists moves to the best untried
   alternative when it may and there is one; otherwise it waits and its release is held back.
   */
  lemma {:induction false} BypassWrites(s: Store, job: nat, source: string, retryAfter: int, now: int)
    requires Waiting(s, job, source)
    ensures var t, found := BypassJob(s, job, source, retryAfter, now), FindRelease(s.releases, s.jobs[job].release);
      && (found == None ==> t == s)
      && (found != None ==>
           var excluded := s.jobs[job].attempted + {source};
           if !s.jobs[job].preferredOnly
              && exists r :: Alternative(r, s.releases, found.value.chapter, found.value.id, excluded, now)
           then
             && OnBestAlternative(s, t, job, found.value.chapter, found.value.id, excluded, now)
             && t.releases == s.releases && t.jobs[job].attempted == excluded
             && (exists r :: r in s.releases && r.id == t.jobs[job].release
                   && t.attempts == s.attempts + [Attempt(r.chapter, r.id, job, FallbackQueued)])
             && Attached(s.intents, t.intents, found.value.chapter, job)
           else
             && t.intents == s.intents && t.attempts == s.attempts
             && HeldBack(s.releases, t.releases, s.jobs[job].release, retryAfter)
             && t.jobs == s.jobs[job := s.jobs[job].(status := JobRetryWait)])
  {
    FindReleaseFinds(s.releases, s.jobs[job].release);
    var found := FindRelease(s.releases, s.jobs[job].release);
    if found != None {
      FallbackIsBest(s.releases, found.value.chapter, found.value.id, s.jobs[job].attempted + {source}, now);
    }
  }

  /** A bypass leaves every job of another provider and every job that is not waiting as it is. */
  lemma {:induction false} BypassLeavesOthers(s: Store, k: nat, limit: nat, source: string, retryAfter: int, now: int,
                                              j: nat)
    requires k <= limit && j in s.jobs
    requires s.jobs[j].source != source || s.jobs[j].status !in {JobQueued, JobRetryWait}
    ensures var t := BypassFrom(s, k, limit, source, retryAfter, now); j in t.jobs && t.jobs[j] == s.jobs[j]
    decreases limit - k
  {
    if k < limit {
      var next := if Waiting(s, k, source) then BypassJob(s, k, source, retryAfter, now) else s;
      assert j in next.jobs && next.jobs[j] == s.jobs[j];
      BypassLeavesOthers(next, k + 1, limit, source, retryAfter, now, j);
    }
  }

  ghost predicate ReleaseKnown(releases: seq<Release>, id: nat) { exists r :: r in releases && r.id == id }

  /** The same releases by id, chapter and provider; only when they are available may differ. */
  ghost predicate SameReleases(before: seq<Release>, after: seq<Release>) {
    |before| == |after| && forall i :: 0 <= i < |before| ==> after[i] == before[i].(availableAt := after[i].availableAt)
  }

  lemma {:induction false} KnownStays(before: seq<Release>, after: seq<Release>, id: nat)
    requires SameReleases(before, after) && ReleaseKnown(before, id)
    ensures ReleaseKnown(after, id)
  {
    var r :| r in before && r.id == id;
    var i :| 0 <= i < |before| && before[i] == r;
    assert after[i].id == id && after[i] in after;
  }

  /** After a bypass every job that waited on the cooling provider, with a known release, waits for a retry. */
  lemma {:induction false} BypassRetriesAll(s: Store, k: nat, limit: nat, source: string, retryAfter: int, now: int,
                                            j: nat)
    requires k <= limit && j in s.jobs && ReleaseKnown(s.releases, s.jobs[j].release)
    requires if j < k then s.jobs[j].status == JobRetryWait else j < limit && Waiting(s, j, source)
    ensures var t := BypassFrom(s, k, limit, source, retryAfter, now); j in t.jobs && t.jobs[j].status == JobRetryWait
    decreases limit - k
  {
    if k < limit {
      var next := if Waiting(s, k, source) then BypassJob(s, k, source, retryAfter, now) else s;
      if Waiting(s, k, source) {
        BypassedRow(s, k, source, retryAfter, now);
        KnownStays(s.releases, next.releases, s.jobs[j].release);
      }
      BypassRetriesAll(next, k + 1, limit, source, retryAfter, now, j);
    }
  }

  lemma {:induction false} BypassedRow(s: Store, job: nat, source: string, retryAfter: int, now: int)
    requires Waiting(s, job, source)
    ensures var t := BypassJob(s, job, source, retryAfter, now);
      && t.jobs == s.jobs[job := t.jobs[job]] && SameReleases(s.releases, t.releases)
      && (ReleaseKnown(s.releases, s.jobs[job].release) ==>
           t.jobs[job].status == JobRetryWait && ReleaseKnown(t.releases, t.jobs[job].release))
  {
    FindReleaseFinds(s.releases, s.jobs[job].release);
    var t := BypassJob(s, job, source, retryAfter, now);
    var found := FindRelease(s.releases, s.jobs[job].release);
    if found != None {
      var excluded := s.jobs[job].attempted + {source};
      FallbackIsNew(s.releases, found.value.chapter, found.value.id, excluded, now);
      assert ReleaseKnown(s.releases, t.jobs[job].release);
      KnownStays(s.releases, t.releases, t.jobs[job].release);
    }
  }
}
