/**
 Download plans: a priority wave (first two and latest two chapters), then a rolling backfill
 window, driven by a reconcile pass that can run at any time.

 This module holds the tables and the transition functions; `PlanProperties` proves what they keep
 and `PlanStore` runs them imperatively.
 */
module DownloadPlans {

  import opened Options

  datatype Tier = Current | Priority | Backfill
  datatype IntentState = Blocked | Pending | Queued | Satisfied | Attention | Cancelled
  datatype JobStatus = JobQueued | JobLeased | JobRetryWait | JobSucceeded | JobFailed | JobCancelled
  datatype PlanStatus = Active | Complete | CancelledPlan
  datatype Phase = PriorityPhase | BackfillPhase | CompletePhase | CancelledPhase

  datatype Plan = Plan(status: PlanStatus, phase: Phase, createdAt: int, total: nat, satisfied: nat, attention: nat)
  datatype Intent = Intent(id: nat, chapter: nat, tier: Tier, state: IntentState, job: Option<nat>)
  datatype Chapter = Chapter(id: nat, createdAt: int)
  datatype Release = Release(id: nat, chapter: nat, source: string, quality: int, availableAt: Option<int>)
  datatype DedupeKey = ChapterKey(chapter: nat) | UpgradeKey(chapter: nat, release: nat)
  datatype Job = Job(key: DedupeKey, status: JobStatus, release: nat, attempted: set<string>,
                     preferredOnly: bool, source: string, priority: int)

  predicate JobActive(job: Job) {
    job.status in {JobQueued, JobLeased, JobRetryWait}
  }

  // ---------------------------------------------------------------- release preference

  function SourcePriority(source: string): nat {
    if source == "asura" then 4
    else if source == "mangadex" then 3
    else if source == "mangafire" then 2
    else if source == "kingofshojo" then 1
    else 0
  }

  /** Provider first, then quality, then id. */
  predicate Preferred(a: Release, b: Release) {
    var pa, pb := SourcePriority(a.source), SourcePriority(b.source);
    pa > pb || (pa == pb && (a.quality > b.quality || (a.quality == b.quality && a.id > b.id)))
  }

  predicate Available(r: Release, now: int) {
    r.availableAt == None || r.availableAt.value <= now
  }

  function Best(releases: seq<Release>, eligible: Release -> bool): Option<Release> {
    if releases == [] then None
    else
      var rest := Best(releases[1..], eligible);
      if !eligible(releases[0]) then rest
      else if rest == None || Preferred(releases[0], rest.value) then Some(releases[0])
      else rest
  }

  function BestRelease(releases: seq<Release>, chapter: nat, now: int): Option<Release> {
    Best(releases, (r: Release) => r.chapter == chapter && Available(r, now))
  }

  function FallbackRelease(releases: seq<Release>, chapter: nat, failed: nat, excluded: set<string>,
                           now: int): Option<Release> {
    Best(releases, (r: Release) => r.chapter == chapter && r.id != failed && r.source !in excluded && Available(r, now))
  }

  /** `Best` returns an eligible release no other eligible release is preferred to, if there is one. */
  lemma {:induction false} BestIsPreferred(releases: seq<Release>, eligible: Release -> bool)
    ensures match Best(releases, eligible)
      case None => forall r :: r in releases ==> !eligible(r)
      case Some(best) =>
        && best in releases && eligible(best)
        && forall r :: r in releases && eligible(r) ==> !Preferred(r, best)
  {
    if releases != [] {
      BestIsPreferred(releases[1..], eligible);
      assert releases == [releases[0]] + releases[1..];
    }
  }

  // ---------------------------------------------------------------- one series at work

  /** The rows a reconcile of one series reads and writes. */
  datatype Work = Work(plan: Plan, intents: seq<Intent>, jobs: map<nat, Job>, nextIntent: nat, nextJob: nat)

  /** What it reads from the catalog: chapters in reading order, releases, stored chapters, clock. */
  datatype View = View(chapters: seq<Chapter>, releases: seq<Release>, stored: set<nat>, now: int, window: int)

  predicate HasIntent(intents: seq<Intent>, chapter: nat) {
    exists i :: 0 <= i < |intents| && intents[i].chapter == chapter
  }

  function PriorityIds(chapters: seq<Chapter>): set<nat> {
    set i | 0 <= i < |chapters| && (i < 2 || i >= |chapters| - 2) :: chapters[i].id
  }

  function NewIntent(plan: Plan, v: View, chapter: Chapter, id: nat): Intent {
    var (tier, state) :=
      if chapter.createdAt > plan.createdAt then (Current, Pending)
      else if chapter.id in PriorityIds(v.chapters) && plan.phase == PriorityPhase then (Priority, Pending)
      else (Backfill, if plan.phase == BackfillPhase then Pending else Blocked);
    Intent(id, chapter.id, tier, if chapter.id in v.stored then Satisfied else state, None)
  }

  /** Adds an intent for every chapter from position `k` on that has none. */
  function SyncFrom(w: Work, v: View, k: nat): Work
    requires k <= |v.chapters|
    decreases |v.chapters| - k
  {
    if k == |v.chapters| then w
    else if HasIntent(w.intents, v.chapters[k].id) then SyncFrom(w, v, k + 1)
    else SyncFrom(w.(intents := w.intents + [NewIntent(w.plan, v, v.chapters[k], w.nextIntent)],
                     nextIntent := w.nextIntent + 1), v, k + 1)
  }

  /** Folds stored chapters and job outcomes into one intent. */
  function Settle(intent: Intent, stored: set<nat>, jobs: map<nat, Job>): Intent {
    if intent.chapter in stored then intent.(state := Satisfied)
    else if intent.job == None then intent
    else if intent.job.value !in jobs then
      intent.(job := None,
              state := if intent.state != Queued then intent.state
                       else if intent.tier != Backfill then Pending else Blocked)
    else match jobs[intent.job.value].status
      case JobSucceeded => intent.(state := Satisfied)
      case JobFailed => intent.(state := Attention)
      case JobCancelled => intent.(state := Attention)
      case _ => intent.(state := Queued)
  }

  function SettleAll(intents: seq<Intent>, stored: set<nat>, jobs: map<nat, Job>): seq<Intent> {
    seq(|intents|, i requires 0 <= i < |intents| => Settle(intents[i], stored, jobs))
  }

  predicate Settled(state: IntentState) {
    state in {Satisfied, Attention, Cancelled}
  }

  predicate PrioritySettled(intents: seq<Intent>) {
    forall i :: 0 <= i < |intents| && intents[i].tier == Priority ==> Settled(intents[i].state)
  }

  function Unblock(intents: seq<Intent>): seq<Intent> {
    seq(|intents|, i requires 0 <= i < |intents| =>
      if intents[i].tier == Backfill && intents[i].state == Blocked then intents[i].(state := Pending) else intents[i])
  }

  /** Opens the backfill once the whole priority wave is settled. */
  function AdvancePhase(w: Work): Work {
    if w.plan.phase == PriorityPhase && PrioritySettled(w.intents)
    then w.(plan := w.plan.(phase := BackfillPhase), intents := Unblock(w.intents))
    else w
  }

  function TierRank(tier: Tier): nat {
    match tier case Current => 0 case Priority => 1 case Backfill => 2
  }

  /** Positions of one tier, in row order. */
  function TierPositions(intents: seq<Intent>, tier: Tier, k: nat): seq<nat>
    requires k <= |intents|
    decreases |intents| - k
  {
    if k == |intents| then []
    else (if intents[k].tier == tier then [k] else []) + TierPositions(intents, tier, k + 1)
  }

  /** `sorted(intents, key=_intent_order)` for rows that are already in id order. */
  function IntentOrder(intents: seq<Intent>): seq<nat> {
    TierPositions(intents, Current, 0) + TierPositions(intents, Priority, 0) + TierPositions(intents, Backfill, 0)
  }

  function QueuedBackfill(intents: seq<Intent>): nat {
    if intents == [] then 0
    else
      var last := intents[|intents| - 1];
      QueuedBackfill(intents[..|intents| - 1]) + (if last.tier == Backfill && last.state == Queued then 1 else 0)
  }

  /** The active job for a dedupe key with the highest id below `limit`. */
  function FindJob(jobs: map<nat, Job>, limit: nat, key: DedupeKey): Option<nat> {
    if limit == 0 then None
    else if limit - 1 in jobs && jobs[limit - 1].key == key && JobActive(jobs[limit - 1]) then Some(limit - 1)
    else FindJob(jobs, limit - 1, key)
  }

  function JobPriority(tier: Tier): int {
    match tier case Current => 5 case Priority => 20 case Backfill => 100
  }

  /** Offers the intent at position `i` to the queue. */
  function EnqueueOne(w: Work, v: View, i: nat, active: nat): Work
    requires i < |w.intents|
  {
    var intent := w.intents[i];
    if intent.state != Pending || (intent.tier == Backfill && active >= v.window) then w
    else
      var best := BestRelease(v.releases, intent.chapter, v.now);
      if best == None then w.(intents := w.intents[i := intent.(state := Attention)])
      else
        var key := ChapterKey(intent.chapter);
        var existing := FindJob(w.jobs, w.nextJob, key);
        if existing != None then
          w.(intents := w.intents[i := intent.(state := Queued, job := existing)])
        else
          w.(intents := w.intents[i := intent.(state := Queued, job := Some(w.nextJob))],
             jobs := w.jobs[w.nextJob := Job(key, JobQueued, best.value.id, {}, false,
                                             best.value.source, JobPriority(intent.tier))],
             nextJob := w.nextJob + 1)
  }

  /** The rolling window counts a backfill intent as soon as it is queued. */
  function CountAfter(before: Work, after: Work, i: nat, active: nat): nat
    requires i < |before.intents| && i < |after.intents|
  {
    if before.intents[i].tier == Backfill && before.intents[i].state == Pending && after.intents[i].state == Queued
    then active + 1 else active
  }

  function EnqueueFrom(w: Work, v: View, order: seq<nat>, k: nat, active: nat): (r: Work)
    requires k <= |order| && forall x :: 0 <= x < |order| ==> order[x] < |w.intents|
    ensures |r.intents| == |w.intents|
    decreases |order| - k
  {
    if k == |order| then w
    else
      var next := EnqueueOne(w, v, order[k], active);
      EnqueueFrom(next, v, order, k + 1, CountAfter(w, next, order[k], active))
  }

  lemma {:induction false} TierPositionsInRange(intents: seq<Intent>, tier: Tier, k: nat)
    requires k <= |intents|
    ensures forall x :: x in TierPositions(intents, tier, k) <==> k <= x < |intents| && intents[x].tier == tier
    ensures forall a, b :: 0 <= a < b < |TierPositions(intents, tier, k)| ==>
      TierPositions(intents, tier, k)[a] < TierPositions(intents, tier, k)[b]
    decreases |intents| - k
  {
    if k < |intents| {
      TierPositionsInRange(intents, tier, k + 1);
      var rest := TierPositions(intents, tier, k + 1);
      assert forall a :: 0 <= a < |rest| ==> rest[a] in rest;
    }
  }

  lemma {:induction false} IntentOrderCovers(intents: seq<Intent>)
    ensures forall x :: x in IntentOrder(intents) <==> 0 <= x < |intents|
  {
    TierPositionsInRange(intents, Current, 0);
    TierPositionsInRange(intents, Priority, 0);
    TierPositionsInRange(intents, Backfill, 0);
  }

  function EnqueueReady(w: Work, v: View): Work {
    IntentOrderCovers(w.intents);
    assert forall x :: 0 <= x < |IntentOrder(w.intents)| ==> IntentOrder(w.intents)[x] in IntentOrder(w.intents);
    EnqueueFrom(w, v, IntentOrder(w.intents), 0, QueuedBackfill(w.intents))
  }

  function CountState(intents: seq<Intent>, state: IntentState): nat {
    if intents == [] then 0
    else CountState(intents[..|intents| - 1], state) + (if intents[|intents| - 1].state == state then 1 else 0)
  }

  predicate AllSettled(intents: seq<Intent>) {
    forall i :: 0 <= i < |intents| ==> Settled(intents[i].state)
  }

  /** Refreshes the counters and completes a plan with nothing left to do. */
  function Summary(plan: Plan, intents: seq<Intent>): Plan {
    var counted := plan.(total := |intents|,
                         satisfied := CountState(intents, Satisfied), attention := CountState(intents, Attention));
    if AllSettled(intents) && intents != [] then counted.(status := Complete, phase := CompletePhase) else counted
  }

  function Summarise(w: Work): Work {
    w.(plan := Summary(w.plan, w.intents))
  }

  function Observe(w: Work, v: View): Work {
    var synced := SyncFrom(w, v, 0);
    synced.(intents := SettleAll(synced.intents, v.stored, synced.jobs))
  }

  function Reconcile(w: Work, v: View): Work {
    if w.plan.status != Active then w
    else Summarise(EnqueueReady(AdvancePhase(Observe(w, v)), v))
  }
}
