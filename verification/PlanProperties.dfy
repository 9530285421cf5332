/** What the download plan transitions keep: stabilisation, the rolling window, wave safety. */
module PlanProperties {
  import opened Options
  import opened DownloadPlans
  import opened Sequences

  // ---------------------------------------------------------------- frames

  ghost predicate JobsBelow(w: Work) {
    forall j :: j in w.jobs ==> j < w.nextJob
  }

  /** Rows of `before` are all in `after`, unchanged. */
  ghost predicate JobsGrow(before: map<nat, Job>, after: map<nat, Job>) {
    forall j :: j in before ==> j in after && after[j] == before[j]
  }

  ghost predicate SameIntent(a: Intent, b: Intent) {
    a.id == b.id && a.chapter == b.chapter && a.tier == b.tier
  }

  /** The same intents, possibly in other states, and at least the same jobs. */
  ghost predicate Progress(before: Work, after: Work) {
    && before.plan == after.plan && before.nextIntent == after.nextIntent
    && |before.intents| == |after.intents|
    && (forall i :: 0 <= i < |before.intents| ==> SameIntent(before.intents[i], after.intents[i]))
    && (forall i :: 0 <= i < |before.intents| && before.intents[i].state != Pending ==>
         after.intents[i] == before.intents[i])
    && JobsGrow(before.jobs, after.jobs) && before.nextJob <= after.nextJob
  }

  /** Reading stored chapters and job states again would not change the intent. */
  ghost predicate Fixed(intent: Intent, stored: set<nat>, jobs: map<nat, Job>) {
    Settle(intent, stored, jobs) == intent
  }

  ghost predicate AllFixed(w: Work, stored: set<nat>) {
    forall i :: 0 <= i < |w.intents| ==> Fixed(w.intents[i], stored, w.jobs)
  }

  lemma {:induction false} FixedWithMoreJobs(intent: Intent, stored: set<nat>, jobs: map<nat, Job>, more: map<nat, Job>)
    requires Fixed(intent, stored, jobs) && JobsGrow(jobs, more)
    ensures Fixed(intent, stored, more)
  {
  }

  lemma {:induction false} SettleIsFixed(intent: Intent, stored: set<nat>, jobs: map<nat, Job>)
    ensures Fixed(Settle(intent, stored, jobs), stored, jobs)
  {
  }

  lemma {:induction false} FindJobFinds(jobs: map<nat, Job>, limit: nat, key: DedupeKey)
    ensures match FindJob(jobs, limit, key)
      case Some(j) => j < limit && j in jobs && jobs[j].key == key && JobActive(jobs[j])
      case None => forall j :: 0 <= j < limit && j in jobs && jobs[j].key == key ==> !JobActive(jobs[j])
  {
    if limit > 0 {
      FindJobFinds(jobs, limit - 1, key);
    }
  }

  // ---------------------------------------------------------------- one enqueue pass

  lemma {:induction false} EnqueueOneProgress(w: Work, v: View, i: nat, active: nat, stored: set<nat>)
    requires i < |w.intents| && JobsBelow(w) && AllFixed(w, stored)
    ensures var next := EnqueueOne(w, v, i, active);
      && Progress(w, next) && JobsBelow(next) && AllFixed(next, stored)
      && (next.intents[i].state == Pending ==> w.intents[i].tier == Backfill && active >= v.window)
      && (forall j :: 0 <= j < |w.intents| && j != i ==> next.intents[j] == w.intents[j])
  {
    var next := EnqueueOne(w, v, i, active);
    FindJobFinds(w.jobs, w.nextJob, ChapterKey(w.intents[i].chapter));
    assert Fixed(w.intents[i], stored, w.jobs);
    forall j | 0 <= j < |next.intents| ensures Fixed(next.intents[j], stored, next.jobs) {
      assert Fixed(w.intents[j], stored, w.jobs);
      if j != i {
        FixedWithMoreJobs(w.intents[j], stored, w.jobs, next.jobs);
      }
    }
  }

  lemma {:induction false} ProgressTransitive(a: Work, b: Work, c: Work)
    requires Progress(a, b) && Progress(b, c)
    ensures Progress(a, c)
  {
  }

  /** The window counter when the pass ends. */
  ghost function CountFrom(w: Work, v: View, order: seq<nat>, k: nat, active: nat): nat
    requires k <= |order| && forall x :: 0 <= x < |order| ==> order[x] < |w.intents|
    decreases |order| - k
  {
    if k == |order| then active
    else
      var next := EnqueueOne(w, v, order[k], active);
      CountFrom(next, v, order, k + 1, CountAfter(w, next, order[k], active))
  }

  ghost predicate ValidOrder(w: Work, order: seq<nat>) {
    forall x :: 0 <= x < |order| ==> order[x] < |w.intents|
  }

  /** An intent still pending after the pass is a backfill intent that met a full window. */
  ghost predicate LeftPending(r: Work, v: View, i: nat, count: nat)
    requires i < |r.intents|
  {
    r.intents[i].state == Pending ==> r.intents[i].tier == Backfill && count >= v.window
  }

  lemma {:induction false} EnqueuePass(w: Work, v: View, order: seq<nat>, k: nat, active: nat, stored: set<nat>)
    requires k <= |order| && ValidOrder(w, order) && JobsBelow(w) && AllFixed(w, stored)
    ensures var r := EnqueueFrom(w, v, order, k, active);
      && Progress(w, r) && JobsBelow(r) && AllFixed(r, stored)
      && active <= CountFrom(w, v, order, k, active)
      && CountFrom(w, v, order, k, active) <= (if active >= v.window then active else v.window)
      && (forall x :: k <= x < |order| ==> LeftPending(r, v, order[x], CountFrom(w, v, order, k, active)))
    decreases |order| - k
  {
    if k < |order| {
      var next := EnqueueOne(w, v, order[k], active);
      EnqueueOneProgress(w, v, order[k], active, stored);
      var count := CountAfter(w, next, order[k], active);
      EnqueuePass(next, v, order, k + 1, count, stored);
      ProgressTransitive(w, next, EnqueueFrom(next, v, order, k + 1, count));
    }
  }

  // ---------------------------------------------------------------- the rolling window

  lemma {:induction false} QueuedBackfillUpdate(intents: seq<Intent>, i: nat, x: Intent)
    requires i < |intents| && x.tier == intents[i].tier
    ensures QueuedBackfill(intents[i := x])
         == QueuedBackfill(intents)
            - (if x.tier == Backfill && intents[i].state == Queued then 1 else 0)
            + (if x.tier == Backfill && x.state == Queued then 1 else 0)
  {
    var n := |intents| - 1;
    if i < n {
      QueuedBackfillUpdate(intents[..n], i, x);
      assert intents[i := x][..n] == intents[..n][i := x];
    } else {
      assert intents[i := x][..n] == intents[..n];
    }
  }

  lemma {:induction false} CounterIsExact(w: Work, v: View, order: seq<nat>, k: nat, active: nat)
    requires k <= |order| && ValidOrder(w, order) && active == QueuedBackfill(w.intents)
    ensures CountFrom(w, v, order, k, active) == QueuedBackfill(EnqueueFrom(w, v, order, k, active).intents)
    decreases |order| - k
  {
    if k < |order| {
      var i := order[k];
      var next := EnqueueOne(w, v, i, active);
      if next.intents != w.intents {
        QueuedBackfillUpdate(w.intents, i, next.intents[i]);
      }
      CounterIsExact(next, v, order, k + 1, CountAfter(w, next, i, active));
    }
  }

  /** With a full window every remaining backfill intent is left as it is. */
  lemma {:induction false} FullWindowHolds(w: Work, v: View, order: seq<nat>, k: nat, active: nat, i: nat)
    requires k <= |order| && ValidOrder(w, order) && active >= v.window
    requires i < |w.intents| && w.intents[i].tier == Backfill
    ensures EnqueueFrom(w, v, order, k, active).intents[i] == w.intents[i]
    decreases |order| - k
  {
    if k < |order| {
      var next := EnqueueOne(w, v, order[k], active);
      FullWindowHolds(next, v, order, k + 1, CountAfter(w, next, order[k], active), i);
    }
  }

  lemma {:induction false} UnvisitedUnchanged(w: Work, v: View, order: seq<nat>, k: nat, active: nat, i: nat)
    requires k <= |order| && ValidOrder(w, order) && i < |w.intents|
    requires forall x :: k <= x < |order| ==> order[x] != i
    ensures EnqueueFrom(w, v, order, k, active).intents[i] == w.intents[i]
    decreases |order| - k
  {
    if k < |order| {
      var next := EnqueueOne(w, v, order[k], active);
      UnvisitedUnchanged(next, v, order, k + 1, CountAfter(w, next, order[k], active), i);
    }
  }

  /** A backfill intent queued by the pass stands before every one the pass leaves pending. */
  lemma {:induction false} QueuedBeforePending(w: Work, v: View, order: seq<nat>, k: nat, active: nat, x: nat, y: nat)
    requires k <= x < |order| && k <= y < |order| && ValidOrder(w, order) && Distinct(order)
    requires w.intents[order[x]].tier == Backfill && w.intents[order[x]].state == Pending
    requires w.intents[order[y]].state == Pending
    requires var r := EnqueueFrom(w, v, order, k, active);
      r.intents[order[x]].state == Queued && r.intents[order[y]].state == Pending
    ensures x < y
    decreases |order| - k
  {
    var next := EnqueueOne(w, v, order[k], active);
    var count := CountAfter(w, next, order[k], active);
    if k == y {
      UnvisitedUnchanged(next, v, order, k + 1, count, order[k]);
      if x != y {
        FullWindowHolds(next, v, order, k + 1, count, order[x]);
      }
    } else if k < x {
      QueuedBeforePending(next, v, order, k + 1, count, x, y);
    }
  }

  ghost predicate AscendingIds(intents: seq<Intent>) {
    forall i, j :: 0 <= i < j < |intents| ==> intents[i].id < intents[j].id
  }

  /** `_intent_order`: tier rank, then id. */
  ghost predicate OrderedBefore(a: Intent, b: Intent) {
    TierRank(a.tier) < TierRank(b.tier) || (a.tier == b.tier && a.id < b.id)
  }

  ghost predicate SortedPositions(intents: seq<Intent>, order: seq<nat>) {
    && (forall x :: 0 <= x < |order| ==> order[x] < |intents|)
    && (forall a, b :: 0 <= a < b < |order| ==> OrderedBefore(intents[order[a]], intents[order[b]]))
  }

  lemma {:induction false} SortedTier(intents: seq<Intent>, tier: Tier)
    requires AscendingIds(intents)
    ensures SortedPositions(intents, TierPositions(intents, tier, 0))
    ensures forall x :: 0 <= x < |TierPositions(intents, tier, 0)| ==>
      intents[TierPositions(intents, tier, 0)[x]].tier == tier
  {
    TierPositionsInRange(intents, tier, 0);
    var order := TierPositions(intents, tier, 0);
    assert forall x :: 0 <= x < |order| ==> order[x] in order;
  }

  lemma {:induction false} SortedConcat(intents: seq<Intent>, left: seq<nat>, right: seq<nat>)
    requires SortedPositions(intents, left) && SortedPositions(intents, right)
    requires forall a, b :: 0 <= a < |left| && 0 <= b < |right| ==>
      TierRank(intents[left[a]].tier) < TierRank(intents[right[b]].tier)
    ensures SortedPositions(intents, left + right)
  {
  }

  /** The visiting order is the sort by `_intent_order`, and visits every row once. */
  lemma {:induction false} IntentOrderSorted(intents: seq<Intent>)
    requires AscendingIds(intents)
    ensures SortedPositions(intents, IntentOrder(intents)) && Distinct(IntentOrder(intents))
    ensures forall i :: 0 <= i < |intents| ==> i in IntentOrder(intents)
  {
    var c, p, b := TierPositions(intents, Current, 0), TierPositions(intents, Priority, 0),
      TierPositions(intents, Backfill, 0);
    SortedTier(intents, Current);
    SortedTier(intents, Priority);
    SortedTier(intents, Backfill);
    SortedConcat(intents, c, p);
    SortedConcat(intents, c + p, b);
    IntentOrderCovers(intents);
    var order := IntentOrder(intents);
    forall x, y | 0 <= x < y < |order| ensures order[x] != order[y] {
      assert OrderedBefore(intents[order[x]], intents[order[y]]);
    }
  }

  /**
   One enqueue pass: the queued backfill never exceeds the larger of its old size and the window;
   whatever is left pending is backfill facing a full window; and backfill is served in id order.
   */
  lemma {:induction false} RollingWindow(w: Work, v: View)
    requires AscendingIds(w.intents) && JobsBelow(w) && AllFixed(w, v.stored)
    ensures var r := EnqueueReady(w, v);
      && QueuedBackfill(r.intents) <=
         (if QueuedBackfill(w.intents) >= v.window then QueuedBackfill(w.intents) else v.window)
      && (forall i :: 0 <= i < |r.intents| ==> LeftPending(r, v, i, QueuedBackfill(r.intents)))
      && (forall i, j ::
           0 <= i < |w.intents| && 0 <= j < |w.intents| && NewlyQueued(w, r, i) && r.intents[j].state == Pending ==>
             w.intents[i].id < w.intents[j].id)
  {
    var order, active := IntentOrder(w.intents), QueuedBackfill(w.intents);
    IntentOrderSorted(w.intents);
    var r := EnqueueReady(w, v);
    EnqueuePass(w, v, order, 0, active, v.stored);
    CounterIsExact(w, v, order, 0, active);
    forall i | 0 <= i < |r.intents| ensures LeftPending(r, v, i, QueuedBackfill(r.intents)) {
      var x := PositionOf(order, i);
    }
    forall i, j | 0 <= i < |w.intents| && 0 <= j < |w.intents| && NewlyQueued(w, r, i) && r.intents[j].state == Pending
      ensures w.intents[i].id < w.intents[j].id
    {
      ServedInOrder(w, v, i, j);
    }
  }

  /** The pass queued this backfill intent. */
  ghost predicate NewlyQueued(w: Work, r: Work, i: nat)
    requires i < |w.intents| && i < |r.intents|
  {
    w.intents[i].tier == Backfill && w.intents[i].state == Pending && r.intents[i].state == Queued
  }

  lemma {:induction false} PositionOf(order: seq<nat>, i: nat) returns (x: nat)
    requires i in order
    ensures x < |order| && order[x] == i
  {
    x :| 0 <= x < |order| && order[x] == i;
  }

  lemma {:induction false} ServedInOrder(w: Work, v: View, i: nat, j: nat)
    requires AscendingIds(w.intents) && JobsBelow(w) && AllFixed(w, v.stored)
    requires i < |w.intents| && j < |w.intents| && NewlyQueued(w, EnqueueReady(w, v), i)
    requires EnqueueReady(w, v).intents[j].state == Pending
    ensures w.intents[i].id < w.intents[j].id
  {
    var order, active := IntentOrder(w.intents), QueuedBackfill(w.intents);
    IntentOrderSorted(w.intents);
    var x := PositionOf(order, i);
    var y := PositionOf(order, j);
    assert w.intents[j].state == Pending && w.intents[j].tier == Backfill by {
      EnqueuePass(w, v, order, 0, active, v.stored);
      assert LeftPending(EnqueueReady(w, v), v, order[y], CountFrom(w, v, order, 0, active));
      assert SameIntent(w.intents[j], EnqueueReady(w, v).intents[j]);
    }
    QueuedBeforePending(w, v, order, 0, active, x, y);
    assert OrderedBefore(w.intents[order[x]], w.intents[order[y]]);
  }

  // ---------------------------------------------------------------- stabilisation

  ghost predicate AllSynced(intents: seq<Intent>, chapters: seq<Chapter>) {
    forall k :: 0 <= k < |chapters| ==> HasIntent(intents, chapters[k].id)
  }

  lemma {:induction false} SyncCovers(w: Work, v: View, k: nat)
    requires k <= |v.chapters| && forall x :: 0 <= x < k ==> HasIntent(w.intents, v.chapters[x].id)
    ensures var r := SyncFrom(w, v, k);
      && AllSynced(r.intents, v.chapters) && r.plan == w.plan && r.jobs == w.jobs && r.nextJob == w.nextJob
      && w.intents <= r.intents
    decreases |v.chapters| - k
  {
    if k < |v.chapters| {
      if HasIntent(w.intents, v.chapters[k].id) {
        SyncCovers(w, v, k + 1);
      } else {
        var added := NewIntent(w.plan, v, v.chapters[k], w.nextIntent);
        var next := w.(intents := w.intents + [added], nextIntent := w.nextIntent + 1);
        assert next.intents[|w.intents|].chapter == v.chapters[k].id;
        forall x | 0 <= x < k ensures HasIntent(next.intents, v.chapters[x].id) {
          var i :| 0 <= i < |w.intents| && w.intents[i].chapter == v.chapters[x].id;
          assert next.intents[i] == w.intents[i];
        }
        SyncCovers(next, v, k + 1);
      }
    }
  }

  lemma {:induction false} SyncNothing(w: Work, v: View, k: nat)
    requires k <= |v.chapters| && AllSynced(w.intents, v.chapters)
    ensures SyncFrom(w, v, k) == w
    decreases |v.chapters| - k
  {
    if k < |v.chapters| {
      SyncNothing(w, v, k + 1);
    }
  }

  /** Chapters are all known and every intent agrees with the jobs and stored chapters. */
  ghost predicate Observed(w: Work, v: View) {
    AllSynced(w.intents, v.chapters) && AllFixed(w, v.stored) && JobsBelow(w)
  }

  lemma {:induction false} ObserveObserves(w: Work, v: View)
    requires JobsBelow(w)
    ensures Observed(Observe(w, v), v) && Observe(w, v).plan == w.plan
  {
    SyncCovers(w, v, 0);
    var synced, r := SyncFrom(w, v, 0), Observe(w, v);
    forall i | 0 <= i < |r.intents| ensures Fixed(r.intents[i], v.stored, r.jobs) {
      SettleIsFixed(synced.intents[i], v.stored, r.jobs);
    }
    forall k | 0 <= k < |v.chapters| ensures HasIntent(r.intents, v.chapters[k].id) {
      var i :| 0 <= i < |synced.intents| && synced.intents[i].chapter == v.chapters[k].id;
      assert r.intents[i].chapter == v.chapters[k].id;
    }
  }

  lemma {:induction false} ObserveIsIdentity(w: Work, v: View)
    requires Observed(w, v)
    ensures Observe(w, v) == w
  {
    SyncNothing(w, v, 0);
    assert SettleAll(w.intents, v.stored, w.jobs) == w.intents;
  }

  lemma {:induction false} AdvanceKeepsObserved(w: Work, v: View)
    requires Observed(w, v)
    ensures Observed(AdvancePhase(w), v)
  {
    var r := AdvancePhase(w);
    forall i | 0 <= i < |r.intents| ensures Fixed(r.intents[i], v.stored, r.jobs) {
      assert Fixed(w.intents[i], v.stored, w.jobs);
    }
    forall k | 0 <= k < |v.chapters| ensures HasIntent(r.intents, v.chapters[k].id) {
      assert HasIntent(w.intents, v.chapters[k].id);
      var i :| 0 <= i < |w.intents| && w.intents[i].chapter == v.chapters[k].id;
      assert r.intents[i].chapter == v.chapters[k].id;
    }
  }

  /** Nothing is pending except backfill intents facing a full window. */
  ghost predicate Drained(w: Work, v: View) {
    forall i :: 0 <= i < |w.intents| ==> LeftPending(w, v, i, QueuedBackfill(w.intents))
  }

  lemma {:induction false} EnqueueDrains(w: Work, v: View)
    requires Observed(w, v)
    ensures var r := EnqueueReady(w, v);
      Observed(r, v) && Drained(r, v) && Progress(w, r)
  {
    var order, active := IntentOrder(w.intents), QueuedBackfill(w.intents);
    IntentOrderCovers(w.intents);
    assert forall x :: 0 <= x < |order| ==> order[x] in order;
    EnqueuePass(w, v, order, 0, active, v.stored);
    CounterIsExact(w, v, order, 0, active);
    var r := EnqueueReady(w, v);
    forall i | 0 <= i < |r.intents| ensures LeftPending(r, v, i, QueuedBackfill(r.intents)) {
      assert i in order;
      var x := PositionOf(order, i);
    }
    forall k | 0 <= k < |v.chapters| ensures HasIntent(r.intents, v.chapters[k].id) {
      var i :| 0 <= i < |w.intents| && w.intents[i].chapter == v.chapters[k].id;
      assert SameIntent(w.intents[i], r.intents[i]);
    }
  }

  lemma {:induction false} DrainedPassIsIdentity(w: Work, v: View, order: seq<nat>, k: nat)
    requires k <= |order| && ValidOrder(w, order) && Drained(w, v)
    ensures EnqueueFrom(w, v, order, k, QueuedBackfill(w.intents)) == w
    decreases |order| - k
  {
    if k < |order| {
      assert LeftPending(w, v, order[k], QueuedBackfill(w.intents));
      assert EnqueueOne(w, v, order[k], QueuedBackfill(w.intents)) == w;
      DrainedPassIsIdentity(w, v, order, k + 1);
    }
  }

  /** After one pass the rows are drained and observed; only the phase may still be behind. */
  ghost predicate Quiet(w: Work, v: View) {
    Observed(w, v) && Drained(w, v)
  }

  /** Quietness is about the rows, not about the plan's counters and phase. */
  lemma {:induction false} SameRowsQuiet(w: Work, r: Work, v: View)
    requires Quiet(w, v) && r.intents == w.intents && r.jobs == w.jobs && r.nextJob == w.nextJob
    ensures Quiet(r, v)
  {
    forall i | 0 <= i < |r.intents| ensures LeftPending(r, v, i, QueuedBackfill(r.intents)) {
      assert LeftPending(w, v, i, QueuedBackfill(w.intents));
    }
    forall i | 0 <= i < |r.intents| ensures Fixed(r.intents[i], v.stored, r.jobs) {
      assert Fixed(w.intents[i], v.stored, w.jobs);
    }
  }

  lemma {:induction false} ReconcileQuiets(w: Work, v: View)
    requires JobsBelow(w) && w.plan.status == Active
    ensures Quiet(Reconcile(w, v), v)
  {
    var observed := Observe(w, v);
    ObserveObserves(w, v);
    var advanced := AdvancePhase(observed);
    AdvanceKeepsObserved(observed, v);
    var enqueued := EnqueueReady(advanced, v);
    assert Quiet(enqueued, v) by {
      EnqueueDrains(advanced, v);
    }
    SameRowsQuiet(enqueued, Summarise(enqueued), v);
  }

  lemma {:induction false} EnqueueKeepsPriority(w: Work, v: View)
    requires Observed(w, v) && forall i :: 0 <= i < |w.intents| && w.intents[i].tier == Priority ==>
      w.intents[i].state != Pending
    ensures PrioritySettled(EnqueueReady(w, v).intents) <==> PrioritySettled(w.intents)
  {
    EnqueueDrains(w, v);
    var r := EnqueueReady(w, v);
    assert forall i :: 0 <= i < |w.intents| ==> SameIntent(w.intents[i], r.intents[i]);
    forall i | 0 <= i < |w.intents| && w.intents[i].tier == Priority ensures r.intents[i] == w.intents[i] {
    }
  }

  /** On quiet rows whose phase cannot advance, reconciling changes nothing at all. */
  lemma {:induction false} QuietReconcileIsIdentity(w: Work, v: View)
    requires Quiet(w, v) && w.plan.status == Active && AdvancePhase(w) == w
    requires w == Summarise(w)
    ensures Reconcile(w, v) == w
  {
    ObserveIsIdentity(w, v);
    var order := IntentOrder(w.intents);
    IntentOrderCovers(w.intents);
    assert forall x :: 0 <= x < |order| ==> order[x] in order;
    DrainedPassIsIdentity(w, v, order, 0);
  }

  /** The second pass leaves the phase where a third pass would. */
  lemma {:induction false} SecondPassSettlesPhase(w: Work, v: View)
    requires Quiet(w, v)
    ensures var r := EnqueueReady(AdvancePhase(w), v);
      Quiet(r, v) && AdvancePhase(r) == r && r.plan.status == w.plan.status
  {
    var advanced := AdvancePhase(w);
    AdvanceKeepsObserved(w, v);
    EnqueueDrains(advanced, v);
    if advanced == w && w.plan.phase == PriorityPhase {
      forall i | 0 <= i < |w.intents| && w.intents[i].tier == Priority ensures w.intents[i].state != Pending {
        assert LeftPending(w, v, i, QueuedBackfill(w.intents));
      }
      EnqueueKeepsPriority(w, v);
    }
  }

  lemma {:induction false} SecondPassIsLast(w: Work, v: View)
    requires Quiet(w, v) && w.plan.status == Active
    ensures var r := Reconcile(w, v);
      r.plan.status == Active ==> AdvancePhase(r) == r && Quiet(r, v) && r == Summarise(r)
  {
    ObserveIsIdentity(w, v);
    SecondPassSettlesPhase(w, v);
    var enqueued := EnqueueReady(AdvancePhase(w), v);
    SameRowsQuiet(enqueued, Summarise(enqueued), v);
  }

  /**
   Reconcile stabilises: with catalog, clock and existing job states fixed, a third application
   returns exactly the plan, intents and jobs of the second.
   */
  lemma {:induction false} ReconcileStabilises(w: Work, v: View)
    requires JobsBelow(w)
    ensures var twice := Reconcile(Reconcile(w, v), v); Reconcile(twice, v) == twice
  {
    var once := Reconcile(w, v);
    if w.plan.status == Active && once.plan.status == Active {
      ReconcileQuiets(w, v);
      SecondPassIsLast(once, v);
      var twice := Reconcile(once, v);
      if twice.plan.status == Active {
        QuietReconcileIsIdentity(twice, v);
      }
    }
  }

  ghost predicate CountersExact(w: Work) {
    && w.plan.total == |w.intents|
    && w.plan.satisfied == CountState(w.intents, Satisfied)
    && w.plan.attention == CountState(w.intents, Attention)
  }

  lemma {:induction false} EnqueueKeepsPlan(w: Work, v: View, order: seq<nat>, k: nat, active: nat)
    requires k <= |order| && ValidOrder(w, order)
    ensures EnqueueFrom(w, v, order, k, active).plan == w.plan
    decreases |order| - k
  {
    if k < |order| {
      var next := EnqueueOne(w, v, order[k], active);
      EnqueueKeepsPlan(next, v, order, k + 1, CountAfter(w, next, order[k], active));
    }
  }

  /**
   After every pass over an active plan the counters are the counts over its intents, and the plan
   is complete exactly when it has intents and all of them are settled.
   */
  lemma {:induction false} ReconcileCounts(w: Work, v: View)
    requires w.plan.status == Active
    ensures CountersExact(Reconcile(w, v))
    ensures Reconcile(w, v).plan.status == Complete <==>
      Reconcile(w, v).intents != [] && AllSettled(Reconcile(w, v).intents)
  {
    SyncCovers(w, v, 0);
    var advanced := AdvancePhase(Observe(w, v));
    var order := IntentOrder(advanced.intents);
    IntentOrderCovers(advanced.intents);
    assert forall x :: 0 <= x < |order| ==> order[x] in order;
    EnqueueKeepsPlan(advanced, v, order, 0, QueuedBackfill(advanced.intents));
  }

  // ---------------------------------------------------------------- intents whose job is gone

  /** A queued intent of an active plan whose job row is gone: its link was cleared, or names no row. */
  ghost predicate JobGone(w: Work, v: View, i: nat) {
    && w.plan.status == Active && i < |w.intents|
    && w.intents[i].state == Queued && w.intents[i].chapter !in v.stored
    && (w.intents[i].job == None || w.intents[i].job.value !in w.jobs)
  }

  /** The pass opens the backfill phase. */
  ghost predicate OpensBackfill(w: Work, v: View) {
    w.plan.phase == PriorityPhase && PrioritySettled(Observe(w, v).intents)
  }

  /** The queue has seen the intent: it has an active job, or no release was available. */
  ghost predicate Served(intent: Intent, jobs: map<nat, Job>) {
    || intent.state == Attention
    || (intent.state == Queued && intent.job != None && intent.job.value in jobs && JobActive(jobs[intent.job.value]))
  }

  /** Served, or waiting in line behind a full window. */
  ghost predicate Offered(r: Work, v: View, i: nat)
    requires i < |r.intents|
  {
    || Served(r.intents[i], r.jobs)
    || (r.intents[i].state == Pending && r.intents[i].tier == Backfill && QueuedBackfill(r.intents) >= v.window)
  }

  lemma {:induction false} ServeOne(w: Work, v: View, k: nat, active: nat, i: nat)
    requires k < |w.intents| && i < |w.intents| && JobsBelow(w)
    requires w.intents[i].state == Pending || Served(w.intents[i], w.jobs)
    ensures var next := EnqueueOne(w, v, k, active);
      next.intents[i].state == Pending || Served(next.intents[i], next.jobs)
  {
    FindJobFinds(w.jobs, w.nextJob, ChapterKey(w.intents[k].chapter));
  }

  lemma {:induction false} PassServes(w: Work, v: View, order: seq<nat>, k: nat, active: nat, i: nat, stored: set<nat>)
    requires k <= |order| && ValidOrder(w, order) && JobsBelow(w) && AllFixed(w, stored) && i < |w.intents|
    requires w.intents[i].state == Pending || Served(w.intents[i], w.jobs)
    ensures var r := EnqueueFrom(w, v, order, k, active); r.intents[i].state == Pending || Served(r.intents[i], r.jobs)
    decreases |order| - k
  {
    if k < |order| {
      var next := EnqueueOne(w, v, order[k], active);
      ServeOne(w, v, order[k], active, i);
      EnqueueOneProgress(w, v, order[k], active, stored);
      PassServes(next, v, order, k + 1, CountAfter(w, next, order[k], active), i, stored);
    }
  }

  /** What is pending when the pass starts has been offered when it ends; nothing else changes. */
  lemma {:induction false} PassOffers(w: Work, v: View, i: nat)
    requires Observed(w, v) && i < |w.intents|
    ensures var r := EnqueueReady(w, v);
      && |r.intents| == |w.intents| && r.plan == w.plan
      && (w.intents[i].state == Pending ==> Offered(r, v, i))
      && (w.intents[i].state != Pending ==> r.intents[i] == w.intents[i])
  {
    EnqueueDrains(w, v);
    var r := EnqueueReady(w, v);
    assert LeftPending(r, v, i, QueuedBackfill(r.intents));
    if w.intents[i].state == Pending {
      var order := IntentOrder(w.intents);
      IntentOrderCovers(w.intents);
      assert forall x :: 0 <= x < |order| ==> order[x] in order;
      PassServes(w, v, order, 0, QueuedBackfill(w.intents), i, v.stored);
    }
  }

  /** Where an intent whose job is gone stands when the pass starts. */
  lemma {:induction false} GoneBeforePass(w: Work, v: View, i: nat)
    requires JobsBelow(w) && JobGone(w, v, i)
    ensures var d := AdvancePhase(Observe(w, v)); var lost := w.intents[i];
      && i < |d.intents| && Observed(d, v) && d.plan.status == Active
      && d.intents[i] ==
           if lost.job == None then lost
           else lost.(job := None, state := if lost.tier != Backfill || OpensBackfill(w, v) then Pending else Blocked)
  {
    SyncCovers(w, v, 0);
    ObserveObserves(w, v);
    AdvanceKeepsObserved(Observe(w, v), v);
    assert Observe(w, v).intents[i] == Settle(w.intents[i], v.stored, w.jobs);
  }

  /**
   A reconcile offers an intent whose job is gone to the queue again exactly when its link still
   names the missing row, and it is no backfill intent or the pass opens the backfill.  A cleared
   link leaves the row queued as it is; a backfill intent with a dangling link becomes blocked.
   */
  lemma {:induction false} GoneJobReofferedExactlyWhen(w: Work, v: View, i: nat)
    requires JobsBelow(w) && JobGone(w, v, i)
    ensures var r := Reconcile(w, v); var lost := w.intents[i];
      && i < |r.intents| && JobsBelow(r)
      && (Offered(r, v, i) <==> lost.job != None && (lost.tier != Backfill || OpensBackfill(w, v)))
      && (lost.job == None ==> r.intents[i] == lost && r.plan.status == Active)
      && (lost.job != None && !Offered(r, v, i) ==>
           r.intents[i] == lost.(state := Blocked, job := None) && r.plan.status == Active)
  {
    GoneBeforePass(w, v, i);
    var d := AdvancePhase(Observe(w, v));
    PassOffers(d, v, i);
    EnqueueDrains(d, v);
    var enqueued := EnqueueReady(d, v);
    assert Reconcile(w, v) == Summarise(enqueued);
  }

  ghost function ReconcileAll(w: Work, views: seq<View>): Work {
    if views == [] then w else Reconcile(ReconcileAll(w, views[..|views| - 1]), views[|views| - 1])
  }

  /**
   Deleting a job row clears the intent's link; from then on no number of reconciles, whatever the
   catalogue and clock, moves the intent or completes its plan until the chapter is stored.
   */
  lemma {:induction false} ClearedLinkStaysQueued(w: Work, views: seq<View>, i: nat)
    requires JobsBelow(w) && w.plan.status == Active && i < |w.intents|
    requires w.intents[i].state == Queued && w.intents[i].job == None
    requires forall k :: 0 <= k < |views| ==> w.intents[i].chapter !in views[k].stored
    ensures var r := ReconcileAll(w, views);
      JobsBelow(r) && r.plan.status == Active && i < |r.intents| && r.intents[i] == w.intents[i]
  {
    if views != [] {
      var n := |views| - 1;
      ClearedLinkStaysQueued(w, views[..n], i);
      GoneJobReofferedExactlyWhen(ReconcileAll(w, views[..n]), views[n], i);
    }
  }

  /** A reconcile that still finds the finished job of an intent settles the intent. */
  lemma {:induction false} FinishedJobSettles(w: Work, v: View, i: nat)
    requires JobsBelow(w) && w.plan.status == Active && i < |w.intents| && w.intents[i].chapter !in v.stored
    requires w.intents[i].job != None && w.intents[i].job.value in w.jobs && !JobActive(w.jobs[w.intents[i].job.value])
    ensures var r := Reconcile(w, v);
      && i < |r.intents|
      && r.intents[i] == w.intents[i].(state :=
           if w.jobs[w.intents[i].job.value].status == JobSucceeded then Satisfied else Attention)
  {
    SyncCovers(w, v, 0);
    ObserveObserves(w, v);
    AdvanceKeepsObserved(Observe(w, v), v);
    assert Observe(w, v).intents[i] == Settle(w.intents[i], v.stored, w.jobs);
    PassOffers(AdvancePhase(Observe(w, v)), v, i);
  }

  /** A concrete one: the only chapter has a release ready to download, and is never offered again. */
  lemma {:induction false} StuckPriorityChapter()
    ensures var w := Work(Plan(Active, PriorityPhase, 0, 1, 0, 0), [Intent(0, 9, Priority, Queued, None)], map[], 1, 0);
      var v := View([Chapter(9, 0)], [Release(1, 9, "asura", 0, None)], {}, 10, 20);
      && BestRelease(v.releases, 9, v.now) != None
      && Reconcile(w, v).intents == w.intents && Reconcile(w, v).jobs == map[] && Reconcile(w, v).plan.status == Active
  {
    var lost := Intent(0, 9, Priority, Queued, None);
    var w := Work(Plan(Active, PriorityPhase, 0, 1, 0, 0), [lost], map[], 1, 0);
    var v := View([Chapter(9, 0)], [Release(1, 9, "asura", 0, None)], {}, 10, 20);
    assert v.releases[0] in v.releases;
    BestIsPreferred(v.releases, (r: Release) => r.chapter == 9 && Available(r, v.now));
    assert w.intents[0].chapter == v.chapters[0].id;
    SyncNothing(w, v, 0);
    assert SettleAll(w.intents, v.stored, w.jobs) == w.intents;
    assert Observe(w, v) == w && AdvancePhase(w) == w;
    DrainedPassIsIdentity(w, v, IntentOrder(w.intents), 0) by {
      IntentOrderCovers(w.intents);
      assert forall x :: 0 <= x < |IntentOrder(w.intents)| ==> IntentOrder(w.intents)[x] in IntentOrder(w.intents);
    }
  }

  /** A backfill intent with a dangling link, or already blocked without a job, in the backfill phase. */
  ghost predicate LostBackfill(w: Work, v: View, i: nat) {
    && w.plan.status == Active && w.plan.phase == BackfillPhase && i < |w.intents|
    && w.intents[i].tier == Backfill && w.intents[i].chapter !in v.stored
    && ((w.intents[i].state == Blocked && w.intents[i].job == None)
        || (w.intents[i].state == Queued && w.intents[i].job != None && w.intents[i].job.value !in w.jobs))
  }

  /**
   Once the backfill phase is open such an intent is blocked, and stays so at every reconcile:
   blocked intents are only released when the phase opens.
   */
  lemma {:induction false} LostBackfillStaysBlocked(w: Work, v: View, i: nat)
    requires JobsBelow(w) && LostBackfill(w, v, i)
    ensures var r := Reconcile(w, v);
      LostBackfill(r, v, i) && r.intents[i].state == Blocked && JobsBelow(r)
  {
    if w.intents[i].state == Queued {
      GoneJobReofferedExactlyWhen(w, v, i);
    } else {
      BlockedStays(w, v, i);
    }
    SyncCovers(w, v, 0);
    ObserveObserves(w, v);
    EnqueueDrains(Observe(w, v), v);
  }

  lemma {:induction false} BlockedStays(w: Work, v: View, i: nat)
    requires JobsBelow(w) && LostBackfill(w, v, i) && w.intents[i].state == Blocked
    ensures var r := Reconcile(w, v);
      i < |r.intents| && r.intents[i] == w.intents[i] && r.plan.status == Active && JobsBelow(r)
  {
    SyncCovers(w, v, 0);
    ObserveObserves(w, v);
    var observed := Observe(w, v);
    assert observed.intents[i] == Settle(w.intents[i], v.stored, w.jobs);
    PassOffers(observed, v, i);
    EnqueueDrains(observed, v);
  }
}
