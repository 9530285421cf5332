/** What merging one series into another does to its download plan. */
module PlanMerges {
  import opened Options
  import opened Tables
  import opened DownloadPlans
  import opened PlanProperties
  import opened PlanStore
  import opened PlanRuns

  /** The chapters of the source series that the target has under the same number. */
  type Twins = map<nat, nat>

  function Rehoming(twins: Twins): Intent -> Intent {
    (a: Intent) => if a.chapter in twins then a.(chapter := twins[a.chapter]) else a
  }

  /** An intent is deleted when the target already has one for its chapter. */
  function Survives(mine: seq<Intent>, twins: Twins): Intent -> bool {
    (a: Intent) => !(a.chapter in twins && HasIntent(mine, twins[a.chapter]))
  }

  /** What goes over to the target. */
  function Moved(mine: seq<Intent>, theirs: seq<Intent>, twins: Twins): seq<Intent> {
    Project(Keep(theirs, Survives(mine, twins)), Rehoming(twins))
  }

  function ById(): (Intent, Intent) -> bool { (a: Intent, b: Intent) => a.id < b.id }

  function MergedIntents(mine: seq<Intent>, theirs: seq<Intent>, twins: Twins): seq<Intent> {
    Sort(mine + Moved(mine, theirs, twins), ById())
  }

  /** The target keeps its plan and otherwise takes over the plan of the source. */
  function MergedPlans(plans: map<nat, Plan>, source: nat, target: nat): map<nat, Plan> {
    if source in plans && target !in plans then (plans - {source})[target := plans[source]] else plans - {source}
  }

  /** `chapters` is what the target lists afterwards. */
  function MergeSeries(s: Store, source: nat, target: nat, twins: Twins, chapters: seq<Chapter>): Store {
    s.(plans := MergedPlans(s.plans, source, target),
       intents := (s.intents - {source})[target := MergedIntents(IntentsOf(s, target), IntentsOf(s, source), twins)],
       chapters := (s.chapters - {source})[target := chapters])
  }

  predicate PendingBackfill(intent: Intent) { intent.tier == Backfill && intent.state == Pending }

  /** Some pending backfill of the source goes over to the target. */
  predicate BringsPendingBackfill(mine: seq<Intent>, theirs: seq<Intent>, twins: Twins) {
    exists i :: 0 <= i < |theirs| && PendingBackfill(theirs[i]) && Survives(mine, twins)(theirs[i])
  }

  lemma {:induction false} MergedMembers(mine: seq<Intent>, theirs: seq<Intent>, twins: Twins)
    ensures forall x :: x in MergedIntents(mine, theirs, twins) <==> x in mine || x in Moved(mine, theirs, twins)
  {
    assert Orders(ById());
    SortSorts(mine + Moved(mine, theirs, twins), ById());
    SameMembers(MergedIntents(mine, theirs, twins), mine + Moved(mine, theirs, twins));
  }

  lemma {:induction false} MergedHas(mine: seq<Intent>, theirs: seq<Intent>, twins: Twins)
    ensures (exists x :: x in MergedIntents(mine, theirs, twins) && PendingBackfill(x)) <==>
      (exists x :: x in mine && PendingBackfill(x)) || BringsPendingBackfill(mine, theirs, twins)
  {
    var kept := Keep(theirs, Survives(mine, twins));
    var moved := Moved(mine, theirs, twins);
    MergedMembers(mine, theirs, twins);
    if i :| 0 <= i < |theirs| && PendingBackfill(theirs[i]) && Survives(mine, twins)(theirs[i]) {
      KeepMember(theirs, Survives(mine, twins), theirs[i]);
      var j :| 0 <= j < |kept| && kept[j] == theirs[i];
      assert PendingBackfill(moved[j]) && moved[j] in moved;
    }
    if x :| x in moved && PendingBackfill(x) {
      var j :| 0 <= j < |moved| && moved[j] == x;
      assert PendingBackfill(kept[j]);
      KeepMember(theirs, Survives(mine, twins), kept[j]);
    }
  }

  /**
   A merge keeps the tables safe exactly unless the target has a plan outside the backfill phase and
   pending backfill of the source goes over to it.
   */
  lemma {:induction false} MergeKeepsSafeExactlyWhen(s: Store, source: nat, target: nat, twins: Twins,
                                                     chapters: seq<Chapter>)
    requires Safe(s) && source != target
    ensures Safe(MergeSeries(s, source, target, twins, chapters)) <==>
      !(target in s.plans && s.plans[target].phase != BackfillPhase
        && BringsPendingBackfill(IntentsOf(s, target), IntentsOf(s, source), twins))
  {
    var mine, theirs := IntentsOf(s, target), IntentsOf(s, source);
    var t := MergeSeries(s, source, target, twins, chapters);
    assert SafeSeries(s, source) && SafeSeries(s, target);
    MergedHas(mine, theirs, twins);
    NoneIsPending(IntentsOf(t, target));
    NoneIsPending(mine);
    NoneIsPending(theirs);
    forall x: nat | x != target ensures SafeSeries(t, x) {
      assert SafeSeries(s, x);
    }
    assert Safe(t) <==> SafeSeries(t, target);
  }

  lemma {:induction false} NoneIsPending(intents: seq<Intent>)
    ensures NoPendingBackfill(intents) <==> !exists x :: x in intents && PendingBackfill(x)
  {
    if !NoPendingBackfill(intents) {
      var i :| 0 <= i < |intents| && PendingBackfill(intents[i]);
      assert intents[i] in intents;
    }
  }

  /** A pass offers a pending intent to the queue, whatever its tier and whether or not the wave is settled. */
  lemma {:induction false} PendingIsOffered(w: Work, v: View, i: nat)
    requires JobsBelow(w) && w.plan.status == Active && i < |w.intents|
    requires w.intents[i].state == Pending && w.intents[i].job == None && w.intents[i].chapter !in v.stored
    ensures i < |Reconcile(w, v).intents| && Offered(Reconcile(w, v), v, i)
  {
    SyncCovers(w, v, 0);
    ObserveObserves(w, v);
    AdvanceKeepsObserved(Observe(w, v), v);
    assert Observe(w, v).intents[i] == Settle(w.intents[i], v.stored, w.jobs);
    PassOffers(AdvancePhase(Observe(w, v)), v, i);
  }

  /** Blocked backfill of the source that comes under a plan in the backfill phase is never released. */
  lemma {:induction false} MergedBackfillStaysBlocked(s: Store, source: nat, target: nat, twins: Twins,
                                                      chapters: seq<Chapter>, i: nat, v: View)
    returns (k: nat)
    requires Safe(s) && source != target && InBackfill(s, target) && i < |IntentsOf(s, source)|
    requires var lost := IntentsOf(s, source)[i];
      && lost.tier == Backfill && lost.state == Blocked && lost.job == None
      && Survives(IntentsOf(s, target), twins)(lost) && Rehoming(twins)(lost).chapter !in v.stored
    ensures var t := MergeSeries(s, source, target, twins, chapters);
      && target in t.plans && k < |IntentsOf(t, target)|
      && IntentsOf(t, target)[k] == Rehoming(twins)(IntentsOf(s, source)[i])
      && var r := Reconcile(WorkOf(t, target, t.plans[target]), v);
      LostBackfill(r, v, k) && r.intents[k].state == Blocked
  {
    var mine, theirs := IntentsOf(s, target), IntentsOf(s, source);
    var t := MergeSeries(s, source, target, twins, chapters);
    k := MovedTo(mine, theirs, twins, i);
    assert SafeSeries(s, target);
    LostBackfillStaysBlocked(WorkOf(t, target, t.plans[target]), v, k);
  }

  lemma {:induction false} MovedTo(mine: seq<Intent>, theirs: seq<Intent>, twins: Twins, i: nat) returns (k: nat)
    requires i < |theirs| && Survives(mine, twins)(theirs[i])
    ensures k < |MergedIntents(mine, theirs, twins)|
    ensures MergedIntents(mine, theirs, twins)[k] == Rehoming(twins)(theirs[i])
  {
    var kept := Keep(theirs, Survives(mine, twins));
    var moved := Moved(mine, theirs, twins);
    MergedMembers(mine, theirs, twins);
    KeepMember(theirs, Survives(mine, twins), theirs[i]);
    var j :| 0 <= j < |kept| && kept[j] == theirs[i];
    assert moved[j] in moved;
    k :| 0 <= k < |MergedIntents(mine, theirs, twins)| && MergedIntents(mine, theirs, twins)[k] == moved[j];
  }

  /** A concrete merge: backfill of a released series comes under a plan whose priority wave is still running. */
  lemma {:induction false} MergeBreaksTheWave(s: Store)
    requires s == Store(map[1 := Plan(Active, BackfillPhase, 0, 1, 0, 0), 2 := Plan(Active, PriorityPhase, 0, 1, 0, 0)],
                        map[1 := [Intent(0, 11, Backfill, Pending, None)],
                            2 := [Intent(1, 21, Priority, Pending, None)]],
                        map[], map[], [], {}, [], 2, 0)
    ensures Safe(s) && !Safe(MergeSeries(s, 1, 2, map[], [Chapter(11, 0), Chapter(21, 0)]))
    ensures !PrioritySettled(IntentsOf(MergeSeries(s, 1, 2, map[], [Chapter(11, 0), Chapter(21, 0)]), 2))
  {
    var chapters := [Chapter(11, 0), Chapter(21, 0)];
    forall series: nat ensures SafeSeries(s, series) {
    }
    var theirs := IntentsOf(s, 1);
    assert PendingBackfill(theirs[0]) && Survives(IntentsOf(s, 2), map[])(theirs[0]);
    MergeKeepsSafeExactlyWhen(s, 1, 2, map[], chapters);
    StillUnsettled(IntentsOf(s, 2), theirs, map[], 0);
  }

  /** What the target still waits for, it waits for after the merge. */
  lemma {:induction false} StillUnsettled(mine: seq<Intent>, theirs: seq<Intent>, twins: Twins, i: nat)
    requires i < |mine| && mine[i].tier == Priority && !Settled(mine[i].state)
    ensures !PrioritySettled(MergedIntents(mine, theirs, twins))
  {
    MergedMembers(mine, theirs, twins);
    assert mine[i] in MergedIntents(mine, theirs, twins);
  }
}
