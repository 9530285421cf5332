/**
 Asynchronous merge and split operations: durable per-series reservations, a worker that runs each
 operation in two transactions with a third on failure, and recovery of stranded operations.

 A database transaction is one atomic step.  Workers interleave freely, may crash between
 transactions, and two workers may run the same operation when a lease is lost.
 */
module MatchOperations {

  import opened Options

  datatype Action = Accept | Reject
  datatype Verdict = Pending | Accepted | Rejected
  datatype Status = Queued | Running | Succeeded | Failed
  datatype JobStatus = JobQueued | JobLeased | JobRetryWait | JobSucceeded | JobFailed | JobCancelled

  datatype Operation = Operation(action: Action, status: Status, decisions: set<nat>, series: set<nat>, job: nat)

  predicate Active(op: Operation) {
    op.status == Queued || op.status == Running
  }

  function Outcome(action: Action): Verdict {
    if action == Accept then Accepted else Rejected
  }

  /**
   The rows the protocol touches.  `reservations` maps a series to the operation that reserved it
   (the table is unique on the series); `alive` are the canonical series that exist.
   */
  datatype Database = Database(operations: map<nat, Operation>,
                               reservations: map<nat, nat>,
                               decisions: map<nat, Verdict>,
                               alive: set<nat>,
                               jobs: map<nat, JobStatus>,
                               nextOperation: nat,
                               nextJob: nat)

  // ---------------------------------------------------------------- transactions

  predicate Matches(op: Operation, action: Action, decisions: set<nat>, series: set<nat>) {
    Active(op) && op.action == action && op.decisions == decisions && op.series == series
  }

  /** The newest equivalent active operation with an id below `limit`. */
  function FindEquivalent(operations: map<nat, Operation>, limit: nat,
                          action: Action, decisions: set<nat>, series: set<nat>): Option<nat>
  {
    if limit == 0 then None
    else if limit - 1 in operations && Matches(operations[limit - 1], action, decisions, series) then Some(limit - 1)
    else FindEquivalent(operations, limit - 1, action, decisions, series)
  }

  predicate Conflicts(series: set<nat>, reservations: map<nat, nat>) {
    exists s :: s in series && s in reservations
  }

  datatype EnqueueResult = Existing(id: nat) | Conflict | MissingSeries | Created(id: nat)

  /** Submitting an operation: reuse, refuse, or reserve every series and queue a job. */
  function Enqueue(db: Database, action: Action, decisions: set<nat>, series: set<nat>): (Database, EnqueueResult) {
    var existing := FindEquivalent(db.operations, db.nextOperation, action, decisions, series);
    if existing.Some? then (db, Existing(existing.value))
    else if Conflicts(series, db.reservations) then (db, Conflict)
    else if !(series <= db.alive) then (db, MissingSeries)
    else
      var id := db.nextOperation;
      (db.(operations := db.operations[id := Operation(action, Queued, decisions, series, db.nextJob)],
           reservations := db.reservations + map s | s in series :: id,
           jobs := db.jobs[db.nextJob := JobQueued],
           nextOperation := id + 1,
           nextJob := db.nextJob + 1),
       Created(id))
  }

  function SetStatus(db: Database, id: nat, status: Status): Database
    requires id in db.operations
  {
    db.(operations := db.operations[id := db.operations[id].(status := status)])
  }

  function Release(db: Database, id: nat): Database {
    db.(reservations := map s | s in db.reservations && db.reservations[s] != id :: db.reservations[s])
  }

  datatype BeginResult = Missing | AlreadySucceeded | PreviouslyFailed | Started

  /** First transaction of a worker: mark the operation running unless it is already terminal. */
  function Begin(db: Database, id: nat): (Database, BeginResult) {
    if id !in db.operations then (db, Missing)
    else if db.operations[id].status == Succeeded then (db, AlreadySucceeded)
    else if db.operations[id].status == Failed then (db, PreviouslyFailed)
    else (SetStatus(db, id, Running), Started)
  }

  /** What the catalog merge did: it raised, or kept `target` and dropped some decision rows. */
  datatype Merge = Raised | Merged(target: nat, dropped: set<nat>)

  /** The merge refuses fewer than two series and series that no longer exist. */
  predicate MergeRaises(alive: set<nat>, op: Operation, merge: Merge) {
    merge.Raised? || |op.series| < 2 || !(op.series <= alive) || merge.target !in op.series
  }

  predicate AllPending(db: Database, op: Operation) {
    forall d :: d in op.decisions ==> d in db.decisions && db.decisions[d] == Pending
  }

  function RemoveSeries(db: Database, gone: set<nat>): Database {
    db.(alive := db.alive - gone,
        reservations := map s | s in db.reservations && s !in gone :: db.reservations[s])
  }

  /** The merge deletes the absorbed series; their reservation rows go with them. */
  function ApplyMerge(db: Database, op: Operation, merge: Merge): Database
    requires merge.Merged?
  {
    var after := RemoveSeries(db, op.series - {merge.target});
    after.(decisions := map d | d in db.decisions && d !in merge.dropped :: db.decisions[d])
  }

  /** Second transaction: `Some` is a commit, `None` an exception that rolls everything back. */
  function Commit(db: Database, id: nat, merge: Merge): Option<Database> {
    if id !in db.operations then None
    else
      var op := db.operations[id];
      if !AllPending(db, op) || (op.action == Accept && MergeRaises(db.alive, op, merge)) then None
      else
        var reviewed := db.(decisions := map d | d in db.decisions ::
                              if d in op.decisions then Outcome(op.action) else db.decisions[d]);
        var merged := if op.action == Accept then ApplyMerge(reviewed, op, merge) else reviewed;
        Some(Release(SetStatus(merged, id, Succeeded), id))
  }

  /** Third transaction, after an exception. */
  function RecordFailure(db: Database, id: nat): Database {
    if id !in db.operations then db else Release(SetStatus(db, id, Failed), id)
  }

  /** The operation's queue job exists and can still run. */
  predicate JobAlive(jobs: map<nat, JobStatus>, op: Operation) {
    op.job in jobs && jobs[op.job] in {JobQueued, JobLeased, JobRetryWait}
  }

  predicate Stranded(db: Database, id: nat) {
    id in db.operations && Active(db.operations[id]) && !JobAlive(db.jobs, db.operations[id])
  }

  function ActiveIds(operations: map<nat, Operation>): set<nat> {
    set id | id in operations && Active(operations[id])
  }

  function StrandedIds(db: Database): set<nat> {
    set id | id in db.operations && Stranded(db, id)
  }

  function FailAll(db: Database, ids: set<nat>): Database {
    db.(operations := map id | id in db.operations ::
          if id in ids then db.operations[id].(status := Failed) else db.operations[id],
        reservations := map s | s in db.reservations && db.reservations[s] !in ids :: db.reservations[s])
  }

  /** Fails every active operation whose queue job can no longer run. */
  function Recover(db: Database): Database {
    FailAll(db, StrandedIds(db))
  }

  lemma {:induction false} FailNone(db: Database)
    ensures FailAll(db, {}) == db
  {
    assert FailAll(db, {}).operations == db.operations;
    assert FailAll(db, {}).reservations == db.reservations;
  }

  lemma {:induction false} FailOneMore(db: Database, ids: set<nat>, id: nat)
    requires id in db.operations && id !in ids
    ensures FailAll(db, ids + {id}) == RecordFailure(FailAll(db, ids), id)
  {
    var left, right := FailAll(db, ids + {id}), RecordFailure(FailAll(db, ids), id);
    assert left.operations == right.operations;
    assert left.reservations == right.reservations;
  }

  // ---------------------------------------------------------------- the imperative handler

  class MatchOperationStore {
    var operations: map<nat, Operation>
    var reservations: map<nat, nat>
    var decisions: map<nat, Verdict>
    var alive: set<nat>
    var jobs: map<nat, JobStatus>
    var nextOperation: nat
    var nextJob: nat

    ghost function View(): Database
      reads this
    {
      Database(operations, reservations, decisions, alive, jobs, nextOperation, nextJob)
    }

    method EnqueueMatchOperation(action: Action, decisionIds: set<nat>, seriesIds: set<nat>)
      returns (result: EnqueueResult)
      modifies this
      ensures (View(), result) == Enqueue(old(View()), action, decisionIds, seriesIds)
    {
      var limit: nat := nextOperation;
      while limit > 0
        invariant limit <= nextOperation
        invariant FindEquivalent(operations, nextOperation, action, decisionIds, seriesIds)
               == FindEquivalent(operations, limit, action, decisionIds, seriesIds)
      {
        if limit - 1 in operations && Matches(operations[limit - 1], action, decisionIds, seriesIds) {
          return Existing(limit - 1);
        }
        limit := limit - 1;
      }
      if Conflicts(seriesIds, reservations) {
        return Conflict;
      }
      if !(seriesIds <= alive) {
        return MissingSeries;
      }
      var id := nextOperation;
      operations := operations[id := Operation(action, Queued, decisionIds, seriesIds, nextJob)];
      reservations := reservations + map s | s in seriesIds :: id;
      jobs := jobs[nextJob := JobQueued];
      nextOperation, nextJob := nextOperation + 1, nextJob + 1;
      return Created(id);
    }

    method BeginOperation(id: nat) returns (result: BeginResult)
      modifies this
      ensures (View(), result) == Begin(old(View()), id)
    {
      if id !in operations {
        return Missing;
      }
      if operations[id].status == Succeeded {
        return AlreadySucceeded;
      }
      if operations[id].status == Failed {
        return PreviouslyFailed;
      }
      operations := operations[id := operations[id].(status := Running)];
      return Started;
    }

    method CommitOperation(id: nat, merge: Merge) returns (committed: bool)
      modifies this
      ensures committed == Commit(old(View()), id, merge).Some?
      ensures View() == if committed then Commit(old(View()), id, merge).value else old(View())
    {
      if id !in operations {
        return false;
      }
      var op := operations[id];
      if exists d :: d in op.decisions && (d !in decisions || decisions[d] != Pending) {
        return false;
      }
      if op.action == Accept && MergeRaises(alive, op, merge) {
        return false;
      }
      decisions := map d | d in decisions :: if d in op.decisions then Outcome(op.action) else decisions[d];
      if op.action == Accept {
        var gone := op.series - {merge.target};
        alive := alive - gone;
        reservations := map s | s in reservations && s !in gone :: reservations[s];
        decisions := map d | d in decisions && d !in merge.dropped :: decisions[d];
      }
      operations := operations[id := op.(status := Succeeded)];
      reservations := map s | s in reservations && reservations[s] != id :: reservations[s];
      return true;
    }

    method FailOperation(id: nat)
      modifies this
      ensures View() == RecordFailure(old(View()), id)
    {
      if id in operations {
        operations := operations[id := operations[id].(status := Failed)];
        reservations := map s | s in reservations && reservations[s] != id :: reservations[s];
      }
    }

    /** One undisturbed worker: both transactions, then the failure transaction if needed. */
    method Execute(id: nat, merge: Merge) returns (result: BeginResult, committed: bool)
      modifies this
      ensures result == Begin(old(View()), id).1
      ensures result != Started ==> !committed && View() == old(View())
      ensures result == Started ==>
        var begun := Begin(old(View()), id).0;
        && committed == Commit(begun, id, merge).Some?
        && View() == if committed then Commit(begun, id, merge).value else RecordFailure(begun, id)
    {
      committed := false;
      result := BeginOperation(id);
      if result == Started {
        committed := CommitOperation(id, merge);
        if !committed {
          FailOperation(id);
        }
      }
    }

    /** Visits one active operation of a recovery pass. */
    method RecoverOperation(id: nat, ghost db: Database, ghost failed: set<nat>, ghost todo: set<nat>)
      returns (stranded: bool, ghost now: set<nat>)
      requires View() == FailAll(db, failed) && Recovering(db, failed, todo) && id in todo
      modifies this
      ensures View() == FailAll(db, now) && Recovering(db, now, todo - {id})
      ensures |now| == |failed| + if stranded then 1 else 0
    {
      RecoverOne(db, failed, todo, id);
      now := failed;
      stranded := !JobAlive(jobs, operations[id]);
      if stranded {
        now := failed + {id};
        FailOneMore(db, failed, id);
        FailOperation(id);
      }
    }

    method ReconcileStranded() returns (changed: nat)
      modifies this
      ensures View() == Recover(old(View())) && changed == |StrandedIds(old(View()))|
    {
      ghost var db := View();
      var todo := ActiveIds(operations);
      ghost var failed: set<nat> := {};
      changed := 0;
      RecoverStart(db);
      while todo != {}
        invariant View() == FailAll(db, failed) && Recovering(db, failed, todo)
        invariant changed == |failed|
        decreases todo
      {
        var id :| id in todo;
        var stranded;
        stranded, failed := RecoverOperation(id, db, failed, todo);
        if stranded {
          changed := changed + 1;
        }
        todo := todo - {id};
      }
      RecoverEnd(db, failed);
    }
  }

  /** Recovery has failed exactly the stranded operations it has already visited. */
  ghost predicate Recovering(db: Database, failed: set<nat>, todo: set<nat>) {
    && failed <= StrandedIds(db) && failed !! todo && StrandedIds(db) <= failed + todo
    && forall id :: id in todo ==> id in db.operations && Active(db.operations[id])
  }

  lemma {:induction false} RecoverStart(db: Database)
    ensures FailAll(db, {}) == db && Recovering(db, {}, ActiveIds(db.operations))
  {
    FailNone(db);
  }

  lemma {:induction false} RecoverEnd(db: Database, failed: set<nat>)
    requires Recovering(db, failed, {})
    ensures failed == StrandedIds(db)
  {
  }

  lemma {:induction false} RecoverOne(db: Database, failed: set<nat>, todo: set<nat>, id: nat)
    requires Recovering(db, failed, todo) && id in todo
    ensures id in db.operations && id !in failed
    ensures FailAll(db, failed).operations[id] == db.operations[id]
    ensures JobAlive(db.jobs, db.operations[id]) ==> Recovering(db, failed, todo - {id})
    ensures !JobAlive(db.jobs, db.operations[id]) ==> Recovering(db, failed + {id}, todo - {id})
  {
  }

  // ---------------------------------------------------------------- interleaved runs

  /** Where a worker stands between its transactions. */
  datatype Stage = BeforeCommit(id: nat) | BeforeFailure(id: nat)

  datatype World = World(db: Database, workers: map<nat, Stage>)

  /** `CatalogChange` is the rest of the system: it creates and deletes series and decision rows, and imports. */
  datatype Step =
    | Submit(action: Action, decisions: set<nat>, series: set<nat>)
    | WorkerBegins(worker: nat, id: nat)
    | WorkerCommits(worker: nat, merge: Merge)
    | WorkerRaises(worker: nat)
    | WorkerFails(worker: nat)
    | WorkerCrashes(worker: nat)
    | Recovery
    | JobsChange(jobs: map<nat, JobStatus>)
    | CatalogChange(gone: set<nat>, added: set<nat>, verdicts: map<nat, Verdict>)

  /** A series that comes into existence gets an id no operation has ever named. */
  ghost predicate FreshSeries(db: Database, added: set<nat>) {
    added !! db.alive && forall id :: id in db.operations ==> added !! db.operations[id].series
  }

  /**
   Outside the protocol a stored decision is only ever set to rejected, by an import; a decision row
   that comes into existence gets an id no operation has ever named.
   */
  ghost predicate CatalogWrites(db: Database, verdicts: map<nat, Verdict>) {
    forall d :: d in verdicts ==>
      if d in db.decisions then verdicts[d] in {db.decisions[d], Rejected}
      else forall id :: id in db.operations ==> d !in db.operations[id].decisions
  }

  ghost predicate Enabled(w: World, step: Step) {
    match step
    case WorkerBegins(worker, id) => worker !in w.workers
    case WorkerCommits(worker, _) => worker in w.workers && w.workers[worker].BeforeCommit?
    case WorkerRaises(worker) => worker in w.workers && w.workers[worker].BeforeCommit?
    case WorkerFails(worker) => worker in w.workers && w.workers[worker].BeforeFailure?
    case WorkerCrashes(worker) => worker in w.workers
    case CatalogChange(_, added, verdicts) => FreshSeries(w.db, added) && CatalogWrites(w.db, verdicts)
    case _ => true
  }

  ghost function Apply(w: World, step: Step): World
    requires Enabled(w, step)
  {
    match step
    case Submit(action, decisions, series) => w.(db := Enqueue(w.db, action, decisions, series).0)
    case WorkerBegins(worker, id) =>
      var (db, result) := Begin(w.db, id);
      World(db, if result == Started then w.workers[worker := BeforeCommit(id)] else w.workers)
    case WorkerCommits(worker, merge) =>
      var id := w.workers[worker].id;
      (match Commit(w.db, id, merge)
       case Some(db) => World(db, w.workers - {worker})
       case None => w.(workers := w.workers[worker := BeforeFailure(id)]))
    case WorkerRaises(worker) => w.(workers := w.workers[worker := BeforeFailure(w.workers[worker].id)])
    case WorkerFails(worker) => World(RecordFailure(w.db, w.workers[worker].id), w.workers - {worker})
    case WorkerCrashes(worker) => w.(workers := w.workers - {worker})
    case Recovery => w.(db := Recover(w.db))
    case JobsChange(jobs) => w.(db := w.db.(jobs := jobs))
    case CatalogChange(gone, added, verdicts) =>
      var removed := RemoveSeries(w.db, gone);
      w.(db := removed.(alive := removed.alive + added, decisions := verdicts))
  }

  /** `worlds` is the run produced by `steps`. */
  ghost predicate IsRun(worlds: seq<World>, steps: seq<Step>) {
    && |worlds| == |steps| + 1
    && forall k :: 0 <= k < |steps| ==> Enabled(worlds[k], steps[k]) && worlds[k + 1] == Apply(worlds[k], steps[k])
  }

  // ---------------------------------------------------------------- reservations

  /** A reservation row belongs to an active operation on that existing series. */
  ghost predicate ReservationOk(db: Database, s: nat) {
    s in db.reservations ==>
      && db.reservations[s] in db.operations
      && Active(db.operations[db.reservations[s]])
      && s in db.operations[db.reservations[s]].series
      && s in db.alive
  }

  /** An active operation holds each of its series that still exists. */
  ghost predicate OperationOk(db: Database, id: nat) {
    id in db.operations ==>
      && id < db.nextOperation
      && (Active(db.operations[id]) ==>
           forall s :: s in db.operations[id].series && s in db.alive ==>
             s in db.reservations && db.reservations[s] == id)
  }

  ghost predicate Consistent(db: Database) {
    && (forall s: nat :: ReservationOk(db, s))
    && (forall id: nat :: OperationOk(db, id))
  }

  ghost predicate Holds(db: Database, id: nat, s: nat) {
    s in db.reservations && db.reservations[s] == id
  }

  /**
   An active operation holds all its series exactly as long as they all exist, and an operation
   with a series of its own that is terminal holds none.
   */
  lemma {:induction false} ActiveMeansReserved(db: Database, id: nat)
    requires Consistent(db) && id in db.operations
    ensures var op := db.operations[id];
      && (Active(op) ==> ((forall s :: s in op.series ==> Holds(db, id, s)) <==> op.series <= db.alive))
      && (!Active(op) ==> forall s :: !Holds(db, id, s))
      && (op.series != {} && op.series <= db.alive ==>
           (Active(op) <==> forall s :: s in op.series ==> Holds(db, id, s)))
  {
    var op := db.operations[id];
    assert OperationOk(db, id);
    assert forall s :: s in op.series ==> ReservationOk(db, s);
    forall s | Holds(db, id, s) ensures Active(op) && s in db.alive {
      assert ReservationOk(db, s);
    }
    if op.series != {} && (forall s :: s in op.series ==> Holds(db, id, s)) {
      var s :| s in op.series;
      assert Holds(db, id, s);
    }
  }

  lemma {:induction false} EnqueueKeeps(db: Database, action: Action, decisions: set<nat>, series: set<nat>)
    requires Consistent(db)
    ensures Consistent(Enqueue(db, action, decisions, series).0)
  {
    var after := Enqueue(db, action, decisions, series).0;
    assert OperationOk(db, db.nextOperation);
    forall s: nat ensures ReservationOk(after, s) {
      assert ReservationOk(db, s);
      if s in db.reservations {
        assert OperationOk(db, db.reservations[s]);
      }
    }
    forall id: nat ensures OperationOk(after, id) {
      assert OperationOk(db, id);
    }
  }

  lemma {:induction false} BeginKeeps(db: Database, id: nat)
    requires Consistent(db)
    ensures Consistent(Begin(db, id).0)
  {
    var after := Begin(db, id).0;
    forall s: nat ensures ReservationOk(after, s) {
      assert ReservationOk(db, s);
    }
    forall x: nat ensures OperationOk(after, x) {
      assert OperationOk(db, x);
    }
  }

  lemma {:induction false} RemoveSeriesKeeps(db: Database, gone: set<nat>)
    requires Consistent(db)
    ensures Consistent(RemoveSeries(db, gone))
  {
    var after := RemoveSeries(db, gone);
    forall s: nat ensures ReservationOk(after, s) {
      assert ReservationOk(db, s);
    }
    forall x: nat ensures OperationOk(after, x) {
      assert OperationOk(db, x);
    }
  }

  lemma {:induction false} FinishKeeps(db: Database, id: nat, status: Status)
    requires Consistent(db) && id in db.operations && status in {Succeeded, Failed}
    ensures Consistent(Release(SetStatus(db, id, status), id))
  {
    var after := Release(SetStatus(db, id, status), id);
    forall s: nat ensures ReservationOk(after, s) {
      assert ReservationOk(db, s);
    }
    forall x: nat ensures OperationOk(after, x) {
      assert OperationOk(db, x);
    }
  }

  lemma {:induction false} DecisionsKeep(db: Database, decisions: map<nat, Verdict>, jobs: map<nat, JobStatus>)
    requires Consistent(db)
    ensures Consistent(db.(decisions := decisions, jobs := jobs))
  {
    var after := db.(decisions := decisions, jobs := jobs);
    forall s: nat ensures ReservationOk(after, s) {
      assert ReservationOk(db, s);
    }
    forall x: nat ensures OperationOk(after, x) {
      assert OperationOk(db, x);
    }
  }

  lemma {:induction false} CommitKeeps(db: Database, id: nat, merge: Merge)
    requires Consistent(db) && Commit(db, id, merge).Some?
    ensures Consistent(Commit(db, id, merge).value)
  {
    var op := db.operations[id];
    var verdicts := map d | d in db.decisions ::
      if d in op.decisions then Outcome(op.action) else db.decisions[d];
    var reviewed := db.(decisions := verdicts);
    DecisionsKeep(db, verdicts, db.jobs);
    assert db.(decisions := verdicts, jobs := db.jobs) == reviewed;
    if op.action == Accept {
      var removed := RemoveSeries(reviewed, op.series - {merge.target});
      RemoveSeriesKeeps(reviewed, op.series - {merge.target});
      var merged := ApplyMerge(reviewed, op, merge);
      DecisionsKeep(removed, merged.decisions, removed.jobs);
      assert removed.(decisions := merged.decisions, jobs := removed.jobs) == merged;
      FinishKeeps(merged, id, Succeeded);
    } else {
      FinishKeeps(reviewed, id, Succeeded);
    }
  }

  lemma {:induction false} RecoverKeeps(db: Database)
    requires Consistent(db)
    ensures Consistent(Recover(db))
  {
    var after := Recover(db);
    forall s: nat ensures ReservationOk(after, s) {
      assert ReservationOk(db, s);
    }
    forall x: nat ensures OperationOk(after, x) {
      assert OperationOk(db, x);
    }
  }

  lemma {:induction false} CatalogChangeKeeps(db: Database, gone: set<nat>, added: set<nat>, verdicts: map<nat,
                                              Verdict>)
    requires Consistent(db) && FreshSeries(db, added)
    ensures var removed := RemoveSeries(db, gone);
      Consistent(removed.(alive := removed.alive + added, decisions := verdicts))
  {
    RemoveSeriesKeeps(db, gone);
    var removed := RemoveSeries(db, gone);
    var after := removed.(alive := removed.alive + added, decisions := verdicts);
    forall s: nat ensures ReservationOk(after, s) {
      assert ReservationOk(removed, s);
    }
    forall x: nat ensures OperationOk(after, x) {
      assert OperationOk(removed, x);
    }
  }

  lemma {:induction false} StepKeepsConsistent(w: World, step: Step)
    requires Consistent(w.db) && Enabled(w, step)
    ensures Consistent(Apply(w, step).db)
  {
    match step
    case Submit(action, decisions, series) => EnqueueKeeps(w.db, action, decisions, series);
    case WorkerBegins(_, id) => BeginKeeps(w.db, id);
    case WorkerCommits(worker, merge) =>
      if Commit(w.db, w.workers[worker].id, merge).Some? {
        CommitKeeps(w.db, w.workers[worker].id, merge);
      }
    case WorkerRaises(_) =>
    case WorkerFails(worker) =>
      if w.workers[worker].id in w.db.operations {
        FinishKeeps(w.db, w.workers[worker].id, Failed);
      }
    case WorkerCrashes(_) =>
    case Recovery => RecoverKeeps(w.db);
    case JobsChange(jobs) =>
      DecisionsKeep(w.db, w.db.decisions, jobs);
    case CatalogChange(gone, added, verdicts) => CatalogChangeKeeps(w.db, gone, added, verdicts);
  }

  /** In every interleaving every reachable database is consistent. */
  lemma {:induction false} RunsStayConsistent(worlds: seq<World>, steps: seq<Step>, k: nat)
    requires IsRun(worlds, steps) && Consistent(worlds[0].db) && k < |worlds|
    ensures Consistent(worlds[k].db)
  {
    if k > 0 {
      RunsStayConsistent(worlds, steps, k - 1);
      StepKeepsConsistent(worlds[k - 1], steps[k - 1]);
    }
  }

  // ---------------------------------------------------------------- terminal operations

  /** `id` is terminal: it exists and is neither queued nor running. */
  ghost predicate Terminal(db: Database, id: nat) {
    id in db.operations && !Active(db.operations[id])
  }

  /** Once terminal, an operation is never queued or running again, and its request is fixed. */
  lemma {:induction false} StepKeepsTerminal(w: World, step: Step, id: nat)
    requires Consistent(w.db) && Enabled(w, step) && Terminal(w.db, id)
    ensures Terminal(Apply(w, step).db, id)
    ensures Apply(w, step).db.operations[id].(status := w.db.operations[id].status) == w.db.operations[id]
  {
    assert OperationOk(w.db, id);
  }

  lemma {:induction false} TerminalIsForever(worlds: seq<World>, steps: seq<Step>, id: nat, k: nat, m: nat)
    requires IsRun(worlds, steps) && Consistent(worlds[0].db)
    requires k <= m < |worlds| && Terminal(worlds[k].db, id)
    ensures Terminal(worlds[m].db, id)
    ensures worlds[m].db.operations[id].(status := worlds[k].db.operations[id].status) == worlds[k].db.operations[id]
    decreases m
  {
    if k < m {
      TerminalIsForever(worlds, steps, id, k, m - 1);
      RunsStayConsistent(worlds, steps, m - 1);
      StepKeepsTerminal(worlds[m - 1], steps[m - 1], id);
    }
  }

  /** Some worker is still between transactions of operation `id`. */
  ghost predicate InFlight(w: World, id: nat) {
    exists worker :: worker in w.workers && w.workers[worker].id == id
  }

  lemma {:induction false} StepKeepsSettled(w: World, step: Step, id: nat)
    requires Consistent(w.db) && Enabled(w, step) && Terminal(w.db, id) && !InFlight(w, id)
    ensures !InFlight(Apply(w, step), id)
    ensures id in Apply(w, step).db.operations && Apply(w, step).db.operations[id] == w.db.operations[id]
  {
    assert OperationOk(w.db, id);
    var after := Apply(w, step);
    assert forall worker :: worker in w.workers ==> w.workers[worker].id != id;
    assert forall worker :: worker in after.workers ==> after.workers[worker].id != id;
  }

  ghost predicate Unchanged(w: World, after: World, id: nat) {
    && id in w.db.operations && id in after.db.operations && after.db.operations[id] == w.db.operations[id]
    && Terminal(after.db, id) && !InFlight(after, id)
  }

  lemma {:induction false} RunKeepsSettled(worlds: seq<World>, steps: seq<Step>, id: nat, k: nat)
    requires IsRun(worlds, steps) && k < |steps| && Consistent(worlds[k].db)
    requires Terminal(worlds[k].db, id) && !InFlight(worlds[k], id)
    ensures Unchanged(worlds[k], worlds[k + 1], id)
  {
    StepKeepsSettled(worlds[k], steps[k], id);
  }

  /** The outcome of a terminal operation is final once no worker is in flight on it. */
  lemma {:induction false} SettledOutcomeIsFinal(worlds: seq<World>, steps: seq<Step>, id: nat, k: nat, m: nat)
    requires IsRun(worlds, steps) && Consistent(worlds[0].db)
    requires k <= m < |worlds| && Terminal(worlds[k].db, id) && !InFlight(worlds[k], id)
    ensures id in worlds[m].db.operations && worlds[m].db.operations[id] == worlds[k].db.operations[id]
    ensures !InFlight(worlds[m], id)
    decreases m
  {
    if k < m {
      SettledOutcomeIsFinal(worlds, steps, id, k, m - 1);
      RunsStayConsistent(worlds, steps, m - 1);
      RunKeepsSettled(worlds, steps, id, m - 1);
    }
  }

  /** With a worker in flight a succeeded operation can still be marked failed. */
  lemma {:induction false} InFlightOutcomeCanFlip(w: World, id: nat) returns (steps: seq<Step>, worlds: seq<World>)
    requires Consistent(w.db) && w.db.operations.Keys >= {id} && w.db.operations[id].status == Succeeded
    requires InFlight(w, id)
    ensures IsRun(worlds, steps) && worlds[0] == w
    ensures id in worlds[|steps|].db.operations && worlds[|steps|].db.operations[id].status == Failed
    ensures worlds[|steps|].db.decisions == w.db.decisions
  {
    var worker :| worker in w.workers && w.workers[worker].id == id;
    if w.workers[worker].BeforeCommit? {
      var raised := Apply(w, WorkerRaises(worker));
      steps := [WorkerRaises(worker), WorkerFails(worker)];
      worlds := [w, raised, Apply(raised, WorkerFails(worker))];
    } else {
      steps := [WorkerFails(worker)];
      worlds := [w, Apply(w, WorkerFails(worker))];
    }
  }

  /** Some run from `w` ends with operation `id` in the given status. */
  ghost predicate CanBecome(w: World, id: nat, status: Status) {
    exists worlds: seq<World>, steps: seq<Step> :: Leads(w, id, status, worlds, steps)
  }

  ghost predicate Leads(w: World, id: nat, status: Status, worlds: seq<World>, steps: seq<Step>) {
    && IsRun(worlds, steps) && worlds[0] == w
    && id in worlds[|steps|].db.operations && worlds[|steps|].db.operations[id].status == status
  }

  /** A succeeded operation can become failed exactly while a worker is in flight on it. */
  lemma {:induction false} SucceededCanFailExactlyWhen(w: World, id: nat)
    requires Consistent(w.db) && id in w.db.operations && w.db.operations[id].status == Succeeded
    ensures CanBecome(w, id, Failed) <==> InFlight(w, id)
  {
    if InFlight(w, id) {
      var steps, worlds := InFlightOutcomeCanFlip(w, id);
      assert Leads(w, id, Failed, worlds, steps);
    }
    if CanBecome(w, id, Failed) && !InFlight(w, id) {
      var worlds, steps :| Leads(w, id, Failed, worlds, steps);
      SettledOutcomeIsFinal(worlds, steps, id, 0, |steps|);
    }
  }

  /** A worker stands before the second transaction of operation `id`. */
  ghost predicate MayCommit(w: World, id: nat) {
    exists worker :: worker in w.workers && w.workers[worker] == BeforeCommit(id)
  }

  /** The catalog merge can go through: rejecting needs none, accepting needs two existing series. */
  predicate Mergeable(alive: set<nat>, op: Operation) {
    op.action == Reject || (|op.series| >= 2 && op.series <= alive)
  }

  /** Some answer of the merge lets the second transaction commit. */
  lemma {:induction false} CommitsExactlyWhen(db: Database, id: nat)
    requires id in db.operations
    ensures (exists merge :: Commit(db, id, merge).Some?) <==>
      AllPending(db, db.operations[id]) && Mergeable(db.alive, db.operations[id])
  {
    var op := db.operations[id];
    if AllPending(db, op) && Mergeable(db.alive, op) {
      if op.action == Accept {
        var target :| target in op.series;
        assert Commit(db, id, Merged(target, {})).Some?;
      } else {
        assert Commit(db, id, Raised).Some?;
      }
    }
  }

  /** A worker may commit the operation, its decisions are pending, and the merge can go through. */
  ghost predicate Revivable(w: World, id: nat)
    requires id in w.db.operations
  {
    MayCommit(w, id) && AllPending(w.db, w.db.operations[id]) && Mergeable(w.db.alive, w.db.operations[id])
  }

  ghost predicate Dead(w: World, id: nat) {
    id in w.db.operations && w.db.operations[id].status == Failed && !Revivable(w, id)
  }

  /** No step makes a decision named by an operation pending again. */
  lemma {:induction false} StepKeepsReviewed(w: World, step: Step, id: nat)
    requires Enabled(w, step) && id in w.db.operations && !AllPending(w.db, w.db.operations[id])
    ensures !AllPending(Apply(w, step).db, w.db.operations[id])
  {
    var d :| d in w.db.operations[id].decisions && !(d in w.db.decisions && w.db.decisions[d] == Pending);
    var after := Apply(w, step).db;
    assert !(d in after.decisions && after.decisions[d] == Pending);
  }

  lemma {:induction false} StepKeepsUncommittable(w: World, step: Step, id: nat)
    requires Enabled(w, step) && !MayCommit(w, id) && (id in w.db.operations ==> w.db.operations[id].status == Failed)
    ensures id in w.db.operations ==> !MayCommit(Apply(w, step), id)
  {
    var after := Apply(w, step);
    assert forall x :: x in w.workers ==> w.workers[x] != BeforeCommit(id);
    assert id in w.db.operations ==> forall x :: x in after.workers ==> after.workers[x] != BeforeCommit(id);
  }

  lemma {:induction false} StepKeepsDead(w: World, step: Step, id: nat)
    requires Consistent(w.db) && Enabled(w, step) && Dead(w, id)
    ensures Dead(Apply(w, step), id)
  {
    StepKeepsTerminal(w, step, id);
    var after, op := Apply(w, step), w.db.operations[id];
    if !AllPending(w.db, op) {
      StepKeepsReviewed(w, step, id);
    } else if !MayCommit(w, id) {
      StepKeepsUncommittable(w, step, id);
    }
    match step
    case WorkerCommits(worker, merge) => CommitKeepsFailed(w, worker, merge, id);
    case _ =>
  }

  lemma {:induction false} CommitKeepsFailed(w: World, worker: nat, merge: Merge, id: nat)
    requires Enabled(w, WorkerCommits(worker, merge)) && Dead(w, id)
    ensures id in Apply(w, WorkerCommits(worker, merge)).db.operations
    ensures Apply(w, WorkerCommits(worker, merge)).db.operations[id].status == Failed
  {
    if w.workers[worker].id == id {
      assert w.workers[worker] == BeforeCommit(id);
      assert MayCommit(w, id);
      assert Commit(w.db, id, merge).None?;
    }
  }

  lemma {:induction false} DeadForever(worlds: seq<World>, steps: seq<Step>, id: nat, m: nat)
    requires IsRun(worlds, steps) && Consistent(worlds[0].db) && Dead(worlds[0], id) && m < |worlds|
    ensures Dead(worlds[m], id)
  {
    if m > 0 {
      DeadForever(worlds, steps, id, m - 1);
      RunsStayConsistent(worlds, steps, m - 1);
      StepKeepsDead(worlds[m - 1], steps[m - 1], id);
    }
  }

  lemma {:induction false} RevivingRun(w: World, id: nat) returns (worlds: seq<World>, steps: seq<Step>)
    requires id in w.db.operations && Revivable(w, id)
    ensures Leads(w, id, Succeeded, worlds, steps)
  {
    var worker :| worker in w.workers && w.workers[worker] == BeforeCommit(id);
    CommitsExactlyWhen(w.db, id);
    var merge :| Commit(w.db, id, merge).Some?;
    steps := [WorkerCommits(worker, merge)];
    worlds := [w, Apply(w, WorkerCommits(worker, merge))];
  }

  /**
   A failed operation can become succeeded exactly while a worker stands before its second
   transaction, its decisions are all pending and the merge can go through.
   */
  lemma {:induction false} FailedCanSucceedExactlyWhen(w: World, id: nat)
    requires Consistent(w.db) && id in w.db.operations && w.db.operations[id].status == Failed
    ensures CanBecome(w, id, Succeeded) <==>
      && MayCommit(w, id)
      && AllPending(w.db, w.db.operations[id]) && Mergeable(w.db.alive, w.db.operations[id])
  {
    if Revivable(w, id) {
      var worlds, steps := RevivingRun(w, id);
    }
    if CanBecome(w, id, Succeeded) && Dead(w, id) {
      var worlds, steps :| Leads(w, id, Succeeded, worlds, steps);
      DeadForever(worlds, steps, id, |steps|);
    }
  }

  // ---------------------------------------------------------------- series taken by a commit

  /** A reservation of another operation on `s` that the commit removes. */
  ghost predicate Loses(db: Database, after: Database, id: nat, s: nat) {
    s in db.reservations && db.reservations[s] != id && !Holds(after, db.reservations[s], s)
  }

  /**
   A commit takes a series from another operation exactly when it accepts and another operation
   has reserved one of the series it absorbs.
   */
  lemma {:induction false} CommitTakesExactlyWhen(db: Database, id: nat, merge: Merge)
    requires Commit(db, id, merge).Some?
    ensures var op := db.operations[id];
      (exists s :: Loses(db, Commit(db, id, merge).value, id, s)) <==>
      (op.action == Accept
       && exists s :: s in op.series - {merge.target} && s in db.reservations && db.reservations[s] != id)
  {
    var op, after := db.operations[id], Commit(db, id, merge).value;
    if op.action == Accept {
      forall s ensures Loses(db, after, id, s) <==>
        s in op.series - {merge.target} && s in db.reservations && db.reservations[s] != id
      {
      }
    } else {
      forall s ensures !Loses(db, after, id, s) {
      }
    }
  }

  /** An operation that is still active when it commits takes nothing: rechecking the status is the guard. */
  lemma {:induction false} ActiveCommitTakesNothing(db: Database, id: nat, merge: Merge)
    requires Consistent(db) && Commit(db, id, merge).Some? && Active(db.operations[id])
    ensures forall s :: !Loses(db, Commit(db, id, merge).value, id, s)
  {
    var op := db.operations[id];
    assert OperationOk(db, id);
    CommitTakesExactlyWhen(db, id, merge);
    if op.action == Accept {
      forall s | s in op.series ensures s in db.reservations && db.reservations[s] == id {
        assert s in db.alive;
      }
    }
  }

  // A concrete interleaving, world by world.
  ghost const FIRST := Operation(Accept, Queued, {}, {1, 2}, 0)
  ghost const SECOND := Operation(Accept, Queued, {}, {2, 3}, 1)

  ghost function StaleSteps(): seq<Step> {
    [Submit(Accept, {}, {1, 2}), WorkerBegins(7, 0), JobsChange(map[0 := JobFailed]),
     Recovery, Submit(Accept, {}, {2, 3}), WorkerCommits(7, Merged(1, {}))]
  }

  ghost function StaleWorld(k: nat): World {
    var failed := FIRST.(status := Failed);
    var busy: map<nat, Stage> := map[7 := BeforeCommit(0)];
    var dead: map<nat, JobStatus> := map[0 := JobFailed];
    match k
    case 0 => World(Database(map[], map[], map[], {1, 2, 3}, map[], 0, 0), map[])
    case 1 => World(Database(map[0 := FIRST], map[1 := 0, 2 := 0], map[], {1, 2, 3}, map[0 := JobQueued], 1, 1), map[])
    case 2 => World(Database(map[0 := FIRST.(status := Running)], map[1 := 0, 2 := 0], map[], {1, 2, 3},
                             map[0 := JobQueued], 1, 1), busy)
    case 3 => World(Database(map[0 := FIRST.(status := Running)], map[1 := 0, 2 := 0], map[], {1, 2, 3}, dead, 1, 1),
                    busy)
    case 4 => World(Database(map[0 := failed], map[], map[], {1, 2, 3}, dead, 1, 1), busy)
    case 5 => World(Database(map[0 := failed, 1 := SECOND], map[2 := 1, 3 := 1], map[], {1, 2, 3},
                             dead[1 := JobQueued], 2, 2), busy)
    case _ => World(Database(map[0 := FIRST.(status := Succeeded), 1 := SECOND], map[3 := 1], map[], {1, 3},
                             dead[1 := JobQueued], 2, 2), map[])
  }

  ghost predicate StaleStep(k: nat) {
    k < 6 && Enabled(StaleWorld(k), StaleSteps()[k]) && Apply(StaleWorld(k), StaleSteps()[k]) == StaleWorld(k + 1)
  }

  lemma {:induction false} StaleSubmit()
    ensures StaleStep(0)
  {
    assert Apply(StaleWorld(0), StaleSteps()[0]).db.reservations == map[1 := 0, 2 := 0];
  }

  lemma {:induction false} StaleResubmit()
    ensures StaleStep(4)
  {
    assert Apply(StaleWorld(4), StaleSteps()[4]).db.reservations == map[2 := 1, 3 := 1];
  }

  lemma {:induction false} StaleBegin()
    ensures StaleStep(1) && StaleStep(2)
  {
  }

  lemma {:induction false} StaleRecovery()
    ensures StaleStep(3)
  {
    assert Stranded(StaleWorld(3).db, 0);
    assert Apply(StaleWorld(3), StaleSteps()[3]).db.reservations == map[];
    assert Apply(StaleWorld(3), StaleSteps()[3]).db.operations == map[0 := FIRST.(status := Failed)];
  }

  lemma {:induction false} StaleCommit()
    ensures StaleStep(5)
  {
    assert |FIRST.series| == 2;
    var after := Commit(StaleWorld(5).db, 0, Merged(1, {}));
    assert after.Some?;
    assert after.value.operations == StaleWorld(6).db.operations;
    assert after.value.reservations == StaleWorld(6).db.reservations;
    assert after.value.decisions == StaleWorld(6).db.decisions;
    assert after.value.alive == StaleWorld(6).db.alive;
    assert StaleWorld(5).workers - {7} == map[];
  }

  /**
   A worker that passed its first transaction may commit after recovery has already failed its
   operation and a second operation has reserved one of the series: the failed operation becomes
   succeeded, and the merge takes a series away from the second, still active, operation.
   */
  lemma {:induction false} StaleWorkerCommits()
    ensures StaleStep(0) && StaleStep(1) && StaleStep(2) && StaleStep(3) && StaleStep(4) && StaleStep(5)
    ensures StaleWorld(4).db.operations[0].status == Failed && StaleWorld(6).db.operations[0].status == Succeeded
    ensures Active(StaleWorld(6).db.operations[1]) && 2 in StaleWorld(6).db.operations[1].series
    ensures !Holds(StaleWorld(6).db, 1, 2) && Holds(StaleWorld(6).db, 1, 3)
  {
    StaleSubmit();
    StaleBegin();
    StaleRecovery();
    StaleResubmit();
    StaleCommit();
    StaleOutcome();
  }

  lemma {:induction false} StaleOutcome()
    ensures StaleWorld(4).db.operations[0].status == Failed && StaleWorld(6).db.operations[0].status == Succeeded
    ensures Active(StaleWorld(6).db.operations[1]) && 2 in StaleWorld(6).db.operations[1].series
    ensures !Holds(StaleWorld(6).db, 1, 2) && Holds(StaleWorld(6).db, 1, 3)
  {
  }

  // ---------------------------------------------------------------- decisions

  /** A commit moves all of the operation's decisions from pending to its verdict, or none. */
  lemma {:induction false} CommitMovesAllOrNone(db: Database, id: nat, merge: Merge)
    requires id in db.operations
    ensures var op := db.operations[id]; var result := Commit(db, id, merge);
      && (result.Some? ==>
           && (forall d :: d in op.decisions ==> d in db.decisions && db.decisions[d] == Pending)
           && (forall d :: d in op.decisions && d in result.value.decisions ==>
                result.value.decisions[d] == Outcome(op.action))
           && (forall d :: d in op.decisions && d !in result.value.decisions ==>
                op.action == Accept && merge.Merged? && d in merge.dropped)
           && (forall d :: d in result.value.decisions && d !in op.decisions ==>
                d in db.decisions && result.value.decisions[d] == db.decisions[d]))
      && (result.None? <==>
           || (exists d :: d in op.decisions && (d !in db.decisions || db.decisions[d] != Pending))
           || (op.action == Accept && MergeRaises(db.alive, op, merge)))
  {
  }

  /** A decision of a committed operation is accepted by accepting and rejected by rejecting. */
  lemma {:induction false} CommitStoresAction(db: Database, id: nat, merge: Merge, d: nat)
    requires Commit(db, id, merge).Some? && d in db.operations[id].decisions
    requires d in Commit(db, id, merge).value.decisions
    ensures Commit(db, id, merge).value.decisions[d] == Accepted <==> db.operations[id].action == Accept
    ensures Commit(db, id, merge).value.decisions[d] == Rejected <==> db.operations[id].action == Reject
  {
  }

  /**
   Everything else a commit changes: the operation has succeeded, accepting leaves exactly the
   target of its series, and only its own reservations and those on absorbed series are gone.
   */
  lemma {:induction false} CommitChanges(db: Database, id: nat, merge: Merge)
    requires Commit(db, id, merge).Some?
    ensures var op, after := db.operations[id], Commit(db, id, merge).value;
      && after.operations == db.operations[id := op.(status := Succeeded)] && after.jobs == db.jobs
      && (op.action == Reject ==> after.alive == db.alive)
      && (op.action == Accept ==>
           && merge.Merged? && merge.target in op.series && op.series <= db.alive && |op.series| >= 2
           && op.series * after.alive == {merge.target} && after.alive - op.series == db.alive - op.series)
      && (forall s :: s in after.reservations <==>
           && s in db.reservations && db.reservations[s] != id
           && (op.action == Accept && s in op.series ==> s == merge.target))
      && (forall s :: s in after.reservations ==> after.reservations[s] == db.reservations[s])
  {
  }

  /** A recorded failure fails the operation, frees its series, and touches nothing else. */
  lemma {:induction false} FailureChanges(db: Database, id: nat)
    requires id in db.operations
    ensures var after := RecordFailure(db, id);
      && after.operations == db.operations[id := db.operations[id].(status := Failed)]
      && after.decisions == db.decisions && after.alive == db.alive && after.jobs == db.jobs
      && (forall s :: s in after.reservations <==> s in db.reservations && db.reservations[s] != id)
      && (forall s :: s in after.reservations ==> after.reservations[s] == db.reservations[s])
  {
  }

  /** The operation waits for a job that has ended or does not exist. */
  ghost predicate Orphaned(db: Database, id: nat) {
    && id in db.operations && db.operations[id].status in {Queued, Running}
    && (db.operations[id].job in db.jobs ==> db.jobs[db.operations[id].job] in {JobSucceeded, JobFailed, JobCancelled})
  }

  lemma {:induction false} EndedExactlyWhen(job: JobStatus)
    ensures job in {JobSucceeded, JobFailed, JobCancelled} <==> !(job in {JobQueued, JobLeased, JobRetryWait})
  {
    assert job.JobQueued? || job.JobLeased? || job.JobRetryWait? || job.JobSucceeded? || job.JobFailed?
      || job.JobCancelled?;
  }

  /** Recovery fails exactly the orphaned operations and frees exactly their series. */
  lemma {:induction false} RecoveryFailsOrphans(db: Database)
    ensures var after := Recover(db);
      && after.operations.Keys == db.operations.Keys
      && (forall id :: id in db.operations ==>
           after.operations[id] ==
             if Orphaned(db, id) then db.operations[id].(status := Failed) else db.operations[id])
      && (forall s :: s in after.reservations <==> s in db.reservations && !Orphaned(db, db.reservations[s]))
      && (forall s :: s in after.reservations ==> after.reservations[s] == db.reservations[s])
      && after.decisions == db.decisions && after.alive == db.alive && after.jobs == db.jobs
  {
    forall id: nat | id in db.operations ensures id in StrandedIds(db) <==> Orphaned(db, id) {
      if db.operations[id].job in db.jobs {
        EndedExactlyWhen(db.jobs[db.operations[id].job]);
      }
    }
  }

  ghost predicate Reviewed(db: Database, d: nat) { d in db.decisions && db.decisions[d] != Pending }

  /** One step keeps the verdict of a reviewed decision; only an import may turn it into rejected. */
  lemma {:induction false} StepKeepsVerdicts(w: World, step: Step, d: nat)
    requires Enabled(w, step) && Reviewed(w.db, d) && d in Apply(w, step).db.decisions
    ensures Apply(w, step).db.decisions[d] == w.db.decisions[d]
      || (step.CatalogChange? && Apply(w, step).db.decisions[d] == Rejected)
  {
    match step
    case WorkerCommits(worker, merge) =>
      if w.workers[worker].id in w.db.operations {
        CommitMovesAllOrNone(w.db, w.workers[worker].id, merge);
      }
    case _ =>
  }

  lemma {:induction false} RunKeepsVerdict(worlds: seq<World>, steps: seq<Step>, d: nat, k: nat)
    requires IsRun(worlds, steps) && k < |steps| && Reviewed(worlds[k].db, d) && d in worlds[k + 1].db.decisions
    ensures var was, now := worlds[k].db.decisions[d], worlds[k + 1].db.decisions[d];
      now == was || (steps[k].CatalogChange? && now == Rejected)
  {
    StepKeepsVerdicts(worlds[k], steps[k], d);
  }

  ghost predicate StoredThroughout(worlds: seq<World>, d: nat, k: nat, m: nat)
    requires m < |worlds|
  {
    forall i :: k <= i <= m ==> d in worlds[i].db.decisions
  }

  /** At step `i` an import turned an accepted decision into a rejected one. */
  ghost predicate Overruled(worlds: seq<World>, steps: seq<Step>, d: nat, i: nat)
    requires i < |steps| && i + 1 < |worlds|
  {
    && steps[i].CatalogChange? && d in worlds[i].db.decisions && d in worlds[i + 1].db.decisions
    && worlds[i].db.decisions[d] == Accepted && worlds[i + 1].db.decisions[d] == Rejected
  }

  ghost predicate OverruledBetween(worlds: seq<World>, steps: seq<Step>, d: nat, k: nat, m: nat)
    requires m <= |steps| && m < |worlds|
  {
    exists i: nat :: k <= i < m && Overruled(worlds, steps, d, i)
  }

  lemma {:induction false} OverruledOneMore(worlds: seq<World>, steps: seq<Step>, d: nat, k: nat, m: nat)
    requires k <= m < |steps| && m + 1 < |worlds|
    ensures OverruledBetween(worlds, steps, d, k, m + 1)
      <==> OverruledBetween(worlds, steps, d, k, m) || Overruled(worlds, steps, d, m)
  {
  }

  ghost function VerdictAt(worlds: seq<World>, d: nat, k: nat): Option<Verdict>
    requires k < |worlds|
  {
    if d in worlds[k].db.decisions then Some(worlds[k].db.decisions[d]) else None
  }

  /**
   While its row exists, a rejected decision stays rejected, and an accepted one stays accepted
   unless an import rejects it: no operation ever changes a verdict, and none becomes pending again.
   */
  lemma {:induction false} ReviewedVerdictsAreFinal(worlds: seq<World>, steps: seq<Step>, d: nat, k: nat, m: nat)
    requires IsRun(worlds, steps) && k <= m < |worlds|
    requires Reviewed(worlds[k].db, d) && StoredThroughout(worlds, d, k, m)
    ensures VerdictAt(worlds, d, m) == Some(
      if VerdictAt(worlds, d, k) == Some(Rejected) || OverruledBetween(worlds, steps, d, k, m) then Rejected
      else Accepted)
    decreases m
  {
    if k < m {
      ReviewedVerdictsAreFinal(worlds, steps, d, k, m - 1);
      OneMoreVerdict(worlds, steps, d, m - 1);
      OverruledOneMore(worlds, steps, d, k, m - 1);
    }
  }

  lemma {:induction false} OneMoreVerdict(worlds: seq<World>, steps: seq<Step>, d: nat, m: nat)
    requires IsRun(worlds, steps) && m < |steps| && Reviewed(worlds[m].db, d) && d in worlds[m + 1].db.decisions
    ensures VerdictAt(worlds, d, m + 1)
      == if Overruled(worlds, steps, d, m) then Some(Rejected) else VerdictAt(worlds, d, m)
  {
    RunKeepsVerdict(worlds, steps, d, m);
  }

  /** At step `i` a worker commits an operation that names the decision, which takes the operation's side. */
  ghost predicate DecidedBy(worlds: seq<World>, steps: seq<Step>, d: nat, i: nat)
    requires i < |steps| && i + 1 < |worlds|
  {
    && steps[i].WorkerCommits? && steps[i].worker in worlds[i].workers
    && var id := worlds[i].workers[steps[i].worker].id;
       && id in worlds[i].db.operations && d in worlds[i].db.operations[id].decisions
       && id in worlds[i + 1].db.operations && worlds[i + 1].db.operations[id].status == Succeeded
       && VerdictAt(worlds, d, i + 1)
          == Some(if worlds[i].db.operations[id].action == Accept then Accepted else Rejected)
  }

  lemma {:induction false} StepDecides(worlds: seq<World>, steps: seq<Step>, d: nat, i: nat)
    requires IsRun(worlds, steps) && i < |steps|
    requires VerdictAt(worlds, d, i) == Some(Pending) && Reviewed(worlds[i + 1].db, d)
    ensures DecidedBy(worlds, steps, d, i) || (steps[i].CatalogChange? && VerdictAt(worlds, d, i + 1) == Some(Rejected))
  {
    match steps[i]
    case WorkerCommits(worker, merge) =>
      var w := worlds[i];
      var id := w.workers[worker].id;
      assert Commit(w.db, id, merge).Some?;
      CommitMovesAllOrNone(w.db, id, merge);
      CommitStoresAction(w.db, id, merge, d);
    case _ =>
  }

  /**
   The first verdict of a decision that stays in the tables is the side of an operation that names it,
   as that operation commits, or a rejection by an import.
   */
  lemma {:induction false} FirstVerdict(worlds: seq<World>, steps: seq<Step>, d: nat, k: nat, m: nat) returns (i: nat)
    requires IsRun(worlds, steps) && k <= m < |worlds| && StoredThroughout(worlds, d, k, m)
    requires VerdictAt(worlds, d, k) == Some(Pending) && Reviewed(worlds[m].db, d)
    ensures k <= i < m && VerdictAt(worlds, d, i) == Some(Pending) && Reviewed(worlds[i + 1].db, d)
    ensures DecidedBy(worlds, steps, d, i) || (steps[i].CatalogChange? && VerdictAt(worlds, d, i + 1) == Some(Rejected))
    decreases m
  {
    assert d in worlds[m - 1].db.decisions;
    if Reviewed(worlds[m - 1].db, d) {
      i := FirstVerdict(worlds, steps, d, k, m - 1);
    } else {
      i := m - 1;
      StepDecides(worlds, steps, d, i);
    }
  }

  /** A decision is only ever accepted by the commit of an accepting operation that names it. */
  lemma {:induction false} AcceptedByOperation(worlds: seq<World>, steps: seq<Step>, d: nat, k: nat,
                                               m: nat) returns (i: nat)
    requires IsRun(worlds, steps) && k <= m < |worlds| && StoredThroughout(worlds, d, k, m)
    requires VerdictAt(worlds, d, k) == Some(Pending) && VerdictAt(worlds, d, m) == Some(Accepted)
    ensures k <= i < m && DecidedBy(worlds, steps, d, i)
    ensures worlds[i].db.operations[worlds[i].workers[steps[i].worker].id].action == Accept
  {
    i := FirstVerdict(worlds, steps, d, k, m);
    ReviewedVerdictsAreFinal(worlds, steps, d, i + 1, m);
  }

  // ---------------------------------------------------------------- submission

  lemma {:induction false} FindSkipsNonMatching(operations: map<nat, Operation>, limit: nat,
                                                action: Action, decisions: set<nat>, series: set<nat>)
    ensures match FindEquivalent(operations, limit, action, decisions, series)
      case Some(id) =>
        && id < limit && id in operations && Matches(operations[id], action, decisions, series)
        && forall x :: id < x < limit && x in operations ==> !Matches(operations[x], action, decisions, series)
      case None => forall x :: 0 <= x < limit && x in operations ==> !Matches(operations[x], action, decisions, series)
  {
    if limit > 0 {
      FindSkipsNonMatching(operations, limit - 1, action, decisions, series);
    }
  }

  /**
   A repeated submission changes nothing and returns the first one's operation; a created
   operation found every requested series free and existing, and now holds exactly those.
   */
  lemma {:induction false} SubmissionReserves(db: Database, action: Action, decisions: set<nat>, series: set<nat>)
    requires Consistent(db)
    ensures var (after, result) := Enqueue(db, action, decisions, series);
      && (result.Created? ==>
           && result.id !in db.operations && after.operations[result.id].status == Queued
           && series <= db.alive && (forall s :: s in series ==> s !in db.reservations)
           && (forall s :: Holds(after, result.id, s) <==> s in series)
           && Enqueue(after, action, decisions, series) == (after, Existing(result.id)))
      && (!result.Created? ==> after == db)
      && (result.Conflict? ==> exists s :: s in series && s in db.reservations)
      && (result.Existing? ==>
           result.id in db.operations && Matches(db.operations[result.id], action, decisions, series))
  {
    FindSkipsNonMatching(db.operations, db.nextOperation, action, decisions, series);
    assert OperationOk(db, db.nextOperation);
    forall s | s in db.reservations ensures db.reservations[s] != db.nextOperation {
      assert ReservationOk(db, s);
    }
  }

  /** An operation that is still to run or running, for the same action, decisions and series. */
  ghost predicate SameRequest(db: Database, id: nat, action: Action, decisions: set<nat>, series: set<nat>) {
    && id in db.operations && db.operations[id].status in {Queued, Running}
    && db.operations[id].action == action && db.operations[id].decisions == decisions
    && db.operations[id].series == series
  }

  /** A submission is answered with an operation that is there exactly if one asks for the same, and then the newest. */
  lemma {:induction false} SubmissionReusesExactlyWhen(db: Database, action: Action, decisions: set<nat>,
                                                       series: set<nat>)
    requires Consistent(db)
    ensures var result := Enqueue(db, action, decisions, series).1;
      && (result.Existing? <==> exists id: nat :: SameRequest(db, id, action, decisions, series))
      && (result.Existing? ==>
           && SameRequest(db, result.id, action, decisions, series)
           && forall id: nat :: SameRequest(db, id, action, decisions, series) ==> id <= result.id)
      && (result.Created? ==>
           && SameRequest(Enqueue(db, action, decisions, series).0, result.id, action, decisions, series)
           && !Orphaned(Enqueue(db, action, decisions, series).0, result.id))
  {
    FindSkipsNonMatching(db.operations, db.nextOperation, action, decisions, series);
    forall id: nat ensures SameRequest(db, id, action, decisions, series) <==>
      id in db.operations && Matches(db.operations[id], action, decisions, series)
    {
    }
    forall id: nat | id in db.operations ensures id < db.nextOperation {
      assert OperationOk(db, id);
    }
  }
}
