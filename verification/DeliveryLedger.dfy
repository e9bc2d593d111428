/**
 The delivery ledger over whole runs. A guard reads it before a send, under the lock of the destination.
 Its entry for an incident, category and destination names the last revision delivered there, until
 retention takes it out, so a revision goes out again only after another one of the same incident did or
 the entry was taken out.
 */
module DeliveryLedger {
  import opened Records
  import opened DeliverySpec
  import opened RowTable
  import opened RowSteps
  import opened LaneOutcome
  import opened DeliveryRuns
  import opened DeliveryInvariant
  import opened DeliveryTheorems
  import DeliveryGuards
  import Registry

  ghost predicate IsDelivered(t: Table, id: RowId) {
    id in t.status && t.status[id] == Done(Delivered)
  }

  /** The ledger entry a delivery of the row writes. */
  predicate Under(t: Table, id: RowId, key: LedgerKey) {
    IsRow(t, id) && LedgerKeyOf(t.batches[id.batch], Destination(t, id)) == key
  }

  type Ledger = map<LedgerKey, Stored>

  predicate Stands(m: Ledger, key: LedgerKey, revision: nat) {
    key in m && m[key].revision == revision
  }

  predicate SameEntry(m: Ledger, m': Ledger, key: LedgerKey) {
    (key in m <==> key in m') && (key in m ==> m[key] == m'[key])
  }

  ghost predicate NewlyDelivered(t: Table, t': Table, id: RowId) {
    IsDelivered(t', id) && !IsDelivered(t, id)
  }

  /** A delivered row leaves its entry. */
  ghost predicate DeliveriesRecorded(t: Table, t': Table, m': Ledger) {
    forall id :: NewlyDelivered(t, t', id) ==>
      IsRow(t, id) && Stands(m', LedgerKeyOf(t.batches[id.batch], Destination(t, id)), t.batches[id.batch].revision)
  }

  /** An entry changes only with a delivery under it. */
  ghost predicate EntriesDelivered(t: Table, m: Ledger, t': Table, m': Ledger) {
    forall key :: SameEntry(m, m', key) || exists id :: NewlyDelivered(t, t', id) && Under(t, id, key)
  }

  /** Deliveries and ledger writes are the same thing. */
  ghost predicate LedgerFollows(t: Table, m: Ledger, t': Table, m': Ledger) {
    DeliveriesRecorded(t, t', m') && EntriesDelivered(t, m, t', m')
  }

  // ---- one step ----

  /** Every success of a lane is a row whose planned status is delivered. */
  lemma {:induction false} SuccessIsPlanned(batch: Batch, rows: seq<nat>, statuses: seq<Status>, x: Success) returns (j: nat)
    requires AllName(batch, rows, statuses) && x in LaneOf(batch, rows, statuses).successes
    ensures j < |rows| && statuses[j] == Done(Delivered) && x == Success(rows[j], batch.rows[rows[j]])
  {
    var n := |rows| - 1;
    assert Names(batch, rows[n], statuses[n]);
    assert AllName(batch, rows[..n], statuses[..n]);
    if x in LaneOf(batch, rows[..n], statuses[..n]).successes {
      j := SuccessIsPlanned(batch, rows[..n], statuses[..n], x);
    } else {
      j := n;
    }
  }

  /** A step that delivers rows of one batch and destination and writes their entry, or does neither. */
  lemma OneEntry(t: Table, m: Ledger, t': Table, m': Ledger, b: nat, d: nat, v: Stored, some: Option<RowId>)
    requires b in t.batches && v.revision == t.batches[b].revision
    requires forall id :: NewlyDelivered(t, t', id) ==> some.Some? && IsRow(t, id) && id.batch == b && Destination(t, id) == d
    requires some.Some? ==> NewlyDelivered(t, t', some.value) && Under(t, some.value, LedgerKeyOf(t.batches[b], d))
    requires m' == if some.Some? then m[LedgerKeyOf(t.batches[b], d) := v] else m
    ensures LedgerFollows(t, m, t', m')
  {
    hide NewlyDelivered;
  }

  lemma LaneFollows(y: Sys, d: nat, results: seq<SendResult>, statuses: seq<Status>, now: int)
    requires Inv(y) && CanCommitLane(y, d, results, statuses)
    ensures LedgerFollows(y.table, y.store.ledger, LaneStep(y, d, results, statuses, now).table, LaneStep(y, d, results, statuses, now).store.ledger)
  {
    var h := y.holds[d];
    var b, rows := h.batch, h.rows;
    hide WellFormed, Agrees, Fifo, Uniform, LanesOk, AttemptsOk, LaneOf, Plan, FreshRetries, FreshLetters, AddFailures, FailedRows, EarlierDone, LedgerFollows, LaneCommit, LaneTable, LaneAccepted;
    PlanNames(y.table.batches[b], rows, h.head, results, statuses);
    assert HoldOk(y, d, h);
    assert IsLane(y.table, b, d, rows);
    LaneIsAccepted(y, b, d, rows, statuses);
    LaneLedger(y, b, d, rows, statuses, now);
  }

  lemma LaneLedger(y: Sys, b: nat, d: nat, rows: seq<nat>, statuses: seq<Status>, now: int)
    requires LaneReady(y, b, d, rows, statuses) && LaneAccepted(y.store, b, LaneOf(y.table.batches[b], rows, statuses))
    ensures var lane := LaneOf(y.table.batches[b], rows, statuses);
      LedgerFollows(y.table, y.store.ledger, LaneTable(y.table, b, lane), LaneCommit(y.store, b, lane, now).ledger)
  {
    var batch := y.table.batches[b];
    var lane := LaneOf(batch, rows, statuses);
    LaneIsPending(y, b, d, rows, statuses);
    DeliveryGuards.LaneWritesOneDelivery(y.store, b, lane, now);
    LaneRowsAreRows(y.table, b, d, rows);
    hide LaneAccepted, LaneCommit, LaneTable, LaneOf, WellFormed, Agrees, IsLane, Ascending, Distinct, AllName, LedgerFollows, Under, NewlyDelivered, IsRow, Destination;
    LaneDeliveries(y.table, b, d, rows, statuses);
    var t' := LaneTable(y.table, b, lane);
    if lane.successes == [] {
      OneEntry(y.table, y.store.ledger, t', y.store.ledger, b, d, Stored(now, batch.revision, batch.rows[rows[0]]), None);
    } else {
      var last := lane.successes[|lane.successes| - 1];
      var j := SuccessIsPlanned(batch, rows, statuses, last);
      assert rows[j] in rows;
      OneEntry(y.table, y.store.ledger, t', LaneCommit(y.store, b, lane, now).ledger, b, d, Stored(now, batch.revision, last.row), Some(RowId(b, rows[j])));
    }
  }

  lemma LaneRowsAreRows(t: Table, b: nat, d: nat, rows: seq<nat>)
    requires b in t.batches && IsLane(t, b, d, rows)
    ensures rows != [] && rows[0] in rows && Distinct(rows)
    ensures forall i :: i in rows ==> RowId(b, i) in t.status && t.status[RowId(b, i)].Fresh? && IsRow(t, RowId(b, i)) && Destination(t, RowId(b, i)) == d
    ensures forall i :: i in rows ==> Under(t, RowId(b, i), LedgerKeyOf(t.batches[b], d))
  {
    forall i | i in rows
      ensures FreshFor(t, b, d, i)
    {
    }
    AscendingIsDistinct(rows);
  }

  /** The rows a lane delivers are those whose planned status says so. */
  lemma LaneDeliveries(t: Table, b: nat, d: nat, rows: seq<nat>, statuses: seq<Status>)
    requires b in t.batches && AllName(t.batches[b], rows, statuses) && Distinct(rows)
    requires forall i :: i in rows ==> RowId(b, i) in t.status && t.status[RowId(b, i)].Fresh? && IsRow(t, RowId(b, i)) && Destination(t, RowId(b, i)) == d
    ensures var lane := LaneOf(t.batches[b], rows, statuses);
      && (forall j :: 0 <= j < |rows| && statuses[j] == Done(Delivered) ==> NewlyDelivered(t, LaneTable(t, b, lane), RowId(b, rows[j])))
      && (forall id :: NewlyDelivered(t, LaneTable(t, b, lane), id) ==>
            lane.successes != [] && IsRow(t, id) && id.batch == b && Destination(t, id) == d)
  {
    LaneStatuses(t, b, rows, statuses);
    hide LaneTable, LaneOf, Distinct, AllName;
    var t' := LaneTable(t, b, LaneOf(t.batches[b], rows, statuses));
    forall j | 0 <= j < |rows| && statuses[j] == Done(Delivered)
      ensures NewlyDelivered(t, t', RowId(b, rows[j]))
    {
      assert rows[j] in rows;
    }
    forall id | NewlyDelivered(t, t', id)
      ensures LaneOf(t.batches[b], rows, statuses).successes != [] && IsRow(t, id) && id.batch == b && Destination(t, id) == d
    {
      assert id == RowId(b, id.row) && id.row in rows;
      var j :| 0 <= j < |rows| && rows[j] == id.row;
      PlannedIsSuccess(t.batches[b], rows, statuses, j);
    }
  }

  lemma PlannedIsSuccess(batch: Batch, rows: seq<nat>, statuses: seq<Status>, j: nat)
    requires AllName(batch, rows, statuses) && j < |rows| && statuses[j] == Done(Delivered)
    ensures LaneOf(batch, rows, statuses).successes != []
  {
    LaneOfRecords(batch, rows, statuses, j);
    assert Names(batch, rows[j], statuses[j]);
    hide LaneOf;
  }

  lemma RetryFollows(y: Sys, d: nat, result: SendResult, next: Retry, letter: Letter, now: int)
    requires Inv(y) && CanCommitRetry(y, d, result, next, letter, now)
    ensures LedgerFollows(y.table, y.store.ledger, RetryStep(y, d, result, next, letter, now).table, RetryStep(y, d, result, next, letter, now).store.ledger)
  {
    HeldRetryIsReady(y, d);
    hide Inv, LedgerFollows, RetryStep, SuccessAccepted, Reattempt, RetryStatus, SetStatus, WellFormed, Agrees, Current, FindBatch;
    RetryWritesOneDelivery(y, d, result, next, letter, now);
    RetryStepFrame(y, d, result, next, letter, now);
    RetryEntry(y.table, y.store.ledger, y.holds[d].retry, result, next, letter, now);
  }

  lemma RetryEntry(t: Table, m: Ledger, r: Retry, result: SendResult, next: Retry, letter: Letter, now: int)
    requires IdOf(r) in t.status && t.status[IdOf(r)].Waiting? && IsRow(t, IdOf(r)) && Destination(t, IdOf(r)) == r.destination
    ensures var b := t.batches[r.batch];
      LedgerFollows(t, m, SetStatus(t, IdOf(r), RetryStatus(r, result, next, letter, now)),
                    if result.Sent? then m[LedgerKeyOf(b, r.destination) := Stored(now, b.revision, b.rows[r.row])] else m)
  {
    hide LedgerFollows;
    var b, x := t.batches[r.batch], RetryStatus(r, result, next, letter, now);
    var v := Stored(now, b.revision, b.rows[r.row]);
    SetElsewhere(t, IdOf(r), x);
    OneEntry(t, m, SetStatus(t, IdOf(r), x), if result.Sent? then m[LedgerKeyOf(b, r.destination) := v] else m, r.batch, r.destination, v,
             if result.Sent? then Some(IdOf(r)) else None);
  }

  lemma RetryWritesOneDelivery(y: Sys, d: nat, result: SendResult, next: Retry, letter: Letter, now: int)
    requires CanCommitRetry(y, d, result, next, letter, now) && RetryReady(y, y.holds[d].retry) && y.holds[d].retry.destination == d
    requires SuccessAccepted(y.store, y.holds[d].retry, SuccessOf(y, y.holds[d].retry, result))
    ensures var r, b := y.holds[d].retry, y.table.batches[y.holds[d].retry.batch];
      RetryStep(y, d, result, next, letter, now).store.ledger ==
        if result.Sent? then y.store.ledger[LedgerKeyOf(b, d) := Stored(now, b.revision, b.rows[r.row])] else y.store.ledger
  {
    hide WellFormed, Agrees, Current, SetStatus;
  }

  lemma {:induction false} AddBatchesKeepsLedger(s: Store, batches: seq<Batch>)
    ensures AddBatches(s, batches).ledger == s.ledger
  {
    if batches != [] {
      AddBatchesKeepsLedger(s, batches[..|batches| - 1]);
    }
  }

  lemma {:induction false} AddedAreFresh(t: Table, batches: seq<Batch>, id: RowId)
    requires IsDelivered(AddAllToTable(t, batches), id)
    ensures IsDelivered(t, id)
  {
    if batches != [] {
      AddedAreFresh(t, batches[..|batches| - 1], id);
    }
  }

  /** Every step but retention. */
  lemma StepFollows(y: Sys, step: Step)
    requires Inv(y) && Enabled(y, step) && !step.Forget?
    ensures LedgerFollows(y.table, y.store.ledger, Apply(y, step).table, Apply(y, step).store.ledger)
  {
    hide Inv, CanCommitMatch, CanStart, CanLockLane, CanEnd, CanLockRetry, CanCommitLane, CanCommitRetry, CanCrash, LaneStep, RetryStep;
    match step {
      case CommitMatch(batches) =>
        AddBatchesKeepsLedger(y.store, batches);
        forall id | IsDelivered(AddAllToTable(y.table, batches), id)
          ensures IsDelivered(y.table, id)
        {
          AddedAreFresh(y.table, batches, id);
        }
      case CommitLane(d, results, statuses, now) => hide LedgerFollows; LaneFollows(y, d, results, statuses, now);
      case CommitRetry(d, result, next, letter, now) => hide LedgerFollows; RetryFollows(y, d, result, next, letter, now);
      case _ =>
    }
  }

  // ---- a lock keeps the guard's answer ----

  predicate CommitsTo(step: Step, d: nat) {
    (step.CommitLane? || step.CommitRetry?) && step.destination == d
  }

  /** All rows a step delivers are of the batch and destination whose lock it held. */
  lemma DeliversItsOwn(y: Sys, step: Step, id: RowId)
    requires Inv(y) && Enabled(y, step) && NewlyDelivered(y.table, Apply(y, step).table, id)
    ensures IsRow(y.table, id) && CommitsTo(step, Destination(y.table, id))
    ensures Destination(y.table, id) in y.holds
    ensures var h := y.holds[Destination(y.table, id)];
      id.batch == if h.LaneHold? then h.batch else h.retry.batch
  {
    hide Inv, CanCommitMatch, CanStart, CanLockLane, CanEnd, CanLockRetry, CanCrash, LaneStep, RetryStep, Plan, EntriesDelivered, LaneOf, FreshRetries, FreshLetters, Reattempt, LetterMatches;
    if step.Forget? { assert false; }
    StepFollows(y, step);
    match step {
      case CommitMatch(batches) => AddedAreFresh(y.table, batches, id); assert false;
      case CommitLane(d, results, statuses, now) => LaneStepKeeps(y, d, results, statuses, now);
      case CommitRetry(d, result, next, letter, now) => RetryStepKeeps(y, d, result, next, letter, now);
      case _ => assert false;
    }
  }

  /** While a destination is locked no other step records anything a guard reads there, and none but
      retention takes anything out. */
  lemma GuardAnswerStands(y: Sys, step: Step, b: Batch, d: nat)
    requires Inv(y) && Enabled(y, step) && !CommitsTo(step, d)
    ensures DeliveryGuards.Recorded(Apply(y, step).store.ledger, b, d) ==> DeliveryGuards.Recorded(y.store.ledger, b, d)
    ensures !step.Forget? && DeliveryGuards.Recorded(y.store.ledger, b, d) ==> DeliveryGuards.Recorded(Apply(y, step).store.ledger, b, d)
  {
    if !step.Forget? {
      StepFollows(y, step);
      hide Inv, Enabled, Apply, DeliveriesRecorded;
      var t' := Apply(y, step).table;
      var key := LedgerKeyOf(b, d);
      if !SameEntry(y.store.ledger, Apply(y, step).store.ledger, key) {
        var id :| NewlyDelivered(y.table, t', id) && Under(y.table, id, key);
        DeliversItsOwn(y, step, id);
        assert false;
      }
    }
  }

  /** The lock of the destination is held from state l to state i, without a break. */
  ghost predicate LockHeld(ys: seq<Sys>, l: nat, i: nat, d: nat) {
    l <= i < |ys| && forall k :: l <= k <= i ==> d in ys[k].holds
  }

  /** The commit of a destination gives its lock back. */
  lemma CommitUnlocks(y: Sys, step: Step, d: nat)
    requires Enabled(y, step) && CommitsTo(step, d)
    ensures d !in Apply(y, step).holds
  {
    hide LaneTable, LaneCommit, LaneAccepted, Plan, LaneOf, FreshRetries, FreshLetters, AddFailures, FailedRows;
  }

  /** What a guard did not find recorded under the lock is not recorded when the lock's commit comes. */
  lemma {:induction false} GuardAnswerCarries(ys: seq<Sys>, steps: seq<Step>, l: nat, i: nat, b: Batch, d: nat)
    requires Run(ys, steps) && ys[0] == Initial && LockHeld(ys, l, i, d)
    requires !DeliveryGuards.Recorded(ys[l].store.ledger, b, d)
    ensures !DeliveryGuards.Recorded(ys[i].store.ledger, b, d)
  {
    hide Inv, Enabled, Apply, DeliveryGuards.Recorded;
    if l < i {
      GuardAnswerCarries(ys, steps, l, i - 1, b, d);
      RunKeepsInv(ys, steps, i - 1);
      assert d in ys[i].holds && ys[i] == Apply(ys[i - 1], steps[i - 1]);
      if CommitsTo(steps[i - 1], d) {
        CommitUnlocks(ys[i - 1], steps[i - 1], d);
        assert false;
      }
      GuardAnswerStands(ys[i - 1], steps[i - 1], b, d);
    }
  }

  // ---- whole runs ----

  /** A guard looked for the revision of the batch under the lock that is held at state i, and found none. */
  ghost predicate GuardPassed(ys: seq<Sys>, i: nat, b: Batch, d: nat) {
    exists l: nat :: LockHeld(ys, l, i, d) && !DeliveryGuards.Recorded(ys[l].store.ledger, b, d)
  }

  /** The run guards its sends: whatever a step delivers has passed its guard since the lock was taken. */
  ghost predicate GuardedRun(ys: seq<Sys>, steps: seq<Step>) {
    && Run(ys, steps)
    && forall i, id :: 0 <= i < |steps| && NewlyDelivered(ys[i].table, ys[i + 1].table, id) && IsRow(ys[i].table, id) ==>
         GuardPassed(ys, i, ys[i].table.batches[id.batch], Destination(ys[i].table, id))
  }

  /** Step i of the run delivers the row under the key with the revision. */
  ghost predicate Delivers(ys: seq<Sys>, i: nat, id: RowId, key: LedgerKey, revision: nat) {
    && i + 1 < |ys|
    && NewlyDelivered(ys[i].table, ys[i + 1].table, id)
    && Under(ys[i].table, id, key)
    && ys[i].table.batches[id.batch].revision == revision
  }

  ghost predicate OtherBetween(ys: seq<Sys>, i: nat, n: nat, key: LedgerKey, revision: nat) {
    exists k: nat, id, other :: i < k < n && Delivers(ys, k, id, key, other) && other != revision
  }

  ghost predicate OtherDelivered(t: Table, t': Table, key: LedgerKey, revision: nat) {
    exists id :: NewlyDelivered(t, t', id) && Under(t, id, key) && t.batches[id.batch].revision != revision
  }

  /** Retention takes the entry out between the two states. */
  ghost predicate RemovedBetween(steps: seq<Step>, i: nat, n: nat, key: LedgerKey) {
    n <= |steps| && exists k :: i < k < n && steps[k].Forget? && key in steps[k].gone
  }

  /** An entry keeps its revision until another revision is delivered under it. */
  lemma EntryMoves(t: Table, m: Ledger, t': Table, m': Ledger, key: LedgerKey, revision: nat)
    requires LedgerFollows(t, m, t', m') && Stands(m, key, revision)
    ensures Stands(m', key, revision) || OtherDelivered(t, t', key, revision)
  {
    hide NewlyDelivered;
    if !SameEntry(m, m', key) {
      var id :| NewlyDelivered(t, t', id) && Under(t, id, key);
      assert Stands(m', key, t.batches[id.batch].revision);
    }
  }

  lemma EntryWritten(y: Sys, step: Step, id: RowId, key: LedgerKey)
    requires Inv(y) && Enabled(y, step) && NewlyDelivered(y.table, Apply(y, step).table, id) && Under(y.table, id, key)
    ensures Stands(Apply(y, step).store.ledger, key, y.table.batches[id.batch].revision)
  {
    if step.Forget? { assert false; }
    StepFollows(y, step);
    hide Inv, Enabled, Apply, NewlyDelivered, EntriesDelivered;
  }

  lemma {:induction false} EntryStands(ys: seq<Sys>, steps: seq<Step>, i: nat, n: nat, a: RowId, key: LedgerKey, revision: nat)
    requires Run(ys, steps) && ys[0] == Initial && i < n < |ys| && Delivers(ys, i, a, key, revision)
    ensures Stands(ys[n].store.ledger, key, revision) || OtherBetween(ys, i, n, key, revision) || RemovedBetween(steps, i, n, key)
  {
    hide Inv, Enabled, Apply, NewlyDelivered, Under, Stands, LedgerFollows, OtherDelivered, OtherBetween;
    RunKeepsInv(ys, steps, n - 1);
    if i == n - 1 {
      EntryWritten(ys[i], steps[i], a, key);
    } else {
      EntryStands(ys, steps, i, n - 1, a, key, revision);
      if OtherBetween(ys, i, n - 1, key, revision) {
        BetweenGrows(ys, i, n - 1, key, revision);
      } else if !RemovedBetween(steps, i, n - 1, key) {
        EntryStep(ys[n - 1], steps[n - 1], key, revision);
        if OtherDelivered(ys[n - 1].table, ys[n].table, key, revision) {
          OtherIsBetween(ys, i, n - 1, key, revision);
        }
      }
    }
  }

  lemma EntryStep(y: Sys, step: Step, key: LedgerKey, revision: nat)
    requires Inv(y) && Enabled(y, step) && Stands(y.store.ledger, key, revision)
    ensures Stands(Apply(y, step).store.ledger, key, revision) || OtherDelivered(y.table, Apply(y, step).table, key, revision)
      || (step.Forget? && key in step.gone)
  {
    if !step.Forget? {
      StepFollows(y, step);
      hide Inv, Enabled, Apply, LedgerFollows, OtherDelivered;
      EntryMoves(y.table, y.store.ledger, Apply(y, step).table, Apply(y, step).store.ledger, key, revision);
    }
  }

  lemma OtherIsBetween(ys: seq<Sys>, i: nat, n: nat, key: LedgerKey, revision: nat)
    requires i < n && n + 1 < |ys| && OtherDelivered(ys[n].table, ys[n + 1].table, key, revision)
    ensures OtherBetween(ys, i, n + 1, key, revision)
  {
    hide NewlyDelivered;
    var id :| NewlyDelivered(ys[n].table, ys[n + 1].table, id) && Under(ys[n].table, id, key) && ys[n].table.batches[id.batch].revision != revision;
    assert Delivers(ys, n, id, key, ys[n].table.batches[id.batch].revision);
  }

  lemma BetweenGrows(ys: seq<Sys>, i: nat, n: nat, key: LedgerKey, revision: nat)
    requires OtherBetween(ys, i, n, key, revision)
    ensures OtherBetween(ys, i, n + 1, key, revision)
  {
    hide Delivers;
    var k: nat, id, other :| i < k < n && Delivers(ys, k, id, key, other) && other != revision;
  }

  /** From its delivery until another revision of the same incident is delivered there, or retention takes
      the entry out, the guards skip every row of that revision, whether a lane or a retry delivered it. */
  lemma SkippedUntilAnother(ys: seq<Sys>, steps: seq<Step>, i: nat, n: nat, a: RowId, key: LedgerKey, revision: nat,
                            subscriptions: map<nat, Registry.StoredSubscription>, other: Batch, row: Row, category: Category)
    requires Run(ys, steps) && ys[0] == Initial && i < n < |ys| && Delivers(ys, i, a, key, revision)
    requires !OtherBetween(ys, i, n, key, revision) && !RemovedBetween(steps, i, n, key)
    requires LedgerKeyOf(other, row.destination) == key && other.revision == revision
    ensures DeliveryGuards.Guarded(ys[n].store.ledger, subscriptions, other, row, category) == DeliveryGuards.Skipped
  {
    hide OtherBetween, RemovedBetween, Run, Delivers, DeliveryGuards.Fresh;
    EntryStands(ys, steps, i, n, a, key, revision);
  }

  /** A revision is delivered again to a destination only after another revision of the same incident and
      category was delivered there in between, or retention took the entry out. */
  lemma AnotherRevisionBetween(ys: seq<Sys>, steps: seq<Step>, i: nat, j: nat, a: RowId, b: RowId, key: LedgerKey, revision: nat)
    requires GuardedRun(ys, steps) && ys[0] == Initial && i < j < |steps|
    requires Delivers(ys, i, a, key, revision) && Delivers(ys, j, b, key, revision)
    ensures OtherBetween(ys, i, j, key, revision) || RemovedBetween(steps, i, j, key)
  {
    hide OtherBetween, RemovedBetween, Run, NewlyDelivered;
    EntryStands(ys, steps, i, j, a, key, revision);
    var d := Destination(ys[j].table, b);
    var l: nat :| LockHeld(ys, l, j, d) && !DeliveryGuards.Recorded(ys[l].store.ledger, ys[j].table.batches[b.batch], d);
    GuardAnswerCarries(ys, steps, l, j, ys[j].table.batches[b.batch], d);
  }

  /** The rows stand for the same revision of the same incident at the same destination. */
  predicate SameDelivery(t: Table, a: RowId, b: RowId) {
    && IsRow(t, a) && IsRow(t, b)
    && LedgerKeyOf(t.batches[a.batch], Destination(t, a)) == LedgerKeyOf(t.batches[b.batch], Destination(t, b))
    && t.batches[a.batch].revision == t.batches[b.batch].revision
  }

  lemma StepKeepsBatches(y: Sys, step: Step, x: nat)
    requires Inv(y) && Enabled(y, step) && x in y.table.batches
    ensures x in Apply(y, step).table.batches && Apply(y, step).table.batches[x] == y.table.batches[x]
  {
    hide Inv, CanCommitMatch, CanStart, CanLockLane, CanEnd, CanLockRetry, CanCommitLane, CanCommitRetry, CanCrash, MatchStep, LaneStep, RetryStep;
    match step {
      case CommitMatch(batches) => CommitMatchKeeps(y, batches);
      case CommitLane(d, results, statuses, now) => LaneStepKeeps(y, d, results, statuses, now);
      case CommitRetry(d, result, next, letter, now) => RetryStepKeeps(y, d, result, next, letter, now);
      case _ =>
    }
  }

  lemma {:induction false} BatchesStay(ys: seq<Sys>, steps: seq<Step>, i: nat, n: nat, x: nat)
    requires Run(ys, steps) && ys[0] == Initial && i <= n < |ys| && x in ys[i].table.batches
    ensures x in ys[n].table.batches && ys[n].table.batches[x] == ys[i].table.batches[x]
  {
    hide Inv, Enabled, Apply;
    if i < n {
      BatchesStay(ys, steps, i, n - 1, x);
      RunKeepsInv(ys, steps, n - 1);
      StepKeepsBatches(ys[n - 1], steps[n - 1], x);
    }
  }
}
