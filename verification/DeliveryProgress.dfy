/** No destination queue gets stuck, and without new match output the work runs out. */
module DeliveryProgress {
  import opened Records
  import opened DeliverySpec
  import opened RowTable
  import opened RowSteps
  import opened LaneOutcome
  import opened DeliveryRuns
  import opened DeliveryInvariant
  import opened DeliveryTheorems

  // ---- heads ----

  function Entries(s: Store, d: nat): set<Slot> {
    set e | e in s.queue && e.destination == d
  }

  lemma {:induction false} LeastEntry(es: set<Slot>, d: nat) returns (least: Slot)
    requires es != {} && forall e :: e in es ==> e.destination == d
    ensures least in es && forall e :: e in es ==> e.destination == d && !SlotLess(e, least)
    decreases |es|
  {
    var e :| e in es;
    if es == {e} {
      least := e;
    } else {
      var rest := LeastEntry(es - {e}, d);
      least := if SlotLess(e, rest) then e else rest;
    }
  }

  /** In every reachable state the head of a queue can go on: it is an unprogressed row of a pending
      batch, or a live retry that the retry worker accepts as the head of its destination. */
  lemma HeadCanProceed(y: Sys, e: Slot)
    requires Inv(y) && IsHead(y.store, e)
    ensures Unprogressed(y.store, RowId(e.batch, e.row)) || exists r :: IsRetryHead(y.store, r) && SlotOf(r) == e
  {
    var s, t, id := y.store, y.table, RowId(e.batch, e.row);
    AgreesParts(s, t);
    assert id in t.status && !t.status[id].Done? && IsRow(t, id) && e.destination == Destination(t, id);
    assert RetryImage(s, Live(t));
    hide Agrees, Inv, QueueAgrees;
    if t.status[id].Fresh? {
      UnprogressedIsFresh(s, t, id);
    } else {
      WaitingHead(s, t, e);
      assert IsRetryHead(s, t.status[id].retry) && SlotOf(t.status[id].retry) == e;
    }
  }

  lemma WaitingHead(s: Store, t: Table, e: Slot)
    requires WellFormed(t) && QueueAgrees(s, t) && RetryImage(s, Live(t)) && IsHead(s, e)
    requires RowId(e.batch, e.row) in t.status && t.status[RowId(e.batch, e.row)].Waiting?
    requires IsRow(t, RowId(e.batch, e.row)) && e.destination == Destination(t, RowId(e.batch, e.row))
    ensures var r := t.status[RowId(e.batch, e.row)].retry; IsRetryHead(s, r) && SlotOf(r) == e
  {
    var r := t.status[RowId(e.batch, e.row)].retry;
    assert StatusFits(t, RowId(e.batch, e.row), Waiting(r)) && r in Live(t);
    assert Current(s, r) && DestinationKeyOf(r) in s.byDestination;
    hide WellFormed, QueueAgrees, Live, RetriesImage, BatchImage, StatusFits, RetryOf;
    forall k | k in s.byDestination && k.destination == r.destination
      ensures !KeyLess(k, DestinationKeyOf(r))
    {
      var x :| x in Live(t) && DestinationKeyOf(x) == k;
      NoEarlierRetry(s, t, r, x);
    }
  }

  /** The retries the worker accepts as heads are those of waiting rows with only terminal rows before them. */
  lemma RetryHeadMeans(y: Sys, r: Retry)
    requires Inv(y)
    ensures IsRetryHead(y.store, r) <==>
      IdOf(r) in y.table.status && y.table.status[IdOf(r)] == Waiting(r) && EarlierDone(y.table, IdOf(r))
  {
    AgreesParts(y.store, y.table);
    hide Inv, Fifo, Uniform, LanesOk, HoldsOk, AttemptsOk, Agrees, WellFormed, QueueAgrees, RetryImage, IsRetryHead, EarlierDone;
    if IsRetryHead(y.store, r) {
      RetryHeadIsReady(y.store, y.table, r);
    }
    if IdOf(r) in y.table.status && y.table.status[IdOf(r)] == Waiting(r) && EarlierDone(y.table, IdOf(r)) {
      WaitingIsHead(y.store, y.table, r);
    }
  }

  lemma WaitingIsHead(s: Store, t: Table, r: Retry)
    requires WellFormed(t) && QueueAgrees(s, t) && RetryImage(s, Live(t))
    requires IdOf(r) in t.status && t.status[IdOf(r)] == Waiting(r) && EarlierDone(t, IdOf(r))
    ensures IsRetryHead(s, r)
  {
    assert StatusFits(t, IdOf(r), Waiting(r));
    hide WellFormed, QueueAgrees, RetryImage, IsRetryHead, EarlierDone;
    HeadMeansEarlierDone(s, t, SlotOf(r));
    WaitingHead(s, t, SlotOf(r));
  }

  lemma NoEarlierRetry(s: Store, t: Table, r: Retry, x: Retry)
    requires WellFormed(t) && QueueAgrees(s, t) && IsHead(s, SlotOf(r))
    requires r in Live(t) && x in Live(t) && x.destination == r.destination
    ensures !KeyLess(DestinationKeyOf(x), DestinationKeyOf(r))
  {
    RetryIsQueued(s, t, x);
    if IdOf(x) == IdOf(r) {
      SameRowSameRetry(t, x, r);
    }
    assert !SlotLess(SlotOf(x), SlotOf(r));
    hide WellFormed, QueueAgrees, Live, IsHead;
  }

  lemma RetryIsQueued(s: Store, t: Table, x: Retry)
    requires WellFormed(t) && QueueAgrees(s, t) && x in Live(t)
    ensures SlotOf(x) in s.queue
  {
    LiveIsWaiting(t, x);
    assert StatusFits(t, IdOf(x), t.status[IdOf(x)]);
  }

  lemma SameRowSameRetry(t: Table, a: Retry, b: Retry)
    requires WellFormed(t) && a in Live(t) && b in Live(t) && IdOf(a) == IdOf(b)
    ensures a == b
  {
    LiveIsWaiting(t, a);
    LiveIsWaiting(t, b);
  }

  /** Every destination with rows that are not terminal has such a head. */
  lemma NoStuckQueue(y: Sys, id: RowId)
    requires Inv(y) && id in y.table.status && !y.table.status[id].Done?
    ensures IsRow(y.table, id)
    ensures exists e: Slot :: e.destination == Destination(y.table, id) && IsHead(y.store, e)
  {
    RowConservation(y, id);
    var d := Destination(y.table, id);
    assert Slot(d, id.batch, id.row) in Entries(y.store, d);
    var e := LeastEntry(Entries(y.store, d), d);
    assert IsHead(y.store, e) by {
      forall other | other in y.store.queue && other.destination == e.destination
        ensures !SlotLess(other, e)
      {
        assert other in Entries(y.store, d);
      }
    }
  }

  // ---- work left ----

  /** An upper bound on the commits a row still needs. */
  function Weight(x: Status): nat {
    match x
    case Fresh => 14
    case Waiting(r) => if r.attempts <= MAX_RETRY_ATTEMPTS then 13 - r.attempts else 0
    case Done(_) => 0
  }

  ghost function WorkOf(m: map<RowId, Status>, ids: set<RowId>): nat
    requires ids <= m.Keys
    decreases |ids|
  {
    if ids == {} then 0
    else
      var id :| id in ids;
      Weight(m[id]) + WorkOf(m, ids - {id})
  }

  ghost function Work(t: Table): nat {
    WorkOf(t.status, t.status.Keys)
  }

  lemma {:induction false} WorkSplits(m: map<RowId, Status>, ids: set<RowId>, id: RowId)
    requires ids <= m.Keys && id in ids
    ensures WorkOf(m, ids) == Weight(m[id]) + WorkOf(m, ids - {id})
    decreases |ids|
  {
    var pick :| pick in ids && WorkOf(m, ids) == Weight(m[pick]) + WorkOf(m, ids - {pick});
    if pick != id {
      WorkSplits(m, ids - {pick}, id);
      WorkSplits(m, ids - {id}, pick);
      assert ids - {pick} - {id} == ids - {id} - {pick};
    }
  }

  lemma {:induction false} WorkShrinks(m: map<RowId, Status>, m': map<RowId, Status>, ids: set<RowId>)
    requires ids <= m.Keys && ids <= m'.Keys
    requires forall id :: id in ids ==> Weight(m'[id]) <= Weight(m[id])
    ensures WorkOf(m', ids) <= WorkOf(m, ids)
    ensures (exists id :: id in ids && Weight(m'[id]) < Weight(m[id])) ==> WorkOf(m', ids) < WorkOf(m, ids)
    decreases |ids|
  {
    if ids != {} {
      var id: RowId;
      if less :| less in ids && Weight(m'[less]) < Weight(m[less]) {
        id := less;
      } else {
        id :| id in ids;
      }
      WorkSplits(m, ids, id);
      WorkSplits(m', ids, id);
      WorkShrinks(m, m', ids - {id});
    }
  }

  lemma {:induction false} NoWorkMeansDone(m: map<RowId, Status>, ids: set<RowId>)
    requires ids <= m.Keys
    requires forall id :: id in ids && m[id].Waiting? ==> m[id].retry.attempts <= MAX_RETRY_ATTEMPTS
    ensures WorkOf(m, ids) == 0 <==> forall id :: id in ids ==> m[id].Done?
    decreases |ids|
  {
    if ids != {} {
      var id :| id in ids;
      WorkSplits(m, ids, id);
      NoWorkMeansDone(m, ids - {id});
      assert forall x :: x in ids ==> x == id || x in ids - {id};
    }
  }

  lemma PlannedRowWeighsLess(batch: Batch, i: nat, blocked: bool, result: SendResult, x: Status)
    requires PlanRow(batch, i, blocked, result, x)
    ensures Weight(x) < Weight(Fresh)
  {
  }

  lemma LaneRowsWork(t: Table, t': Table, b: nat, rows: seq<nat>)
    requires rows != [] && t'.status.Keys == t.status.Keys
    requires forall i :: i in rows ==> RowId(b, i) in t.status && Weight(t'.status[RowId(b, i)]) < Weight(t.status[RowId(b, i)])
    requires forall id :: id in t.status && !(id.batch == b && id.row in rows) ==> t'.status[id] == t.status[id]
    ensures Work(t') < Work(t)
  {
    hide Weight;
    assert rows[0] in rows;
    forall id | id in t.status
      ensures Weight(t'.status[id]) <= Weight(t.status[id])
    {
      assert id == RowId(id.batch, id.row);
    }
    WorkShrinks(t.status, t'.status, t.status.Keys);
  }

  lemma LaneTableWorks(t: Table, b: nat, d: nat, rows: seq<nat>, head: bool, results: seq<SendResult>, statuses: seq<Status>)
    requires b in t.batches && IsLane(t, b, d, rows)
    requires Plan(t.batches[b], rows, head, results, statuses) && AllName(t.batches[b], rows, statuses)
    ensures Work(LaneTable(t, b, LaneOf(t.batches[b], rows, statuses))) < Work(t)
  {
    assert forall i :: i in rows ==> FreshFor(t, b, d, i);
    AscendingIsDistinct(rows);
    LaneStatuses(t, b, rows, statuses);
    var t' := LaneTable(t, b, LaneOf(t.batches[b], rows, statuses));
    hide LaneTable, LaneOf, AllName, Distinct, Weight, Work, PlanRow;
    forall i | i in rows
      ensures RowId(b, i) in t.status && Weight(t'.status[RowId(b, i)]) < Weight(t.status[RowId(b, i)])
    {
      var j :| 0 <= j < |rows| && rows[j] == i;
      assert FreshFor(t, b, d, i);
      PlannedRowWeighsLess(t.batches[b], i, Blocked(head, results, j), results[j], statuses[j]);
    }
    LaneRowsWork(t, t', b, rows);
  }

  lemma LaneWorks(y: Sys, d: nat, results: seq<SendResult>, statuses: seq<Status>, now: int)
    requires Inv(y) && CanCommitLane(y, d, results, statuses)
    ensures Work(LaneStep(y, d, results, statuses, now).table) < Work(y.table)
  {
    var h, t := y.holds[d], y.table;
    assert HoldOk(y, d, h);
    PlanNames(t.batches[h.batch], h.rows, h.head, results, statuses);
    hide Inv, LaneTable, LaneOf, AllName, Plan, IsLane, Work;
    LaneTableWorks(t, h.batch, d, h.rows, h.head, results, statuses);
  }

  lemma RetryWeighsLess(r: Retry, result: SendResult, next: Retry, letter: Letter, now: int)
    requires r.attempts <= MAX_RETRY_ATTEMPTS
    requires Reattempt(r, result, now) ==> next.attempts == r.attempts + 1
    ensures Weight(RetryStatus(r, result, next, letter, now)) < Weight(Waiting(r))
  {
  }

  lemma OneRowWorks(t: Table, id: RowId, x: Status)
    requires id in t.status && Weight(x) < Weight(t.status[id])
    ensures Work(SetStatus(t, id, x)) < Work(t)
  {
    var t' := SetStatus(t, id, x);
    assert t'.status.Keys == t.status.Keys;
    hide Weight;
    WorkShrinks(t.status, t'.status, t.status.Keys);
  }

  lemma RetryWorks(y: Sys, d: nat, result: SendResult, next: Retry, letter: Letter, now: int)
    requires Inv(y) && CanCommitRetry(y, d, result, next, letter, now)
    ensures Work(RetryStep(y, d, result, next, letter, now).table) < Work(y.table)
  {
    var r := y.holds[d].retry;
    HeldRetryIsReady(y, d);
    assert AttemptOk(y.table.status[IdOf(r)], Count(y.failures, IdOf(r)));
    RetryStepFrame(y, d, result, next, letter, now);
    RetryWeighsLess(r, result, next, letter, now);
    hide Inv, CanCommitRetry, RetryStep, RetryStatus, Weight, Work, SetStatus;
    OneRowWorks(y.table, IdOf(r), RetryStatus(r, result, next, letter, now));
  }

  predicate Commits(step: Step) {
    step.CommitLane? || step.CommitRetry?
  }

  function CommitCount(steps: seq<Step>): nat {
    if steps == [] then 0 else CommitCount(steps[..|steps| - 1]) + if Commits(steps[|steps| - 1]) then 1 else 0
  }

  lemma StepWorks(y: Sys, step: Step)
    requires Inv(y) && Enabled(y, step) && !step.CommitMatch?
    ensures Work(Apply(y, step).table) + (if Commits(step) then 1 else 0) <= Work(y.table)
  {
    hide Inv, CanStart, CanLockLane, CanEnd, CanLockRetry, CanCommitLane, CanCommitRetry, LaneStep, RetryStep, Work;
    match step {
      case CommitLane(d, results, statuses, now) => LaneWorks(y, d, results, statuses, now);
      case CommitRetry(d, result, next, letter, now) => RetryWorks(y, d, result, next, letter, now);
      case _ =>
    }
  }

  /** Between two match commits at most `Work` lanes and retries commit, however steps interleave and
      however often the process crashes; when no work is left every row is terminal. */
  lemma {:induction false} WorkBoundsCommits(ys: seq<Sys>, steps: seq<Step>)
    requires Run(ys, steps) && Inv(ys[0]) && forall i :: 0 <= i < |steps| ==> !steps[i].CommitMatch?
    ensures Inv(ys[|steps|])
    ensures Work(ys[|steps|].table) + CommitCount(steps) <= Work(ys[0].table)
    ensures Work(ys[|steps|].table) == 0 <==> forall id :: id in ys[|steps|].table.status ==> ys[|steps|].table.status[id].Done?
    decreases |steps|
  {
    hide Inv, Enabled, Apply, Work;
    var n := |steps|;
    if n > 0 {
      RunPrefix(ys, steps);
      WorkBoundsCommits(ys[..n], steps[..n - 1]);
      StepKeepsInv(ys[n - 1], steps[n - 1]);
      StepWorks(ys[n - 1], steps[n - 1]);
    }
    NoWorkLeft(ys[n]);
  }

  lemma RunPrefix(ys: seq<Sys>, steps: seq<Step>)
    requires Run(ys, steps) && steps != []
    ensures Run(ys[..|steps|], steps[..|steps| - 1])
  {
    hide Enabled, Apply;
    var before, rest := ys[..|steps|], steps[..|steps| - 1];
    forall i | 0 <= i < |rest|
      ensures Enabled(before[i], rest[i]) && before[i + 1] == Apply(before[i], rest[i])
    {
      assert rest[i] == steps[i] && before[i] == ys[i] && before[i + 1] == ys[i + 1];
    }
  }

  lemma NoWorkLeft(y: Sys)
    requires Inv(y)
    ensures Work(y.table) == 0 <==> forall id :: id in y.table.status ==> y.table.status[id].Done?
  {
    assert forall id :: id in y.table.status ==> AttemptOk(y.table.status[id], Count(y.failures, id));
    hide Inv;
    NoWorkMeansDone(y.table.status, y.table.status.Keys);
  }
}
