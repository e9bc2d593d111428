/** Every step of the delivery pipeline keeps the invariant of DeliveryRuns. */
module DeliveryInvariant {
  import opened Records
  import opened DeliverySpec
  import opened RowTable
  import opened RowSteps
  import opened LaneOutcome
  import opened DeliveryRuns

  // ---- what a commit of one destination may change ----

  /** Only rows of this batch and destination change, terminal rows never do, and nothing becomes
      unprogressed again. */
  ghost predicate Changed(t: Table, t': Table, b: nat, d: nat) {
    && t'.batches == t.batches
    && (forall id :: id in t'.status <==> id in t.status)
    && (forall id :: id in t.status && t.status[id].Done? ==> t'.status[id] == t.status[id])
    && (forall id :: id in t.status && t'.status[id].Fresh? ==> t.status[id].Fresh?)
    && (forall id :: id in t.status && IsRow(t, id) && !(id.batch == b && Destination(t, id) == d) ==> t'.status[id] == t.status[id])
  }

  lemma KeepsLane(t: Table, t': Table, b: nat, d: nat, b2: nat, d2: nat, rows: seq<nat>)
    requires Changed(t, t', b, d) && (b2 != b || d2 != d) && IsLane(t, b2, d2, rows)
    ensures IsLane(t', b2, d2, rows)
  {
    forall i
      ensures FreshFor(t', b2, d2, i) <==> FreshFor(t, b2, d2, i)
    {
      var id := RowId(b2, i);
      assert IsRow(t', id) <==> IsRow(t, id);
      if IsRow(t, id) {
        assert Destination(t', id) == Destination(t, id);
      }
    }
    hide FreshFor, Changed, Ascending;
  }

  lemma KeepsEarlier(t: Table, t': Table, b: nat, d: nat, id: RowId)
    requires Changed(t, t', b, d) && EarlierDone(t, id)
    ensures EarlierDone(t', id)
  {
    forall a | a in t'.status && Before(t', a, id)
      ensures t'.status[a].Done?
    {
      assert Before(t, a, id);
    }
  }

  lemma FifoStep(t: Table, t': Table, b: nat, d: nat)
    requires Changed(t, t', b, d) && Fifo(t)
    requires forall x :: x in t'.status && t'.status[x].Done? && !t.status[x].Done? ==> EarlierDone(t', x)
    ensures Fifo(t')
  {
    forall a, x | a in t'.status && x in t'.status && Before(t', a, x) && t'.status[x].Done?
      ensures t'.status[a].Done?
    {
      assert Before(t, a, x);
    }
  }

  lemma KeepsHold(y: Sys, y': Sys, b: nat, d: nat, d2: nat)
    requires Changed(y.table, y'.table, b, d) && d2 != d && d2 in y.holds && HoldOk(y, d2, y.holds[d2])
    requires y'.lanes == y.lanes
    ensures HoldOk(y', d2, y.holds[d2])
  {
    match y.holds[d2] {
      case LaneHold(b2, rows, head) =>
        KeepsLane(y.table, y'.table, b, d, b2, d2, rows);
        if head {
          KeepsEarlier(y.table, y'.table, b, d, RowId(b2, rows[0]));
        }
      case RetryHold(r) =>
        KeepsEarlier(y.table, y'.table, b, d, IdOf(r));
        hide EarlierDone;
    }
  }

  lemma KeepsHolds(y: Sys, y': Sys, b: nat, d: nat)
    requires Changed(y.table, y'.table, b, d) && HoldsOk(y)
    requires y'.lanes == y.lanes && y'.holds == y.holds - {d}
    ensures HoldsOk(y')
  {
    forall d2 | d2 in y'.holds
      ensures HoldOk(y', d2, y'.holds[d2])
    {
      KeepsHold(y, y', b, d, d2);
    }
  }

  lemma KeepsLanes(y: Sys, y': Sys, b: nat, d: nat)
    requires Changed(y.table, y'.table, b, d) && LanesOk(y) && y'.lanes == y.lanes
    requires b in y.lanes ==> d !in y.lanes[b]
    ensures LanesOk(y')
  {
    forall b2, d2 | b2 in y'.lanes && d2 in y'.lanes[b2]
      ensures IsLane(y'.table, b2, d2, y'.lanes[b2][d2])
    {
      assert b2 != b || d2 != d;
      KeepsLane(y.table, y'.table, b, d, b2, d2, y.lanes[b2][d2]);
    }
  }

  lemma UniformStep(t: Table, t': Table, b: nat, d: nat)
    requires Changed(t, t', b, d) && Uniform(t)
    requires (forall i :: !FreshFor(t', b, d, i)) || (forall i :: FreshFor(t', b, d, i) <==> FreshFor(t, b, d, i))
    ensures Uniform(t')
  {
    forall x, i, j | RowId(x, i) in t'.status && RowId(x, j) in t'.status && IsRow(t', RowId(x, i)) && IsRow(t', RowId(x, j))
                     && Destination(t', RowId(x, i)) == Destination(t', RowId(x, j)) && t'.status[RowId(x, i)].Fresh?
      ensures t'.status[RowId(x, j)].Fresh?
    {
      var e := Destination(t, RowId(x, i));
      assert FreshFor(t', x, e, i);
      assert t.status[RowId(x, i)].Fresh?;
      assert t.status[RowId(x, j)].Fresh?;
      if x == b && e == d {
        assert FreshFor(t, b, d, j);
      }
    }
  }

  // ---- committing a lane ----

  ghost predicate LaneReady(y: Sys, b: nat, d: nat, rows: seq<nat>, statuses: seq<Status>) {
    && WellFormed(y.table)
    && Agrees(y.store, y.table)
    && b in y.table.batches
    && IsLane(y.table, b, d, rows)
    && AllName(y.table.batches[b], rows, statuses)
  }

  lemma AscendingIsDistinct(rows: seq<nat>)
    requires Ascending(rows)
    ensures Distinct(rows)
  {
  }

  lemma LaneIsPending(y: Sys, b: nat, d: nat, rows: seq<nat>, statuses: seq<Status>)
    requires LaneReady(y, b, d, rows, statuses)
    ensures b in y.store.pending && y.store.pending[b] == y.table.batches[b] && y.table.batches[b].id == b
    ensures forall i :: i in rows ==> i < |y.table.batches[b].rows| && y.table.batches[b].rows[i].destination == d
    ensures forall i :: i in rows ==> i !in Progress(y.store, b)
  {
    assert rows[0] in rows;
    assert FreshFor(y.table, b, d, rows[0]);
    assert HasFresh(y.table, b);
    assert b in y.store.pending;
    forall i | i in rows
      ensures i !in Progress(y.store, b) && IsRow(y.table, RowId(b, i)) && Destination(y.table, RowId(b, i)) == d
    {
      assert FreshFor(y.table, b, d, i);
      assert i in Progress(y.store, b) <==> RowId(b, i) in y.table.status && !y.table.status[RowId(b, i)].Fresh?;
    }
  }

  /** The checks of the lane commit always pass, so its error branches are unreachable. */
  lemma LaneIsAccepted(y: Sys, b: nat, d: nat, rows: seq<nat>, statuses: seq<Status>)
    requires LaneReady(y, b, d, rows, statuses)
    ensures LaneAccepted(y.store, b, LaneOf(y.table.batches[b], rows, statuses))
  {
    LaneIsPending(y, b, d, rows, statuses);
    AscendingIsDistinct(rows);
    LaneOfFits(y.table.batches[b], rows, statuses);
    LaneOfDistinct(y.table.batches[b], rows, statuses);
    hide WellFormed, Agrees, IsLane, AllName, Distinct, OutcomeRows, LaneOf, Progress;
    var lane := LaneOf(y.table.batches[b], rows, statuses);
    assert forall i :: i in lane.completed <==> i in Elements(lane.completed);
  }

  lemma LaneStatuses(t: Table, b: nat, rows: seq<nat>, statuses: seq<Status>)
    requires b in t.batches && AllName(t.batches[b], rows, statuses) && Distinct(rows)
    requires forall i :: i in rows ==> RowId(b, i) in t.status
    ensures var t' := LaneTable(t, b, LaneOf(t.batches[b], rows, statuses));
      && t'.batches == t.batches
      && (forall id :: id in t'.status <==> id in t.status)
      && (forall j :: 0 <= j < |rows| ==> t'.status[RowId(b, rows[j])] == statuses[j])
      && (forall id :: id in t.status && !(id.batch == b && id.row in rows) ==> t'.status[id] == t.status[id])
  {
    var lane := LaneOf(t.batches[b], rows, statuses);
    LaneOfFits(t.batches[b], rows, statuses);
    LaneTableAt(t, b, lane);
    hide LaneTable, LaneStatus, LaneOf, RecordsFit;
    forall j | 0 <= j < |rows|
      ensures LaneTable(t, b, lane).status[RowId(b, rows[j])] == statuses[j]
    {
      LaneOfStatus(t.batches[b], rows, statuses, j);
      assert rows[j] in rows;
    }
  }

  lemma LaneEndsFresh(t: Table, b: nat, rows: seq<nat>, statuses: seq<Status>)
    requires b in t.batches && AllName(t.batches[b], rows, statuses) && Distinct(rows)
    requires forall i :: i in rows ==> RowId(b, i) in t.status
    ensures forall i :: i in rows ==> !LaneTable(t, b, LaneOf(t.batches[b], rows, statuses)).status[RowId(b, i)].Fresh?
  {
    LaneStatuses(t, b, rows, statuses);
    hide LaneTable, LaneOf;
    forall i | i in rows
      ensures !LaneTable(t, b, LaneOf(t.batches[b], rows, statuses)).status[RowId(b, i)].Fresh?
    {
      var j :| 0 <= j < |rows| && rows[j] == i;
      assert Names(t.batches[b], rows[j], statuses[j]);
    }
  }

  lemma LaneChanges(t: Table, b: nat, d: nat, rows: seq<nat>, statuses: seq<Status>)
    requires b in t.batches && IsLane(t, b, d, rows) && AllName(t.batches[b], rows, statuses)
    ensures var t' := LaneTable(t, b, LaneOf(t.batches[b], rows, statuses));
      Changed(t, t', b, d) && forall i :: !FreshFor(t', b, d, i)
  {
    AscendingIsDistinct(rows);
    assert forall i :: i in rows ==> FreshFor(t, b, d, i);
    LaneStatuses(t, b, rows, statuses);
    LaneEndsFresh(t, b, rows, statuses);
    var t' := LaneTable(t, b, LaneOf(t.batches[b], rows, statuses));
    hide LaneTable, LaneOf, AllName, Distinct, Ascending, Names;
    forall i
      ensures !FreshFor(t', b, d, i)
    {
      if i !in rows {
        assert !FreshFor(t, b, d, i);
        assert RowId(b, i) in t.status ==> t'.status[RowId(b, i)] == t.status[RowId(b, i)];
      }
    }
    forall id | id in t.status && id.batch == b && id.row in rows
      ensures t.status[id].Fresh? && IsRow(t, id) && Destination(t, id) == d && !t'.status[id].Fresh?
    {
      assert id == RowId(b, id.row);
    }
  }

  /** A row the lane makes terminal has only terminal rows before it: the head had none before it, and
      within the lane the terminal outcomes are a prefix. */
  lemma LaneTerminalInOrder(t: Table, t': Table, b: nat, d: nat, rows: seq<nat>, statuses: seq<Status>, j: nat)
    requires IsLane(t, b, d, rows) && Uniform(t) && Changed(t, t', b, d) && |rows| == |statuses|
    requires EarlierDone(t, RowId(b, rows[0])) && j < |rows|
    requires forall k :: 0 <= k <= j ==> RowId(b, rows[k]) in t'.status && t'.status[RowId(b, rows[k])].Done?
    ensures EarlierDone(t', RowId(b, rows[j]))
  {
    assert FreshFor(t, b, d, rows[0]) && FreshFor(t, b, d, rows[j]) by { assert rows[0] in rows && rows[j] in rows; }
    forall a | a in t'.status && Before(t', a, RowId(b, rows[j]))
      ensures t'.status[a].Done?
    {
      if a.batch == b {
        LaneMember(t, b, d, rows, a);
        var k :| 0 <= k < |rows| && rows[k] == a.row;
        assert k < j;
        assert a == RowId(b, rows[k]);
      } else {
        assert Before(t, a, RowId(b, rows[0]));
        assert t.status[a].Done?;
      }
    }
  }

  /** A lane holds every row of its batch and destination, because lanes progress all at once. */
  lemma LaneMember(t: Table, b: nat, d: nat, rows: seq<nat>, a: RowId)
    requires IsLane(t, b, d, rows) && Uniform(t)
    requires a in t.status && a.batch == b && IsRow(t, a) && Destination(t, a) == d
    ensures a.row in rows
  {
    assert rows[0] in rows;
    assert FreshFor(t, b, d, rows[0]);
    assert a == RowId(b, a.row);
    assert t.status[RowId(b, a.row)].Fresh?;
    assert FreshFor(t, b, d, a.row);
  }

  lemma FailuresAdded(f: map<RowId, nat>, ids: set<RowId>, id: RowId)
    ensures Count(AddFailures(f, ids), id) == Count(f, id) + if id in ids then 1 else 0
  {
  }

  /** The attempts of every row count its failed sends, before and after the lane. */
  lemma LaneAttempts(t: Table, t': Table, f: map<RowId, nat>, b: nat, rows: seq<nat>, head: bool, results: seq<SendResult>, statuses: seq<Status>, j: nat)
    requires b in t.batches && Plan(t.batches[b], rows, head, results, statuses) && Distinct(rows) && j < |rows|
    requires RowId(b, rows[j]) in t'.status && t'.status[RowId(b, rows[j])] == statuses[j]
    requires Count(f, RowId(b, rows[j])) == 0
    ensures var f' := AddFailures(f, FailedRows(LaneHold(b, rows, head), results));
      AttemptOk(statuses[j], Count(f', RowId(b, rows[j])))
  {
    var id, failed := RowId(b, rows[j]), FailedRows(LaneHold(b, rows, head), results);
    FailuresAdded(f, failed, id);
    assert PlanRow(t.batches[b], rows[j], Blocked(head, results, j), results[j], statuses[j]);
    assert id in failed <==> Attempted(head, results, j) && results[j].Failed() by {
      if id in failed {
        var k :| 0 <= k < |results| && Attempted(head, results, k) && results[k].Failed() && RowId(b, rows[k]) == id;
        assert k == j;
      }
    }
    hide FailedRows, AddFailures;
  }

  lemma FreshNeverFailed(y: Sys, id: RowId)
    requires AttemptsOk(y) && id in y.table.status && y.table.status[id].Fresh?
    ensures Count(y.failures, id) == 0
  {
    assert AttemptOk(y.table.status[id], Count(y.failures, id));
  }

  lemma OthersDidNotFail(f: map<RowId, nat>, b: nat, rows: seq<nat>, head: bool, results: seq<SendResult>, id: RowId)
    requires |rows| == |results| && !(id.batch == b && id.row in rows)
    ensures Count(AddFailures(f, FailedRows(LaneHold(b, rows, head), results)), id) == Count(f, id)
  {
    FailuresAdded(f, FailedRows(LaneHold(b, rows, head), results), id);
  }

  lemma LaneAttemptsOk(y: Sys, y': Sys, b: nat, d: nat, rows: seq<nat>, head: bool, results: seq<SendResult>, statuses: seq<Status>)
    requires AttemptsOk(y) && b in y.table.batches && IsLane(y.table, b, d, rows) && Distinct(rows)
    requires Plan(y.table.batches[b], rows, head, results, statuses)
    requires AllName(y.table.batches[b], rows, statuses)
    requires y'.table == LaneTable(y.table, b, LaneOf(y.table.batches[b], rows, statuses))
    requires y'.failures == AddFailures(y.failures, FailedRows(LaneHold(b, rows, head), results))
    ensures AttemptsOk(y')
  {
    assert forall i :: i in rows ==> FreshFor(y.table, b, d, i);
    LaneStatuses(y.table, b, rows, statuses);
    hide LaneTable, LaneOf, AllName, IsLane, Plan, FailedRows, AddFailures, Distinct, Count, AttemptOk;
    forall id | id in y'.table.status
      ensures AttemptOk(y'.table.status[id], Count(y'.failures, id))
    {
      if id.batch == b && id.row in rows {
        var j :| 0 <= j < |rows| && rows[j] == id.row;
        assert id == RowId(b, rows[j]) && y.table.status[id].Fresh?;
        FreshNeverFailed(y, id);
        LaneAttempts(y.table, y'.table, y.failures, b, rows, head, results, statuses, j);
      } else {
        OthersDidNotFail(y.failures, b, rows, head, results, id);
      }
    }
  }

  lemma LaneFailureKeys(y: Sys, y': Sys, b: nat, d: nat, rows: seq<nat>, head: bool, results: seq<SendResult>)
    requires forall id :: id in y.failures ==> id in y.table.status
    requires IsLane(y.table, b, d, rows) && |rows| == |results|
    requires forall id :: id in y'.table.status <==> id in y.table.status
    requires y'.failures == AddFailures(y.failures, FailedRows(LaneHold(b, rows, head), results))
    ensures forall id :: id in y'.failures ==> id in y'.table.status
  {
    forall id | id in FailedRows(LaneHold(b, rows, head), results)
      ensures id in y.table.status
    {
      var j :| 0 <= j < |results| && RowId(b, rows[j]) == id;
      assert rows[j] in rows;
      assert FreshFor(y.table, b, d, rows[j]);
    }
  }

  lemma LaneStepKeeps(y: Sys, d: nat, results: seq<SendResult>, statuses: seq<Status>, now: int)
    requires Inv(y) && CanCommitLane(y, d, results, statuses)
    ensures Inv(LaneStep(y, d, results, statuses, now))
    ensures Changed(y.table, LaneStep(y, d, results, statuses, now).table, y.holds[d].batch, d)
  {
    var h := y.holds[d];
    var b, rows, head := h.batch, h.rows, h.head;
    var batch := y.table.batches[b];
    var lane, y' := LaneOf(batch, rows, statuses), LaneStep(y, d, results, statuses, now);
    PlanNames(batch, rows, head, results, statuses);
    assert HoldOk(y, d, h);
    assert IsLane(y.table, b, d, rows);
    AscendingIsDistinct(rows);
    LaneIsAccepted(y, b, d, rows, statuses);
    LaneCommitAgrees(y.store, y.table, b, lane, now);
    hide WellFormed, Agrees, LaneAccepted, LaneCommit, LaneTable, LaneOf, Plan, AllName, IsLane, Uniform, Fifo, LanesOk, HoldsOk, AttemptsOk, Distinct, Ascending, FreshRetries, FreshLetters, Live, Letters, FailedRows, AddFailures;
    LaneChanges(y.table, b, d, rows, statuses);
    hide Changed;
    UniformStep(y.table, y'.table, b, d);
    KeepsLanes(y, y', b, d);
    KeepsHolds(y, y', b, d);
    LaneAttemptsOk(y, y', b, d, rows, head, results, statuses);
    LaneFifo(y.table, b, d, rows, head, results, statuses);
    LaneTableAt(y.table, b, lane);
    LaneFailureKeys(y, y', b, d, rows, head, results);
  }

  lemma LaneFifo(t: Table, b: nat, d: nat, rows: seq<nat>, head: bool, results: seq<SendResult>, statuses: seq<Status>)
    requires b in t.batches && IsLane(t, b, d, rows) && Uniform(t) && Fifo(t)
    requires Plan(t.batches[b], rows, head, results, statuses) && AllName(t.batches[b], rows, statuses)
    requires head ==> EarlierDone(t, RowId(b, rows[0]))
    ensures Fifo(LaneTable(t, b, LaneOf(t.batches[b], rows, statuses)))
  {
    var t' := LaneTable(t, b, LaneOf(t.batches[b], rows, statuses));
    AscendingIsDistinct(rows);
    assert forall i :: i in rows ==> FreshFor(t, b, d, i);
    LaneStatuses(t, b, rows, statuses);
    LaneChanges(t, b, d, rows, statuses);
    hide LaneTable, LaneOf, AllName, IsLane, Uniform, Fifo, Changed, Plan, EarlierDone;
    forall x | x in t'.status && t'.status[x].Done? && !t.status[x].Done?
      ensures EarlierDone(t', x)
    {
      var j :| 0 <= j < |rows| && rows[j] == x.row;
      assert x == RowId(b, rows[j]);
      TerminalPrefix(t.batches[b], rows, head, results, statuses, 0, j);
      forall k | 0 <= k <= j
        ensures statuses[k].Done?
      {
        TerminalPrefix(t.batches[b], rows, head, results, statuses, k, j);
      }
      LaneTerminalInOrder(t, t', b, d, rows, statuses, j);
    }
    FifoStep(t, t', b, d);
  }

  // ---- committing a retry ----

  lemma RetryChanges(t: Table, r: Retry, x: Status)
    requires WellFormed(t) && IdOf(r) in t.status && t.status[IdOf(r)] == Waiting(r) && !x.Fresh?
    ensures var t' := SetStatus(t, IdOf(r), x);
      && Changed(t, t', r.batch, r.destination)
      && (forall i :: FreshFor(t', r.batch, r.destination, i) <==> FreshFor(t, r.batch, r.destination, i))
  {
    assert StatusFits(t, IdOf(r), Waiting(r));
    hide WellFormed;
    var t' := SetStatus(t, IdOf(r), x);
    forall i
      ensures FreshFor(t', r.batch, r.destination, i) <==> FreshFor(t, r.batch, r.destination, i)
    {
      assert IsRow(t', RowId(r.batch, i)) <==> IsRow(t, RowId(r.batch, i));
    }
  }

  lemma RetryTableKeeps(y: Sys, y': Sys, r: Retry)
    requires Fifo(y.table) && Uniform(y.table) && LanesOk(y) && HoldsOk(y) && EarlierDone(y.table, IdOf(r))
    requires Changed(y.table, y'.table, r.batch, r.destination)
    requires forall i :: FreshFor(y'.table, r.batch, r.destination, i) <==> FreshFor(y.table, r.batch, r.destination, i)
    requires forall x :: x in y'.table.status && x != IdOf(r) ==> y'.table.status[x] == y.table.status[x]
    requires y'.lanes == y.lanes && y'.holds == y.holds - {r.destination}
    ensures Fifo(y'.table) && Uniform(y'.table) && LanesOk(y') && HoldsOk(y')
  {
    hide Fifo, Uniform, HoldsOk, LanesOk, FreshFor, Changed, EarlierDone;
    UniformStep(y.table, y'.table, r.batch, r.destination);
    KeepsHolds(y, y', r.batch, r.destination);
    RetryKeepsLanes(y, y', r);
    KeepsEarlier(y.table, y'.table, r.batch, r.destination, IdOf(r));
    FifoStep(y.table, y'.table, r.batch, r.destination);
  }

  lemma RetryKeepsLanes(y: Sys, y': Sys, r: Retry)
    requires Changed(y.table, y'.table, r.batch, r.destination) && LanesOk(y) && y'.lanes == y.lanes
    requires forall i :: FreshFor(y'.table, r.batch, r.destination, i) <==> FreshFor(y.table, r.batch, r.destination, i)
    ensures LanesOk(y')
  {
    forall b, d | b in y'.lanes && d in y'.lanes[b]
      ensures IsLane(y'.table, b, d, y'.lanes[b][d])
    {
      if b != r.batch || d != r.destination {
        KeepsLane(y.table, y'.table, r.batch, r.destination, b, d, y.lanes[b][d]);
      }
    }
  }

  /** A retry that is live in the table finds its batch and its row: neither of the "missing" branches
      of the retry worker can be taken. */
  lemma RetryFindsItsRow(s: Store, t: Table, r: Retry)
    requires WellFormed(t) && BatchesAgree(s, t) && RetryImage(s, Live(t))
    requires IdOf(r) in t.status && t.status[IdOf(r)] == Waiting(r)
    ensures Current(s, r)
    ensures FindBatch(s, r.batch) == Some(t.batches[r.batch])
    ensures r.row < |t.batches[r.batch].rows| && t.batches[r.batch].rows[r.row].destination == r.destination
  {
    assert r in Live(t);
    assert StatusFits(t, IdOf(r), t.status[IdOf(r)]);
    assert HasWaiting(t, r.batch) by { assert t.status[RowId(r.batch, r.row)].Waiting?; }
    hide HasWaiting, HasFresh, WellFormed, DestinationImage, BatchImage, Live;
  }

  lemma LedgerApart(s: Store, t: Table, ledger: map<LedgerKey, Stored>)
    requires Agrees(s, t)
    ensures Agrees(s.(ledger := ledger), t)
  {
    hide WellFormed, HasFresh, HasWaiting, RetriesImage, DestinationImage, BatchImage, LetterImage, Live, Letters;
    var s' := s.(ledger := ledger);
    forall b, i | b in s'.pending
      ensures i in Progress(s', b) <==> RowId(b, i) in t.status && !t.status[RowId(b, i)].Fresh?
    {
      assert Progress(s', b) == Progress(s, b);
    }
  }

  lemma RetryAttemptsOk(y: Sys, y': Sys, r: Retry, x: Status, failed: nat)
    requires AttemptsOk(y) && IdOf(r) in y.table.status && y.table.status[IdOf(r)] == Waiting(r)
    requires y'.table == SetStatus(y.table, IdOf(r), x)
    requires failed <= 1 && y'.failures == if failed == 1 then y.failures[IdOf(r) := Count(y.failures, IdOf(r)) + 1] else y.failures
    requires match x
      case Fresh => false
      case Waiting(next) => failed == 1 && r.attempts < MAX_RETRY_ATTEMPTS && next.attempts == r.attempts + 1
      case Done(Dead(d)) => failed == 1 && d.attempts == r.attempts + 1
      case Done(_) => failed == 0
    ensures AttemptsOk(y')
  {
    forall id | id in y'.table.status
      ensures AttemptOk(y'.table.status[id], Count(y'.failures, id))
    {
      assert id != IdOf(r) ==> y'.table.status[id] == y.table.status[id];
    }
  }

  /** What the retry worker knows when it commits. */
  ghost predicate RetryReady(y: Sys, r: Retry) {
    && WellFormed(y.table)
    && Agrees(y.store, y.table)
    && IdOf(r) in y.table.status && y.table.status[IdOf(r)] == Waiting(r)
    && Current(y.store, r)
    && FindBatch(y.store, r.batch) == Some(y.table.batches[r.batch])
    && IsRow(y.table, IdOf(r)) && Destination(y.table, IdOf(r)) == r.destination
  }

  lemma HeldRetryIsReady(y: Sys, d: nat)
    requires Inv(y) && d in y.holds && y.holds[d].RetryHold?
    ensures RetryReady(y, y.holds[d].retry) && y.holds[d].retry.destination == d
    ensures EarlierDone(y.table, IdOf(y.holds[d].retry))
    ensures forall result :: SuccessAccepted(y.store, y.holds[d].retry, SuccessOf(y, y.holds[d].retry, result))
  {
    assert HoldOk(y, d, y.holds[d]);
    hide Fifo, Uniform, LanesOk, HoldsOk, AttemptsOk, EarlierDone;
    AgreesParts(y.store, y.table);
    RetryFindsItsRow(y.store, y.table, y.holds[d].retry);
  }

  /** The status a retry's row takes. */
  function RetryStatus(r: Retry, result: SendResult, next: Retry, letter: Letter, now: int): Status {
    if !result.Failed() then Done(if result.Sent? then Delivered else Skipped)
    else if Reattempt(r, result, now) then Waiting(next)
    else Done(Dead(letter))
  }

  lemma RetryStoreAgrees(y: Sys, d: nat, result: SendResult, next: Retry, letter: Letter, now: int)
    requires CanCommitRetry(y, d, result, next, letter, now) && RetryReady(y, y.holds[d].retry)
    requires SuccessAccepted(y.store, y.holds[d].retry, SuccessOf(y, y.holds[d].retry, result))
    ensures var r, y' := y.holds[d].retry, RetryStep(y, d, result, next, letter, now);
      && y'.table == SetStatus(y.table, IdOf(r), RetryStatus(r, result, next, letter, now))
      && WellFormed(y'.table) && Agrees(y'.store, y'.table)
  {
    var r, y' := y.holds[d].retry, RetryStep(y, d, result, next, letter, now);
    var x := RetryStatus(r, result, next, letter, now);
    hide WellFormed, Agrees, SuccessAccepted, Current, FindBatch;
    if !result.Failed() {
      FinishRetryAgrees(y.store, y.table, r, x.outcome);
      LedgerApart(FinishRetry(y.store, r), y'.table, y'.store.ledger);
    } else if Reattempt(r, result, now) {
      RescheduleAgrees(y.store, y.table, r, next);
    } else {
      FinishRetryAgrees(y.store, y.table, r, x.outcome);
    }
  }

  lemma RetryHistory(y: Sys, d: nat, result: SendResult, next: Retry, letter: Letter, now: int)
    requires CanCommitRetry(y, d, result, next, letter, now) && AttemptsOk(y)
    requires IdOf(y.holds[d].retry) in y.table.status && y.table.status[IdOf(y.holds[d].retry)] == Waiting(y.holds[d].retry)
    ensures AttemptsOk(RetryStep(y, d, result, next, letter, now))
  {
    var r := y.holds[d].retry;
    hide AttemptsOk, SuccessAccepted, RetrySuccess, RescheduleRetry, RetryDead;
    RetryAttemptsOk(y, RetryStep(y, d, result, next, letter, now), r, RetryStatus(r, result, next, letter, now),
                    if result.Failed() then 1 else 0);
  }

  lemma RetryStepFrame(y: Sys, d: nat, result: SendResult, next: Retry, letter: Letter, now: int)
    requires CanCommitRetry(y, d, result, next, letter, now)
    ensures var y', r := RetryStep(y, d, result, next, letter, now), y.holds[d].retry;
      && y'.lanes == y.lanes && y'.holds == y.holds - {d}
      && y'.table == SetStatus(y.table, IdOf(r), RetryStatus(r, result, next, letter, now))
      && !RetryStatus(r, result, next, letter, now).Fresh?
      && (forall id :: id in y'.failures ==> id in y.failures || id == IdOf(r))
  {
  }

  lemma SetElsewhere(t: Table, id: RowId, x: Status)
    ensures forall a :: a in SetStatus(t, id, x).status <==> a in t.status || a == id
    ensures forall a :: a in t.status && a != id ==> SetStatus(t, id, x).status[a] == t.status[a]
  {
  }

  lemma RetryStepKeeps(y: Sys, d: nat, result: SendResult, next: Retry, letter: Letter, now: int)
    requires Inv(y) && CanCommitRetry(y, d, result, next, letter, now)
    ensures Inv(RetryStep(y, d, result, next, letter, now))
    ensures Changed(y.table, RetryStep(y, d, result, next, letter, now).table, y.holds[d].retry.batch, d)
  {
    var r, y' := y.holds[d].retry, RetryStep(y, d, result, next, letter, now);
    HeldRetryIsReady(y, d);
    RetryStepFrame(y, d, result, next, letter, now);
    RetryStoreAgrees(y, d, result, next, letter, now);
    RetryHistory(y, d, result, next, letter, now);
    RetryChanges(y.table, r, RetryStatus(r, result, next, letter, now));
    SetElsewhere(y.table, IdOf(r), RetryStatus(r, result, next, letter, now));
    hide WellFormed, Agrees, Fifo, Uniform, LanesOk, HoldsOk, AttemptsOk, Changed, EarlierDone, CanCommitRetry, RetryStep, FreshFor, SuccessAccepted, RetryStatus, RetryReady, SetStatus, IsRow;
    RetryTableKeeps(y, y', r);
  }

  // ---- taking locks ----

  /** A queue entry is the head exactly when every earlier row of its destination is terminal. */
  lemma HeadMeansEarlierDone(s: Store, t: Table, e: Slot)
    requires WellFormed(t) && QueueAgrees(s, t)
    requires RowId(e.batch, e.row) in t.status && IsRow(t, RowId(e.batch, e.row)) && e.destination == Destination(t, RowId(e.batch, e.row))
    requires !t.status[RowId(e.batch, e.row)].Done?
    ensures IsHead(s, e) <==> EarlierDone(t, RowId(e.batch, e.row))
  {
    var id := RowId(e.batch, e.row);
    assert e in s.queue;
    assert forall a :: a in t.status ==> IsRow(t, a);
    hide WellFormed;
    if IsHead(s, e) {
      forall a | a in t.status && Before(t, a, id)
        ensures t.status[a].Done?
      {
        var other := Slot(e.destination, a.batch, a.row);
        assert RowId(other.batch, other.row) == a && SlotLess(other, e);
      }
    }
    if EarlierDone(t, id) {
      forall other | other in s.queue && other.destination == e.destination
        ensures !SlotLess(other, e)
      {
        var a := RowId(other.batch, other.row);
        assert a in t.status && !t.status[a].Done?;
        assert !Before(t, a, id);
      }
    }
  }

  /** A new hold joins the others. */
  lemma HoldJoins(y: Sys, y': Sys, d: nat)
    requires HoldsOk(y) && y'.table == y.table && d in y'.holds && HoldOk(y', d, y'.holds[d])
    requires forall x :: x in y'.holds && x != d ==> x in y.holds && y'.holds[x] == y.holds[x]
    requires forall b :: b in y.lanes ==> b in y'.lanes && y'.lanes[b].Keys <= y.lanes[b].Keys
    ensures HoldsOk(y')
  {
    hide IsLane, EarlierDone;
    forall x | x in y'.holds
      ensures HoldOk(y', x, y'.holds[x])
    {
      if x != d {
        assert HoldOk(y, x, y.holds[x]);
      }
    }
  }

  lemma LaneHead(s: Store, t: Table, b: nat, d: nat, rows: seq<nat>)
    requires WellFormed(t) && QueueAgrees(s, t) && IsLane(t, b, d, rows)
    ensures IsHead(s, Slot(d, b, rows[0])) <==> EarlierDone(t, RowId(b, rows[0]))
  {
    assert rows[0] in rows;
    assert FreshFor(t, b, d, rows[0]);
    HeadMeansEarlierDone(s, t, Slot(d, b, rows[0]));
  }

  lemma LockLaneOk(y: Sys, b: nat, d: nat)
    requires CanLockLane(y, b, d) && LanesOk(y) && HoldsOk(y)
    requires IsHead(y.store, Slot(d, b, y.lanes[b][d][0])) <==> EarlierDone(y.table, RowId(b, y.lanes[b][d][0]))
    ensures LanesOk(LockLaneStep(y, b, d)) && HoldsOk(LockLaneStep(y, b, d))
  {
    var y' := LockLaneStep(y, b, d);
    assert IsLane(y.table, b, d, y.lanes[b][d]);
    hide IsLane, EarlierDone, IsHead, HoldsOk;
    HoldJoins(y, y', d);
  }

  lemma LockLaneKeeps(y: Sys, b: nat, d: nat)
    requires Inv(y) && CanLockLane(y, b, d)
    ensures Inv(LockLaneStep(y, b, d))
  {
    assert IsLane(y.table, b, d, y.lanes[b][d]);
    hide WellFormed, Agrees, Fifo, Uniform, LanesOk, IsLane, EarlierDone, IsHead, HoldsOk, AttemptsOk, CanLockLane;
    AgreesParts(y.store, y.table);
    LaneHead(y.store, y.table, b, d, y.lanes[b][d]);
    LockLaneOk(y, b, d);
    SameHistory(y, LockLaneStep(y, b, d));
  }

  lemma SameHistory(y: Sys, y': Sys)
    requires AttemptsOk(y) && y'.table == y.table && y'.failures == y.failures
    ensures AttemptsOk(y')
  {
  }

  lemma RetryHeadIsReady(s: Store, t: Table, r: Retry)
    requires WellFormed(t) && QueueAgrees(s, t) && RetryImage(s, Live(t)) && IsRetryHead(s, r)
    ensures IdOf(r) in t.status && t.status[IdOf(r)] == Waiting(r) && IsRow(t, IdOf(r))
    ensures Destination(t, IdOf(r)) == r.destination && EarlierDone(t, IdOf(r))
  {
    assert Current(s, r) && IsHead(s, SlotOf(r));
    hide WellFormed, EarlierDone, IsHead, IsRetryHead, Current, RetryImage, QueueAgrees;
    CurrentIsLive(s, t, r);
    HeadMeansEarlierDone(s, t, SlotOf(r));
  }

  lemma LockRetryOk(y: Sys, r: Retry)
    requires LanesOk(y) && HoldsOk(y)
    requires IdOf(r) in y.table.status && y.table.status[IdOf(r)] == Waiting(r) && IsRow(y.table, IdOf(r))
    requires Destination(y.table, IdOf(r)) == r.destination && EarlierDone(y.table, IdOf(r))
    ensures LanesOk(LockRetryStep(y, r)) && HoldsOk(LockRetryStep(y, r))
  {
    hide IsLane, EarlierDone, HoldsOk;
    HoldJoins(y, LockRetryStep(y, r), r.destination);
  }

  lemma LockRetryKeeps(y: Sys, r: Retry)
    requires Inv(y) && CanLockRetry(y, r)
    ensures Inv(LockRetryStep(y, r))
  {
    assert RetryImage(y.store, Live(y.table)) && IsRetryHead(y.store, r);
    hide WellFormed, Agrees, Fifo, Uniform, LanesOk, EarlierDone, IsRetryHead, HoldsOk, AttemptsOk, RetryImage, CanLockRetry;
    AgreesParts(y.store, y.table);
    RetryHeadIsReady(y.store, y.table, r);
    LockRetryOk(y, r);
    SameHistory(y, LockRetryStep(y, r));
  }

  // ---- match output ----

  /** Old rows and batches stay; new rows are unprogressed and belong to new batches. */
  ghost predicate Extends(t: Table, t': Table) {
    && (forall x :: x in t.batches ==> x in t'.batches && t'.batches[x] == t.batches[x])
    && (forall id :: id in t.status ==> id in t'.status && t'.status[id] == t.status[id])
    && (forall id :: id in t'.status && id !in t.status ==> t'.status[id].Fresh? && id.batch !in t.batches)
  }

  lemma {:induction false} AddAllExtends(t: Table, batches: seq<Batch>)
    requires WellFormed(t) && Distinct(BatchIds(batches)) && forall b :: b in batches ==> b.id !in t.batches && b.rows != []
    ensures WellFormed(AddAllToTable(t, batches)) && Extends(t, AddAllToTable(t, batches))
    ensures forall x :: x in AddAllToTable(t, batches).batches ==> x in t.batches || x in BatchIds(batches)
  {
    if batches == [] {
    } else {
      var front, last := batches[..|batches| - 1], batches[|batches| - 1];
      assert batches == front + [last] && last in batches;
      SplitBatchIds(front, last);
      assert forall b :: b in front ==> b in batches;
      AddAllExtends(t, front);
      var u := AddAllToTable(t, front);
      AddWellFormed(u, last);
      AddedStatus(u, last);
      AddToTableBatches(u, last);
      hide WellFormed, AddToTable, Distinct, Extends;
      ExtendsByOne(t, u, AddToTable(u, last), last);
    }
  }

  lemma ExtendsByOne(t: Table, u: Table, v: Table, b: Batch)
    requires Extends(t, u) && b.id !in u.batches && v.batches == u.batches[b.id := b]
    requires forall id :: id in u.status ==> id !in NewRows(b)
    requires forall id :: id in v.status <==> id in u.status || id in NewRows(b)
    requires forall id :: id in v.status ==> v.status[id] == if id in NewRows(b) then Fresh else u.status[id]
    ensures Extends(t, v)
  {
    assert forall id :: id in NewRows(b) ==> id.batch == b.id;
  }

  lemma ExtendKeepsLane(t: Table, t': Table, b: nat, d: nat, rows: seq<nat>)
    requires WellFormed(t) && WellFormed(t') && Extends(t, t') && b in t.batches && IsLane(t, b, d, rows)
    ensures IsLane(t', b, d, rows)
  {
    forall i
      ensures FreshFor(t', b, d, i) <==> FreshFor(t, b, d, i)
    {
      var id := RowId(b, i);
      assert id in t.status <==> IsRow(t, id);
      assert id in t'.status <==> IsRow(t', id);
    }
    hide FreshFor, WellFormed, Extends;
  }

  lemma LaneBatchExists(t: Table, b: nat, d: nat, rows: seq<nat>)
    requires IsLane(t, b, d, rows)
    ensures b in t.batches && RowId(b, rows[0]) in t.status
  {
    assert rows[0] in rows;
    assert FreshFor(t, b, d, rows[0]);
  }

  /** New rows are later than every old one, because committed batch ids increase. */
  lemma ExtendKeepsEarlier(t: Table, t': Table, id: RowId)
    requires WellFormed(t) && WellFormed(t') && Extends(t, t') && id in t.status && EarlierDone(t, id)
    requires forall x, z :: x in t.batches && z in t'.batches && z !in t.batches ==> x < z
    ensures EarlierDone(t', id)
  {
    assert forall a :: a in t'.status ==> IsRow(t', a);
    assert forall a :: a in t.status ==> IsRow(t, a);
    hide WellFormed;
    forall a | a in t'.status && Before(t', a, id)
      ensures t'.status[a].Done?
    {
      assert a in t.status;
      assert Before(t, a, id);
    }
  }

  lemma ExtendKeepsFifo(t: Table, t': Table)
    requires WellFormed(t) && WellFormed(t') && Extends(t, t') && Fifo(t)
    requires forall x, z :: x in t.batches && z in t'.batches && z !in t.batches ==> x < z
    ensures Fifo(t')
  {
    assert forall a :: a in t'.status ==> IsRow(t', a);
    assert forall a :: a in t.status ==> IsRow(t, a);
    hide WellFormed;
    forall a, x | a in t'.status && x in t'.status && Before(t', a, x) && t'.status[x].Done?
      ensures t'.status[a].Done?
    {
      assert x in t.status && a in t.status;
      assert Before(t, a, x);
    }
  }

  lemma ExtendKeepsUniform(t: Table, t': Table)
    requires WellFormed(t) && WellFormed(t') && Extends(t, t') && Uniform(t)
    ensures Uniform(t')
  {
    forall b, i, j | RowId(b, i) in t'.status && RowId(b, j) in t'.status && IsRow(t', RowId(b, i)) && IsRow(t', RowId(b, j))
                     && Destination(t', RowId(b, i)) == Destination(t', RowId(b, j)) && t'.status[RowId(b, i)].Fresh?
      ensures t'.status[RowId(b, j)].Fresh?
    {
      assert RowId(b, i) in t.status <==> IsRow(t, RowId(b, i));
      assert RowId(b, j) in t.status <==> IsRow(t, RowId(b, j));
    }
  }

  lemma NewBatchIds(t: Table, batches: seq<Batch>)
    requires forall b, x :: b in batches && x in t.batches ==> x < b.id
    ensures forall b :: b in batches ==> b.id !in t.batches
    ensures forall x, z :: x in t.batches && z in BatchIds(batches) ==> x < z
  {
    forall b | b in batches
      ensures b.id !in t.batches
    {
      assert b.id in t.batches ==> b.id < b.id;
    }
    forall x, z | x in t.batches && z in BatchIds(batches)
      ensures x < z
    {
      var k :| 0 <= k < |batches| && BatchIds(batches)[k] == z;
      assert batches[k] in batches;
    }
  }

  /** The checks on new delivery batches always pass. */
  lemma NewBatchesAccepted(s: Store, t: Table, batches: seq<Batch>)
    requires BatchesAgree(s, t) && ProgressAgrees(s, t) && Distinct(BatchIds(batches))
    requires forall b :: b in batches ==> b.rows != [] && b.id !in t.batches
    ensures BatchesAccepted(s, batches)
  {
    hide HasFresh, HasWaiting;
  }

  lemma CommitMatchKeeps(y: Sys, batches: seq<Batch>)
    requires Inv(y) && CanCommitMatch(y, batches)
    ensures Inv(MatchStep(y, batches))
    ensures Extends(y.table, MatchStep(y, batches).table)
    ensures BatchesAccepted(y.store, batches)
  {
    var y', t, t' := MatchStep(y, batches), y.table, AddAllToTable(y.table, batches);
    NewBatchIds(t, batches);
    AddAllExtends(t, batches);
    AddBatchesAgrees(y.store, t, batches);
    hide WellFormed, Agrees, Fifo, Uniform, LanesOk, HoldsOk, AttemptsOk, Extends, AddAllToTable, AddBatches, BatchesAccepted, Distinct;
    AgreesParts(y.store, t);
    NewBatchesAccepted(y.store, t, batches);
    ExtendKeepsFifo(t, t');
    ExtendKeepsUniform(t, t');
    ExtendKeepsSys(y, y');
  }

  lemma ExtendKeepsSys(y: Sys, y': Sys)
    requires WellFormed(y.table) && WellFormed(y'.table) && Extends(y.table, y'.table)
    requires forall x, z :: x in y.table.batches && z in y'.table.batches && z !in y.table.batches ==> x < z
    requires y'.lanes == y.lanes && y'.holds == y.holds && y'.failures == y.failures
    requires LanesOk(y) && HoldsOk(y) && AttemptsOk(y) && forall id :: id in y.failures ==> id in y.table.status
    ensures LanesOk(y') && HoldsOk(y') && AttemptsOk(y') && forall id :: id in y'.failures ==> id in y'.table.status
  {
    hide WellFormed;
    forall b, d | b in y'.lanes && d in y'.lanes[b]
      ensures IsLane(y'.table, b, d, y'.lanes[b][d])
    {
      LaneBatchExists(y.table, b, d, y.lanes[b][d]);
      ExtendKeepsLane(y.table, y'.table, b, d, y.lanes[b][d]);
    }
    forall d | d in y'.holds
      ensures HoldOk(y', d, y'.holds[d])
    {
      ExtendKeepsHold(y, y', d, y.holds[d]);
    }
  }

  lemma ExtendKeepsHold(y: Sys, y': Sys, d: nat, h: Hold)
    requires WellFormed(y.table) && WellFormed(y'.table) && Extends(y.table, y'.table)
    requires forall x, z :: x in y.table.batches && z in y'.table.batches && z !in y.table.batches ==> x < z
    requires y'.lanes == y.lanes && HoldOk(y, d, h)
    ensures HoldOk(y', d, h)
  {
    hide WellFormed;
    match h {
      case LaneHold(b, rows, head) =>
        LaneBatchExists(y.table, b, d, rows);
        ExtendKeepsLane(y.table, y'.table, b, d, rows);
        if head {
          ExtendKeepsEarlier(y.table, y'.table, RowId(b, rows[0]));
        }
      case RetryHold(r) =>
        ExtendKeepsEarlier(y.table, y'.table, IdOf(r));
    }
  }

  // ---- every step, every run ----

  /** One step keeps the invariant. */
  lemma StepKeepsInv(y: Sys, step: Step)
    requires Inv(y) && Enabled(y, step)
    ensures Inv(Apply(y, step))
  {
    hide Inv, CanCommitMatch, CanStart, CanLockLane, CanCommitLane, CanEnd, CanLockRetry, CanCommitRetry, CanCrash, MatchStep, LockLaneStep, LaneStep, LockRetryStep, RetryStep, CrashStep, ForgetStep;
    match step {
      case CommitMatch(batches) => CommitMatchKeeps(y, batches);
      case StartBatch(b, started) => StartBatchKeeps(y, b, started);
      case LockLane(b, d) => LockLaneKeeps(y, b, d);
      case CommitLane(d, results, statuses, now) => LaneStepKeeps(y, d, results, statuses, now);
      case EndBatch(b) => EndBatchKeeps(y, b);
      case LockRetry(r) => LockRetryKeeps(y, r);
      case CommitRetry(d, result, next, letter, now) => RetryStepKeeps(y, d, result, next, letter, now);
      case Crash(lanes, held) => CrashKeeps(y, lanes, held);
      case Forget(gone) => ForgetKeeps(y, gone);
    }
  }

  lemma ForgetKeeps(y: Sys, gone: set<LedgerKey>)
    requires Inv(y)
    ensures Inv(ForgetStep(y, gone))
  {
    hide WellFormed, Agrees, Fifo, Uniform, AttemptsOk;
    LedgerApart(y.store, y.table, y.store.ledger - gone);
    var y' := ForgetStep(y, gone);
    assert LanesOk(y') && HoldsOk(y') by {
      forall d | d in y'.holds
        ensures HoldOk(y', d, y'.holds[d])
      {
        assert HoldOk(y, d, y.holds[d]);
      }
    }
    assert AttemptsOk(y') by { SameHistory(y, y'); }
  }

  lemma CrashKeeps(y: Sys, lanes: map<nat, map<nat, seq<nat>>>, held: set<nat>)
    requires Inv(y) && CanCrash(y, lanes, held)
    ensures Inv(CrashStep(y, lanes, held))
  {
    hide WellFormed, Agrees, Fifo, Uniform, IsLane, EarlierDone;
    var y' := CrashStep(y, lanes, held);
    forall d | d in y'.holds
      ensures HoldOk(y', d, y'.holds[d])
    {
      assert HoldOk(y, d, y.holds[d]);
    }
    forall b, d | b in y'.lanes && d in y'.lanes[b]
      ensures IsLane(y'.table, b, d, y'.lanes[b][d])
    {
      assert b in y.lanes && d in y.lanes[b];
    }
  }

  lemma StartBatchKeeps(y: Sys, b: nat, started: map<nat, seq<nat>>)
    requires Inv(y) && CanStart(y, b, started)
    ensures Inv(y.(lanes := y.lanes[b := started]))
  {
    hide WellFormed, Agrees, Fifo, Uniform, IsLane, EarlierDone;
    var y' := y.(lanes := y.lanes[b := started]);
    forall d | d in y'.holds
      ensures HoldOk(y', d, y'.holds[d])
    {
      assert HoldOk(y, d, y.holds[d]);
    }
  }

  lemma EndBatchKeeps(y: Sys, b: nat)
    requires Inv(y) && CanEnd(y, b)
    ensures Inv(y.(lanes := y.lanes - {b}))
  {
    hide WellFormed, Agrees, Fifo, Uniform, IsLane, EarlierDone;
    var y' := y.(lanes := y.lanes - {b});
    forall d | d in y'.holds
      ensures HoldOk(y', d, y'.holds[d])
    {
      assert HoldOk(y, d, y.holds[d]);
    }
  }
}
