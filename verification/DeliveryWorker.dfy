/**
 The delivery and retry workers as they run: loops that fill the outcome lists and calls that commit
 them. Each is proved against the step it takes in DeliveryRuns.
 */
module DeliveryWorker {
  import opened Records
  import opened DeliverySpec
  import opened RowTable
  import opened RowSteps
  import opened LaneOutcome
  import opened DeliveryRuns
  import opened DeliveryInvariant
  import opened DeliveryTheorems
  import opened DeliveryStorage

  /** What the world supplies for one row: the result of the send, the next record id, and the clock
      when the outcome is known and when its record is made. */
  datatype Attempt = Attempt(result: SendResult, id: nat, now: int, madeAt: int, error: string)

  function LaneRetry(batch: Batch, i: nat, attempts: nat, a: Attempt): Retry
    requires i < |batch.rows|
  {
    Retry(a.id, batch.id, i, batch.rows[i].destination, a.now + RetryDelay(0), attempts, a.madeAt, a.error)
  }

  function LaneLetter(batch: Batch, i: nat, a: Attempt): Letter
    requires i < |batch.rows|
  {
    Letter(a.id, batch.id, i, batch.rows[i].destination, 1, batch.createdAt, a.madeAt, true, a.error)
  }

  /** The status one row gets, with the record that carries it. */
  function RowStatus(batch: Batch, i: nat, blocked: bool, a: Attempt): Status
    requires i < |batch.rows|
  {
    if blocked then Waiting(LaneRetry(batch, i, 0, a))
    else match a.result
      case Sent => Done(Delivered)
      case Skip => Done(Skipped)
      case Transient => Waiting(LaneRetry(batch, i, 1, a))
      case Permanent => Done(Dead(LaneLetter(batch, i, a)))
  }

  ghost predicate RowsOf(batch: Batch, rows: seq<nat>) {
    forall j :: 0 <= j < |rows| ==> rows[j] < |batch.rows|
  }

  ghost function Results(attempts: seq<Attempt>): seq<SendResult> {
    seq(|attempts|, j requires 0 <= j < |attempts| => attempts[j].result)
  }

  ghost function Statuses(batch: Batch, rows: seq<nat>, head: bool, attempts: seq<Attempt>): seq<Status>
    requires RowsOf(batch, rows) && |rows| == |attempts|
  {
    seq(|rows|, j requires 0 <= j < |rows| => RowStatus(batch, rows[j], Blocked(head, Results(attempts), j), attempts[j]))
  }

  /** The record of a row: a retry is due a second after its outcome and as old as its making, a dead letter
      as old as its batch. */
  predicate RecordIs(batch: Batch, i: nat, a: Attempt, x: Status) {
    && (x.Waiting? ==> x.retry.id == a.id && x.retry.due == a.now + 1_000 && x.retry.created == a.madeAt && x.retry.error == a.error
                       && i < |batch.rows| && x.retry.destination == batch.rows[i].destination)
    && (x.Done? && x.outcome.Dead? ==>
          x.outcome.letter.id == a.id && x.outcome.letter.created == batch.createdAt && x.outcome.letter.failed == a.madeAt
          && x.outcome.letter.permanent && x.outcome.letter.error == a.error
          && i < |batch.rows| && x.outcome.letter.destination == batch.rows[i].destination)
  }

  /** The records the worker makes are a plan: only a head is attempted, and nothing after a transient failure. */
  lemma WorkerPlans(batch: Batch, rows: seq<nat>, head: bool, attempts: seq<Attempt>)
    requires RowsOf(batch, rows) && |rows| == |attempts|
    ensures Plan(batch, rows, head, Results(attempts), Statuses(batch, rows, head, attempts))
    ensures forall j :: 0 <= j < |rows| ==> RecordIs(batch, rows[j], attempts[j], Statuses(batch, rows, head, attempts)[j])
  {
    RetryDelayBounds(0);
    var results, statuses := Results(attempts), Statuses(batch, rows, head, attempts);
    forall j | 0 <= j < |rows|
      ensures PlanRow(batch, rows[j], Blocked(head, results, j), results[j], statuses[j])
    {
      assert statuses[j] == RowStatus(batch, rows[j], Blocked(head, results, j), attempts[j]);
    }
  }

  /** The lane's lists, built row by row. */
  method FillLane(batch: Batch, rows: seq<nat>, head: bool, attempts: seq<Attempt>) returns (lane: Lane)
    requires RowsOf(batch, rows) && |rows| == |attempts|
    ensures lane == LaneOf(batch, rows, Statuses(batch, rows, head, attempts))
  {
    ghost var statuses := Statuses(batch, rows, head, attempts);
    lane := Lane([], [], [], [], []);
    var blocked := !head;
    var k := 0;
    while k < |rows|
      invariant 0 <= k <= |rows|
      invariant blocked <==> Blocked(head, Results(attempts), k)
      invariant lane == LaneOf(batch, rows[..k], statuses[..k])
    {
      var i, a := rows[k], attempts[k];
      ghost var before := lane;
      lane := lane.(completed := lane.completed + [i]);
      if blocked {
        lane := lane.(retries := lane.retries + [LaneRetry(batch, i, 0, a)]);
      } else {
        match a.result {
          case Sent => lane := lane.(successes := lane.successes + [Success(i, batch.rows[i])]);
          case Skip => lane := lane.(skipped := lane.skipped + [i]);
          case Transient =>
            lane := lane.(retries := lane.retries + [LaneRetry(batch, i, 1, a)]);
            assert Results(attempts)[k].Transient?;
            blocked := true;
          case Permanent => lane := lane.(letters := lane.letters + [LaneLetter(batch, i, a)]);
        }
      }
      assert statuses[k] == RowStatus(batch, i, Blocked(head, Results(attempts), k), a);
      assert lane == AddOutcome(before, batch, i, statuses[k]);
      assert rows[..k + 1][..k] == rows[..k] && statuses[..k + 1][..k] == statuses[..k];
      k := k + 1;
    }
    assert rows[..k] == rows && statuses[..k] == statuses;
  }

  /** A lane from lock to commit: read whether its first row is the head, send, commit. */
  method ProcessLane(store: Keyspaces, batch: Batch, rows: seq<nat>, attempts: seq<Attempt>, now: int) returns (ok: bool)
    requires RowsOf(batch, rows) && |rows| == |attempts|
    modifies store
    ensures rows == [] ==> ok && store.View() == old(store.View())
    ensures rows != [] ==>
      var s := old(store.View());
      var head := IsHead(s, Slot(batch.rows[rows[0]].destination, batch.id, rows[0]));
      var lane := LaneOf(batch, rows, Statuses(batch, rows, head, attempts));
      && (ok <==> LaneAccepted(s, batch.id, lane))
      && store.View() == if ok then LaneCommit(s, batch.id, lane, now) else s
  {
    if rows == [] {
      return true;
    }
    var head := store.DeliveryIsDestinationHead(Slot(batch.rows[rows[0]].destination, batch.id, rows[0]));
    var lane := FillLane(batch, rows, head, attempts);
    ok := store.CommitLaneOutcome(batch.id, lane, now);
  }

  // ---- lanes of a batch ----

  /** Each lane holds the unprogressed rows of its destination in order, and every such row has a lane. */
  ghost predicate LanesOfBatch(s: Store, b: nat, lanes: map<nat, seq<nat>>)
    requires b in s.pending
  {
    && (forall d :: d in lanes ==> lanes[d] != [] && Ascending(lanes[d]))
    && (forall d, i: nat :: d in lanes && i in lanes[d] ==> Unprogressed(s, RowId(b, i)) && s.pending[b].rows[i].destination == d)
    && (forall i: nat :: Unprogressed(s, RowId(b, i)) ==>
          s.pending[b].rows[i].destination in lanes && i in lanes[s.pending[b].rows[i].destination])
  }

  ghost predicate LanesUpTo(s: Store, b: nat, lanes: map<nat, seq<nat>>, n: nat)
    requires b in s.pending
  {
    && (forall d :: d in lanes ==> lanes[d] != [] && Ascending(lanes[d]))
    && (forall d, i: nat :: d in lanes && i in lanes[d] ==> i < n && Unprogressed(s, RowId(b, i)) && s.pending[b].rows[i].destination == d)
    && (forall i: nat :: i < n && Unprogressed(s, RowId(b, i)) ==>
          s.pending[b].rows[i].destination in lanes && i in lanes[s.pending[b].rows[i].destination])
  }

  /** Groups the unprogressed rows of a pending batch by destination; an absent batch is an error. */
  method PendingLanes(store: Keyspaces, b: nat) returns (lanes: Option<map<nat, seq<nat>>>)
    ensures lanes.Some? <==> b in store.View().pending
    ensures lanes.Some? ==> LanesOfBatch(store.View(), b, lanes.value)
  {
    if b !in store.pending {
      return None;
    }
    ghost var s := store.View();
    var batch := store.pending[b];
    var progress := if b in store.progress then store.progress[b] else {};
    var grouped: map<nat, seq<nat>> := map[];
    var k := 0;
    while k < |batch.rows|
      invariant 0 <= k <= |batch.rows|
      invariant LanesUpTo(s, b, grouped, k)
    {
      ghost var before := grouped;
      if k !in progress {
        var d := batch.rows[k].destination;
        grouped := grouped[d := (if d in grouped then grouped[d] else []) + [k]];
      }
      OneMoreRow(s, b, before, grouped, k);
      k := k + 1;
    }
    lanes := Some(grouped);
  }

  lemma AscendingSnoc(rows: seq<nat>, k: nat)
    requires Ascending(rows) && forall i :: i in rows ==> i < k
    ensures Ascending(rows + [k])
  {
    assert forall j :: 0 <= j < |rows| ==> rows[j] in rows;
  }

  lemma OneMoreRow(s: Store, b: nat, lanes: map<nat, seq<nat>>, lanes': map<nat, seq<nat>>, k: nat)
    requires b in s.pending && k < |s.pending[b].rows| && LanesUpTo(s, b, lanes, k)
    requires var d := s.pending[b].rows[k].destination;
      lanes' == if k in Progress(s, b) then lanes else lanes[d := (if d in lanes then lanes[d] else []) + [k]]
    ensures LanesUpTo(s, b, lanes', k + 1)
  {
    var rows := s.pending[b].rows;
    var d := rows[k].destination;
    assert Unprogressed(s, RowId(b, k)) <==> k !in Progress(s, b);
    if k !in Progress(s, b) {
      if d in lanes {
        assert lanes'[d] == lanes[d] + [k] && Ascending(lanes[d]);
        forall i: nat | i in lanes[d]
          ensures i < k
        {
          assert Unprogressed(s, RowId(b, i));
        }
        AscendingSnoc(lanes[d], k);
      } else {
        assert lanes'[d] == [k];
      }
    }
    hide Unprogressed, Progress;
  }

  /** In a reachable state these are the lanes a batch starts with. */
  lemma LanesAreStarted(y: Sys, b: nat, lanes: map<nat, seq<nat>>)
    requires Inv(y) && b in y.store.pending && LanesOfBatch(y.store, b, lanes)
    ensures Started(y.table, b, lanes)
  {
    hide Fifo, Uniform, LanesOk, HoldsOk, AttemptsOk;
    AgreesParts(y.store, y.table);
    assert y.store.pending[b] == y.table.batches[b];
    forall i: nat | true
      ensures Unprogressed(y.store, RowId(b, i)) <==> i < |y.store.pending[b].rows| && FreshFor(y.table, b, y.store.pending[b].rows[i].destination, i)
    {
      if RowId(b, i) in y.table.status {
        UnprogressedIsFresh(y.store, y.table, RowId(b, i));
      } else {
        assert !IsRow(y.table, RowId(b, i));
      }
    }
    hide Inv, Agrees, WellFormed, Unprogressed;
    StartedLanes(y.store, y.table, b, lanes);
  }

  lemma StartedLanes(s: Store, t: Table, b: nat, lanes: map<nat, seq<nat>>)
    requires b in s.pending && LanesOfBatch(s, b, lanes) && b in t.batches && s.pending[b] == t.batches[b]
    requires forall i: nat :: Unprogressed(s, RowId(b, i)) <==>
      i < |s.pending[b].rows| && FreshFor(t, b, s.pending[b].rows[i].destination, i)
    ensures Started(t, b, lanes)
  {
    hide Unprogressed, Ascending;
    forall d, i: nat | FreshFor(t, b, d, i)
      ensures d in lanes && i in lanes[d]
    {
      assert t.batches[b].rows[i].destination == d;
      assert Unprogressed(s, RowId(b, i));
    }
    forall d | d in lanes
      ensures IsLane(t, b, d, lanes[d])
    {
      forall i | i in lanes[d]
        ensures FreshFor(t, b, d, i)
      {
        assert Unprogressed(s, RowId(b, i));
      }
    }
  }

  // ---- the retry worker ----

  datatype RetryLoad = NotHead | Completed | Corrupt | Ready(batch: Batch)

  /** What the retry worker reads under the lock. A retry whose batch or row is gone is completed. */
  method LoadRetry(store: Keyspaces, retry: Retry) returns (loaded: RetryLoad)
    modifies store
    ensures var s := old(store.View());
      var batch := FindBatch(s, retry.batch);
      && loaded == (if !IsRetryHead(s, retry) then NotHead
                    else if batch.None? || retry.row >= |batch.value.rows| then Completed
                    else if batch.value.rows[retry.row].destination != retry.destination then Corrupt
                    else Ready(batch.value))
      && store.View() == if loaded.Completed? || loaded.Corrupt? then FinishRetry(s, retry) else s
  {
    var head := store.RetryIsDestinationHead(retry);
    if !head {
      return NotHead;
    }
    var found := if retry.batch in store.pending then Some(store.pending[retry.batch])
                 else if retry.batch in store.retained then Some(store.retained[retry.batch]) else None;
    if found.None? || retry.row >= |found.value.rows| {
      var done := store.CompleteRetry(retry);
      return Completed;
    }
    if found.value.rows[retry.row].destination != retry.destination {
      var done := store.CompleteRetry(retry);
      return Corrupt;
    }
    loaded := Ready(found.value);
  }

  function NextRetry(r: Retry, now: int, error: string): Retry {
    r.(attempts := r.attempts + 1, due := now + RetryDelay(r.attempts + 1), error := error)
  }

  function RetryLetter(r: Retry, result: SendResult, id: nat, failed: int, error: string): Letter {
    Letter(id, r.batch, r.row, r.destination, r.attempts + 1, r.created, failed, result.Permanent?, error)
  }

  /** What the retry worker writes once the send is over. */
  method FinishAttempt(store: Keyspaces, retry: Retry, batch: Batch, a: Attempt) returns (ok: bool)
    requires retry.row < |batch.rows|
    modifies store
    ensures var s := old(store.View());
      if ok then AttemptWritten(s, retry, batch, a, store.View())
      else store.View() == s && forall after :: !AttemptWritten(s, retry, batch, a, after)
    ensures a.result.Transient? && retry.attempts < 12 && a.now - retry.created < 86_400_000 && Current(old(store.View()), retry) ==>
      && ok && store.letters == old(store.letters)
      && exists x :: Current(store.View(), x) && x.id == retry.id && x.batch == retry.batch && x.row == retry.row && x.attempts == retry.attempts + 1
  {
    if a.result.Sent? {
      ok := store.CompleteRetryWithSuccess(retry, Some(Success(retry.row, batch.rows[retry.row])), a.now);
    } else if a.result.Skip? {
      ok := store.CompleteRetryWithSuccess(retry, None, a.now);
    } else if a.result.Transient? && retry.attempts < MAX_RETRY_ATTEMPTS && a.now - retry.created < MAX_RETRY_AGE_MS {
      ok := store.RescheduleRetry(retry, NextRetry(retry, a.now, a.error));
      assert ok ==> Current(store.View(), NextRetry(retry, a.now, a.error));
    } else {
      ok := store.DeadLetterRetry(retry, RetryLetter(retry, a.result, a.id, a.madeAt, a.error));
    }
  }

  /** What the retry worker writes when every check passes. */
  ghost predicate AttemptWritten(s: Store, r: Retry, batch: Batch, a: Attempt, after: Store)
    requires r.row < |batch.rows|
  {
    var success := if a.result.Sent? then Some(Success(r.row, batch.rows[r.row])) else None;
    if !a.result.Failed() then SuccessAccepted(s, r, success) && after == RetrySuccess(s, r, success, a.now)
    else
      && Current(s, r)
      && after == if Reattempt(r, a.result, a.now) then DeliverySpec.RescheduleRetry(s, r, NextRetry(r, a.now, a.error))
                  else RetryDead(s, r, RetryLetter(r, a.result, a.id, a.madeAt, a.error))
  }

  lemma WorkerMayCommit(y: Sys, d: nat, a: Attempt)
    requires d in y.holds && y.holds[d].RetryHold?
    requires forall x :: x in Letters(y.table) ==> x.id != a.id
    ensures var r := y.holds[d].retry;
      CanCommitRetry(y, d, a.result, NextRetry(r, a.now, a.error), RetryLetter(r, a.result, a.id, a.madeAt, a.error), a.now)
  {
    hide Letters;
  }

  /** From a reachable state the retry worker never meets a retry without its batch or row, and what it
      writes is the committed step of the state machine. */
  lemma WorkerTakesRetryStep(y: Sys, d: nat, a: Attempt)
    requires Inv(y) && d in y.holds && y.holds[d].RetryHold?
    requires forall x :: x in Letters(y.table) ==> x.id != a.id
    ensures var r := y.holds[d].retry;
      && FindBatch(y.store, r.batch).Some?
      && var batch := FindBatch(y.store, r.batch).value;
      && r.row < |batch.rows| && batch.rows[r.row].destination == r.destination
      && var next, letter := NextRetry(r, a.now, a.error), RetryLetter(r, a.result, a.id, a.madeAt, a.error);
      && CanCommitRetry(y, d, a.result, next, letter, a.now)
      && AttemptWritten(y.store, r, batch, a, RetryStep(y, d, a.result, next, letter, a.now).store)
  {
    HeldRetryIsReady(y, d);
    WorkerMayCommit(y, d, a);
    var r := y.holds[d].retry;
    assert RetryReady(y, r) && SuccessAccepted(y.store, r, SuccessOf(y, r, a.result));
    hide Inv, Letters, EarlierDone, CanCommitRetry;
    ReadyRetryWrites(y, d, a);
  }

  lemma ReadyRetryWrites(y: Sys, d: nat, a: Attempt)
    requires d in y.holds && y.holds[d].RetryHold? && RetryReady(y, y.holds[d].retry)
    requires SuccessAccepted(y.store, y.holds[d].retry, SuccessOf(y, y.holds[d].retry, a.result))
    ensures var r := y.holds[d].retry;
      && FindBatch(y.store, r.batch).Some?
      && var batch := FindBatch(y.store, r.batch).value;
      && r.row < |batch.rows| && batch.rows[r.row].destination == r.destination
      && var next, letter := NextRetry(r, a.now, a.error), RetryLetter(r, a.result, a.id, a.madeAt, a.error);
      && AttemptWritten(y.store, r, batch, a, RetryStep(y, d, a.result, next, letter, a.now).store)
  {
    hide WellFormed, Agrees, Current, SuccessAccepted, RetrySuccess, DeliverySpec.RescheduleRetry, RetryDead, FindBatch, NextRetry, RetryLetter, SetStatus;
  }

  /** A lane worker that holds its lock commits exactly the lane step: every check passes. */
  lemma WorkerTakesLaneStep(y: Sys, d: nat, attempts: seq<Attempt>, now: int)
    requires Inv(y) && d in y.holds && y.holds[d].LaneHold? && |attempts| == |y.holds[d].rows|
    requires y.holds[d].batch in y.table.batches && RowsOf(y.table.batches[y.holds[d].batch], y.holds[d].rows)
    requires CanCommitLane(y, d, Results(attempts), Statuses(y.table.batches[y.holds[d].batch], y.holds[d].rows, y.holds[d].head, attempts))
    ensures var h := y.holds[d];
      var batch := y.table.batches[h.batch];
      var statuses := Statuses(batch, h.rows, h.head, attempts);
      && h.batch in y.store.pending && y.store.pending[h.batch] == batch
      && LaneCommits(y, h, statuses, now, LaneStep(y, d, Results(attempts), statuses, now).store)
  {
    var h := y.holds[d];
    var statuses := Statuses(y.table.batches[h.batch], h.rows, h.head, attempts);
    assert HoldOk(y, d, h) && IsLane(y.table, h.batch, d, h.rows);
    hide *;
    LaneStepCommits(y, d, Results(attempts), statuses, now);
  }

  ghost predicate LaneCommits(y: Sys, h: Hold, statuses: seq<Status>, now: int, after: Store)
    requires h.LaneHold? && h.batch in y.table.batches
  {
    var batch := y.table.batches[h.batch];
    && AllName(batch, h.rows, statuses)
    && var lane := LaneOf(batch, h.rows, statuses);
    && LaneAccepted(y.store, h.batch, lane)
    && after == LaneCommit(y.store, h.batch, lane, now)
  }

  lemma LaneStepCommits(y: Sys, d: nat, results: seq<SendResult>, statuses: seq<Status>, now: int)
    requires CanCommitLane(y, d, results, statuses) && WellFormed(y.table) && Agrees(y.store, y.table)
    requires y.holds[d].batch in y.table.batches && IsLane(y.table, y.holds[d].batch, d, y.holds[d].rows)
    ensures var h := y.holds[d];
      && h.batch in y.store.pending && y.store.pending[h.batch] == y.table.batches[h.batch]
      && LaneCommits(y, h, statuses, now, LaneStep(y, d, results, statuses, now).store)
  {
    var h := y.holds[d];
    PlanNames(y.table.batches[h.batch], h.rows, h.head, results, statuses);
    LaneIsPending(y, h.batch, d, h.rows, statuses);
    LaneIsAccepted(y, h.batch, d, h.rows, statuses);
    hide WellFormed, Agrees, LaneAccepted, LaneCommit, LaneTable, LaneOf, Plan, AllName, IsLane, FreshRetries, FreshLetters;
  }
}
