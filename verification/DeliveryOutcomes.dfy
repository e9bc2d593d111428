/**
 How a send decides about its row, over whole runs and in plain numbers: what a lane makes of each of its
 rows, when a transient failure is tried again, and when a row is given up.
 */
module DeliveryOutcomes {
  import opened Records
  import opened DeliverySpec
  import opened RowTable
  import opened RowSteps
  import opened LaneOutcome
  import opened DeliveryRuns
  import opened DeliveryInvariant
  import opened DeliveryTheorems
  import opened DeliveryGuarantees
  import opened DeliveryWorker

  /** What one send of a retry makes of its row. A transient failure gives the row up exactly when it had
      failed twelve times before or the retry is a day old; otherwise the row waits under the same id
      with one more attempt. */
  ghost predicate RetryEnds(r: Retry, result: SendResult, now: int, x: Status) {
    match result
    case Sent => x == Done(Delivered)
    case Skip => x == Done(Skipped)
    case Permanent => x.Done? && x.outcome.Dead? && x.outcome.letter.attempts == r.attempts + 1
    case Transient =>
      if r.attempts >= 12 || now - r.created >= 86_400_000 then
        x.Done? && x.outcome.Dead? && x.outcome.letter.attempts == r.attempts + 1
      else
        && x.Waiting? && x.retry.id == r.id && x.retry.batch == r.batch && x.retry.row == r.row && x.retry.destination == r.destination
        && x.retry.attempts == r.attempts + 1 && x.retry.created == r.created
        && x.retry.due == now + RetryDelay(r.attempts + 1)
  }

  lemma RetryStatusEnds(r: Retry, result: SendResult, next: Retry, letter: Letter, now: int)
    requires Reattempt(r, result, now) ==> next == r.(attempts := r.attempts + 1, due := now + RetryDelay(r.attempts + 1), error := next.error)
    requires result.Failed() && !Reattempt(r, result, now) ==> letter.attempts == r.attempts + 1
    ensures RetryEnds(r, result, now, RetryStatus(r, result, next, letter, now))
  {
    hide RetryDelay;
  }

  /** In every run, what the commit of a retry makes of its row; its attempts are the row's failed sends. */
  lemma RetryDecides(ys: seq<Sys>, steps: seq<Step>, n: nat, d: nat, result: SendResult, next: Retry, letter: Letter, now: int)
    requires Reached(ys, steps, n) && n < |steps| && steps[n] == CommitRetry(d, result, next, letter, now)
    ensures d in ys[n].holds && ys[n].holds[d].RetryHold?
    ensures var r := ys[n].holds[d].retry;
      var id := RowId(r.batch, r.row);
      && r.attempts == Count(ys[n].failures, id)
      && id in ys[n + 1].table.status && RetryEnds(r, result, now, ys[n + 1].table.status[id])
  {
    RunKeepsInv(ys, steps, n);
    assert Enabled(ys[n], steps[n]) && ys[n + 1] == Apply(ys[n], steps[n]);
    hide Reached, Inv, RetryStep, CanCommitRetry, RetryEnds;
    RetryStepDecides(ys[n], d, result, next, letter, now);
  }

  lemma RetryStepDecides(y: Sys, d: nat, result: SendResult, next: Retry, letter: Letter, now: int)
    requires Inv(y) && CanCommitRetry(y, d, result, next, letter, now)
    ensures d in y.holds && y.holds[d].RetryHold?
    ensures var r := y.holds[d].retry;
      var id := RowId(r.batch, r.row);
      var t' := RetryStep(y, d, result, next, letter, now).table;
      r.attempts == Count(y.failures, id) && id in t'.status && RetryEnds(r, result, now, t'.status[id])
  {
    HeldRetryIsReady(y, d);
    assert AttemptsOk(y);
    hide Inv, RetryStep, Letters, EarlierDone, RetryEnds, AttemptsOk, SetStatus, RetryStatus, WellFormed, Agrees, Reattempt, FindBatch, SuccessAccepted;
    var r := y.holds[d].retry;
    RetryStepFrame(y, d, result, next, letter, now);
    SetHere(y.table, IdOf(r), RetryStatus(r, result, next, letter, now));
    AttemptsAreFailures(y, r);
    MayCommitEnds(y, d, result, next, letter, now);
  }

  lemma MayCommitEnds(y: Sys, d: nat, result: SendResult, next: Retry, letter: Letter, now: int)
    requires CanCommitRetry(y, d, result, next, letter, now)
    ensures RetryEnds(y.holds[d].retry, result, now, RetryStatus(y.holds[d].retry, result, next, letter, now))
  {
    hide RetryEnds, RetryStatus, Reattempt, Letters, RetryDelay;
    RetryStatusEnds(y.holds[d].retry, result, next, letter, now);
  }

  lemma AttemptsAreFailures(y: Sys, r: Retry)
    requires AttemptsOk(y) && IdOf(r) in y.table.status && y.table.status[IdOf(r)] == Waiting(r)
    ensures r.attempts == Count(y.failures, IdOf(r))
  {
    assert AttemptOk(y.table.status[IdOf(r)], Count(y.failures, IdOf(r)));
  }

  lemma SetHere(t: Table, id: RowId, x: Status)
    ensures id in SetStatus(t, id, x).status && SetStatus(t, id, x).status[id] == x
  {
  }

  /** What a lane makes of row j of its rows: nothing is sent unless the lane is the head of the queue and
      no earlier row of it failed transiently. */
  ghost predicate LaneEnds(batch: Batch, rows: seq<nat>, head: bool, results: seq<SendResult>, j: nat, x: Status)
    requires j < |rows| == |results|
  {
    if !head || exists k :: 0 <= k < j && results[k].Transient? then
      x.Waiting? && x.retry.attempts == 0 && x.retry.batch == batch.id && x.retry.row == rows[j]
    else
      match results[j]
      case Sent => x == Done(Delivered)
      case Skip => x == Done(Skipped)
      case Transient => x.Waiting? && x.retry.attempts == 1 && x.retry.batch == batch.id && x.retry.row == rows[j]
      case Permanent => x.Done? && x.outcome.Dead? && x.outcome.letter.attempts == 1 && x.outcome.letter.row == rows[j]
  }

  /** In every run, what the commit of a lane makes of each of its rows. */
  lemma LaneDecides(ys: seq<Sys>, steps: seq<Step>, n: nat, d: nat, results: seq<SendResult>, statuses: seq<Status>, now: int, j: nat)
    requires Reached(ys, steps, n) && n < |steps| && steps[n] == CommitLane(d, results, statuses, now)
    ensures d in ys[n].holds && ys[n].holds[d].LaneHold? && ys[n].holds[d].batch in ys[n].table.batches
    ensures var h := ys[n].holds[d];
      && |h.rows| == |results|
      && (j < |results| ==>
            && RowId(h.batch, h.rows[j]) in ys[n + 1].table.status
            && LaneEnds(ys[n].table.batches[h.batch], h.rows, h.head, results, j, ys[n + 1].table.status[RowId(h.batch, h.rows[j])]))
  {
    RunKeepsInv(ys, steps, n);
    assert Enabled(ys[n], steps[n]) && ys[n + 1] == Apply(ys[n], steps[n]);
    hide Reached, Inv, LaneStep, CanCommitLane, LaneEnds;
    LaneStepDecides(ys[n], d, results, statuses, now, j);
  }

  lemma LaneStepDecides(y: Sys, d: nat, results: seq<SendResult>, statuses: seq<Status>, now: int, j: nat)
    requires Inv(y) && CanCommitLane(y, d, results, statuses)
    ensures d in y.holds && y.holds[d].LaneHold? && y.holds[d].batch in y.table.batches && |y.holds[d].rows| == |results|
    ensures var h, t' := y.holds[d], LaneStep(y, d, results, statuses, now).table;
      j < |results| ==>
        && RowId(h.batch, h.rows[j]) in t'.status
        && LaneEnds(y.table.batches[h.batch], h.rows, h.head, results, j, t'.status[RowId(h.batch, h.rows[j])])
  {
    assert HoldOk(y, d, y.holds[d]);
    hide Inv, LaneTable, LaneOf, LaneAccepted, LaneCommit, FreshRetries, FreshLetters, Live, Letters, FailedRows, AddFailures, EarlierDone, LaneEnds;
    var h := y.holds[d];
    var batch := y.table.batches[h.batch];
    if j < |results| {
      PlanNames(batch, h.rows, h.head, results, statuses);
      LaneRows(y.table, h.batch, d, h.rows);
      hide Plan, AllName, IsLane, Distinct;
      LaneStatuses(y.table, h.batch, h.rows, statuses);
      PlannedEnds(batch, h.rows, h.head, results, statuses, j);
    }
  }

  lemma LaneRows(t: Table, b: nat, d: nat, rows: seq<nat>)
    requires IsLane(t, b, d, rows)
    ensures Distinct(rows) && forall i :: i in rows ==> RowId(b, i) in t.status
  {
    AscendingIsDistinct(rows);
    assert forall i :: i in rows ==> FreshFor(t, b, d, i);
  }

  lemma PlannedEnds(batch: Batch, rows: seq<nat>, head: bool, results: seq<SendResult>, statuses: seq<Status>, j: nat)
    requires Plan(batch, rows, head, results, statuses) && j < |rows|
    ensures LaneEnds(batch, rows, head, results, j, statuses[j])
  {
    assert PlanRow(batch, rows[j], Blocked(head, results, j), results[j], statuses[j]);
  }

  /** What the retry worker stores after one send of a current retry, in the keyspaces themselves. */
  lemma WrittenAttempt(s: Store, r: Retry, batch: Batch, a: Attempt, after: Store)
    requires r.row < |batch.rows| && AttemptWritten(s, r, batch, a, after)
    ensures a.result.Transient? && r.attempts < 12 && a.now - r.created < 86_400_000 ==>
      && after.letters == s.letters && after.queue == s.queue
      && exists x :: Current(after, x) && x.id == r.id && x.batch == r.batch && x.row == r.row && x.destination == r.destination
                     && x.attempts == r.attempts + 1 && x.created == r.created
    ensures a.result.Permanent? || (a.result.Transient? && (r.attempts >= 12 || a.now - r.created >= 86_400_000)) ==>
      && !Current(after, r) && SlotOf(r) !in after.queue
      && exists k :: k in after.letters && after.letters[k].id == a.id && after.letters[k].batch == r.batch && after.letters[k].row == r.row
                     && after.letters[k].attempts == r.attempts + 1 && after.letters[k].permanent == a.result.Permanent?
                     && after.letters[k].destination == r.destination && after.letters[k].created == r.created
                     && after.letters[k].failed == a.madeAt && after.letters[k].error == a.error
    ensures !a.result.Failed() ==> !Current(after, r) && SlotOf(r) !in after.queue && after.letters == s.letters
  {
    hide RetryDelay;
    if a.result.Transient? && r.attempts < 12 && a.now - r.created < 86_400_000 {
      assert Current(after, NextRetry(r, a.now, a.error));
    } else if a.result.Failed() {
      var l := RetryLetter(r, a.result, a.id, a.madeAt, a.error);
      assert LetterKeyOf(l) in after.letters && after.letters[LetterKeyOf(l)] == l;
    }
  }
}
