/**
 What one destination lane does with its rows, before anything is committed.

 A lane takes the unprogressed rows of one destination in one batch. If its first row is the head of
 the destination's queue it sends the rows in order until one fails transiently; every later row, or
 every row when it is not the head, becomes a retry that has not been attempted.
 */
module LaneOutcome {
  import opened Records
  import opened DeliverySpec
  import opened RowTable

  const MAX_RETRY_ATTEMPTS: nat := 12
  const MAX_RETRY_AGE_MS: int := 86_400_000

  /** The result of one send: delivered, skipped by a guard, or failed. */
  datatype SendResult = Sent | Skip | Transient | Permanent
  {
    predicate Failed() { Transient? || Permanent? }
  }

  function Pow2(n: nat): nat {
    if n == 0 then 1 else 2 * Pow2(n - 1)
  }

  function RetryDelay(attempts: nat): int {
    var delay := 1_000 * Pow2(if attempts < 10 then attempts else 10);
    if delay < 900_000 then delay else 900_000
  }

  lemma {:induction false} Pow2Grows(n: nat)
    ensures Pow2(n) >= 1
    ensures n > 0 ==> Pow2(n) == 2 * Pow2(n - 1)
  {
    if n > 0 {
      Pow2Grows(n - 1);
    }
  }

  /** Waits start at one second and double up to 512 seconds for nine attempts; from ten on they are a
      quarter of an hour. */
  lemma RetryDelayBounds(attempts: nat)
    ensures 1_000 <= RetryDelay(attempts) <= 900_000
    ensures RetryDelay(attempts) <= RetryDelay(attempts + 1)
    ensures RetryDelay(0) == 1_000 && RetryDelay(1) == 2_000 && RetryDelay(9) == 512_000
    ensures attempts < 9 ==> RetryDelay(attempts + 1) == 2 * RetryDelay(attempts)
    ensures attempts >= 10 ==> RetryDelay(attempts) == 900_000
  {
    Pow2Grows(if attempts < 10 then attempts else 10);
    Pow2Grows(if attempts < 9 then attempts + 1 else 10);
    assert Pow2(5) == 32;
    assert Pow2(9) == 2 * 2 * 2 * 2 * Pow2(5);
    assert Pow2(10) == 2 * Pow2(9);
    if attempts < 9 { Pow2Below(attempts); }
  }

  lemma {:induction false} Pow2Below(n: nat)
    requires n <= 9
    ensures Pow2(n) <= Pow2(9) == 512
    decreases 9 - n
  {
    assert Pow2(5) == 32;
    assert Pow2(9) == 2 * 2 * 2 * 2 * Pow2(5);
    if n < 9 {
      Pow2Below(n + 1);
      Pow2Grows(n + 1);
    }
  }

  /** A row is blocked when the lane is not the head or an earlier row of it failed transiently. */
  ghost predicate Blocked(head: bool, results: seq<SendResult>, j: nat)
    requires j <= |results|
  {
    !head || exists k :: 0 <= k < j && results[k].Transient?
  }

  ghost predicate Attempted(head: bool, results: seq<SendResult>, j: nat)
    requires j <= |results|
  {
    !Blocked(head, results, j)
  }

  /** The status one row gets. */
  ghost predicate PlanRow(batch: Batch, i: nat, blocked: bool, result: SendResult, x: Status) {
    && i < |batch.rows|
    && !x.Fresh?
    && if blocked then
         x.Waiting? && RetryFits(batch, x.retry) && x.retry.row == i && x.retry.attempts == 0
       else match result
         case Sent => x == Done(Delivered)
         case Skip => x == Done(Skipped)
         case Transient => x.Waiting? && RetryFits(batch, x.retry) && x.retry.row == i && x.retry.attempts == 1
         case Permanent => x.Done? && x.outcome.Dead? && LetterFits(batch, x.outcome.letter)
                           && x.outcome.letter.row == i && x.outcome.letter.attempts == 1
  }

  ghost predicate Plan(batch: Batch, rows: seq<nat>, head: bool, results: seq<SendResult>, statuses: seq<Status>) {
    && |rows| == |results| == |statuses|
    && forall j :: 0 <= j < |rows| ==> PlanRow(batch, rows[j], Blocked(head, results, j), results[j], statuses[j])
  }

  /** Terminal outcomes form a prefix of the lane. */
  lemma TerminalPrefix(batch: Batch, rows: seq<nat>, head: bool, results: seq<SendResult>, statuses: seq<Status>, k: nat, j: nat)
    requires Plan(batch, rows, head, results, statuses)
    requires k <= j < |rows| && statuses[j].Done?
    ensures head && statuses[k].Done?
  {
    assert PlanRow(batch, rows[j], Blocked(head, results, j), results[j], statuses[j]);
    assert PlanRow(batch, rows[k], Blocked(head, results, k), results[k], statuses[k]);
  }

  // ---- the five lists the lane commits ----

  function AddOutcome(lane: Lane, batch: Batch, i: nat, x: Status): Lane
    requires i < |batch.rows|
  {
    var l := lane.(completed := lane.completed + [i]);
    match x
    case Fresh => l
    case Waiting(r) => l.(retries := l.retries + [r])
    case Done(Delivered) => l.(successes := l.successes + [Success(i, batch.rows[i])])
    case Done(Skipped) => l.(skipped := l.skipped + [i])
    case Done(Dead(d)) => l.(letters := l.letters + [d])
  }

  function LaneOf(batch: Batch, rows: seq<nat>, statuses: seq<Status>): Lane
    requires |rows| == |statuses| && forall j :: 0 <= j < |rows| ==> rows[j] < |batch.rows|
  {
    if rows == [] then Lane([], [], [], [], [])
    else AddOutcome(LaneOf(batch, rows[..|rows| - 1], statuses[..|rows| - 1]), batch, rows[|rows| - 1], statuses[|rows| - 1])
  }

  /** A record names the row it is about. */
  ghost predicate Names(batch: Batch, i: nat, x: Status) {
    && i < |batch.rows|
    && !x.Fresh?
    && (x.Waiting? ==> RetryFits(batch, x.retry) && x.retry.row == i)
    && (x.Done? && x.outcome.Dead? ==> LetterFits(batch, x.outcome.letter) && x.outcome.letter.row == i)
  }

  ghost predicate AllName(batch: Batch, rows: seq<nat>, statuses: seq<Status>) {
    |rows| == |statuses| && forall j :: 0 <= j < |rows| ==> Names(batch, rows[j], statuses[j])
  }

  lemma PlanNames(batch: Batch, rows: seq<nat>, head: bool, results: seq<SendResult>, statuses: seq<Status>)
    requires Plan(batch, rows, head, results, statuses)
    ensures AllName(batch, rows, statuses)
  {
    forall j | 0 <= j < |rows|
      ensures Names(batch, rows[j], statuses[j])
    {
      assert PlanRow(batch, rows[j], Blocked(head, results, j), results[j], statuses[j]);
    }
  }

  ghost predicate Recorded(lane: Lane, batch: Batch, i: nat, x: Status)
    requires i < |batch.rows|
  {
    match x
    case Fresh => false
    case Waiting(r) => r in lane.retries
    case Done(Delivered) => Success(i, batch.rows[i]) in lane.successes
    case Done(Skipped) => i in lane.skipped
    case Done(Dead(d)) => d in lane.letters
  }

  lemma OutcomeRowsGrow(lane: Lane, batch: Batch, i: nat, x: Status)
    requires Names(batch, i, x)
    ensures var l := AddOutcome(lane, batch, i, x);
      && |OutcomeRows(l)| == |OutcomeRows(lane)| + 1
      && Elements(OutcomeRows(l)) == Elements(OutcomeRows(lane)) + {i}
  {
    var l := AddOutcome(lane, batch, i, x);
    match x {
      case Waiting(r) => assert RetryRows(l.retries) == RetryRows(lane.retries) + [i];
      case Done(Delivered) => assert SuccessRows(l.successes) == SuccessRows(lane.successes) + [i];
      case Done(Skipped) =>
      case Done(Dead(d)) => assert LetterRows(l.letters) == LetterRows(lane.letters) + [i];
    }
  }

  ghost predicate RecordsFit(batch: Batch, lane: Lane) {
    && (forall x :: x in lane.successes ==> SuccessFits(batch, x))
    && (forall d :: d in lane.letters ==> LetterFits(batch, d))
    && (forall r :: r in lane.retries ==> RetryFits(batch, r))
  }

  lemma AddOutcomeFits(lane: Lane, batch: Batch, i: nat, x: Status)
    requires Names(batch, i, x) && RecordsFit(batch, lane)
    ensures RecordsFit(batch, AddOutcome(lane, batch, i, x))
    ensures AddOutcome(lane, batch, i, x).completed == lane.completed + [i]
  {
  }

  ghost predicate Covers(rows: seq<nat>, lane: Lane) {
    && lane.completed == rows
    && |OutcomeRows(lane)| == |rows|
    && Elements(OutcomeRows(lane)) == Elements(rows)
  }

  lemma AddOutcomeCovers(rows: seq<nat>, lane: Lane, batch: Batch, i: nat, x: Status)
    requires Covers(rows, lane) && Names(batch, i, x)
    ensures Covers(rows + [i], AddOutcome(lane, batch, i, x))
  {
    OutcomeRowsGrow(lane, batch, i, x);
    ElementsOfSnoc(rows, i);
    assert AddOutcome(lane, batch, i, x).completed == lane.completed + [i];
  }

  /** The five lists of a lane: everything the commit checks about them, and one record per row. */
  lemma {:induction false} LaneOfFits(batch: Batch, rows: seq<nat>, statuses: seq<Status>)
    requires AllName(batch, rows, statuses)
    ensures Covers(rows, LaneOf(batch, rows, statuses)) && RecordsFit(batch, LaneOf(batch, rows, statuses))
  {
    if rows == [] {
      assert OutcomeRows(LaneOf(batch, rows, statuses)) == [];
    } else {
      var n := |rows| - 1;
      assert rows == rows[..n] + [rows[n]];
      assert AllName(batch, rows[..n], statuses[..n]) && Names(batch, rows[n], statuses[n]);
      LaneOfFits(batch, rows[..n], statuses[..n]);
      var lane := LaneOf(batch, rows[..n], statuses[..n]);
      hide Covers, RecordsFit, AllName, Names, AddOutcome;
      AddOutcomeCovers(rows[..n], lane, batch, rows[n], statuses[n]);
      AddOutcomeFits(lane, batch, rows[n], statuses[n]);
    }
  }

  lemma {:induction false} LaneOfRecords(batch: Batch, rows: seq<nat>, statuses: seq<Status>, j: nat)
    requires AllName(batch, rows, statuses) && j < |rows|
    ensures Recorded(LaneOf(batch, rows, statuses), batch, rows[j], statuses[j])
  {
    var n := |rows| - 1;
    assert Names(batch, rows[n], statuses[n]);
    if j < n {
      assert AllName(batch, rows[..n], statuses[..n]);
      LaneOfRecords(batch, rows[..n], statuses[..n], j);
    }
  }

  lemma LaneOfDistinct(batch: Batch, rows: seq<nat>, statuses: seq<Status>)
    requires AllName(batch, rows, statuses) && Distinct(rows)
    ensures Distinct(OutcomeRows(LaneOf(batch, rows, statuses)))
  {
    LaneOfFits(batch, rows, statuses);
    CardinalityOfElements(rows);
    CardinalityOfElements(OutcomeRows(LaneOf(batch, rows, statuses)));
  }

  /** Committing the lists gives every row exactly the status that was planned for it. */
  lemma LaneOfStatus(batch: Batch, rows: seq<nat>, statuses: seq<Status>, j: nat)
    requires AllName(batch, rows, statuses) && Distinct(rows) && j < |rows|
    ensures LaneStatus(LaneOf(batch, rows, statuses), rows[j]) == statuses[j]
  {
    var lane := LaneOf(batch, rows, statuses);
    LaneOfDistinct(batch, rows, statuses);
    LaneStatusIsItsRecord(lane);
    LaneOfRecords(batch, rows, statuses, j);
    assert Names(batch, rows[j], statuses[j]);
    hide LaneOf, LaneStatus, Distinct, OutcomeRows;
  }
}
