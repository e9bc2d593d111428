/**
 Runs of the delivery pipeline: match commits, delivery lanes and the retry worker interleave, each
 destination behind its own lock. A lane or retry reads when it takes the lock and writes when it
 commits; any step of another destination, and any match commit, may come between.
 */
module DeliveryRuns {
  import opened Records
  import opened DeliverySpec
  import opened RowTable
  import opened RowSteps
  import opened LaneOutcome

  datatype Hold = LaneHold(batch: nat, rows: seq<nat>, head: bool) | RetryHold(retry: Retry)

  /** `lanes` are the delivery batches being processed, with the lanes that have not taken their lock
      yet; `holds` is what the holder of each destination lock has read. `table` and `failures` are
      history: the status of every row, and how many of its committed sends failed. */
  datatype Sys = Sys(
    store: Store, table: Table, lanes: map<nat, map<nat, seq<nat>>>, holds: map<nat, Hold>,
    failures: map<RowId, nat>)

  datatype Step =
    | CommitMatch(batches: seq<Batch>)
    | StartBatch(batch: nat, started: map<nat, seq<nat>>)
    | LockLane(batch: nat, destination: nat)
    | CommitLane(destination: nat, results: seq<SendResult>, statuses: seq<Status>, now: int)
    | EndBatch(batch: nat)
    | LockRetry(retry: Retry)
    | CommitRetry(destination: nat, result: SendResult, next: Retry, letter: Letter, now: int)
    | Crash(lanes: map<nat, map<nat, seq<nat>>>, held: set<nat>)
    | Forget(gone: set<LedgerKey>)

  function Count(f: map<RowId, nat>, id: RowId): nat {
    if id in f then f[id] else 0
  }

  // ---- rows of one destination ----

  ghost predicate Before(t: Table, a: RowId, b: RowId) {
    && IsRow(t, a) && IsRow(t, b)
    && Destination(t, a) == Destination(t, b)
    && (a.batch < b.batch || (a.batch == b.batch && a.row < b.row))
  }

  ghost predicate Ascending(rows: seq<nat>) {
    forall j, k :: 0 <= j < k < |rows| ==> rows[j] < rows[k]
  }

  ghost predicate FreshFor(t: Table, b: nat, d: nat, i: nat) {
    RowId(b, i) in t.status && t.status[RowId(b, i)].Fresh? && IsRow(t, RowId(b, i)) && Destination(t, RowId(b, i)) == d
  }

  /** The rows are the unprogressed rows of the destination in the batch, in order. */
  ghost predicate IsLane(t: Table, b: nat, d: nat, rows: seq<nat>) {
    && rows != []
    && Ascending(rows)
    && forall i :: i in rows <==> FreshFor(t, b, d, i)
  }

  ghost predicate EarlierDone(t: Table, id: RowId) {
    forall a :: a in t.status && Before(t, a, id) ==> t.status[a].Done?
  }

  // ---- steps ----

  ghost predicate CanCommitMatch(y: Sys, batches: seq<Batch>) {
    && Distinct(BatchIds(batches))
    && (forall b :: b in batches ==> b.rows != [])
    && (forall b, x :: b in batches && x in y.table.batches ==> x < b.id)
  }

  /** The lanes of a batch when its processing starts: one for each destination with unprogressed rows. */
  ghost predicate Started(t: Table, b: nat, started: map<nat, seq<nat>>) {
    && (forall d :: d in started ==> IsLane(t, b, d, started[d]))
    && (forall d, i :: FreshFor(t, b, d, i) ==> d in started)
  }

  ghost predicate CanCommitLane(y: Sys, d: nat, results: seq<SendResult>, statuses: seq<Status>) {
    && d in y.holds && y.holds[d].LaneHold?
    && var h := y.holds[d];
    && h.batch in y.table.batches
    && Plan(y.table.batches[h.batch], h.rows, h.head, results, statuses)
    && (PlanNames(y.table.batches[h.batch], h.rows, h.head, results, statuses);
        var lane := LaneOf(y.table.batches[h.batch], h.rows, statuses);
        FreshRetries(Live(y.table), lane.retries) && FreshLetters(Letters(y.table), lane.letters))
  }

  /** The retry decision: another attempt within the budget, otherwise a dead letter. */
  predicate Reattempt(r: Retry, result: SendResult, now: int) {
    result.Transient? && r.attempts < MAX_RETRY_ATTEMPTS && now - r.created < MAX_RETRY_AGE_MS
  }

  ghost predicate CanCommitRetry(y: Sys, d: nat, result: SendResult, next: Retry, letter: Letter, now: int) {
    && d in y.holds && y.holds[d].RetryHold?
    && var r := y.holds[d].retry;
    && (Reattempt(r, result, now) ==>
          next == r.(attempts := r.attempts + 1, due := now + RetryDelay(r.attempts + 1), error := next.error))
    && (result.Failed() && !Reattempt(r, result, now) ==>
          && LetterMatches(r, letter) && letter.attempts == r.attempts + 1
          && forall x :: x in Letters(y.table) ==> x.id != letter.id)
  }

  ghost predicate CanStart(y: Sys, b: nat, started: map<nat, seq<nat>>) {
    b in y.store.pending && b !in y.lanes && Started(y.table, b, started)
  }

  predicate CanLockLane(y: Sys, b: nat, d: nat) {
    b in y.lanes && d in y.lanes[b] && d !in y.holds && y.lanes[b][d] != []
  }

  ghost predicate CanEnd(y: Sys, b: nat) {
    b in y.lanes && y.lanes[b] == map[] && forall d :: d in y.holds && y.holds[d].LaneHold? ==> y.holds[d].batch != b
  }

  predicate CanLockRetry(y: Sys, r: Retry) {
    r.destination !in y.holds && IsRetryHead(y.store, r)
  }

  /** A failure drops any lanes and any locks and keeps the rest; a lane that keeps its lock still belongs
      to a batch in progress. A crash of the whole program keeps nothing. */
  ghost predicate CanCrash(y: Sys, lanes: map<nat, map<nat, seq<nat>>>, held: set<nat>) {
    && held <= y.holds.Keys
    && (forall b :: b in lanes ==> b in y.lanes)
    && (forall b, d :: b in lanes && d in lanes[b] ==> d in y.lanes[b] && lanes[b][d] == y.lanes[b][d])
    && (forall d :: d in held && y.holds[d].LaneHold? ==> y.holds[d].batch in lanes)
  }

  ghost predicate Enabled(y: Sys, step: Step) {
    match step
    case CommitMatch(batches) => CanCommitMatch(y, batches)
    case StartBatch(b, started) => CanStart(y, b, started)
    case LockLane(b, d) => CanLockLane(y, b, d)
    case CommitLane(d, results, statuses, now) => CanCommitLane(y, d, results, statuses)
    case EndBatch(b) => CanEnd(y, b)
    case LockRetry(r) => CanLockRetry(y, r)
    case CommitRetry(d, result, next, letter, now) => CanCommitRetry(y, d, result, next, letter, now)
    case Crash(lanes, held) => CanCrash(y, lanes, held)
    case Forget(_) => true
  }

  function MatchStep(y: Sys, batches: seq<Batch>): Sys {
    y.(store := AddBatches(y.store, batches), table := AddAllToTable(y.table, batches))
  }

  function LockLaneStep(y: Sys, b: nat, d: nat): Sys
    requires CanLockLane(y, b, d)
  {
    y.(lanes := y.lanes[b := y.lanes[b] - {d}],
       holds := y.holds[d := LaneHold(b, y.lanes[b][d], IsHead(y.store, Slot(d, b, y.lanes[b][d][0])))])
  }

  function LockRetryStep(y: Sys, r: Retry): Sys {
    y.(holds := y.holds[r.destination := RetryHold(r)])
  }

  ghost function FailedRows(h: Hold, results: seq<SendResult>): set<RowId>
    requires h.LaneHold? && |h.rows| == |results|
  {
    set j | 0 <= j < |results| && Attempted(h.head, results, j) && results[j].Failed() :: RowId(h.batch, h.rows[j])
  }

  ghost function AddFailures(f: map<RowId, nat>, ids: set<RowId>): map<RowId, nat> {
    f + map id | id in ids :: Count(f, id) + 1
  }

  ghost function LaneStep(y: Sys, d: nat, results: seq<SendResult>, statuses: seq<Status>, now: int): Sys
    requires CanCommitLane(y, d, results, statuses)
  {
    var h := y.holds[d];
    PlanNames(y.table.batches[h.batch], h.rows, h.head, results, statuses);
    var lane := LaneOf(y.table.batches[h.batch], h.rows, statuses);
    y.(store := if LaneAccepted(y.store, h.batch, lane) then LaneCommit(y.store, h.batch, lane, now) else y.store,
       table := LaneTable(y.table, h.batch, lane),
       holds := y.holds - {d},
       failures := AddFailures(y.failures, FailedRows(h, results)))
  }

  function SuccessOf(y: Sys, r: Retry, result: SendResult): Option<Success> {
    if result.Sent? && IsRow(y.table, IdOf(r)) then Some(Success(r.row, y.table.batches[r.batch].rows[r.row])) else None
  }

  function RetryStep(y: Sys, d: nat, result: SendResult, next: Retry, letter: Letter, now: int): Sys
    requires d in y.holds && y.holds[d].RetryHold?
  {
    var r := y.holds[d].retry;
    var id := IdOf(r);
    var freed := y.(holds := y.holds - {d});
    if !result.Failed() then
      freed.(store := if SuccessAccepted(y.store, r, SuccessOf(y, r, result))
                      then RetrySuccess(y.store, r, SuccessOf(y, r, result), now) else y.store,
             table := SetStatus(y.table, id, Done(if result.Sent? then Delivered else Skipped)))
    else if Reattempt(r, result, now) then
      freed.(store := RescheduleRetry(y.store, r, next),
             table := SetStatus(y.table, id, Waiting(next)),
             failures := y.failures[id := Count(y.failures, id) + 1])
    else
      freed.(store := RetryDead(y.store, r, letter),
             table := SetStatus(y.table, id, Done(Dead(letter))),
             failures := y.failures[id := Count(y.failures, id) + 1])
  }

  ghost function CrashStep(y: Sys, lanes: map<nat, map<nat, seq<nat>>>, held: set<nat>): Sys
    requires CanCrash(y, lanes, held)
  {
    y.(lanes := lanes, holds := map d | d in held :: y.holds[d])
  }

  /** Retention takes entries out of the ledger. */
  function ForgetStep(y: Sys, gone: set<LedgerKey>): Sys {
    y.(store := y.store.(ledger := y.store.ledger - gone))
  }

  ghost function Apply(y: Sys, step: Step): Sys
    requires Enabled(y, step)
  {
    match step
    case CommitMatch(batches) => MatchStep(y, batches)
    case StartBatch(b, started) => y.(lanes := y.lanes[b := started])
    case LockLane(b, d) => LockLaneStep(y, b, d)
    case CommitLane(d, results, statuses, now) => LaneStep(y, d, results, statuses, now)
    case EndBatch(b) => y.(lanes := y.lanes - {b})
    case LockRetry(r) => LockRetryStep(y, r)
    case CommitRetry(d, result, next, letter, now) => RetryStep(y, d, result, next, letter, now)
    case Crash(lanes, held) => CrashStep(y, lanes, held)
    case Forget(gone) => ForgetStep(y, gone)
  }

  // ---- the invariant ----

  /** No row is terminal while an earlier row of its destination is not. */
  ghost predicate Fifo(t: Table) {
    forall a, b :: a in t.status && b in t.status && Before(t, a, b) && t.status[b].Done? ==> t.status[a].Done?
  }

  /** A lane progresses all rows of its destination at once. */
  ghost predicate Uniform(t: Table) {
    forall b, i, j :: RowId(b, i) in t.status && RowId(b, j) in t.status && IsRow(t, RowId(b, i)) && IsRow(t, RowId(b, j))
                      && Destination(t, RowId(b, i)) == Destination(t, RowId(b, j)) && t.status[RowId(b, i)].Fresh?
                      ==> t.status[RowId(b, j)].Fresh?
  }

  ghost predicate LanesOk(y: Sys) {
    forall b, d :: b in y.lanes && d in y.lanes[b] ==> IsLane(y.table, b, d, y.lanes[b][d])
  }

  ghost predicate HoldOk(y: Sys, d: nat, h: Hold) {
    match h
    case LaneHold(b, rows, head) =>
      && IsLane(y.table, b, d, rows)
      && b in y.lanes && d !in y.lanes[b]
      && (head ==> EarlierDone(y.table, RowId(b, rows[0])))
    case RetryHold(r) =>
      && r.destination == d
      && IdOf(r) in y.table.status && y.table.status[IdOf(r)] == Waiting(r)
      && IsRow(y.table, IdOf(r)) && Destination(y.table, IdOf(r)) == d
      && EarlierDone(y.table, IdOf(r))
  }

  ghost predicate HoldsOk(y: Sys) {
    forall d :: d in y.holds ==> HoldOk(y, d, y.holds[d])
  }

  /** The attempts stored in a retry or dead letter are exactly the row's failed sends. A row that ends
      well failed at most 12 times before, so no row is sent more than 13 times. */
  predicate AttemptOk(x: Status, failed: nat) {
    match x
    case Fresh => failed == 0
    case Waiting(r) => r.attempts == failed && failed <= MAX_RETRY_ATTEMPTS
    case Done(Dead(d)) => d.attempts == failed && failed <= MAX_RETRY_ATTEMPTS + 1
    case Done(_) => failed <= MAX_RETRY_ATTEMPTS
  }

  ghost predicate AttemptsOk(y: Sys) {
    forall id :: id in y.table.status ==> AttemptOk(y.table.status[id], Count(y.failures, id))
  }

  ghost predicate Inv(y: Sys) {
    && WellFormed(y.table)
    && Agrees(y.store, y.table)
    && Fifo(y.table)
    && Uniform(y.table)
    && LanesOk(y)
    && HoldsOk(y)
    && AttemptsOk(y)
    && (forall id :: id in y.failures ==> id in y.table.status)
  }

  const EmptyStore := Store(map[], map[], map[], {}, map[], map[], map[], map[], map[])
  const Initial := Sys(EmptyStore, Table(map[], map[]), map[], map[], map[])

  lemma InitialInv()
    ensures Inv(Initial)
  {
  }
}
