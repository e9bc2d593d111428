/** What holds in every run of the delivery pipeline, stated on the keyspaces themselves. */
module DeliveryTheorems {
  import opened Records
  import opened DeliverySpec
  import opened RowTable
  import opened RowSteps
  import opened LaneOutcome
  import opened DeliveryRuns
  import opened DeliveryInvariant

  /** A run: each state follows from the one before by an enabled step. */
  ghost predicate Run(ys: seq<Sys>, steps: seq<Step>) {
    && |ys| == |steps| + 1
    && forall i :: 0 <= i < |steps| ==> Enabled(ys[i], steps[i]) && ys[i + 1] == Apply(ys[i], steps[i])
  }

  /** The invariant holds in every state of every run that starts empty. */
  lemma {:induction false} RunKeepsInv(ys: seq<Sys>, steps: seq<Step>, n: nat)
    requires Run(ys, steps) && ys[0] == Initial && n < |ys|
    ensures Inv(ys[n])
  {
    hide Inv, Enabled, Apply;
    if n == 0 {
      InitialInv();
    } else {
      RunKeepsInv(ys, steps, n - 1);
      StepKeepsInv(ys[n - 1], steps[n - 1]);
    }
  }

  // ---- conservation ----

  /** The row waits in a pending batch and the progress bitmap does not hold it. */
  predicate Unprogressed(s: Store, id: RowId) {
    id.batch in s.pending && id.row < |s.pending[id.batch].rows| && id.row !in Progress(s, id.batch)
  }

  ghost predicate HasLiveRetry(s: Store, id: RowId) {
    exists k :: k in s.retries && IdOf(s.retries[k]) == id
  }

  predicate Queued(s: Store, t: Table, id: RowId)
    requires IsRow(t, id)
  {
    Slot(Destination(t, id), id.batch, id.row) in s.queue
  }

  lemma UnprogressedIsFresh(s: Store, t: Table, id: RowId)
    requires WellFormed(t) && BatchesAgree(s, t) && ProgressAgrees(s, t) && id in t.status
    ensures Unprogressed(s, id) <==> t.status[id].Fresh?
  {
    assert id == RowId(id.batch, id.row);
    assert IsRow(t, id);
    hide WellFormed, HasWaiting;
    if t.status[id].Fresh? {
      assert HasFresh(t, id.batch);
      assert id.row !in Progress(s, id.batch);
    }
    if Unprogressed(s, id) {
      assert id.row in Progress(s, id.batch) <==> !t.status[RowId(id.batch, id.row)].Fresh?;
    }
  }

  lemma LiveRetryIsWaiting(s: Store, t: Table, id: RowId)
    requires WellFormed(t) && RetriesImage(s.retries, Live(t)) && id in t.status
    ensures HasLiveRetry(s, id) <==> t.status[id].Waiting?
    ensures forall k, l :: k in s.retries && l in s.retries && IdOf(s.retries[k]) == id && IdOf(s.retries[l]) == id ==> k == l
  {
    forall k | k in s.retries && IdOf(s.retries[k]) == id
      ensures t.status[id] == Waiting(s.retries[k])
    {
      LiveIsWaiting(t, s.retries[k]);
    }
    if t.status[id].Waiting? {
      assert StatusFits(t, id, t.status[id]);
      assert t.status[id].retry in Live(t);
    }
  }

  /** Each row of each batch ever committed is in exactly one place: unprogressed in a pending batch,
      named by one live retry, or terminal. The queue holds exactly the rows that are not terminal. */
  lemma RowConservation(y: Sys, id: RowId)
    requires Inv(y) && id in y.table.status
    ensures IsRow(y.table, id)
    ensures Unprogressed(y.store, id) <==> y.table.status[id].Fresh?
    ensures HasLiveRetry(y.store, id) <==> y.table.status[id].Waiting?
    ensures Queued(y.store, y.table, id) <==> !y.table.status[id].Done?
    ensures forall k, l :: k in y.store.retries && l in y.store.retries && IdOf(y.store.retries[k]) == id && IdOf(y.store.retries[l]) == id ==> k == l
  {
    assert RetryImage(y.store, Live(y.table)) && (id in y.table.status <==> IsRow(y.table, id));
    hide Inv, WellFormed, Agrees, Live, RetriesImage, DestinationImage, BatchImage;
    AgreesParts(y.store, y.table);
    UnprogressedIsFresh(y.store, y.table, id);
    LiveRetryIsWaiting(y.store, y.table, id);
    QueuedIsLive(y.store, y.table, id);
  }

  lemma QueuedIsLive(s: Store, t: Table, id: RowId)
    requires QueueAgrees(s, t) && id in t.status && IsRow(t, id)
    ensures Queued(s, t, id) <==> !t.status[id].Done?
  {
    var e := Slot(Destination(t, id), id.batch, id.row);
    assert RowId(e.batch, e.row) == id;
  }

  /** The dead letter keyspace holds one record for each dead-lettered row and nothing else. */
  lemma DeadLetteredOnce(y: Sys, k: LetterKey)
    requires Inv(y) && k in y.store.letters
    ensures var d := y.store.letters[k];
      var id := RowId(d.batch, d.row);
      id in y.table.status && y.table.status[id] == Done(Dead(d))
    ensures forall l :: l in y.store.letters && l != k ==>
      RowId(y.store.letters[l].batch, y.store.letters[l].row) != RowId(y.store.letters[k].batch, y.store.letters[k].row)
  {
    var t := y.table;
    assert LetterImage(y.store.letters, Letters(t));
    forall l | l in y.store.letters
      ensures var d := y.store.letters[l];
        var id := RowId(d.batch, d.row);
        id in t.status && t.status[id] == Done(Dead(d))
    {
      LetterIsDead(t, y.store.letters[l]);
    }
    hide Inv, Letters;
  }

  lemma LetterIsDead(t: Table, d: Letter)
    requires WellFormed(t) && d in Letters(t)
    ensures RowId(d.batch, d.row) in t.status && t.status[RowId(d.batch, d.row)] == Done(Dead(d))
  {
    var id :| id in t.status && t.status[id].Done? && t.status[id].outcome.Dead? && t.status[id].outcome.letter == d;
    assert StatusFits(t, id, t.status[id]);
    assert id == RowId(d.batch, d.row);
  }

  // ---- terminal for good, in order ----

  lemma StepKeepsDone(y: Sys, step: Step, id: RowId)
    requires Inv(y) && Enabled(y, step) && id in y.table.status && y.table.status[id].Done?
    ensures id in Apply(y, step).table.status && Apply(y, step).table.status[id] == y.table.status[id]
  {
    hide Inv, CanCommitMatch, CanStart, CanLockLane, CanEnd, CanLockRetry, MatchStep, LaneStep, RetryStep, CanCommitLane, CanCommitRetry;
    match step {
      case CommitMatch(batches) => CommitMatchKeeps(y, batches);
      case CommitLane(d, results, statuses, now) => LaneStepKeeps(y, d, results, statuses, now);
      case CommitRetry(d, result, next, letter, now) => RetryStepKeeps(y, d, result, next, letter, now);
      case _ =>
    }
  }

  /** A terminal row keeps its outcome for the rest of the run. */
  lemma {:induction false} DoneForever(ys: seq<Sys>, steps: seq<Step>, i: nat, j: nat, id: RowId)
    requires Run(ys, steps) && ys[0] == Initial && i <= j < |ys|
    requires id in ys[i].table.status && ys[i].table.status[id].Done?
    ensures id in ys[j].table.status && ys[j].table.status[id] == ys[i].table.status[id]
  {
    hide Inv, Enabled, Apply;
    if i < j {
      DoneForever(ys, steps, i, j - 1, id);
      RunKeepsInv(ys, steps, j - 1);
      StepKeepsDone(ys[j - 1], steps[j - 1], id);
    }
  }

  /** Per-destination order: when a row becomes terminal, every earlier row of its destination, in any
      batch, already is or becomes so in the same commit, and stays so. */
  lemma FirstInFirstOut(ys: seq<Sys>, steps: seq<Step>, i: nat, j: nat, a: RowId, b: RowId)
    requires Run(ys, steps) && ys[0] == Initial && i <= j < |ys|
    requires a in ys[j].table.status && b in ys[i].table.status && Before(ys[j].table, a, b)
    requires ys[i].table.status[b].Done?
    ensures a in ys[i].table.status && ys[i].table.status[a].Done?
    ensures ys[j].table.status[a] == ys[i].table.status[a]
  {
    EarlierRowsExist(ys, steps, i, j, a, b);
    RunKeepsInv(ys, steps, i);
    DoneForever(ys, steps, i, j, a);
  }

  lemma StepKeepsEarlier(y: Sys, step: Step, a: RowId, b: RowId)
    requires Inv(y) && Enabled(y, step) && b in y.table.status
    requires a in Apply(y, step).table.status && Before(Apply(y, step).table, a, b)
    ensures a in y.table.status && Before(y.table, a, b)
  {
    hide Inv, Before, CanCommitMatch, CanStart, CanLockLane, CanEnd, CanLockRetry, CanCommitLane, CanCommitRetry, CanCrash, MatchStep, LaneStep, RetryStep;
    match step {
      case CommitMatch(batches) => MatchKeepsEarlier(y, batches, a, b);
      case CommitLane(d, results, statuses, now) =>
        LaneStepKeeps(y, d, results, statuses, now);
        SameBatchesSameOrder(y.table, Apply(y, step).table, a, b);
      case CommitRetry(d, result, next, letter, now) =>
        RetryStepKeeps(y, d, result, next, letter, now);
        SameBatchesSameOrder(y.table, Apply(y, step).table, a, b);
      case _ =>
    }
  }

  lemma SameBatchesSameOrder(t: Table, t': Table, a: RowId, b: RowId)
    requires t'.batches == t.batches && Before(t', a, b)
    ensures Before(t, a, b)
  {
  }

  lemma MatchKeepsEarlier(y: Sys, batches: seq<Batch>, a: RowId, b: RowId)
    requires Inv(y) && CanCommitMatch(y, batches) && b in y.table.status
    requires a in MatchStep(y, batches).table.status && Before(MatchStep(y, batches).table, a, b)
    ensures a in y.table.status && Before(y.table, a, b)
  {
    hide Agrees, Fifo, Uniform, LanesOk, HoldsOk, AttemptsOk, AddAllToTable, AddBatches;
    assert WellFormed(y.table) && b.batch in y.table.batches && IsRow(y.table, b);
    CommitMatchKeeps(y, batches);
    if a !in y.table.status {
      MatchBatches(y.table, batches, a.batch);
      assert false;
    }
    assert IsRow(y.table, a);
  }

  lemma MatchBatches(t: Table, batches: seq<Batch>, x: nat)
    requires WellFormed(t) && Distinct(BatchIds(batches)) && forall b :: b in batches ==> b.rows != []
    requires forall b, z :: b in batches && z in t.batches ==> z < b.id
    requires x in AddAllToTable(t, batches).batches && x !in t.batches
    ensures forall z :: z in t.batches ==> z < x
  {
    NewBatchIds(t, batches);
    AddAllExtends(t, batches);
  }

  lemma {:induction false} EarlierRowsExist(ys: seq<Sys>, steps: seq<Step>, i: nat, j: nat, a: RowId, b: RowId)
    requires Run(ys, steps) && ys[0] == Initial && i <= j < |ys|
    requires a in ys[j].table.status && b in ys[i].table.status && Before(ys[j].table, a, b)
    requires ys[i].table.status[b].Done?
    ensures a in ys[i].table.status && Before(ys[i].table, a, b)
  {
    hide Inv, Enabled, Apply, Before;
    if i < j {
      RunKeepsInv(ys, steps, j - 1);
      DoneForever(ys, steps, i, j - 1, b);
      StepKeepsEarlier(ys[j - 1], steps[j - 1], a, b);
      EarlierRowsExist(ys, steps, i, j - 1, a, b);
    }
  }
}
