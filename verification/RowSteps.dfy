/** Every committed delivery write keeps the keyspaces the image of one row table. */
module RowSteps {
  import opened Records
  import opened DeliverySpec
  import opened RowTable

  // ---- lane outcome ----

  ghost predicate LaneContext(s: Store, t: Table, b: nat, lane: Lane) {
    && WellFormed(t)
    && Agrees(s, t)
    && LaneAccepted(s, b, lane)
    && FreshRetries(Live(t), lane.retries)
    && FreshLetters(Letters(t), lane.letters)
  }

  lemma LaneTableAt(t: Table, b: nat, lane: Lane)
    ensures var t' := LaneTable(t, b, lane);
      && t'.batches == t.batches
      && (forall id :: id in t'.status <==> id in t.status)
      && (forall id :: id in t.status ==>
            t'.status[id] == if id.batch == b && id.row in lane.completed then LaneStatus(lane, id.row) else t.status[id])
  {
  }

  lemma LaneWaits(lane: Lane, i: nat)
    requires LaneStatus(lane, i).Waiting?
    ensures lane.retries != []
  {
  }

  ghost predicate CompletedFresh(t: Table, b: nat, lane: Lane) {
    forall i :: i in lane.completed ==> RowId(b, i) in t.status && t.status[RowId(b, i)].Fresh?
  }

  lemma CompletedWereFresh(s: Store, t: Table, b: nat, lane: Lane)
    requires LaneContext(s, t, b, lane)
    ensures CompletedFresh(t, b, lane)
    ensures forall i :: i in OutcomeRows(lane) <==> i in lane.completed
    ensures Distinct(OutcomeRows(lane))
  {
    forall i | i in lane.completed
      ensures RowId(b, i) in t.status && t.status[RowId(b, i)].Fresh?
    {
      assert IsRow(t, RowId(b, i));
      assert i in Elements(lane.completed) && i !in Progress(s, b);
    }
    assert forall i :: i in OutcomeRows(lane) <==> i in Elements(OutcomeRows(lane));
  }

  lemma RecordsAreCompleted(s: Store, t: Table, b: nat, lane: Lane)
    requires LaneContext(s, t, b, lane)
    ensures forall r :: r in lane.retries ==> r.row in lane.completed && RetryOf(t, RowId(b, r.row), r)
    ensures forall d :: d in lane.letters ==> d.row in lane.completed && LetterOf(t, RowId(b, d.row), d)
  {
    CompletedWereFresh(s, t, b, lane);
    RetryRowsElements(lane);
    assert s.pending[b] == t.batches[b];
    assert forall r :: r in lane.retries ==> r.row in RetryRows(lane.retries) && r.row in OutcomeRows(lane);
    assert forall d :: d in lane.letters ==> d.row in LetterRows(lane.letters) && d.row in OutcomeRows(lane);
  }

  lemma LaneLive(s: Store, t: Table, b: nat, lane: Lane)
    requires LaneContext(s, t, b, lane)
    ensures Live(LaneTable(t, b, lane)) == Live(t) + Elements(lane.retries)
  {
    hide WellFormed, Agrees, LaneAccepted, FreshRetries, FreshLetters, LaneContext, OutcomeRows, Distinct, RetryOf, LetterOf;
    var t' := LaneTable(t, b, lane);
    CompletedWereFresh(s, t, b, lane);
    RecordsAreCompleted(s, t, b, lane);
    LaneStatusIsItsRecord(lane);
    forall r | r in Live(t')
      ensures r in Live(t) + Elements(lane.retries)
    {
      var id :| id in t'.status && t'.status[id].Waiting? && t'.status[id].retry == r;
      if id.batch == b && id.row in lane.completed {
        assert t'.status[id] == LaneStatus(lane, id.row);
      }
    }
    forall r | r in Live(t)
      ensures r in Live(t')
    {
      var id :| id in t.status && t.status[id].Waiting? && t.status[id].retry == r;
      assert t'.status[id] == t.status[id];
    }
    forall r | r in lane.retries
      ensures r in Live(t')
    {
      assert t'.status[RowId(b, r.row)] == Waiting(r);
    }
  }

  lemma LaneLetters(s: Store, t: Table, b: nat, lane: Lane)
    requires LaneContext(s, t, b, lane)
    ensures Letters(LaneTable(t, b, lane)) == Letters(t) + Elements(lane.letters)
  {
    hide WellFormed, Agrees, LaneAccepted, FreshRetries, FreshLetters, LaneContext, OutcomeRows, Distinct, RetryOf, LetterOf;
    var t' := LaneTable(t, b, lane);
    CompletedWereFresh(s, t, b, lane);
    RecordsAreCompleted(s, t, b, lane);
    LaneStatusIsItsRecord(lane);
    forall d | d in Letters(t')
      ensures d in Letters(t) + Elements(lane.letters)
    {
      var id :| id in t'.status && t'.status[id].Done? && t'.status[id].outcome.Dead? && t'.status[id].outcome.letter == d;
      if id.batch == b && id.row in lane.completed {
        assert t'.status[id] == LaneStatus(lane, id.row);
      }
    }
    forall d | d in Letters(t)
      ensures d in Letters(t')
    {
      var id :| id in t.status && t.status[id].Done? && t.status[id].outcome.Dead? && t.status[id].outcome.letter == d;
      assert t'.status[id] == t.status[id];
    }
    forall d | d in lane.letters
      ensures d in Letters(t')
    {
      assert t'.status[RowId(b, d.row)] == Done(Dead(d));
    }
  }

  lemma LaneWellFormed(s: Store, t: Table, b: nat, lane: Lane)
    requires LaneContext(s, t, b, lane)
    ensures WellFormed(LaneTable(t, b, lane))
  {
    var t' := LaneTable(t, b, lane);
    LaneLive(s, t, b, lane);
    LaneLetters(s, t, b, lane);
    RecordsAreCompleted(s, t, b, lane);
    LaneStatusIsItsRecord(lane);
    assert t'.batches == t.batches && t'.status.Keys == t.status.Keys;
    forall id | id in t'.status
      ensures StatusFits(t', id, t'.status[id])
    {
      LaneStatusFits(s, t, b, lane, id);
    }
    UniqueUnion(Live(t), lane.retries);
    UniqueLetterUnion(Letters(t), lane.letters);
  }

  lemma LaneStatusFits(s: Store, t: Table, b: nat, lane: Lane, id: RowId)
    requires LaneContext(s, t, b, lane) && id in t.status
    ensures var t' := LaneTable(t, b, lane); StatusFits(t', id, t'.status[id])
  {
    var t' := LaneTable(t, b, lane);
    if id.batch == b && id.row in lane.completed {
      RecordsAreCompleted(s, t, b, lane);
      LaneStatusNames(lane, id.row);
      assert t'.status[id] == LaneStatus(lane, id.row) && id == RowId(b, id.row);
    } else {
      assert t'.status[id] == t.status[id] && StatusFits(t, id, t.status[id]);
    }
  }

  lemma LaneStatusNames(lane: Lane, i: nat)
    ensures match LaneStatus(lane, i)
      case Waiting(r) => r in lane.retries && r.row == i
      case Done(Dead(d)) => d in lane.letters && d.row == i
      case Done(_) => true
      case Fresh => false
  {
  }

  lemma UniqueUnion(live: set<Retry>, rs: seq<Retry>)
    requires UniqueRetries(live) && FreshRetries(live, rs)
    ensures UniqueRetries(live + Elements(rs))
  {
  }

  lemma UniqueLetterUnion(old_: set<Letter>, ds: seq<Letter>)
    requires UniqueLetters(old_) && FreshLetters(old_, ds)
    ensures UniqueLetters(old_ + Elements(ds))
  {
  }

  lemma RetryMeansWaiting(s: Store, t: Table, b: nat)
    requires WellFormed(t) && BatchImage(s.byBatch, Live(t))
    ensures HasRetry(s, b) <==> HasWaiting(t, b)
  {
    assert forall id :: id in t.status ==> StatusFits(t, id, t.status[id]);
    hide WellFormed;
    if HasRetry(s, b) {
      var k :| k in s.byBatch && k.batch == b;
      var r :| r in Live(t) && BatchKeyOf(r) == k;
      var id :| id in t.status && t.status[id].Waiting? && t.status[id].retry == r;
      assert StatusFits(t, id, t.status[id]);
      assert id == RowId(b, id.row);
    }
    if HasWaiting(t, b) {
      var i: nat :| RowId(b, i) in t.status && t.status[RowId(b, i)].Waiting?;
      var r := t.status[RowId(b, i)].retry;
      assert StatusFits(t, RowId(b, i), t.status[RowId(b, i)]);
      assert r in Live(t);
      assert BatchKeyOf(r) in s.byBatch;
    }
  }

  /** The bitmap holds exactly the rows that are no longer unprogressed. */
  ghost predicate Counts(t: Table, b: nat, done: set<nat>) {
    forall i: nat :: i in done <==> RowId(b, i) in t.status && !t.status[RowId(b, i)].Fresh?
  }

  lemma LaneCounts(t: Table, b: nat, lane: Lane, done: set<nat>)
    requires CompletedFresh(t, b, lane) && Counts(t, b, done)
    ensures Counts(LaneTable(t, b, lane), b, done + Elements(lane.completed))
  {
    LaneTableAt(t, b, lane);
    hide LaneTable;
  }

  lemma LaneProgress(s: Store, t: Table, b: nat, lane: Lane)
    requires LaneContext(s, t, b, lane)
    ensures b in t.batches && s.pending[b] == t.batches[b]
    ensures forall i: nat :: RowId(b, i) in t.status <==> i < |s.pending[b].rows|
    ensures Counts(LaneTable(t, b, lane), b, Progress(s, b) + Elements(lane.completed))
  {
    assert forall i: nat :: RowId(b, i) in t.status <==> IsRow(t, RowId(b, i));
    assert Counts(t, b, Progress(s, b));
    CompletedWereFresh(s, t, b, lane);
    LaneCounts(t, b, lane, Progress(s, b));
  }

  /** Rows are left unprogressed exactly when the progress bitmap does not count them all. */
  lemma FreshIsUncounted(t: Table, b: nat, done: set<nat>, n: nat)
    requires Counts(t, b, done)
    requires forall i: nat :: RowId(b, i) in t.status <==> i < n
    ensures HasFresh(t, b) <==> |done| != n
  {
    assert done <= Below(n);
    FullWhenCounted(done, n);
    if HasFresh(t, b) {
      var i: nat :| RowId(b, i) in t.status && t.status[RowId(b, i)].Fresh?;
      assert i in Below(n) && i !in done;
    }
    if |done| != n {
      var i: nat :| i in Below(n) && i !in done;
      assert RowId(b, i) in t.status;
    }
  }

  lemma LaneLeavesFresh(s: Store, t: Table, b: nat, lane: Lane)
    requires LaneContext(s, t, b, lane)
    ensures var done := Progress(s, b) + Elements(lane.completed);
      HasFresh(LaneTable(t, b, lane), b) <==> |done| != |s.pending[b].rows|
  {
    LaneProgress(s, t, b, lane);
    LaneTableAt(t, b, lane);
    hide WellFormed, Agrees, LaneAccepted, FreshRetries, FreshLetters, LaneTable, Counts, HasFresh, Progress, Elements;
    FreshIsUncounted(LaneTable(t, b, lane), b, Progress(s, b) + Elements(lane.completed), |s.pending[b].rows|);
  }

  lemma LaneRetriesWait(s: Store, t: Table, b: nat, lane: Lane)
    requires LaneContext(s, t, b, lane) && lane.retries != []
    ensures HasWaiting(LaneTable(t, b, lane), b)
  {
    var r := lane.retries[0];
    assert r in lane.retries;
    assert Live(LaneTable(t, b, lane)) == Live(t) + Elements(lane.retries) by { LaneLive(s, t, b, lane); }
    assert r.batch == b && RetryFits(s.pending[b], r);
    LaneWellFormed(s, t, b, lane);
    hide WellFormed, Agrees, LaneAccepted, FreshRetries, FreshLetters, LaneContext, LaneTable;
    LiveIsWaiting(LaneTable(t, b, lane), r);
  }

  lemma LiveIsWaiting(t: Table, r: Retry)
    requires WellFormed(t) && r in Live(t)
    ensures RowId(r.batch, r.row) in t.status && t.status[RowId(r.batch, r.row)] == Waiting(r)
    ensures HasWaiting(t, r.batch)
  {
    var id :| id in t.status && t.status[id].Waiting? && t.status[id].retry == r;
    assert StatusFits(t, id, t.status[id]);
    assert id == RowId(r.batch, r.row);
  }

  lemma LaneKeepsWaiting(t: Table, b: nat, lane: Lane)
    requires CompletedFresh(t, b, lane)
    ensures HasWaiting(t, b) ==> HasWaiting(LaneTable(t, b, lane), b)
    ensures HasWaiting(LaneTable(t, b, lane), b) ==> HasWaiting(t, b) || lane.retries != []
  {
    LaneTableAt(t, b, lane);
    hide LaneTable, LaneStatus;
    var t' := LaneTable(t, b, lane);
    if HasWaiting(t, b) {
      var i: nat :| RowId(b, i) in t.status && t.status[RowId(b, i)].Waiting?;
      assert t'.status[RowId(b, i)].Waiting?;
    }
    if HasWaiting(t', b) && !HasWaiting(t, b) {
      var i: nat :| RowId(b, i) in t'.status && t'.status[RowId(b, i)].Waiting?;
      assert t'.status[RowId(b, i)] == LaneStatus(lane, i);
      LaneWaits(lane, i);
    }
  }

  lemma LaneLeavesWaiting(s: Store, t: Table, b: nat, lane: Lane)
    requires LaneContext(s, t, b, lane)
    ensures HasWaiting(LaneTable(t, b, lane), b) <==> lane.retries != [] || HasRetry(s, b)
  {
    RetryMeansWaiting(s, t, b);
    CompletedWereFresh(s, t, b, lane);
    LaneKeepsWaiting(t, b, lane);
    if lane.retries != [] {
      LaneRetriesWait(s, t, b, lane);
    }
  }

  lemma LaneOtherBatches(t: Table, b: nat, lane: Lane, other: nat)
    requires other != b
    ensures HasFresh(LaneTable(t, b, lane), other) <==> HasFresh(t, other)
    ensures HasWaiting(LaneTable(t, b, lane), other) <==> HasWaiting(t, other)
  {
    var t' := LaneTable(t, b, lane);
    assert forall i: nat :: RowId(other, i) in t.status ==> t'.status[RowId(other, i)] == t.status[RowId(other, i)];
  }

  /** One batch changes state: it stays pending, becomes retained or leaves. */
  lemma OneBatchMoves(s: Store, t: Table, s': Store, t': Table, b: nat, full: bool, waits: bool)
    requires BatchesAgree(s, t) && b in s.pending && t'.batches == t.batches
    requires s'.pending == if full then s.pending - {b} else s.pending
    requires s'.retained == if full && waits then s.retained[b := s.pending[b]] else s.retained
    requires (HasFresh(t', b) <==> !full) && (HasWaiting(t', b) <==> waits)
    requires forall x :: x != b ==> (HasFresh(t', x) <==> HasFresh(t, x)) && (HasWaiting(t', x) <==> HasWaiting(t, x))
    ensures BatchesAgree(s', t')
  {
    hide HasFresh, HasWaiting;
    assert b !in s.retained;
  }

  lemma LaneBatchesAgree(s: Store, t: Table, b: nat, lane: Lane, now: int)
    requires LaneContext(s, t, b, lane)
    ensures BatchesAgree(LaneCommit(s, b, lane, now), LaneTable(t, b, lane))
  {
    LaneLeavesFresh(s, t, b, lane);
    LaneLeavesWaiting(s, t, b, lane);
    PutRetriesFrame(s, lane.retries);
    hide Agrees, WellFormed, HasFresh, HasWaiting, HasRetry, OutcomeRows, Distinct, FreshRetries, FreshLetters;
    var t', s' := LaneTable(t, b, lane), LaneCommit(s, b, lane, now);
    forall x | x != b
      ensures (HasFresh(t', x) <==> HasFresh(t, x)) && (HasWaiting(t', x) <==> HasWaiting(t, x))
    {
      LaneOtherBatches(t, b, lane, x);
    }
    assert BatchesAgree(s, t) by { AgreesParts(s, t); }
    var full := |Progress(s, b) + Elements(lane.completed)| == |s.pending[b].rows|;
    OneBatchMoves(s, t, s', t', b, full, lane.retries != [] || HasRetry(s, b));
  }

  lemma AgreesParts(s: Store, t: Table)
    requires Agrees(s, t)
    ensures BatchesAgree(s, t) && ProgressAgrees(s, t) && QueueAgrees(s, t)
  {
  }

  /** The progress bitmap of one batch is replaced or dropped; the others stay. */
  lemma OneBitmapMoves(s: Store, t: Table, s': Store, t': Table, b: nat, done: set<nat>)
    requires ProgressAgrees(s, t) && b in s.pending && Counts(t', b, done)
    requires (s'.pending == s.pending && s'.progress == s.progress[b := done])
          || (s'.pending == s.pending - {b} && s'.progress == s.progress - {b})
    requires forall x, i :: x != b ==> (RowId(x, i) in t'.status <==> RowId(x, i) in t.status)
    requires forall x, i :: x != b && RowId(x, i) in t.status ==> t'.status[RowId(x, i)] == t.status[RowId(x, i)]
    ensures ProgressAgrees(s', t')
  {
    forall x, i | x in s'.pending && x != b
      ensures i in Progress(s', x) <==> RowId(x, i) in t'.status && !t'.status[RowId(x, i)].Fresh?
    {
      assert Progress(s', x) == Progress(s, x);
      assert i in Progress(s, x) <==> RowId(x, i) in t.status && !t.status[RowId(x, i)].Fresh?;
    }
  }

  lemma LaneCommitProgress(s: Store, b: nat, lane: Lane, now: int)
    requires LaneAccepted(s, b, lane)
    ensures var s' := LaneCommit(s, b, lane, now);
      || (s'.pending == s.pending && s'.progress == s.progress[b := Progress(s, b) + Elements(lane.completed)])
      || (s'.pending == s.pending - {b} && s'.progress == s.progress - {b})
  {
    PutRetriesFrame(s, lane.retries);
  }

  lemma LaneProgressAgrees(s: Store, t: Table, b: nat, lane: Lane, now: int)
    requires LaneContext(s, t, b, lane)
    ensures ProgressAgrees(LaneCommit(s, b, lane, now), LaneTable(t, b, lane))
  {
    LaneProgress(s, t, b, lane);
    LaneCommitProgress(s, b, lane, now);
    AgreesParts(s, t);
    LaneTableAt(t, b, lane);
    hide WellFormed, Agrees, FreshRetries, FreshLetters, LaneStatus, LaneTable, ProgressAgrees, Counts, LaneCommit, Elements, Progress, Distinct, OutcomeRows;
    OneBitmapMoves(s, t, LaneCommit(s, b, lane, now), LaneTable(t, b, lane), b, Progress(s, b) + Elements(lane.completed));
  }

  lemma LaneCommitQueue(s: Store, b: nat, lane: Lane, now: int)
    requires LaneAccepted(s, b, lane)
    ensures forall e :: e in LaneCommit(s, b, lane, now).queue <==>
      e in s.queue && !(e.batch == b && e.row in lane.completed && e.row !in RetryRows(lane.retries)
                        && e.destination == s.pending[b].rows[e.row].destination)
  {
    assert LaneCommit(s, b, lane, now).queue == s.queue - DoneSlots(s.pending[b], lane);
  }

  lemma LaneStatusDone(lane: Lane, i: nat)
    ensures LaneStatus(lane, i).Done? <==> i !in RetryRows(lane.retries)
  {
  }

  lemma LaneQueueMoves(s: Store, t: Table, q: set<Slot>, b: nat, lane: Lane)
    requires QueueAgrees(s, t) && CompletedFresh(t, b, lane)
    requires b in t.batches && forall i :: i in lane.completed ==> i < |t.batches[b].rows|
    requires forall e :: e in q <==>
      e in s.queue && !(e.batch == b && e.row in lane.completed && e.row !in RetryRows(lane.retries)
                        && e.destination == t.batches[b].rows[e.row].destination)
    ensures QueueAgrees(s.(queue := q), LaneTable(t, b, lane))
  {
    LaneTableAt(t, b, lane);
    hide LaneTable, LaneStatus;
    forall e
      ensures e in q <==>
        var id, t' := RowId(e.batch, e.row), LaneTable(t, b, lane);
        id in t'.status && !t'.status[id].Done? && IsRow(t', id) && e.destination == Destination(t', id)
    {
      LaneStatusDone(lane, e.row);
    }
  }

  lemma LaneQueueAgrees(s: Store, t: Table, b: nat, lane: Lane, now: int)
    requires LaneContext(s, t, b, lane)
    ensures QueueAgrees(LaneCommit(s, b, lane, now), LaneTable(t, b, lane))
  {
    LaneProgress(s, t, b, lane);
    CompletedWereFresh(s, t, b, lane);
    LaneCommitQueue(s, b, lane, now);
    AgreesParts(s, t);
    var q := LaneCommit(s, b, lane, now).queue;
    hide WellFormed, Agrees, FreshRetries, FreshLetters, LaneCommit, LaneTable, Distinct, OutcomeRows;
    LaneQueueMoves(s, t, q, b, lane);
  }

  /** The lane commit keeps the keyspaces the image of the table in which exactly the completed rows
      took the status the lane gave them. */
  lemma LaneCommitAgrees(s: Store, t: Table, b: nat, lane: Lane, now: int)
    requires LaneContext(s, t, b, lane)
    ensures WellFormed(LaneTable(t, b, lane))
    ensures Agrees(LaneCommit(s, b, lane, now), LaneTable(t, b, lane))
  {
    LaneWellFormed(s, t, b, lane);
    LaneBatchesAgree(s, t, b, lane, now);
    LaneProgressAgrees(s, t, b, lane, now);
    LaneQueueAgrees(s, t, b, lane, now);
    LaneLive(s, t, b, lane);
    LaneLetters(s, t, b, lane);
    PutRetriesImage(s, Live(t), lane.retries);
    PutLettersImage(s.letters, Letters(t), lane.letters);
    hide WellFormed, BatchesAgree, ProgressAgrees, QueueAgrees, RetriesImage, DestinationImage, BatchImage, LetterImage, LaneTable;
  }

  // ---- retry outcomes ----

  function SetStatus(t: Table, id: RowId, x: Status): Table {
    t.(status := t.status[id := x])
  }

  function IdOf(r: Retry): RowId { RowId(r.batch, r.row) }

  lemma CurrentIsLive(s: Store, t: Table, r: Retry)
    requires WellFormed(t) && RetryImage(s, Live(t)) && Current(s, r)
    ensures r in Live(t) && IdOf(r) in t.status && t.status[IdOf(r)] == Waiting(r) && RetryOf(t, IdOf(r), r)
  {
    LiveIsWaiting(t, r);
    assert StatusFits(t, IdOf(r), t.status[IdOf(r)]);
  }

  lemma LiveWithout(t: Table, r: Retry, x: Status)
    requires WellFormed(t) && IdOf(r) in t.status && t.status[IdOf(r)] == Waiting(r)
    ensures Live(SetStatus(t, IdOf(r), x)) == Live(t) - {r} + if x.Waiting? then {x.retry} else {}
    ensures Letters(SetStatus(t, IdOf(r), x)) == Letters(t) + if x.Done? && x.outcome.Dead? then {x.outcome.letter} else {}
  {
    var t' := SetStatus(t, IdOf(r), x);
    forall y | y in Live(t) && y != r
      ensures y in Live(t')
    {
      var id :| id in t.status && t.status[id].Waiting? && t.status[id].retry == y;
      assert id != IdOf(r) && t'.status[id] == t.status[id];
    }
    forall y | y in Letters(t)
      ensures y in Letters(t')
    {
      var id :| id in t.status && t.status[id].Done? && t.status[id].outcome.Dead? && t.status[id].outcome.letter == y;
      assert id != IdOf(r) && t'.status[id] == t.status[id];
    }
    if x.Waiting? || (x.Done? && x.outcome.Dead?) {
      assert t'.status[IdOf(r)] == x;
    }
    forall y | y in Live(t')
      ensures y in Live(t) - {r} + if x.Waiting? then {x.retry} else {}
    {
      var id :| id in t'.status && t'.status[id].Waiting? && t'.status[id].retry == y;
      if id != IdOf(r) {
        assert t.status[id] == t'.status[id];
        assert StatusFits(t, id, t.status[id]);
      }
    }
  }

  /** Another retry index entry of the batch means another waiting row. */
  lemma OtherMeansWaiting(s: Store, t: Table, r: Retry, o: Outcome)
    requires WellFormed(t) && BatchImage(s.byBatch, Live(t))
    requires IdOf(r) in t.status && t.status[IdOf(r)] == Waiting(r)
    ensures HasOther(s, r) <==> HasWaiting(SetStatus(t, IdOf(r), Done(o)), r.batch)
  {
    if HasOther(s, r) {
      var k :| k in s.byBatch && k.batch == r.batch && k != BatchKeyOf(r);
      var y :| y in Live(t) && BatchKeyOf(y) == k;
      OtherWaits(t, r, o, y);
    }
    if HasWaiting(SetStatus(t, IdOf(r), Done(o)), r.batch) {
      WaitingIsOther(s, t, r, o);
    }
  }

  lemma OtherWaits(t: Table, r: Retry, o: Outcome, y: Retry)
    requires WellFormed(t) && y in Live(t) && y.batch == r.batch && y.id != r.id
    requires IdOf(r) in t.status && t.status[IdOf(r)] == Waiting(r)
    ensures HasWaiting(SetStatus(t, IdOf(r), Done(o)), r.batch)
  {
    LiveIsWaiting(t, y);
    hide WellFormed, Live;
    assert SetStatus(t, IdOf(r), Done(o)).status[RowId(r.batch, y.row)].Waiting?;
  }

  lemma WaitingIsOther(s: Store, t: Table, r: Retry, o: Outcome)
    requires WellFormed(t) && BatchImage(s.byBatch, Live(t))
    requires IdOf(r) in t.status && t.status[IdOf(r)] == Waiting(r)
    requires HasWaiting(SetStatus(t, IdOf(r), Done(o)), r.batch)
    ensures HasOther(s, r)
  {
    var t' := SetStatus(t, IdOf(r), Done(o));
    var i: nat :| RowId(r.batch, i) in t'.status && t'.status[RowId(r.batch, i)].Waiting?;
    var id := RowId(r.batch, i);
    var y := t.status[id].retry;
    assert StatusFits(t, id, t.status[id]) && StatusFits(t, IdOf(r), t.status[IdOf(r)]);
    assert y in Live(t) && r in Live(t);
    assert y.id != r.id by { assert UniqueRetries(Live(t)); }
    hide WellFormed;
    assert BatchKeyOf(y) in s.byBatch;
  }

  /** Giving one waiting row another status that is not unprogressed. */
  lemma SetKeepsFresh(t: Table, id: RowId, x: Status)
    requires id in t.status && !t.status[id].Fresh? && !x.Fresh?
    ensures forall b :: HasFresh(SetStatus(t, id, x), b) <==> HasFresh(t, b)
  {
    var t' := SetStatus(t, id, x);
    forall b
      ensures HasFresh(t', b) <==> HasFresh(t, b)
    {
      assert forall i: nat :: RowId(b, i) in t.status && RowId(b, i) != id ==> t'.status[RowId(b, i)] == t.status[RowId(b, i)];
    }
  }

  lemma SetKeepsOtherWaiting(t: Table, id: RowId, x: Status, b: nat)
    requires id in t.status && b != id.batch
    ensures HasWaiting(SetStatus(t, id, x), b) <==> HasWaiting(t, b)
  {
    var t' := SetStatus(t, id, x);
    assert forall i: nat :: RowId(b, i) in t.status ==> t'.status[RowId(b, i)] == t.status[RowId(b, i)];
  }

  lemma SetWellFormed(t: Table, r: Retry, x: Status)
    requires WellFormed(t) && IdOf(r) in t.status && t.status[IdOf(r)] == Waiting(r)
    requires StatusFits(t, IdOf(r), x)
    requires x.Waiting? ==> forall y :: y in Live(t) && y != r ==> y.id != x.retry.id
    requires x.Done? && x.outcome.Dead? ==> forall y :: y in Letters(t) ==> y.id != x.outcome.letter.id
    ensures WellFormed(SetStatus(t, IdOf(r), x))
  {
    LiveWithout(t, r, x);
    var t' := SetStatus(t, IdOf(r), x);
    assert t'.batches == t.batches;
    forall id | id in t'.status
      ensures StatusFits(t', id, t'.status[id])
    {
      assert id != IdOf(r) ==> StatusFits(t, id, t.status[id]);
    }
    hide Live, Letters, StatusFits;
  }

  /** A waiting row becomes terminal: its batch loses its last retry or keeps others. */
  lemma FinishBatchesAgree(s: Store, t: Table, r: Retry, o: Outcome)
    requires BatchesAgree(s, t)
    requires IdOf(r) in t.status && t.status[IdOf(r)] == Waiting(r)
    requires HasOther(s, r) <==> HasWaiting(SetStatus(t, IdOf(r), Done(o)), r.batch)
    ensures BatchesAgree(FinishRetry(s, r), SetStatus(t, IdOf(r), Done(o)))
  {
    var s', t' := FinishRetry(s, r), SetStatus(t, IdOf(r), Done(o));
    SetKeepsFresh(t, IdOf(r), Done(o));
    forall b | b != r.batch
      ensures HasWaiting(t', b) <==> HasWaiting(t, b)
    {
      SetKeepsOtherWaiting(t, IdOf(r), Done(o), b);
    }
    assert HasWaiting(t, r.batch) by { assert t.status[RowId(r.batch, r.row)].Waiting?; }
    hide HasFresh, HasWaiting, HasOther;
  }

  lemma SetProgressAgrees(s: Store, t: Table, s': Store, id: RowId, x: Status)
    requires ProgressAgrees(s, t) && s'.progress == s.progress && s'.pending == s.pending
    requires id in t.status && !t.status[id].Fresh? && !x.Fresh?
    ensures ProgressAgrees(s', SetStatus(t, id, x))
  {
    var t' := SetStatus(t, id, x);
    forall b, i | b in s'.pending
      ensures i in Progress(s', b) <==> RowId(b, i) in t'.status && !t'.status[RowId(b, i)].Fresh?
    {
      assert i in Progress(s, b) <==> RowId(b, i) in t.status && !t.status[RowId(b, i)].Fresh?;
    }
  }

  lemma FinishQueueAgrees(s: Store, t: Table, r: Retry, o: Outcome)
    requires QueueAgrees(s, t) && RetryOf(t, IdOf(r), r)
    requires IdOf(r) in t.status && t.status[IdOf(r)] == Waiting(r)
    ensures QueueAgrees(FinishRetry(s, r), SetStatus(t, IdOf(r), Done(o)))
  {
    var s', t' := FinishRetry(s, r), SetStatus(t, IdOf(r), Done(o));
    assert s'.queue == s.queue - {SlotOf(r)};
    forall e
      ensures e in s'.queue <==>
        var id := RowId(e.batch, e.row);
        id in t'.status && !t'.status[id].Done? && IsRow(t', id) && e.destination == Destination(t', id)
    {
      if RowId(e.batch, e.row) == IdOf(r) {
        assert e in s.queue <==> e.destination == Destination(t, IdOf(r));
      }
    }
  }

  lemma FinishImages(s: Store, t: Table, r: Retry, o: Outcome)
    requires WellFormed(t) && IdOf(r) in t.status && t.status[IdOf(r)] == Waiting(r)
    requires r in Live(t) && UniqueRetries(Live(t)) && RetryImage(s, Live(t)) && LetterImage(s.letters, Letters(t))
    requires o.Dead? ==> forall d :: d in Letters(t) ==> d.id != o.letter.id
    ensures var t', s' := SetStatus(t, IdOf(r), Done(o)), FinishRetry(s, r);
      && RetryImage(s', Live(t'))
      && LetterImage(if o.Dead? then s'.letters[LetterKeyOf(o.letter) := o.letter] else s'.letters, Letters(t'))
  {
    hide WellFormed, UniqueRetries, RetryImage, RetriesImage, DestinationImage, BatchImage, LetterImage, HasOther, Live, Letters, SetStatus, StatusFits, UniqueLetters, FinishRetry, DropRetry;
    LiveWithout(t, r, Done(o));
    DropRetryImage(s, Live(t), r);
    if o.Dead? {
      PutLetter(s.letters, Letters(t), o.letter);
    }
    FinishKeepsRetryKeyspaces(s, r);
    SameRetryImage(DropRetry(s, r), FinishRetry(s, r), Live(t) - {r});
    assert Live(SetStatus(t, IdOf(r), Done(o))) == Live(t) - {r};
    assert Letters(t) + {} == Letters(t);
  }

  lemma FinishKeepsRetryKeyspaces(s: Store, r: Retry)
    ensures var s', d := FinishRetry(s, r), DropRetry(s, r);
      s'.retries == d.retries && s'.byDestination == d.byDestination && s'.byBatch == d.byBatch
      && s'.letters == s.letters && s'.pending == s.pending && s'.progress == s.progress
  {
    hide HasOther;
  }

  lemma SameRetryImage(a: Store, b: Store, live: set<Retry>)
    requires a.retries == b.retries && a.byDestination == b.byDestination && a.byBatch == b.byBatch
    requires RetryImage(a, live)
    ensures RetryImage(b, live)
  {
  }

  /** Finishing a retry with any outcome keeps the keyspaces the image of the table; for a dead letter
      the letter itself is the only addition. */
  lemma FinishRetryAgrees(s: Store, t: Table, r: Retry, o: Outcome)
    requires WellFormed(t) && Agrees(s, t) && Current(s, r)
    requires o.Dead? ==> LetterMatches(r, o.letter) && forall d :: d in Letters(t) ==> d.id != o.letter.id
    ensures var t' := SetStatus(t, IdOf(r), Done(o));
      && WellFormed(t')
      && Agrees(if o.Dead? then RetryDead(s, r, o.letter) else FinishRetry(s, r), t')
  {
    CurrentIsLive(s, t, r);
    assert UniqueRetries(Live(t));
    hide WellFormed, UniqueRetries, RetryImage, LetterImage, BatchesAgree, ProgressAgrees, QueueAgrees, Live, Letters, SetStatus, HasOther, HasWaiting, HasFresh;
    SetWellFormed(t, r, Done(o));
    FinishImages(s, t, r, o);
    ImageParts(s, Live(t));
    OtherMeansWaiting(s, t, r, o);
    FinishBatchesAgree(s, t, r, o);
    FinishKeepsRetryKeyspaces(s, r);
    SetProgressAgrees(s, t, FinishRetry(s, r), IdOf(r), Done(o));
    FinishQueueAgrees(s, t, r, o);
    if o.Dead? {
      LettersApart(FinishRetry(s, r), SetStatus(t, IdOf(r), Done(o)), o.letter);
    }
  }

  lemma ImageParts(s: Store, live: set<Retry>)
    requires RetryImage(s, live)
    ensures RetriesImage(s.retries, live) && DestinationImage(s.byDestination, live) && BatchImage(s.byBatch, live)
  {
  }

  /** Only the dead letters themselves depend on the dead letter keyspace. */
  lemma LettersApart(s: Store, t: Table, d: Letter)
    requires BatchesAgree(s, t) && ProgressAgrees(s, t) && QueueAgrees(s, t) && RetryImage(s, Live(t))
    ensures var s' := s.(letters := s.letters[LetterKeyOf(d) := d]);
      BatchesAgree(s', t) && ProgressAgrees(s', t) && QueueAgrees(s', t) && RetryImage(s', Live(t))
  {
    hide HasFresh, HasWaiting, RetriesImage, DestinationImage, BatchImage, Live;
    var s' := s.(letters := s.letters[LetterKeyOf(d) := d]);
    forall b, i | b in s'.pending
      ensures i in Progress(s', b) <==> RowId(b, i) in t.status && !t.status[RowId(b, i)].Fresh?
    {
      assert Progress(s', b) == Progress(s, b);
    }
  }

  lemma RescheduleImages(s: Store, t: Table, previous: Retry, next: Retry)
    requires WellFormed(t) && IdOf(previous) in t.status && t.status[IdOf(previous)] == Waiting(previous)
    requires previous in Live(t) && UniqueRetries(Live(t)) && RetryImage(s, Live(t)) && SameIdentity(previous, next)
    ensures var t' := SetStatus(t, IdOf(previous), Waiting(next));
      RetryImage(RescheduleRetry(s, previous, next), Live(t')) && Letters(t') == Letters(t)
  {
    hide WellFormed, UniqueRetries, RetryImage, RetriesImage, DestinationImage, BatchImage, Live, Letters, SetStatus, StatusFits, UniqueLetters;
    LiveWithout(t, previous, Waiting(next));
    RescheduleImage(s, Live(t), previous, next);
    assert Letters(t) + {} == Letters(t);
  }

  lemma RescheduleAgrees(s: Store, t: Table, previous: Retry, next: Retry)
    requires WellFormed(t) && Agrees(s, t) && Current(s, previous) && SameIdentity(previous, next)
    ensures var t' := SetStatus(t, IdOf(previous), Waiting(next));
      WellFormed(t') && Agrees(RescheduleRetry(s, previous, next), t')
  {
    CurrentIsLive(s, t, previous);
    UniqueAmong(t, previous);
    assert UniqueRetries(Live(t));
    hide WellFormed, UniqueRetries, RetryImage, LetterImage, BatchesAgree, ProgressAgrees, QueueAgrees, Live, Letters, SetStatus;
    SetWellFormed(t, previous, Waiting(next));
    RescheduleImages(s, t, previous, next);
    var s' := RescheduleRetry(s, previous, next);
    RescheduleBatchesAgree(s, t, s', previous, next);
    SetProgressAgrees(s, t, s', IdOf(previous), Waiting(next));
    RescheduleQueueAgrees(s, t, s', previous, next);
  }

  lemma UniqueAmong(t: Table, r: Retry)
    requires WellFormed(t) && r in Live(t)
    ensures forall y :: y in Live(t) && y != r ==> y.id != r.id
  {
  }

  lemma RescheduleBatchesAgree(s: Store, t: Table, s': Store, previous: Retry, next: Retry)
    requires BatchesAgree(s, t) && s'.pending == s.pending && s'.retained == s.retained
    requires IdOf(previous) in t.status && t.status[IdOf(previous)] == Waiting(previous)
    ensures BatchesAgree(s', SetStatus(t, IdOf(previous), Waiting(next)))
  {
    var id, t' := IdOf(previous), SetStatus(t, IdOf(previous), Waiting(next));
    SetKeepsFresh(t, id, Waiting(next));
    assert HasWaiting(t, id.batch) by { assert t.status[RowId(id.batch, id.row)].Waiting?; }
    assert HasWaiting(t', id.batch) by { assert t'.status[RowId(id.batch, id.row)].Waiting?; }
    forall b | b != id.batch
      ensures HasWaiting(t', b) <==> HasWaiting(t, b)
    {
      SetKeepsOtherWaiting(t, id, Waiting(next), b);
    }
    hide HasFresh, HasWaiting;
  }

  lemma RescheduleQueueAgrees(s: Store, t: Table, s': Store, previous: Retry, next: Retry)
    requires QueueAgrees(s, t) && s'.queue == s.queue
    requires IdOf(previous) in t.status && t.status[IdOf(previous)] == Waiting(previous)
    ensures QueueAgrees(s', SetStatus(t, IdOf(previous), Waiting(next)))
  {
    var t' := SetStatus(t, IdOf(previous), Waiting(next));
    forall e
      ensures e in s'.queue <==>
        var id := RowId(e.batch, e.row);
        id in t'.status && !t'.status[id].Done? && IsRow(t', id) && e.destination == Destination(t', id)
    {
      assert e in s.queue <==>
        var id := RowId(e.batch, e.row);
        id in t.status && !t.status[id].Done? && IsRow(t, id) && e.destination == Destination(t, id);
    }
  }

  // ---- match output ----

  function NewRows(b: Batch): set<RowId> {
    set i | 0 <= i < |b.rows| :: RowId(b.id, i)
  }

  function AddToTable(t: Table, b: Batch): Table {
    Table(t.batches[b.id := b], t.status + map id | id in NewRows(b) :: Fresh)
  }

  function AddAllToTable(t: Table, batches: seq<Batch>): Table {
    if batches == [] then t else AddToTable(AddAllToTable(t, batches[..|batches| - 1]), batches[|batches| - 1])
  }

  lemma AddedStatus(t: Table, b: Batch)
    requires WellFormed(t) && b.id !in t.batches
    ensures var t' := AddToTable(t, b);
      && (forall id :: id in t.status ==> id !in NewRows(b))
      && (forall id :: id in t'.status <==> id in t.status || id in NewRows(b))
      && (forall id :: id in t'.status ==> t'.status[id] == if id in NewRows(b) then Fresh else t.status[id])
  {
    assert forall id :: id in t.status ==> IsRow(t, id);
    hide WellFormed;
  }

  lemma AddKeepsLive(t: Table, b: Batch)
    requires WellFormed(t) && b.id !in t.batches
    ensures Live(AddToTable(t, b)) == Live(t) && Letters(AddToTable(t, b)) == Letters(t)
  {
    AddedStatus(t, b);
    hide WellFormed;
    var t' := AddToTable(t, b);
    forall r | r in Live(t)
      ensures r in Live(t')
    {
      var id :| id in t.status && t.status[id].Waiting? && t.status[id].retry == r;
      assert t'.status[id] == t.status[id];
    }
    forall d | d in Letters(t)
      ensures d in Letters(t')
    {
      var id :| id in t.status && t.status[id].Done? && t.status[id].outcome.Dead? && t.status[id].outcome.letter == d;
      assert t'.status[id] == t.status[id];
    }
  }

  lemma AddWellFormed(t: Table, b: Batch)
    requires WellFormed(t) && b.id !in t.batches && b.rows != []
    ensures WellFormed(AddToTable(t, b))
  {
    var t' := AddToTable(t, b);
    AddKeepsLive(t, b);
    AddedStatus(t, b);
    forall id
      ensures id in t'.status <==> IsRow(t', id)
      ensures id in t'.status ==> StatusFits(t', id, t'.status[id])
    {
      assert id in t.status <==> IsRow(t, id);
      if id in t.status {
        assert StatusFits(t, id, t.status[id]);
      }
    }
    hide Live, Letters;
  }

  lemma AddOtherBatches(t: Table, b: Batch, x: nat)
    requires WellFormed(t) && b.id !in t.batches && x != b.id
    ensures HasFresh(AddToTable(t, b), x) <==> HasFresh(t, x)
    ensures HasWaiting(AddToTable(t, b), x) <==> HasWaiting(t, x)
  {
    var t' := AddToTable(t, b);
    assert forall i: nat :: RowId(x, i) !in NewRows(b);
    assert forall i: nat :: RowId(x, i) in t'.status <==> RowId(x, i) in t.status;
    assert forall i: nat :: RowId(x, i) in t.status ==> t'.status[RowId(x, i)] == t.status[RowId(x, i)];
  }

  lemma AddIsFresh(t: Table, b: Batch)
    requires b.rows != []
    ensures HasFresh(AddToTable(t, b), b.id)
  {
    assert RowId(b.id, 0) in NewRows(b);
    assert AddToTable(t, b).status[RowId(b.id, 0)].Fresh?;
  }

  /** One new batch appears, with an unprogressed row. */
  lemma OneBatchAppears(s: Store, t: Table, s': Store, t': Table, b: Batch)
    requires BatchesAgree(s, t) && b.id !in t.batches && t'.batches == t.batches[b.id := b]
    requires s'.pending == s.pending[b.id := b] && s'.retained == s.retained
    requires HasFresh(t', b.id)
    requires forall x :: x != b.id ==> (HasFresh(t', x) <==> HasFresh(t, x)) && (HasWaiting(t', x) <==> HasWaiting(t, x))
    ensures BatchesAgree(s', t')
  {
    hide HasFresh, HasWaiting;
  }

  lemma AddBatchesAgree(s: Store, t: Table, b: Batch)
    requires WellFormed(t) && b.id !in t.batches && b.rows != [] && BatchesAgree(s, t)
    ensures BatchesAgree(AddBatch(s, b), AddToTable(t, b))
  {
    hide WellFormed, HasFresh, HasWaiting, AddToTable, BatchesAgree;
    var s', t' := AddBatch(s, b), AddToTable(t, b);
    AddIsFresh(t, b);
    AddToTableBatches(t, b);
    forall x | x != b.id
      ensures (HasFresh(t', x) <==> HasFresh(t, x)) && (HasWaiting(t', x) <==> HasWaiting(t, x))
    {
      AddOtherBatches(t, b, x);
    }
    OneBatchAppears(s, t, s', t', b);
  }

  lemma AddProgressAgrees(s: Store, t: Table, b: Batch)
    requires WellFormed(t) && b.id !in t.batches && b.id !in s.pending && ProgressAgrees(s, t)
    ensures ProgressAgrees(AddBatch(s, b), AddToTable(t, b))
  {
    var s', t' := AddBatch(s, b), AddToTable(t, b);
    AddedStatus(t, b);
    hide WellFormed;
    forall x, i | x in s'.pending
      ensures i in Progress(s', x) <==> RowId(x, i) in t'.status && !t'.status[RowId(x, i)].Fresh?
    {
      assert Progress(s', x) == Progress(s, x);
      if x == b.id {
        assert RowId(x, i) in t'.status ==> RowId(x, i) in NewRows(b) || RowId(x, i) in t.status;
        NewBatchHasNoRows(t, b, i);
      } else {
        assert RowId(x, i) !in NewRows(b);
        assert i in Progress(s, x) <==> RowId(x, i) in t.status && !t.status[RowId(x, i)].Fresh?;
      }
    }
  }

  lemma NewBatchHasNoRows(t: Table, b: Batch, i: nat)
    requires WellFormed(t) && b.id !in t.batches
    ensures RowId(b.id, i) !in t.status
  {
    assert !IsRow(t, RowId(b.id, i));
  }

  lemma AddQueueAgrees(s: Store, t: Table, b: Batch)
    requires WellFormed(t) && b.id !in t.batches && QueueAgrees(s, t)
    ensures QueueAgrees(AddBatch(s, b), AddToTable(t, b))
  {
    var s', t' := AddBatch(s, b), AddToTable(t, b);
    AddedStatus(t, b);
    hide WellFormed;
    forall e
      ensures e in s'.queue <==>
        var id := RowId(e.batch, e.row);
        id in t'.status && !t'.status[id].Done? && IsRow(t', id) && e.destination == Destination(t', id)
    {
      var id := RowId(e.batch, e.row);
      NewBatchHasNoRows(t, b, e.row);
      assert e in s.queue <==> id in t.status && !t.status[id].Done? && IsRow(t, id) && e.destination == Destination(t, id);
      if e.batch == b.id {
        assert e in BatchSlots(b) <==> id in NewRows(b) && e.destination == b.rows[e.row].destination;
      } else {
        assert e !in BatchSlots(b) && id !in NewRows(b);
      }
    }
  }

  lemma AddBatchAgrees(s: Store, t: Table, b: Batch)
    requires WellFormed(t) && Agrees(s, t) && b.id !in t.batches && b.rows != []
    ensures WellFormed(AddToTable(t, b)) && Agrees(AddBatch(s, b), AddToTable(t, b))
  {
    assert b.id !in s.pending;
    hide WellFormed, RetryImage, LetterImage, BatchesAgree, ProgressAgrees, QueueAgrees, Live, Letters, AddToTable;
    AddWellFormed(t, b);
    AddKeepsLive(t, b);
    AddBatchesAgree(s, t, b);
    AddProgressAgrees(s, t, b);
    AddQueueAgrees(s, t, b);
    SameRetryImage(s, AddBatch(s, b), Live(t));
  }

  lemma {:induction false} AddBatchesAgrees(s: Store, t: Table, batches: seq<Batch>)
    requires WellFormed(t) && Agrees(s, t)
    requires Distinct(BatchIds(batches)) && forall b :: b in batches ==> b.id !in t.batches && b.rows != []
    ensures WellFormed(AddAllToTable(t, batches)) && Agrees(AddBatches(s, batches), AddAllToTable(t, batches))
    ensures forall x :: x in AddAllToTable(t, batches).batches <==> x in t.batches || x in BatchIds(batches)
  {
    if batches == [] {
      assert BatchIds(batches) == [];
    } else {
      var front, last := batches[..|batches| - 1], batches[|batches| - 1];
      SplitBatchIds(front, last);
      assert batches == front + [last] && last in batches;
      assert forall b :: b in front ==> b in batches;
      hide WellFormed, Agrees, AddToTable, AddBatch, Distinct;
      AddBatchesAgrees(s, t, front);
      AddBatchAgrees(AddBatches(s, front), AddAllToTable(t, front), last);
      AddToTableBatches(AddAllToTable(t, front), last);
    }
  }

  lemma AddToTableBatches(t: Table, b: Batch)
    ensures AddToTable(t, b).batches == t.batches[b.id := b]
  {
  }

  lemma SplitBatchIds(front: seq<Batch>, last: Batch)
    ensures BatchIds(front + [last]) == BatchIds(front) + [last.id]
    ensures Distinct(BatchIds(front + [last])) ==> Distinct(BatchIds(front)) && last.id !in BatchIds(front)
  {
    var ids := BatchIds(front + [last]);
    assert ids == BatchIds(front) + [last.id];
    if Distinct(ids) {
      assert forall i :: 0 <= i < |front| ==> ids[i] == BatchIds(front)[i];
      assert ids[|front|] == last.id;
    }
  }
}
