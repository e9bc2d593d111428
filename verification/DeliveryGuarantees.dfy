/**
 What the delivery protocol guarantees, stated for every state of every run that starts with empty
 keyspaces: any interleaving of match commits, lanes, retries and crashes.
 */
module DeliveryGuarantees {
  import opened Records
  import opened DeliverySpec
  import opened RowTable
  import opened RowSteps
  import opened LaneOutcome
  import opened DeliveryRuns
  import opened DeliveryInvariant
  import opened DeliveryTheorems
  import opened DeliveryProgress
  import opened DeliveryStorage
  import opened DeliveryWorker

  /** The n-th state of a run from the empty store. */
  ghost predicate Reached(ys: seq<Sys>, steps: seq<Step>, n: nat) {
    Run(ys, steps) && ys[0] == Initial && n < |ys|
  }

  /** Exactly one of the three places holds a row of a committed batch: the unprogressed part of a
      pending batch, a live retry, or its terminal outcome; the queue holds it until it is terminal. */
  lemma RowsAreConserved(ys: seq<Sys>, steps: seq<Step>, n: nat, id: RowId)
    requires Reached(ys, steps, n) && IsRow(ys[n].table, id)
    ensures var s, t := ys[n].store, ys[n].table;
      && id in t.status
      && (Unprogressed(s, id) <==> t.status[id].Fresh?)
      && (HasLiveRetry(s, id) <==> t.status[id].Waiting?)
      && (Queued(s, t, id) <==> !t.status[id].Done?)
      && !(Unprogressed(s, id) && HasLiveRetry(s, id))
  {
    RunKeepsInv(ys, steps, n);
    assert WellFormed(ys[n].table) && id in ys[n].table.status;
    hide *;
    RowConservation(ys[n], id);
  }

  /** Nothing else is queued, retried or dead-lettered: every record names a row of a committed batch. And
      nothing is lost: a waiting row is under all three retry keys, a dead-lettered one under its letter's. */
  lemma RecordsNameRows(ys: seq<Sys>, steps: seq<Step>, n: nat)
    requires Reached(ys, steps, n)
    ensures var s, t := ys[n].store, ys[n].table;
      && (forall e :: e in s.queue ==> IsRow(t, RowId(e.batch, e.row)) && Destination(t, RowId(e.batch, e.row)) == e.destination)
      && (forall k :: k in s.retries ==> IsRow(t, IdOf(s.retries[k])) && IdOf(s.retries[k]) in t.status && t.status[IdOf(s.retries[k])] == Waiting(s.retries[k]))
      && (forall k :: k in s.letters ==> var id := RowId(s.letters[k].batch, s.letters[k].row);
                                         IsRow(t, id) && id in t.status && t.status[id] == Done(Dead(s.letters[k])))
      && (forall k, l :: k in s.letters && l in s.letters && k != l ==>
            RowId(s.letters[k].batch, s.letters[k].row) != RowId(s.letters[l].batch, s.letters[l].row))
      && (forall id :: id in t.status ==> RecordStored(s, t.status[id]))
  {
    RunKeepsInv(ys, steps, n);
    var s, t := ys[n].store, ys[n].table;
    AgreesParts(s, t);
    assert forall id :: id in t.status <==> IsRow(t, id);
    assert RetryImage(s, Live(t)) && LetterImage(s.letters, Letters(t));
    forall k | k in s.retries
      ensures IdOf(s.retries[k]) in t.status && t.status[IdOf(s.retries[k])] == Waiting(s.retries[k])
    {
      LiveIsWaiting(t, s.retries[k]);
    }
    forall k | k in s.letters
      ensures var id := RowId(s.letters[k].batch, s.letters[k].row);
        id in t.status && t.status[id] == Done(Dead(s.letters[k]))
      ensures forall l :: l in s.letters && l != k ==> RowId(s.letters[l].batch, s.letters[l].row) != RowId(s.letters[k].batch, s.letters[k].row)
    {
      DeadLetteredOnce(ys[n], k);
    }
    forall id | id in t.status
      ensures RecordStored(s, t.status[id])
    {
      StatusIsStored(s, t, id);
    }
    hide Reached, Inv, WellFormed, Agrees, Live, IsRow;
  }

  /** The records that a row in this status has. */
  predicate RecordStored(s: Store, x: Status) {
    match x
    case Waiting(r) =>
      && Current(s, r)
      && DestinationKeyOf(r) in s.byDestination && s.byDestination[DestinationKeyOf(r)] == KeyOf(r)
      && BatchKeyOf(r) in s.byBatch && s.byBatch[BatchKeyOf(r)] == KeyOf(r)
    case Done(Dead(d)) => LetterKeyOf(d) in s.letters && s.letters[LetterKeyOf(d)] == d
    case _ => true
  }

  lemma StatusIsStored(s: Store, t: Table, id: RowId)
    requires RetryImage(s, Live(t)) && LetterImage(s.letters, Letters(t)) && id in t.status
    ensures RecordStored(s, t.status[id])
  {
    match t.status[id] {
      case Waiting(r) => assert r in Live(t);
      case Done(Dead(d)) => assert d in Letters(t);
      case _ =>
    }
  }

  /** A batch is under key (0, id) exactly while a row of it is unprogressed, under key (1, id) exactly
      when none is and a retry of it is live, and under neither once all its rows are terminal. */
  lemma BatchRecordsFollowRows(ys: seq<Sys>, steps: seq<Step>, n: nat, b: nat)
    requires Reached(ys, steps, n)
    ensures var s, t := ys[n].store, ys[n].table;
      && (b in s.pending <==> b in t.batches && HasFresh(t, b))
      && (b in s.retained <==> b in t.batches && !HasFresh(t, b) && HasWaiting(t, b))
      && (b in s.pending ==> s.pending[b] == t.batches[b])
      && (b in s.retained ==> s.retained[b] == t.batches[b])
  {
    RunKeepsInv(ys, steps, n);
    AgreesParts(ys[n].store, ys[n].table);
    hide HasFresh, HasWaiting, Reached, WellFormed, ProgressAgrees, QueueAgrees, RetryImage, LetterImage;
  }

  /** No destination queue is ever stuck: while a row of a destination is not terminal its queue has a
      head, and that head is an unprogressed row of a pending batch or a retry its worker accepts. */
  lemma QueuesNeverStick(ys: seq<Sys>, steps: seq<Step>, n: nat, id: RowId)
    requires Reached(ys, steps, n) && IsRow(ys[n].table, id) && id in ys[n].table.status && !ys[n].table.status[id].Done?
    ensures exists e: Slot :: e.destination == Destination(ys[n].table, id) && IsHead(ys[n].store, e)
    ensures forall e: Slot :: IsHead(ys[n].store, e) ==>
      Unprogressed(ys[n].store, RowId(e.batch, e.row)) || exists r :: IsRetryHead(ys[n].store, r) && SlotOf(r) == e
  {
    RunKeepsInv(ys, steps, n);
    hide *;
    NoStuckQueue(ys[n], id);
    forall e: Slot | IsHead(ys[n].store, e)
      ensures Unprogressed(ys[n].store, RowId(e.batch, e.row)) || exists r :: IsRetryHead(ys[n].store, r) && SlotOf(r) == e
    {
      HeadCanProceed(ys[n], e);
    }
  }

  /** No row's sends fail more than 13 times, and what its retry or dead letter records is that number. */
  lemma AttemptsAreBounded(ys: seq<Sys>, steps: seq<Step>, n: nat, id: RowId)
    requires Reached(ys, steps, n) && IsRow(ys[n].table, id)
    ensures var t, failed := ys[n].table, Count(ys[n].failures, id);
      && id in t.status
      && failed <= MAX_RETRY_ATTEMPTS + 1
      && (t.status[id].Fresh? ==> failed == 0)
      && (t.status[id].Waiting? ==> t.status[id].retry.attempts == failed && failed <= MAX_RETRY_ATTEMPTS)
      && (t.status[id].Done? && t.status[id].outcome.Dead? ==> t.status[id].outcome.letter.attempts == failed)
      && (t.status[id].Done? && !t.status[id].outcome.Dead? ==> failed <= MAX_RETRY_ATTEMPTS)
  {
    RunKeepsInv(ys, steps, n);
    assert AttemptsOk(ys[n]) && id in ys[n].table.status;
    hide Inv, Reached;
    assert AttemptOk(ys[n].table.status[id], Count(ys[n].failures, id));
  }

  /** The scan of the retry worker finds exactly the due heads: in every reachable state the three retry
      indexes agree, so the scan meets no broken entry and misses nothing below its limit. */
  method ScanOfReachable(store: Keyspaces, ghost ys: seq<Sys>, ghost steps: seq<Step>, ghost n: nat, now: int, limit: nat)
    returns (ok: bool, heads: seq<Retry>)
    requires Reached(ys, steps, n) && store.View() == ys[n].store
    ensures ok && SoundHeads(store.View(), heads, now, limit) && NoneMissed(store.View(), heads, now, limit)
    ensures forall r :: r in heads ==> ReadyToSend(ys[n].table, r, now)
    ensures forall r :: ReadyToSend(ys[n].table, r, now) ==> r in heads || (|heads| == limit > 0 && heads[limit - 1].destination < r.destination)
  {
    RunKeepsInv(ys, steps, n);
    assert RetryImage(ys[n].store, Live(ys[n].table));
    hide *;
    ok, heads := store.DueRetryHeads(now, limit, Live(ys[n].table));
    HeadsAreReady(ys[n], heads, now, limit);
  }

  /** The row waits for this retry, the retry is due, and every earlier row of its destination is done. */
  ghost predicate ReadyToSend(t: Table, r: Retry, now: int) {
    && RowId(r.batch, r.row) in t.status && t.status[RowId(r.batch, r.row)] == Waiting(r) && r.due <= now
    && forall a :: a in t.status && Before(t, a, RowId(r.batch, r.row)) ==> t.status[a].Done?
  }

  lemma HeadsAreReady(y: Sys, heads: seq<Retry>, now: int, limit: nat)
    requires Inv(y) && SoundHeads(y.store, heads, now, limit) && NoneMissed(y.store, heads, now, limit)
    ensures forall r :: r in heads ==> ReadyToSend(y.table, r, now)
    ensures forall r :: ReadyToSend(y.table, r, now) ==> r in heads || (|heads| == limit > 0 && heads[limit - 1].destination < r.destination)
  {
    forall r: Retry
      ensures ReadyToSend(y.table, r, now) <==> DueHead(y.store, r, now)
    {
      RetryHeadMeans(y, r);
      ReadyMeans(y.table, r, now);
      hide Inv, IsRetryHead, ReadyToSend, EarlierDone;
    }
    hide Inv, IsRetryHead, ReadyToSend, DueHead, DestinationsAscend;
  }

  lemma ReadyMeans(t: Table, r: Retry, now: int)
    ensures ReadyToSend(t, r, now) <==> IdOf(r) in t.status && t.status[IdOf(r)] == Waiting(r) && r.due <= now && EarlierDone(t, IdOf(r))
  {
  }
}
