/**
 The delivery keyspaces as they are written: fields reassigned step by step, each method committed
 as one batch. Every method is proved against its transition in DeliverySpec.
 */
module DeliveryStorage {
  import opened Records
  import opened DeliverySpec
  import opened RowTable

  /** Records one claim of a completed row: it must be completed and not claimed before. */
  method ClaimSkipped(completed: set<nat>, ghost seen: seq<nat>, claimed: set<nat>, rows: seq<nat>)
    returns (ok: bool, claimed': set<nat>)
    requires claimed == Elements(seen) && Distinct(seen)
    ensures ok <==> Distinct(seen + rows) && Elements(rows) <= completed
    ensures ok ==> claimed' == Elements(seen + rows)
  {
    claimed' := claimed;
    assert seen + rows[..0] == seen;
    var k := 0;
    while k < |rows|
      invariant 0 <= k <= |rows|
      invariant Distinct(seen + rows[..k]) && Elements(rows[..k]) <= completed
      invariant claimed' == Elements(seen + rows[..k])
    {
      ClaimOne(completed, seen, rows, k);
      if rows[k] !in completed || rows[k] in claimed' {
        return false, claimed';
      }
      claimed' := claimed' + {rows[k]};
      k := k + 1;
    }
    assert rows[..k] == rows;
    ok := true;
  }

  /** One more row can be claimed exactly when it is completed and new; otherwise no extension is valid. */
  lemma ClaimOne(completed: set<nat>, seen: seq<nat>, rows: seq<nat>, k: nat)
    requires k < |rows| && Distinct(seen + rows[..k]) && Elements(rows[..k]) <= completed
    ensures rows[k] in completed && rows[k] !in Elements(seen + rows[..k]) ==>
      Distinct(seen + rows[..k + 1]) && Elements(rows[..k + 1]) <= completed
      && Elements(seen + rows[..k + 1]) == Elements(seen + rows[..k]) + {rows[k]}
    ensures rows[k] !in completed || rows[k] in Elements(seen + rows[..k]) ==>
      !(Distinct(seen + rows) && Elements(rows) <= completed)
  {
    assert seen + rows[..k + 1] == seen + rows[..k] + [rows[k]];
    assert rows[..k + 1] == rows[..k] + [rows[k]];
    assert rows[k] in rows && rows[k] in Elements(rows);
    if rows[k] in Elements(seen + rows[..k]) {
      var j :| 0 <= j < |seen| + k && (seen + rows[..k])[j] == rows[k];
      assert (seen + rows)[j] == (seen + rows)[|seen| + k];
    }
  }

  method ClaimSuccesses(batch: Batch, completed: set<nat>, ghost seen: seq<nat>, claimed: set<nat>, xs: seq<Success>,
                        ledger: map<LedgerKey, Stored>, now: int)
    returns (ok: bool, claimed': set<nat>, ledger': map<LedgerKey, Stored>)
    requires claimed == Elements(seen) && Distinct(seen)
    ensures ok <==> Distinct(seen + SuccessRows(xs)) && Elements(SuccessRows(xs)) <= completed && forall x :: x in xs ==> SuccessFits(batch, x)
    ensures ok ==> claimed' == Elements(seen + SuccessRows(xs)) && ledger' == PutSuccesses(ledger, batch, xs, now)
  {
    claimed', ledger' := claimed, ledger;
    var k := 0;
    ghost var rows := SuccessRows(xs);
    assert seen + rows[..0] == seen;
    while k < |xs|
      invariant 0 <= k <= |xs|
      invariant Distinct(seen + rows[..k]) && Elements(rows[..k]) <= completed
      invariant forall x :: x in xs[..k] ==> SuccessFits(batch, x)
      invariant claimed' == Elements(seen + rows[..k])
      invariant ledger' == PutSuccesses(ledger, batch, xs[..k], now)
    {
      ClaimOne(completed, seen, rows, k);
      assert xs[k] in xs && xs[..k + 1] == xs[..k] + [xs[k]];
      if !SuccessFits(batch, xs[k]) || xs[k].rowIndex !in completed || xs[k].rowIndex in claimed' {
        return false, claimed', ledger';
      }
      claimed' := claimed' + {xs[k].rowIndex};
      ledger' := PutSuccess(ledger', batch, xs[k], now);
      assert xs[..k + 1][..k] == xs[..k];
      k := k + 1;
    }
    assert xs[..k] == xs && rows[..k] == rows;
    ok := true;
  }

  method ClaimLetters(batch: Batch, completed: set<nat>, ghost seen: seq<nat>, claimed: set<nat>, ds: seq<Letter>,
                      letters: map<LetterKey, Letter>)
    returns (ok: bool, claimed': set<nat>, letters': map<LetterKey, Letter>)
    requires claimed == Elements(seen) && Distinct(seen)
    ensures ok <==> Distinct(seen + LetterRows(ds)) && Elements(LetterRows(ds)) <= completed && forall d :: d in ds ==> LetterFits(batch, d)
    ensures ok ==> claimed' == Elements(seen + LetterRows(ds)) && letters' == PutLetters(letters, ds)
  {
    claimed', letters' := claimed, letters;
    var k := 0;
    ghost var rows := LetterRows(ds);
    assert seen + rows[..0] == seen;
    while k < |ds|
      invariant 0 <= k <= |ds|
      invariant Distinct(seen + rows[..k]) && Elements(rows[..k]) <= completed
      invariant forall d :: d in ds[..k] ==> LetterFits(batch, d)
      invariant claimed' == Elements(seen + rows[..k])
      invariant letters' == PutLetters(letters, ds[..k])
    {
      ClaimOne(completed, seen, rows, k);
      assert ds[k] in ds && ds[..k + 1] == ds[..k] + [ds[k]];
      if !LetterFits(batch, ds[k]) || ds[k].row !in completed || ds[k].row in claimed' {
        return false, claimed', letters';
      }
      claimed' := claimed' + {ds[k].row};
      letters' := letters'[LetterKeyOf(ds[k]) := ds[k]];
      assert ds[..k + 1][..k] == ds[..k];
      k := k + 1;
    }
    assert ds[..k] == ds && rows[..k] == rows;
    ok := true;
  }

  method ClaimRetries(batch: Batch, completed: set<nat>, ghost seen: seq<nat>, claimed: set<nat>, rs: seq<Retry>, s: Store)
    returns (ok: bool, claimed': set<nat>, s': Store)
    requires claimed == Elements(seen) && Distinct(seen)
    ensures ok <==> Distinct(seen + RetryRows(rs)) && Elements(RetryRows(rs)) <= completed && forall r :: r in rs ==> RetryFits(batch, r)
    ensures ok ==> claimed' == Elements(seen + RetryRows(rs)) && s' == PutRetries(s, rs)
  {
    claimed', s' := claimed, s;
    var k := 0;
    ghost var rows := RetryRows(rs);
    assert seen + rows[..0] == seen;
    while k < |rs|
      invariant 0 <= k <= |rs|
      invariant Distinct(seen + rows[..k]) && Elements(rows[..k]) <= completed
      invariant forall r :: r in rs[..k] ==> RetryFits(batch, r)
      invariant claimed' == Elements(seen + rows[..k])
      invariant s' == PutRetries(s, rs[..k])
    {
      ClaimOne(completed, seen, rows, k);
      assert rs[k] in rs && rs[..k + 1] == rs[..k] + [rs[k]];
      if !RetryFits(batch, rs[k]) || rs[k].row !in completed || rs[k].row in claimed' {
        return false, claimed', s';
      }
      claimed' := claimed' + {rs[k].row};
      s' := PutRetry(s', rs[k]);
      assert rs[..k + 1][..k] == rs[..k];
      k := k + 1;
    }
    assert rs[..k] == rs && rows[..k] == rows;
    ok := true;
  }

  /** The completed rows are distinct rows of one destination. */
  ghost predicate CompletedFit(batch: Batch, rows: seq<nat>) {
    && Distinct(rows)
    && (forall i :: i in rows ==> i < |batch.rows|)
    && (forall i, j :: i in rows && j in rows ==> batch.rows[i].destination == batch.rows[j].destination)
  }

  method CheckCompleted(batch: Batch, rows: seq<nat>) returns (ok: bool)
    ensures ok <==> CompletedFit(batch, rows)
  {
    CardinalityOfElements(rows);
    if |Elements(rows)| != |rows| {
      return false;
    }
    var lane: Option<nat> := None;
    var k := 0;
    while k < |rows|
      invariant 0 <= k <= |rows|
      invariant lane.None? <==> k == 0
      invariant forall j :: 0 <= j < k ==> rows[j] < |batch.rows| && lane == Some(batch.rows[rows[j]].destination)
    {
      assert rows[k] in rows;
      if rows[k] >= |batch.rows| {
        return false;
      }
      if lane.Some? && lane.value != batch.rows[rows[k]].destination {
        assert rows[0] in rows;
        return false;
      }
      lane := Some(batch.rows[rows[k]].destination);
      k := k + 1;
    }
    ok := true;
  }

  /** Inserts the completed rows into the bitmap and frees the queue entries of those without a retry. */
  method MarkProgress(batch: Batch, lane: Lane, progress: set<nat>, queue: set<Slot>) returns (ok: bool, progress': set<nat>, queue': set<Slot>)
    requires CompletedFit(batch, lane.completed)
    ensures ok <==> Elements(lane.completed) !! progress
    ensures ok ==> progress' == progress + Elements(lane.completed) && queue' == queue - DoneSlots(batch, lane)
  {
    progress', queue' := progress, queue;
    var rows := lane.completed;
    ghost var freed: set<Slot> := {};
    var k := 0;
    while k < |rows|
      invariant 0 <= k <= |rows|
      invariant Elements(rows[..k]) !! progress
      invariant progress' == progress + Elements(rows[..k])
      invariant queue' == queue - freed
      invariant forall e :: e in freed <==> e.batch == batch.id && e.row in rows[..k] && e.row !in RetryRows(lane.retries)
                                            && e.row < |batch.rows| && e.destination == batch.rows[e.row].destination
    {
      assert rows[k] in rows && rows[..k + 1] == rows[..k] + [rows[k]];
      assert rows[k] !in Elements(rows[..k]);
      if rows[k] in progress' {
        assert rows[k] in Elements(rows) && rows[k] in progress;
        return false, progress', queue';
      }
      progress' := progress' + {rows[k]};
      if rows[k] !in RetryRows(lane.retries) {
        queue' := queue' - {Slot(batch.rows[rows[k]].destination, batch.id, rows[k])};
        freed := freed + {Slot(batch.rows[rows[k]].destination, batch.id, rows[k])};
      }
      k := k + 1;
    }
    assert rows[..k] == rows;
    assert forall e :: e in freed <==> e in DoneSlots(batch, lane);
    ok := true;
  }

  /** Every outcome list claims its rows, and together they claim exactly the completed ones. */
  ghost predicate OutcomesFit(batch: Batch, lane: Lane) {
    && (forall x :: x in lane.successes ==> SuccessFits(batch, x))
    && (forall d :: d in lane.letters ==> LetterFits(batch, d))
    && (forall r :: r in lane.retries ==> RetryFits(batch, r))
    && Distinct(OutcomeRows(lane))
    && Elements(OutcomeRows(lane)) == Elements(lane.completed)
  }

  method ClaimOutcomes(batch: Batch, completed: set<nat>, lane: Lane, s: Store, now: int) returns (ok: bool, s': Store)
    requires completed == Elements(lane.completed)
    ensures ok <==> OutcomesFit(batch, lane)
    ensures ok ==> s' == PutRetries(s, lane.retries).(letters := PutLetters(s.letters, lane.letters),
                                                      ledger := PutSuccesses(s.ledger, batch, lane.successes, now))
  {
    s' := s;
    ghost var a, b := lane.skipped, SuccessRows(lane.successes);
    ghost var c, d := LetterRows(lane.letters), RetryRows(lane.retries);
    OutcomePrefixes(a, b, c, d, completed);
    assert OutcomeRows(lane) == a + b + c + d;
    assert [] + a == a;
    hide Distinct, Elements, SuccessFits, LetterFits, RetryFits, OutcomeRows, PutRetries, PutLetters, PutSuccesses;
    assert Distinct<nat>([]) && Elements<nat>([]) == {} by { EmptyIsDistinct(); }
    var ok1, claimed1 := ClaimSkipped(completed, [], {}, lane.skipped);
    if !ok1 {
      return false, s;
    }
    var ok2, claimed2, ledger := ClaimSuccesses(batch, completed, a, claimed1, lane.successes, s.ledger, now);
    if !ok2 {
      return false, s;
    }
    var ok3, claimed3, letters := ClaimLetters(batch, completed, a + b, claimed2, lane.letters, s.letters);
    if !ok3 {
      return false, s;
    }
    var ok4, claimed4, written := ClaimRetries(batch, completed, a + b + c, claimed3, lane.retries, s);
    if !ok4 || claimed4 != completed {
      return false, s;
    }
    return true, written.(letters := letters, ledger := ledger);
  }

  lemma EmptyIsDistinct()
    ensures Distinct<nat>([]) && Elements<nat>([]) == {}
  {
  }

  class Keyspaces {
    var pending: map<nat, Batch>
    var retained: map<nat, Batch>
    var progress: map<nat, set<nat>>
    var queue: set<Slot>
    var retries: map<RetryKey, Retry>
    var byDestination: map<DestinationKey, RetryKey>
    var byBatch: map<BatchKey, RetryKey>
    var letters: map<LetterKey, Letter>
    var ledger: map<LedgerKey, Stored>

    function View(): Store
      reads this
    {
      Store(pending, retained, progress, queue, retries, byDestination, byBatch, letters, ledger)
    }

    constructor ()
      ensures View() == Store(map[], map[], map[], {}, map[], map[], map[], map[], map[])
    {
      pending, retained, progress, queue := map[], map[], map[], {};
      retries, byDestination, byBatch, letters, ledger := map[], map[], map[], map[], map[];
    }

    method Write(s: Store)
      modifies this
      ensures View() == s
    {
      pending, retained, progress, queue := s.pending, s.retained, s.progress, s.queue;
      retries, byDestination, byBatch := s.retries, s.byDestination, s.byBatch;
      letters, ledger := s.letters, s.ledger;
    }

    /** The lane outcome is committed as one batch, or nothing is when any check fails. */
    method CommitLaneOutcome(id: nat, lane: Lane, now: int) returns (ok: bool)
      modifies this
      ensures ok <==> LaneAccepted(old(View()), id, lane)
      ensures View() == if ok then LaneCommit(old(View()), id, lane, now) else old(View())
    {
      var before := View();
      if id !in pending || pending[id].id != id {
        return false;
      }
      var batch := pending[id];
      AcceptedParts(before, id, lane);
      hide LaneAccepted, CompletedFit, OutcomesFit, HasRetry, LaneCommit, PutRetries, PutLetters, PutSuccesses, DoneSlots;
      var fine := CheckCompleted(batch, lane.completed);
      if !fine {
        return false;
      }
      var ok1, written := ClaimOutcomes(batch, Elements(lane.completed), lane, before, now);
      if !ok1 {
        return false;
      }
      var ok2, done, rest := MarkProgress(batch, lane, if id in progress then progress[id] else {}, queue);
      if !ok2 {
        return false;
      }
      var next := StageLane(before, id, lane, now, done, written.(queue := rest));
      Write(next);
      ok := true;
    }

    /** Only the first entry under the destination is its head. */
    method DeliveryIsDestinationHead(slot: Slot) returns (head: bool)
      ensures head <==> IsHead(View(), slot)
    {
      head := slot in queue && forall other | other in queue && other.destination == slot.destination :: !SlotLess(other, slot);
    }

    method RetryIsDestinationHead(candidate: Retry) returns (head: bool)
      ensures head <==> IsRetryHead(View(), candidate)
    {
      if KeyOf(candidate) !in retries || retries[KeyOf(candidate)] != candidate {
        return false;
      }
      var key := DestinationKeyOf(candidate);
      if key !in byDestination || exists k | k in byDestination && k.destination == candidate.destination :: KeyLess(k, key) {
        return false;
      }
      head := DeliveryIsDestinationHead(SlotOf(candidate));
    }

    method RescheduleRetry(previous: Retry, next: Retry) returns (ok: bool)
      modifies this
      ensures ok <==> SameIdentity(previous, next) && Current(old(View()), previous)
      ensures View() == if ok then DeliverySpec.RescheduleRetry(old(View()), previous, next) else old(View())
    {
      if !SameIdentity(previous, next) || KeyOf(previous) !in retries || retries[KeyOf(previous)] != previous {
        return false;
      }
      retries := (retries - {KeyOf(previous)})[KeyOf(next) := next];
      byDestination := byDestination[DestinationKeyOf(next) := KeyOf(next)];
      byBatch := byBatch[BatchKeyOf(next) := KeyOf(next)];
      ok := true;
    }

    /** Removes every trace of the retry, and the retained batch once no other retry needs it. */
    method FinishInBatch(retry: Retry)
      modifies this
      ensures View() == FinishRetry(old(View()), retry)
    {
      var hasOther := exists k | k in byBatch :: k.batch == retry.batch && k != BatchKeyOf(retry);
      retries := retries - {KeyOf(retry)};
      byDestination := byDestination - {DestinationKeyOf(retry)};
      byBatch := byBatch - {BatchKeyOf(retry)};
      queue := queue - {SlotOf(retry)};
      if !hasOther {
        retained := retained - {retry.batch};
      }
    }

    /** A retry whose key is already gone is complete: nothing changes and the call succeeds. */
    method CompleteRetry(retry: Retry) returns (ok: bool)
      modifies this
      ensures ok <==> KeyOf(retry) !in old(View()).retries || Current(old(View()), retry)
      ensures View() == if Current(old(View()), retry) then FinishRetry(old(View()), retry) else old(View())
    {
      if KeyOf(retry) !in retries {
        return true;
      }
      if retries[KeyOf(retry)] != retry {
        return false;
      }
      FinishInBatch(retry);
      ok := true;
    }

    method CompleteRetryWithSuccess(retry: Retry, success: Option<Success>, now: int) returns (ok: bool)
      modifies this
      ensures ok <==> SuccessAccepted(old(View()), retry, success)
      ensures View() == if ok then RetrySuccess(old(View()), retry, success, now) else old(View())
    {
      var found := if retry.batch in pending then Some(pending[retry.batch])
                   else if retry.batch in retained then Some(retained[retry.batch]) else None;
      if KeyOf(retry) !in retries || retries[KeyOf(retry)] != retry || found.None? {
        return false;
      }
      var batch := found.value;
      if retry.row >= |batch.rows| || batch.rows[retry.row].destination != retry.destination {
        return false;
      }
      if success.Some? && !(success.value.rowIndex == retry.row && success.value.row == batch.rows[retry.row]) {
        return false;
      }
      assert SuccessAccepted(View(), retry, success);
      FinishInBatch(retry);
      if success.Some? {
        ledger := PutSuccess(ledger, batch, success.value, now);
      }
      ok := true;
    }

    method DeadLetterRetry(retry: Retry, letter: Letter) returns (ok: bool)
      modifies this
      ensures ok <==> Current(old(View()), retry) && LetterMatches(retry, letter)
      ensures View() == if ok then RetryDead(old(View()), retry, letter) else old(View())
    {
      if KeyOf(retry) !in retries || retries[KeyOf(retry)] != retry || !LetterMatches(retry, letter) {
        return false;
      }
      FinishInBatch(retry);
      letters := letters[LetterKeyOf(letter) := letter];
      ok := true;
    }

    /** The batches of one match job enter the pending keyspace and the queues together. */
    method AddBatches(batches: seq<Batch>) returns (ok: bool)
      modifies this
      ensures ok <==> BatchesAccepted(old(View()), batches)
      ensures View() == if ok then DeliverySpec.AddBatches(old(View()), batches) else old(View())
    {
      var next := View();
      var ids: set<nat> := {};
      var k := 0;
      while k < |batches|
        invariant 0 <= k <= |batches|
        invariant BatchesAccepted(View(), batches[..k]) && ids == Elements(BatchIds(batches[..k]))
        invariant next == DeliverySpec.AddBatches(View(), batches[..k])
        invariant View() == old(View())
      {
        var batch := batches[k];
        BatchesAcceptOneMore(View(), batches, k);
        if batch.rows == [] || batch.id in ids || batch.id in pending || batch.id in retained || batch.id in progress {
          return false;
        }
        ids := ids + {batch.id};
        next := AddBatch(next, batch);
        assert batches[..k + 1][..k] == batches[..k];
        k := k + 1;
      }
      assert batches[..k] == batches;
      Write(next);
      ok := true;
    }

    /** One pass over the destination index: the due retries that head both their retry queue and their
        delivery queue, in destination order, up to a positive limit. When the three retry indexes agree
        the pass succeeds and misses none but those past the last destination it reached. */
    method DueRetryHeads(now: int, limit: nat, ghost live: set<Retry>) returns (ok: bool, heads: seq<Retry>)
      ensures ok ==> SoundHeads(View(), heads, now, limit)
      ensures RetryImage(View(), live) ==> ok && NoneMissed(View(), heads, now, limit)
    {
      var s := View();
      var rest := s.byDestination.Keys;
      var previous: Option<nat> := None;
      heads := [];
      ScanBegins(s, now);
      hide *;
      while rest != {}
        invariant rest <= s.byDestination.Keys
        invariant Scanned(s.byDestination.Keys, rest, previous)
        invariant HeadsFound(s, rest, heads, now) && HeadsBehind(heads, previous)
        invariant RetryImage(s, live) ==> HeadsComplete(s, rest, heads, now)
        invariant limit > 0 ==> |heads| < limit
        decreases |rest|
      {
        var k := Least(rest);
        LeastIsIn(rest, k);
        var fine, found := Examine(k, previous, now, live);
        if !fine {
          return false, [];
        }
        ScanOne(s, rest, previous, heads, k, found, now, live);
        rest := rest - {k};
        previous := Some(k.destination);
        if found.Some? {
          heads := heads + [found.value];
          if |heads| == limit {
            ScanStopped(s, rest, previous, heads, now, limit, live);
            return true, heads;
          }
        }
      }
      ScanEnded(s, rest, previous, heads, now, limit, live);
      ok := true;
    }

    /** What the pass does with one index entry. */
    method Examine(k: DestinationKey, previous: Option<nat>, now: int, ghost live: set<Retry>) returns (ok: bool, found: Option<Retry>)
      requires k in View().byDestination
      ensures ok ==> Examined(View(), k, previous, found, now, live)
      ensures RetryImage(View(), live) ==> ok
    {
      found := None;
      if previous == Some(k.destination) {
        return true, None;
      }
      if byDestination[k] !in retries {
        return false, None;
      }
      var retry := retries[byDestination[k]];
      if retry.destination != k.destination || DestinationKeyOf(retry) != k {
        return false, None;
      }
      if retry.due <= now {
        var head := RetryIsDestinationHead(retry);
        if head {
          found := Some(retry);
        }
      }
      ok := true;
    }
  }

  ghost predicate DueHead(s: Store, r: Retry, now: int) {
    IsRetryHead(s, r) && r.due <= now
  }

  ghost predicate DestinationsAscend(rs: seq<Retry>) {
    forall i, j :: 0 <= i < j < |rs| ==> rs[i].destination < rs[j].destination
  }

  /** Everything scanned precedes everything left, and `previous` is the last destination scanned. */
  ghost predicate Scanned(keys: set<DestinationKey>, rest: set<DestinationKey>, previous: Option<nat>) {
    && (forall a, b :: a in keys - rest && b in rest ==> KeyLess(a, b))
    && (previous.None? ==> keys == rest)
    && (previous.Some? ==> (forall a :: a in keys - rest ==> a.destination <= previous.value)
                           && exists a :: a in keys - rest && a.destination == previous.value)
  }

  ghost predicate HeadsFound(s: Store, rest: set<DestinationKey>, heads: seq<Retry>, now: int) {
    forall h :: h in heads ==> DueHead(s, h, now) && DestinationKeyOf(h) in s.byDestination.Keys - rest
  }

  ghost predicate HeadsBehind(heads: seq<Retry>, previous: Option<nat>) {
    DestinationsAscend(heads) && forall h :: h in heads ==> previous.Some? && h.destination <= previous.value
  }

  ghost predicate HeadsComplete(s: Store, rest: set<DestinationKey>, heads: seq<Retry>, now: int) {
    forall r :: DueHead(s, r, now) && DestinationKeyOf(r) !in rest ==> r in heads
  }

  ghost predicate SoundHeads(s: Store, heads: seq<Retry>, now: int, limit: nat) {
    && DestinationsAscend(heads)
    && (forall h :: h in heads ==> DueHead(s, h, now))
    && (limit > 0 ==> |heads| <= limit)
  }

  ghost predicate NoneMissed(s: Store, heads: seq<Retry>, now: int, limit: nat) {
    forall r :: DueHead(s, r, now) ==>
      r in heads || (|heads| == limit > 0 && heads[limit - 1].destination < r.destination)
  }

  lemma ScanBegins(s: Store, now: int)
    ensures Scanned(s.byDestination.Keys, s.byDestination.Keys, None)
    ensures HeadsFound(s, s.byDestination.Keys, [], now) && HeadsBehind([], None)
    ensures HeadsComplete(s, s.byDestination.Keys, [], now)
  {
  }

  lemma ScanEnded(s: Store, rest: set<DestinationKey>, previous: Option<nat>, heads: seq<Retry>, now: int, limit: nat, live: set<Retry>)
    requires HeadsFound(s, rest, heads, now) && HeadsBehind(heads, previous) && rest == {} && (limit > 0 ==> |heads| < limit)
    requires RetryImage(s, live) ==> HeadsComplete(s, rest, heads, now)
    ensures SoundHeads(s, heads, now, limit)
    ensures RetryImage(s, live) ==> NoneMissed(s, heads, now, limit)
  {
    hide IsRetryHead, RetryImage;
  }

  lemma ScanStopped(s: Store, rest: set<DestinationKey>, previous: Option<nat>, heads: seq<Retry>, now: int, limit: nat, live: set<Retry>)
    requires HeadsFound(s, rest, heads, now) && HeadsBehind(heads, previous) && |heads| == limit > 0
    requires rest <= s.byDestination.Keys && Scanned(s.byDestination.Keys, rest, previous)
    requires previous == Some(heads[limit - 1].destination)
    requires RetryImage(s, live) ==> HeadsComplete(s, rest, heads, now)
    ensures SoundHeads(s, heads, now, limit)
    ensures RetryImage(s, live) ==> NoneMissed(s, heads, now, limit)
  {
    LimitReached(s, rest, previous, heads, now);
    hide IsRetryHead, RetryImage, Scanned;
  }

  /** What examining one entry established. */
  ghost predicate Examined(s: Store, k: DestinationKey, previous: Option<nat>, found: Option<Retry>, now: int, live: set<Retry>) {
    && (found.Some? ==> DueHead(s, found.value, now) && DestinationKeyOf(found.value) == k && found.value.destination == k.destination && previous != Some(k.destination))
    && (RetryImage(s, live) ==> forall r :: DueHead(s, r, now) && DestinationKeyOf(r) == k && previous != Some(k.destination) ==> found == Some(r))
  }

  ghost predicate IsLeast(keys: set<DestinationKey>, k: DestinationKey) {
    k in keys && forall other :: other in keys ==> !KeyLess(other, k)
  }

  lemma LeastIsIn(keys: set<DestinationKey>, k: DestinationKey)
    requires IsLeast(keys, k)
    ensures k in keys
  {
  }

  method Least(keys: set<DestinationKey>) returns (k: DestinationKey)
    requires keys != {}
    ensures IsLeast(keys, k)
  {
    ghost var least := LeastKey(keys);
    assert least in keys && forall other :: other in keys ==> !KeyLess(other, least);
    k :| k in keys && forall other | other in keys :: !KeyLess(other, k);
  }

  lemma ScanOne(s: Store, rest: set<DestinationKey>, previous: Option<nat>, heads: seq<Retry>, k: DestinationKey,
                found: Option<Retry>, now: int, live: set<Retry>)
    requires rest <= s.byDestination.Keys && Scanned(s.byDestination.Keys, rest, previous)
    requires IsLeast(rest, k)
    requires HeadsFound(s, rest, heads, now) && HeadsBehind(heads, previous)
    requires Examined(s, k, previous, found, now, live)
    ensures Scanned(s.byDestination.Keys, rest - {k}, Some(k.destination))
    ensures var more := if found.Some? then heads + [found.value] else heads;
      && HeadsFound(s, rest - {k}, more, now) && HeadsBehind(more, Some(k.destination))
      && (RetryImage(s, live) && HeadsComplete(s, rest, heads, now) ==> HeadsComplete(s, rest - {k}, more, now))
  {
    hide RetryImage, Scanned, KeyLess, IsRetryHead;
    ScanNext(s.byDestination.Keys, rest, previous, k);
    var more := if found.Some? then heads + [found.value] else heads;
    if RetryImage(s, live) && HeadsComplete(s, rest, heads, now) {
      forall r | DueHead(s, r, now) && DestinationKeyOf(r) !in rest - {k}
        ensures r in more
      {
        if DestinationKeyOf(r) == k {
          if previous == Some(k.destination) {
            NotFirst(s, rest, previous, k, r);
            assert false;
          }
        }
      }
    }
  }

  lemma ScanNext(keys: set<DestinationKey>, rest: set<DestinationKey>, previous: Option<nat>, k: DestinationKey)
    requires rest <= keys && Scanned(keys, rest, previous)
    requires IsLeast(rest, k)
    ensures Scanned(keys, rest - {k}, Some(k.destination))
    ensures previous.Some? ==> previous.value <= k.destination
  {
    assert k in keys - (rest - {k});
    forall a, b | a in keys - (rest - {k}) && b in rest - {k}
      ensures KeyLess(a, b)
    {
    }
    if previous.Some? {
      var a :| a in keys - rest && a.destination == previous.value;
      assert KeyLess(a, k);
    }
    forall a | a in keys - (rest - {k})
      ensures a.destination <= k.destination
    {
      assert a == k || KeyLess(a, k);
    }
  }

  /** An entry after the first of its destination is nobody's head. */
  lemma NotFirst(s: Store, rest: set<DestinationKey>, previous: Option<nat>, k: DestinationKey, r: Retry)
    requires Scanned(s.byDestination.Keys, rest, previous) && previous == Some(k.destination) && k in rest
    requires DestinationKeyOf(r) == k
    ensures !IsRetryHead(s, r)
  {
    var a :| a in s.byDestination.Keys - rest && a.destination == previous.value;
    assert KeyLess(a, k) && a in s.byDestination;
  }

  lemma LimitReached(s: Store, rest: set<DestinationKey>, previous: Option<nat>, heads: seq<Retry>, now: int)
    requires rest <= s.byDestination.Keys && Scanned(s.byDestination.Keys, rest, previous) && heads != []
    requires previous == Some(heads[|heads| - 1].destination)
    ensures forall r :: DueHead(s, r, now) && DestinationKeyOf(r) in rest ==> heads[|heads| - 1].destination < r.destination
  {
    forall r | DueHead(s, r, now) && DestinationKeyOf(r) in rest
      ensures heads[|heads| - 1].destination < r.destination
    {
      var k := DestinationKeyOf(r);
      var a :| a in s.byDestination.Keys - rest && a.destination == previous.value;
      assert KeyLess(a, k);
      if k.destination == previous.value {
        NotFirst(s, rest, previous, k, r);
        assert false;
      }
    }
  }

  lemma {:induction false} LeastKey(keys: set<DestinationKey>) returns (least: DestinationKey)
    requires keys != {}
    ensures IsLeast(keys, least)
    decreases |keys|
  {
    hide KeyLess;
    var k :| k in keys;
    NotLessItself(k);
    if keys == {k} {
      least := k;
    } else {
      var l := LeastKey(keys - {k});
      least := if KeyLess(k, l) then k else l;
      LeastOfBoth(keys, k, l, least);
    }
  }

  lemma LeastOfBoth(keys: set<DestinationKey>, k: DestinationKey, l: DestinationKey, least: DestinationKey)
    requires k in keys && IsLeast(keys - {k}, l) && least == if KeyLess(k, l) then k else l
    ensures IsLeast(keys, least)
  {
    hide KeyLess;
    forall other | other in keys
      ensures !KeyLess(other, least)
    {
      if other == k {
        NotLessItself(k);
      } else if least == k {
        LessIsOneWay(k, l);
        NotLessChains(other, l, k);
      }
    }
  }

  lemma NotLessItself(k: DestinationKey)
    ensures !KeyLess(k, k)
  {
  }

  lemma LessIsOneWay(a: DestinationKey, b: DestinationKey)
    requires KeyLess(a, b)
    ensures !KeyLess(b, a)
  {
  }

  lemma NotLessChains(a: DestinationKey, b: DestinationKey, c: DestinationKey)
    requires !KeyLess(a, b) && !KeyLess(b, c)
    ensures !KeyLess(a, c)
  {
  }

  lemma BatchesAcceptOneMore(s: Store, batches: seq<Batch>, k: nat)
    requires k < |batches| && BatchesAccepted(s, batches[..k])
    ensures var b := batches[k];
      var fine := b.rows != [] && b.id !in BatchIds(batches[..k]) && FindBatch(s, b.id) == None && b.id !in s.progress;
      && (fine ==> BatchesAccepted(s, batches[..k + 1]))
      && (!fine ==> !BatchesAccepted(s, batches))
    ensures Elements(BatchIds(batches[..k + 1])) == Elements(BatchIds(batches[..k])) + {batches[k].id}
  {
    assert BatchIds(batches[..k + 1]) == BatchIds(batches[..k]) + [batches[k].id];
    assert batches[..k + 1] == batches[..k] + [batches[k]];
    assert batches[k] in batches;
    if batches[k].id in BatchIds(batches[..k]) {
      var j :| 0 <= j < k && BatchIds(batches[..k])[j] == batches[k].id;
      assert BatchIds(batches)[j] == BatchIds(batches)[k];
    }
  }

  /** The rest of the write batch: where the delivery batch record and its bitmap go. */
  method StageLane(s: Store, id: nat, lane: Lane, ghost now: int, done: set<nat>, written: Store) returns (s': Store)
    requires LaneAccepted(s, id, lane)
    requires done == Progress(s, id) + Elements(lane.completed)
    requires written == PutRetries(s, lane.retries).(
                          letters := PutLetters(s.letters, lane.letters),
                          ledger := PutSuccesses(s.ledger, s.pending[id], lane.successes, now),
                          queue := s.queue - DoneSlots(s.pending[id], lane))
    ensures s' == LaneCommit(s, id, lane, now)
  {
    LaneCommitFields(s, id, lane, now);
    PutRetriesFrame(s, lane.retries);
    hide LaneAccepted, LaneCommit, PutRetries, PutLetters, PutSuccesses, DoneSlots, Elements, Progress;
    s' := written;
    var batch := s.pending[id];
    if |done| == |batch.rows| {
      s' := s'.(pending := s.pending - {id}, progress := s.progress - {id});
      if lane.retries != [] || exists k | k in s.byBatch :: k.batch == id {
        s' := s'.(retained := s.retained[id := batch]);
      }
    } else {
      s' := s'.(progress := s.progress[id := done]);
    }
  }

  lemma AcceptedParts(s: Store, b: nat, lane: Lane)
    requires b in s.pending && s.pending[b].id == b
    ensures LaneAccepted(s, b, lane) <==>
      && CompletedFit(s.pending[b], lane.completed)
      && OutcomesFit(s.pending[b], lane)
      && Elements(lane.completed) !! Progress(s, b)
  {
    hide Distinct, OutcomeRows, SuccessFits, LetterFits, RetryFits, Elements;
  }

  /** The committed store, field by field. */
  lemma LaneCommitFields(s: Store, b: nat, lane: Lane, now: int)
    requires LaneAccepted(s, b, lane)
    ensures var batch := s.pending[b];
      var done := Progress(s, b) + Elements(lane.completed);
      var full := |done| == |batch.rows|;
      var w := PutRetries(s, lane.retries);
      && (forall i :: i in lane.completed ==> i < |batch.rows|)
      && LaneCommit(s, b, lane, now) == Store(
           if full then s.pending - {b} else s.pending,
           if full && (lane.retries != [] || exists k | k in s.byBatch :: k.batch == b) then s.retained[b := batch] else s.retained,
           if full then s.progress - {b} else s.progress[b := done],
           s.queue - DoneSlots(batch, lane),
           w.retries, w.byDestination, w.byBatch,
           PutLetters(s.letters, lane.letters), PutSuccesses(s.ledger, batch, lane.successes, now))
  {
    PutRetriesFrame(s, lane.retries);
    hide PutRetries, PutLetters, PutSuccesses, DoneSlots, Distinct, OutcomeRows, Elements;
  }

  /** Failing on a prefix of the outcome lists means failing on all of them. */
  lemma OutcomePrefixes(a: seq<nat>, b: seq<nat>, c: seq<nat>, d: seq<nat>, completed: set<nat>)
    ensures Distinct(a + b + c + d) ==> Distinct(a) && Distinct(a + b) && Distinct(a + b + c)
    ensures Elements(a + b + c + d) == completed ==>
      Elements(a) <= completed && Elements(b) <= completed && Elements(c) <= completed && Elements(d) <= completed
  {
    if Distinct(a + b + c + d) {
      DistinctHalves(a + b + c, d);
      DistinctHalves(a + b, c);
      DistinctHalves(a, b);
    }
    assert Elements(a + b + c + d) == Elements(a) + Elements(b) + Elements(c) + Elements(d);
  }
}
