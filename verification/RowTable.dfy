/**
 The delivery keyspaces as images of one table.

 A table gives every row of every batch ever committed exactly one status. Nine keyspaces are
 written separately; `Agrees` says that together they are the image of such a table, and the
 lemmas below show that every write batch keeps them so. Row conservation is then a property of
 the type: a row cannot be unprogressed, retrying and terminal at the same time.
 */
module RowTable {
  import opened Records
  import opened DeliverySpec

  datatype Outcome = Delivered | Skipped | Dead(letter: Letter)
  datatype Status = Fresh | Waiting(retry: Retry) | Done(outcome: Outcome)
  datatype RowId = RowId(batch: nat, row: nat)
  datatype Table = Table(batches: map<nat, Batch>, status: map<RowId, Status>)

  predicate IsRow(t: Table, id: RowId) {
    id.batch in t.batches && id.row < |t.batches[id.batch].rows|
  }

  function Destination(t: Table, id: RowId): nat
    requires IsRow(t, id)
  {
    t.batches[id.batch].rows[id.row].destination
  }

  /** The identity fields of a retry or dead letter point at their row. */
  predicate RetryOf(t: Table, id: RowId, r: Retry) {
    r.batch == id.batch && r.row == id.row && IsRow(t, id) && r.destination == Destination(t, id)
  }

  predicate LetterOf(t: Table, id: RowId, d: Letter) {
    d.batch == id.batch && d.row == id.row && IsRow(t, id) && d.destination == Destination(t, id)
  }

  predicate StatusFits(t: Table, id: RowId, x: Status) {
    match x
    case Waiting(r) => RetryOf(t, id, r)
    case Done(Dead(d)) => LetterOf(t, id, d)
    case _ => true
  }

  function Live(t: Table): set<Retry> {
    set id | id in t.status && t.status[id].Waiting? :: t.status[id].retry
  }

  function Letters(t: Table): set<Letter> {
    set id | id in t.status && t.status[id].Done? && t.status[id].outcome.Dead? :: t.status[id].outcome.letter
  }

  ghost predicate UniqueRetries(rs: set<Retry>) {
    forall a, b :: a in rs && b in rs && a.id == b.id ==> a == b
  }

  ghost predicate UniqueLetters(ds: set<Letter>) {
    forall a, b :: a in ds && b in ds && a.id == b.id ==> a == b
  }

  ghost predicate WellFormed(t: Table) {
    && (forall id :: id in t.status <==> IsRow(t, id))
    && (forall b :: b in t.batches ==> t.batches[b].id == b && t.batches[b].rows != [])
    && (forall id :: id in t.status ==> StatusFits(t, id, t.status[id]))
    && UniqueRetries(Live(t))
    && UniqueLetters(Letters(t))
  }

  ghost predicate HasFresh(t: Table, b: nat) {
    exists i: nat :: RowId(b, i) in t.status && t.status[RowId(b, i)].Fresh?
  }

  ghost predicate HasWaiting(t: Table, b: nat) {
    exists i: nat :: RowId(b, i) in t.status && t.status[RowId(b, i)].Waiting?
  }

  // ---- agreement, one keyspace group at a time ----

  ghost predicate BatchesAgree(s: Store, t: Table) {
    && (forall b :: b in s.pending <==> b in t.batches && HasFresh(t, b))
    && (forall b :: b in s.pending ==> s.pending[b] == t.batches[b])
    && (forall b :: b in s.retained <==> b in t.batches && !HasFresh(t, b) && HasWaiting(t, b))
    && (forall b :: b in s.retained ==> s.retained[b] == t.batches[b])
  }

  ghost predicate ProgressAgrees(s: Store, t: Table) {
    && s.progress.Keys <= s.pending.Keys
    && (forall b, i :: b in s.pending ==>
          (i in Progress(s, b) <==> RowId(b, i) in t.status && !t.status[RowId(b, i)].Fresh?))
  }

  ghost predicate QueueAgrees(s: Store, t: Table) {
    forall e :: e in s.queue <==>
      var id := RowId(e.batch, e.row);
      id in t.status && !t.status[id].Done? && IsRow(t, id) && e.destination == Destination(t, id)
  }

  // The three retry keyspaces are the images of one set of retries.

  ghost predicate RetriesImage(m: map<RetryKey, Retry>, live: set<Retry>) {
    && (forall r :: r in live ==> KeyOf(r) in m && m[KeyOf(r)] == r)
    && (forall k :: k in m ==> m[k] in live && KeyOf(m[k]) == k)
  }

  ghost predicate DestinationImage(m: map<DestinationKey, RetryKey>, live: set<Retry>) {
    && (forall r :: r in live ==> DestinationKeyOf(r) in m && m[DestinationKeyOf(r)] == KeyOf(r))
    && (forall k :: k in m ==> exists r :: r in live && DestinationKeyOf(r) == k)
  }

  ghost predicate BatchImage(m: map<BatchKey, RetryKey>, live: set<Retry>) {
    && (forall r :: r in live ==> BatchKeyOf(r) in m && m[BatchKeyOf(r)] == KeyOf(r))
    && (forall k :: k in m ==> exists r :: r in live && BatchKeyOf(r) == k)
  }

  ghost predicate RetryImage(s: Store, live: set<Retry>) {
    RetriesImage(s.retries, live) && DestinationImage(s.byDestination, live) && BatchImage(s.byBatch, live)
  }

  ghost predicate LetterImage(m: map<LetterKey, Letter>, ds: set<Letter>) {
    && (forall d :: d in ds ==> LetterKeyOf(d) in m && m[LetterKeyOf(d)] == d)
    && (forall k :: k in m ==> m[k] in ds && LetterKeyOf(m[k]) == k)
  }

  ghost predicate Agrees(s: Store, t: Table) {
    && BatchesAgree(s, t)
    && ProgressAgrees(s, t)
    && QueueAgrees(s, t)
    && RetryImage(s, Live(t))
    && LetterImage(s.letters, Letters(t))
  }

  // ---- retry index maintenance ----

  lemma PutMain(m: map<RetryKey, Retry>, live: set<Retry>, r: Retry)
    requires RetriesImage(m, live)
    requires forall x :: x in live ==> x.id != r.id
    ensures RetriesImage(m[KeyOf(r) := r], live + {r})
  {
  }

  lemma PutDestination(m: map<DestinationKey, RetryKey>, live: set<Retry>, r: Retry)
    requires DestinationImage(m, live)
    requires forall x :: x in live ==> x.id != r.id
    ensures DestinationImage(m[DestinationKeyOf(r) := KeyOf(r)], live + {r})
  {
    forall k | k in m
      ensures exists x :: x in live + {r} && DestinationKeyOf(x) == k
    {
      var x :| x in live && DestinationKeyOf(x) == k;
      assert x in live + {r};
    }
    assert r in live + {r};
  }

  lemma PutBatch(m: map<BatchKey, RetryKey>, live: set<Retry>, r: Retry)
    requires BatchImage(m, live)
    requires forall x :: x in live ==> x.id != r.id
    ensures BatchImage(m[BatchKeyOf(r) := KeyOf(r)], live + {r})
  {
    forall k | k in m
      ensures exists x :: x in live + {r} && BatchKeyOf(x) == k
    {
      var x :| x in live && BatchKeyOf(x) == k;
      assert x in live + {r};
    }
    assert r in live + {r};
  }

  lemma PutRetryImage(s: Store, live: set<Retry>, r: Retry)
    requires RetryImage(s, live)
    requires forall x :: x in live ==> x.id != r.id
    ensures RetryImage(PutRetry(s, r), live + {r})
  {
    PutMain(s.retries, live, r);
    PutDestination(s.byDestination, live, r);
    PutBatch(s.byBatch, live, r);
  }

  lemma DropMain(m: map<RetryKey, Retry>, live: set<Retry>, r: Retry)
    requires RetriesImage(m, live) && UniqueRetries(live) && r in live
    ensures RetriesImage(m - {KeyOf(r)}, live - {r})
  {
  }

  lemma DropDestination(m: map<DestinationKey, RetryKey>, live: set<Retry>, r: Retry)
    requires DestinationImage(m, live) && UniqueRetries(live) && r in live
    ensures DestinationImage(m - {DestinationKeyOf(r)}, live - {r})
  {
    forall k | k in m && k != DestinationKeyOf(r)
      ensures exists x :: x in live - {r} && DestinationKeyOf(x) == k
    {
      var x :| x in live && DestinationKeyOf(x) == k;
      assert x in live - {r};
    }
  }

  lemma DropBatch(m: map<BatchKey, RetryKey>, live: set<Retry>, r: Retry)
    requires BatchImage(m, live) && UniqueRetries(live) && r in live
    ensures BatchImage(m - {BatchKeyOf(r)}, live - {r})
  {
    forall k | k in m && k != BatchKeyOf(r)
      ensures exists x :: x in live - {r} && BatchKeyOf(x) == k
    {
      var x :| x in live && BatchKeyOf(x) == k;
      assert x in live - {r};
    }
  }

  lemma DropRetryImage(s: Store, live: set<Retry>, r: Retry)
    requires RetryImage(s, live) && UniqueRetries(live) && r in live
    ensures RetryImage(DropRetry(s, r), live - {r})
  {
    DropMain(s.retries, live, r);
    DropDestination(s.byDestination, live, r);
    DropBatch(s.byBatch, live, r);
  }

  /** Rescheduling removes and inserts in one batch; the indexes agree again afterwards, also when
      the due time, and with it the key, did not change. */
  lemma RescheduleImage(s: Store, live: set<Retry>, previous: Retry, next: Retry)
    requires RetryImage(s, live) && UniqueRetries(live) && previous in live
    requires SameIdentity(previous, next)
    ensures RetryImage(RescheduleRetry(s, previous, next), live - {previous} + {next})
  {
    DropRetryImage(s, live, previous);
    PutRetryImage(DropRetry(s, previous), live - {previous}, next);
    RescheduleIsDropThenPut(s, previous, next);
  }

  lemma RescheduleIsDropThenPut(s: Store, previous: Retry, next: Retry)
    requires SameIdentity(previous, next)
    ensures RescheduleRetry(s, previous, next) == PutRetry(DropRetry(s, previous), next)
  {
    var d, b := DestinationKeyOf(next), BatchKeyOf(next);
    assert DestinationKeyOf(previous) == d && BatchKeyOf(previous) == b;
    assert s.byDestination[d := KeyOf(next)] == (s.byDestination - {d})[d := KeyOf(next)];
    assert s.byBatch[b := KeyOf(next)] == (s.byBatch - {b})[b := KeyOf(next)];
  }

  ghost predicate FreshRetries(live: set<Retry>, rs: seq<Retry>) {
    && (forall i, j :: 0 <= i < j < |rs| ==> rs[i].id != rs[j].id)
    && (forall x, r :: x in live && r in rs ==> x.id != r.id)
  }

  ghost predicate FreshLetters(old_: set<Letter>, ds: seq<Letter>) {
    && (forall i, j :: 0 <= i < j < |ds| ==> ds[i].id != ds[j].id)
    && (forall x, d :: x in old_ && d in ds ==> x.id != d.id)
  }

  lemma SplitFreshRetries(live: set<Retry>, front: seq<Retry>, last: Retry)
    requires FreshRetries(live, front + [last])
    ensures FreshRetries(live, front)
    ensures forall x :: x in live + Elements(front) ==> x.id != last.id
  {
    var rs := front + [last];
    assert rs[|front|] == last && last in rs;
    assert forall i :: 0 <= i < |front| ==> rs[i] == front[i];
    assert forall x :: x in front ==> x in rs;
  }

  lemma {:induction false} PutRetriesImage(s: Store, live: set<Retry>, rs: seq<Retry>)
    requires RetryImage(s, live) && FreshRetries(live, rs)
    ensures RetryImage(PutRetries(s, rs), live + Elements(rs))
  {
    hide RetryImage;
    if rs == [] {
      assert live + Elements(rs) == live;
    } else {
      var front, last := rs[..|rs| - 1], rs[|rs| - 1];
      assert rs == front + [last];
      SplitFreshRetries(live, front, last);
      PutRetriesImage(s, live, front);
      PutRetryImage(PutRetries(s, front), live + Elements(front), last);
      ElementsOfSnoc(front, last);
      assert live + Elements(rs) == live + Elements(front) + {last};
    }
  }

  lemma ElementsOfSnoc<T>(front: seq<T>, last: T)
    ensures Elements(front + [last]) == Elements(front) + {last}
  {
  }

  /** Nothing but the retry keyspaces is written. */
  lemma {:induction false} PutRetriesFrame(s: Store, rs: seq<Retry>)
    ensures var s' := PutRetries(s, rs);
      s' == s.(retries := s'.retries, byDestination := s'.byDestination, byBatch := s'.byBatch)
  {
    if rs != [] {
      PutRetriesFrame(s, rs[..|rs| - 1]);
    }
  }

  lemma PutLetter(m: map<LetterKey, Letter>, old_: set<Letter>, d: Letter)
    requires LetterImage(m, old_)
    requires forall x :: x in old_ ==> x.id != d.id
    ensures LetterImage(m[LetterKeyOf(d) := d], old_ + {d})
  {
  }

  lemma SplitFreshLetters(old_: set<Letter>, front: seq<Letter>, last: Letter)
    requires FreshLetters(old_, front + [last])
    ensures FreshLetters(old_, front)
    ensures forall x :: x in old_ + Elements(front) ==> x.id != last.id
  {
    var ds := front + [last];
    assert ds[|front|] == last && last in ds;
    assert forall i :: 0 <= i < |front| ==> ds[i] == front[i];
    assert forall x :: x in front ==> x in ds;
  }

  lemma {:induction false} PutLettersImage(m: map<LetterKey, Letter>, old_: set<Letter>, ds: seq<Letter>)
    requires LetterImage(m, old_) && FreshLetters(old_, ds)
    ensures LetterImage(PutLetters(m, ds), old_ + Elements(ds))
  {
    if ds == [] {
      assert old_ + Elements(ds) == old_;
    } else {
      var front, last := ds[..|ds| - 1], ds[|ds| - 1];
      assert ds == front + [last];
      SplitFreshLetters(old_, front, last);
      PutLettersImage(m, old_, front);
      PutLetter(PutLetters(m, front), old_ + Elements(front), last);
      ElementsOfSnoc(front, last);
      assert old_ + Elements(ds) == old_ + Elements(front) + {last};
    }
  }

  // ---- the lane commit ----

  function PositionOf(rows: seq<nat>, i: nat): (k: nat)
    requires i in rows
    ensures k < |rows| && rows[k] == i
  {
    if rows[0] == i then 0 else 1 + PositionOf(rows[1..], i)
  }

  /** What the lane decided about one of its completed rows. */
  function LaneStatus(lane: Lane, i: nat): Status {
    if i in RetryRows(lane.retries) then Waiting(lane.retries[PositionOf(RetryRows(lane.retries), i)])
    else if i in LetterRows(lane.letters) then Done(Dead(lane.letters[PositionOf(LetterRows(lane.letters), i)]))
    else if i in SuccessRows(lane.successes) then Done(Delivered)
    else Done(Skipped)
  }

  function LaneTable(t: Table, b: nat, lane: Lane): Table {
    t.(status := map id | id in t.status ::
         if id.batch == b && id.row in lane.completed then LaneStatus(lane, id.row) else t.status[id])
  }

  /** The lists of one lane do not overlap, so a row's status is the record that names it. */
  lemma LaneStatusIsItsRecord(lane: Lane)
    requires Distinct(OutcomeRows(lane))
    ensures forall r :: r in lane.retries ==> LaneStatus(lane, r.row) == Waiting(r)
    ensures forall d :: d in lane.letters ==> LaneStatus(lane, d.row) == Done(Dead(d))
    ensures forall x :: x in lane.successes ==> LaneStatus(lane, x.rowIndex) == Done(Delivered)
    ensures forall i :: i in lane.skipped ==> LaneStatus(lane, i) == Done(Skipped)
  {
    var a, b, c, d := lane.skipped, SuccessRows(lane.successes), LetterRows(lane.letters), RetryRows(lane.retries);
    DistinctParts(a, b, c, d);
    forall r | r in lane.retries
      ensures LaneStatus(lane, r.row) == Waiting(r)
    {
      var k :| 0 <= k < |lane.retries| && lane.retries[k] == r;
      assert d[k] == r.row;
    }
    forall x | x in lane.letters
      ensures LaneStatus(lane, x.row) == Done(Dead(x))
    {
      var k :| 0 <= k < |lane.letters| && lane.letters[k] == x;
      assert c[k] == x.row;
    }
    forall x | x in lane.successes
      ensures LaneStatus(lane, x.rowIndex) == Done(Delivered)
    {
      var k :| 0 <= k < |lane.successes| && lane.successes[k] == x;
      assert b[k] == x.rowIndex;
    }
  }

  lemma DistinctParts(a: seq<nat>, b: seq<nat>, c: seq<nat>, d: seq<nat>)
    requires Distinct(a + b + c + d)
    ensures Distinct(c) && Distinct(d)
    ensures forall x :: x in a ==> x !in b && x !in c && x !in d
    ensures forall x :: x in b ==> x !in c && x !in d
    ensures forall x :: x in c ==> x !in d
  {
    var ab, abc := a + b, a + b + c;
    assert a + b + c + d == abc + d;
    DistinctHalves(abc, d);
    DistinctHalves(ab, c);
    DistinctHalves(a, b);
    assert forall x :: x in abc <==> x in a || x in b || x in c;
  }

  lemma DistinctHalves(a: seq<nat>, b: seq<nat>)
    requires Distinct(a + b)
    ensures Distinct(a) && Distinct(b)
    ensures forall x :: x in a ==> x !in b
  {
    var s := a + b;
    assert forall i :: 0 <= i < |a| ==> s[i] == a[i];
    assert forall j :: 0 <= j < |b| ==> s[|a| + j] == b[j];
  }

  lemma RetryRowsElements(lane: Lane)
    ensures forall i :: i in RetryRows(lane.retries) <==> exists r :: r in lane.retries && r.row == i
    ensures forall i :: i in LetterRows(lane.letters) <==> exists d :: d in lane.letters && d.row == i
    ensures lane.retries == [] <==> RetryRows(lane.retries) == []
  {
    forall r | r in lane.retries
      ensures r.row in RetryRows(lane.retries)
    {
      var k :| 0 <= k < |lane.retries| && lane.retries[k] == r;
      assert RetryRows(lane.retries)[k] == r.row;
    }
    forall d | d in lane.letters
      ensures d.row in LetterRows(lane.letters)
    {
      var k :| 0 <= k < |lane.letters| && lane.letters[k] == d;
      assert LetterRows(lane.letters)[k] == d.row;
    }
  }
}
