/** The delivery keyspaces and what one committed write batch does to them. */
module DeliverySpec {
  import opened Records

  datatype Retry = Retry(
    id: nat, batch: nat, row: nat, destination: nat, due: int, attempts: nat, created: int,
    error: string)

  datatype Letter = Letter(
    id: nat, batch: nat, row: nat, destination: nat, attempts: nat, created: int, failed: int,
    permanent: bool, error: string)

  datatype Success = Success(rowIndex: nat, row: Row)

  // Keys, ordered in the program as big-endian bytes (see KeyCodec).
  datatype Slot = Slot(destination: nat, batch: nat, row: nat)
  datatype RetryKey = RetryKey(due: nat, id: nat)
  datatype DestinationKey = DestinationKey(destination: nat, batch: nat, row: nat, id: nat)
  datatype BatchKey = BatchKey(batch: nat, id: nat)
  datatype LetterKey = LetterKey(failed: nat, id: nat)
  datatype LedgerKey = LedgerKey(incident: IncidentId, category: Category, destination: nat)
  datatype Stored = Stored(deliveredAt: int, revision: nat, row: Row)

  /** `pending` is state 0 of the delivery batch keyspace, `retained` state 1. */
  datatype Store = Store(
    pending: map<nat, Batch>,
    retained: map<nat, Batch>,
    progress: map<nat, set<nat>>,
    queue: set<Slot>,
    retries: map<RetryKey, Retry>,
    byDestination: map<DestinationKey, RetryKey>,
    byBatch: map<BatchKey, RetryKey>,
    letters: map<LetterKey, Letter>,
    ledger: map<LedgerKey, Stored>)

  datatype Lane = Lane(
    completed: seq<nat>, skipped: seq<nat>, successes: seq<Success>, retries: seq<Retry>,
    letters: seq<Letter>)

  function KeyOf(r: Retry): RetryKey { RetryKey(NonNegative(r.due), r.id) }
  function DestinationKeyOf(r: Retry): DestinationKey { DestinationKey(r.destination, r.batch, r.row, r.id) }
  function BatchKeyOf(r: Retry): BatchKey { BatchKey(r.batch, r.id) }
  function LetterKeyOf(d: Letter): LetterKey { LetterKey(NonNegative(d.failed), d.id) }
  function SlotOf(r: Retry): Slot { Slot(r.destination, r.batch, r.row) }
  function LedgerKeyOf(b: Batch, destination: nat): LedgerKey { LedgerKey(b.incident, b.category, destination) }

  predicate SlotLess(a: Slot, b: Slot)
    requires a.destination == b.destination
  {
    a.batch < b.batch || (a.batch == b.batch && a.row < b.row)
  }

  /** The first entry of the destination's prefix is this one. */
  predicate IsHead(s: Store, slot: Slot) {
    slot in s.queue && forall other | other in s.queue && other.destination == slot.destination :: !SlotLess(other, slot)
  }

  predicate KeyLess(a: DestinationKey, b: DestinationKey) {
    a.destination < b.destination ||
    (a.destination == b.destination && (a.batch < b.batch ||
    (a.batch == b.batch && (a.row < b.row ||
    (a.row == b.row && a.id < b.id)))))
  }

  predicate Current(s: Store, r: Retry) {
    KeyOf(r) in s.retries && s.retries[KeyOf(r)] == r
  }

  predicate IsRetryHead(s: Store, r: Retry) {
    && Current(s, r)
    && DestinationKeyOf(r) in s.byDestination
    && (forall k | k in s.byDestination && k.destination == r.destination :: !KeyLess(k, DestinationKeyOf(r)))
    && IsHead(s, SlotOf(r))
  }

  // ---- retry indexes ----

  function PutRetry(s: Store, r: Retry): Store {
    s.(retries := s.retries[KeyOf(r) := r],
       byDestination := s.byDestination[DestinationKeyOf(r) := KeyOf(r)],
       byBatch := s.byBatch[BatchKeyOf(r) := KeyOf(r)])
  }

  function DropRetry(s: Store, r: Retry): Store {
    s.(retries := s.retries - {KeyOf(r)},
       byDestination := s.byDestination - {DestinationKeyOf(r)},
       byBatch := s.byBatch - {BatchKeyOf(r)})
  }

  function PutRetries(s: Store, rs: seq<Retry>): Store {
    if rs == [] then s else PutRetry(PutRetries(s, rs[..|rs| - 1]), rs[|rs| - 1])
  }

  function PutLetters(m: map<LetterKey, Letter>, ds: seq<Letter>): map<LetterKey, Letter> {
    if ds == [] then m else PutLetters(m, ds[..|ds| - 1])[LetterKeyOf(ds[|ds| - 1]) := ds[|ds| - 1]]
  }

  function PutSuccess(m: map<LedgerKey, Stored>, b: Batch, x: Success, now: int): map<LedgerKey, Stored> {
    m[LedgerKeyOf(b, x.row.destination) := Stored(now, b.revision, x.row)]
  }

  function PutSuccesses(m: map<LedgerKey, Stored>, b: Batch, xs: seq<Success>, now: int): map<LedgerKey, Stored> {
    if xs == [] then m else PutSuccess(PutSuccesses(m, b, xs[..|xs| - 1], now), b, xs[|xs| - 1], now)
  }

  // ---- lane outcome ----

  function RetryRows(rs: seq<Retry>): seq<nat> { seq(|rs|, i requires 0 <= i < |rs| => rs[i].row) }
  function LetterRows(ds: seq<Letter>): seq<nat> { seq(|ds|, i requires 0 <= i < |ds| => ds[i].row) }
  function SuccessRows(xs: seq<Success>): seq<nat> { seq(|xs|, i requires 0 <= i < |xs| => xs[i].rowIndex) }

  function OutcomeRows(lane: Lane): seq<nat> {
    lane.skipped + SuccessRows(lane.successes) + LetterRows(lane.letters) + RetryRows(lane.retries)
  }

  function Progress(s: Store, b: nat): set<nat> {
    if b in s.progress then s.progress[b] else {}
  }

  predicate RetryFits(batch: Batch, r: Retry) {
    r.batch == batch.id && r.row < |batch.rows| && r.destination == batch.rows[r.row].destination
  }

  predicate LetterFits(batch: Batch, d: Letter) {
    d.batch == batch.id && d.row < |batch.rows| && d.destination == batch.rows[d.row].destination
  }

  predicate SuccessFits(batch: Batch, x: Success) {
    x.rowIndex < |batch.rows| && x.row == batch.rows[x.rowIndex]
  }

  /** Every check the lane commit makes before it writes. */
  ghost predicate LaneAccepted(s: Store, b: nat, lane: Lane) {
    && b in s.pending
    && var batch := s.pending[b];
    && batch.id == b
    && Distinct(lane.completed)
    && (forall i | i in lane.completed :: i < |batch.rows|)
    && (forall i, j | i in lane.completed && j in lane.completed :: batch.rows[i].destination == batch.rows[j].destination)
    && (forall x | x in lane.successes :: SuccessFits(batch, x))
    && (forall d | d in lane.letters :: LetterFits(batch, d))
    && (forall r | r in lane.retries :: RetryFits(batch, r))
    && Distinct(OutcomeRows(lane))
    && Elements(OutcomeRows(lane)) == Elements(lane.completed)
    && Elements(lane.completed) !! Progress(s, b)
  }

  function DoneSlots(batch: Batch, lane: Lane): set<Slot>
    requires forall i | i in lane.completed :: i < |batch.rows|
  {
    set i | i in lane.completed && i !in RetryRows(lane.retries) :: Slot(batch.rows[i].destination, batch.id, i)
  }

  predicate HasRetry(s: Store, b: nat) {
    exists k | k in s.byBatch :: k.batch == b
  }

  ghost function LaneCommit(s: Store, b: nat, lane: Lane, now: int): Store
    requires LaneAccepted(s, b, lane)
  {
    var batch := s.pending[b];
    var done := Progress(s, b) + Elements(lane.completed);
    var written := PutRetries(s, lane.retries).(
                     letters := PutLetters(s.letters, lane.letters),
                     ledger := PutSuccesses(s.ledger, batch, lane.successes, now),
                     queue := s.queue - DoneSlots(batch, lane));
    if |done| == |batch.rows| then
      written.(pending := s.pending - {b}, progress := s.progress - {b},
               retained := if lane.retries != [] || HasRetry(s, b) then s.retained[b := batch] else s.retained)
    else
      written.(progress := s.progress[b := done])
  }

  // ---- retry operations ----

  predicate HasOther(s: Store, r: Retry) {
    exists k | k in s.byBatch :: k.batch == r.batch && k != BatchKeyOf(r)
  }

  function FinishRetry(s: Store, r: Retry): Store {
    s.(retries := s.retries - {KeyOf(r)},
       byDestination := s.byDestination - {DestinationKeyOf(r)},
       byBatch := s.byBatch - {BatchKeyOf(r)},
       queue := s.queue - {SlotOf(r)},
       retained := if HasOther(s, r) then s.retained else s.retained - {r.batch})
  }

  function FindBatch(s: Store, b: nat): Option<Batch> {
    if b in s.pending then Some(s.pending[b])
    else if b in s.retained then Some(s.retained[b])
    else None
  }

  predicate SameIdentity(previous: Retry, next: Retry) {
    previous.id == next.id && previous.batch == next.batch && previous.row == next.row &&
    previous.destination == next.destination
  }

  function RescheduleRetry(s: Store, previous: Retry, next: Retry): Store {
    PutRetry(s.(retries := s.retries - {KeyOf(previous)}), next)
  }

  /** When the success commit of a retry is accepted. */
  predicate SuccessAccepted(s: Store, r: Retry, success: Option<Success>) {
    && Current(s, r)
    && FindBatch(s, r.batch).Some?
    && var batch := FindBatch(s, r.batch).value;
    && r.row < |batch.rows|
    && batch.rows[r.row].destination == r.destination
    && (success.Some? ==> success.value.rowIndex == r.row && success.value.row == batch.rows[r.row])
  }

  function RetrySuccess(s: Store, r: Retry, success: Option<Success>, now: int): Store
    requires SuccessAccepted(s, r, success)
  {
    var batch := FindBatch(s, r.batch).value;
    FinishRetry(s, r).(ledger := if success.Some? then PutSuccess(s.ledger, batch, success.value, now) else s.ledger)
  }

  predicate LetterMatches(r: Retry, d: Letter) {
    d.batch == r.batch && d.row == r.row && d.destination == r.destination
  }

  function RetryDead(s: Store, r: Retry, d: Letter): Store {
    FinishRetry(s, r).(letters := s.letters[LetterKeyOf(d) := d])
  }

  // ---- match output ----

  function BatchSlots(batch: Batch): set<Slot> {
    set i | 0 <= i < |batch.rows| :: Slot(batch.rows[i].destination, batch.id, i)
  }

  function AddBatch(s: Store, batch: Batch): Store {
    s.(pending := s.pending[batch.id := batch], queue := s.queue + BatchSlots(batch))
  }

  function AddBatches(s: Store, batches: seq<Batch>): Store {
    if batches == [] then s else AddBatch(AddBatches(s, batches[..|batches| - 1]), batches[|batches| - 1])
  }

  function BatchIds(batches: seq<Batch>): seq<nat> {
    seq(|batches|, i requires 0 <= i < |batches| => batches[i].id)
  }

  /** The checks on the batches themselves; those on the match job are in IncidentStore. */
  ghost predicate BatchesAccepted(s: Store, batches: seq<Batch>) {
    && Distinct(BatchIds(batches))
    && (forall x | x in batches :: x.rows != [] && FindBatch(s, x.id) == None && x.id !in s.progress)
  }
}
