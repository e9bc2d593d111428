/**
 Stored subscriptions and pending confirmations: the keyspaces and what each committed operation does
 to them. A confirmation is read first and committed later by comparing the whole record, so every
 step that follows a read takes the record that was read as an argument.
 */
module Registry {
  import opened Records
  import opened Incidents
  import opened Subscriptions
  import opened Postings

  datatype StoredSubscription = StoredSubscription(id: nat, destination: nat, generation: nat, active: bool, subscription: Subscription)

  datatype ConfirmationState = Ready | Leased

  /** Lease tokens are digests of the operation id and the lease generation. */
  datatype Token = Token(id: nat, generation: nat)

  datatype Operation = Operation(
    id: nat, subscription: Subscription, state: ConfirmationState, dueAt: int, leaseUntil: Option<int>,
    token: Option<Token>, leaseGeneration: nat, attempts: nat, createdAt: int, error: Option<string>)

  /** `begun` and `leases` are history: the confirmation ids ever used, and the attempts each lease was
      handed out with. */
  datatype Registry = Registry(
    subscriptions: map<nat, StoredSubscription>,
    byDestination: map<DestinationId, nat>,
    compiled: map<nat, Compiled>,
    postings: Index,
    operations: map<nat, Operation>,
    operationOf: map<DestinationId, nat>,
    begun: set<nat>,
    leases: map<Token, nat>,
    lastSubscription: nat, lastDestination: nat, lastConfirmation: nat)

  function Saturating(n: nat): nat {
    if n < U64_MAX then n + 1 else U64_MAX
  }

  // ---- subscriptions ----

  function Previous(r: Registry, d: DestinationId): Option<StoredSubscription> {
    if d in r.byDestination && r.byDestination[d] in r.subscriptions then Some(r.subscriptions[r.byDestination[d]]) else None
  }

  predicate StoreAccepted(r: Registry, s: Subscription) {
    Valid(s) && (Previous(r, s.destination).Some? || (r.lastSubscription < U64_MAX && r.lastDestination < U64_MAX))
  }

  function StoredRecord(r: Registry, s: Subscription): StoredSubscription {
    match Previous(r, s.destination)
    case Some(p) => StoredSubscription(p.id, p.destination, Saturating(p.generation), true, s)
    case None => StoredSubscription(r.lastSubscription + 1, r.lastDestination + 1, 1, true, s)
  }

  function CompiledAt(r: Registry, id: nat): Option<Compiled> {
    if id in r.compiled then Some(r.compiled[id]) else None
  }

  function CompiledRecord(g: Geometry, record: StoredSubscription): Option<Compiled> {
    Compile(g, record.id, record.destination, record.generation, record.subscription)
  }

  /** Stores or reactivates the subscription of a destination; its confirmation, if given, goes with it. */
  function Store(r: Registry, g: Geometry, s: Subscription, confirmation: Option<nat>): Registry
    requires StoreAccepted(r, s)
  {
    ValidCompiles(g, StoredRecord(r, s).id, StoredRecord(r, s).destination, StoredRecord(r, s).generation, s);
    var known := Previous(r, s.destination).Some?;
    var record := StoredRecord(r, s);
    var compiled := CompiledRecord(g, record).value;
    r.(postings := Reindex(r.postings, if known then CompiledAt(r, record.id) else None, Some(compiled)),
       subscriptions := r.subscriptions[record.id := record],
       byDestination := r.byDestination[s.destination := record.id],
       compiled := r.compiled[record.id := compiled],
       operations := if confirmation.Some? then r.operations - {confirmation.value} else r.operations,
       operationOf := if confirmation.Some? then r.operationOf - {s.destination} else r.operationOf,
       lastSubscription := if known then r.lastSubscription else r.lastSubscription + 1,
       lastDestination := if known then r.lastDestination else r.lastDestination + 1)
  }

  function DropConfirmation(r: Registry, d: DestinationId): Registry {
    if d in r.operationOf then
      r.(operations := r.operations - {r.operationOf[d]}, operationOf := r.operationOf - {d})
    else r
  }

  function Deactivate(r: Registry, id: nat): Registry {
    if id !in r.subscriptions then r
    else
      var record := r.subscriptions[id];
      var next := record.(active := false, generation := Saturating(record.generation));
      DropConfirmation(r, record.subscription.destination).(
        postings := if id in r.compiled then Reindex(r.postings, Some(r.compiled[id]), None) else r.postings,
        subscriptions := r.subscriptions[record.id := next],
        compiled := r.compiled - {record.id})
  }

  // ---- confirmations ----

  function Begin(r: Registry, id: nat, s: Subscription, now: int, leaseFor: int): Registry {
    var operation := Operation(id, s, Leased, now, Some(now + LeaseTime(leaseFor)), Some(Token(id, 1)), 1, 0, now, None);
    var dropped := DropConfirmation(r, s.destination);
    dropped.(operations := dropped.operations[id := operation],
             operationOf := dropped.operationOf[s.destination := id],
             begun := dropped.begun + {id},
             leases := dropped.leases[Token(id, 1) := 0])
  }

  function LeaseTime(ms: int): int {
    if ms < 1_000 then 1_000 else ms
  }

  /** The comparison every later commit makes: the stored record is still the one that was read. */
  predicate Unchanged(r: Registry, read: Operation) {
    read.id in r.operations && r.operations[read.id] == read
  }

  predicate Expired(o: Operation, now: int, maxAge: int) {
    now - o.createdAt >= maxAge
  }

  predicate Due(o: Operation, now: int) {
    match o.state
    case Ready => o.dueAt <= now
    case Leased => o.leaseUntil.Some? && o.leaseUntil.value <= now
  }

  function LeaseOf(o: Operation, now: int, leaseFor: int): Operation {
    o.(leaseGeneration := o.leaseGeneration + 1, state := Leased, leaseUntil := Some(now + LeaseTime(leaseFor)),
       token := Some(Token(o.id, o.leaseGeneration + 1)))
  }

  function RenewalOf(o: Operation, now: int, leaseFor: int): Operation {
    o.(leaseUntil := Some(now + LeaseTime(leaseFor)))
  }

  function RescheduleOf(o: Operation, attemptedAt: int, dueAt: int, error: string): Operation {
    o.(state := Ready, dueAt := if dueAt < attemptedAt then attemptedAt else dueAt, leaseUntil := None, token := None,
       attempts := if o.attempts < 0xFFFF then o.attempts + 1 else 0xFFFF, error := Some(Truncate(error, 1_024)))
  }

  function PutOperation(r: Registry, o: Operation): Registry {
    r.(operations := r.operations[o.id := o])
  }

  /** The confirmation is taken out; the index must name it. */
  predicate RemovalAccepted(r: Registry, o: Operation) {
    o.subscription.destination in r.operationOf && r.operationOf[o.subscription.destination] == o.id
  }

  function TakeOut(r: Registry, o: Operation): Registry {
    r.(operations := r.operations - {o.id}, operationOf := r.operationOf - {o.subscription.destination})
  }

  const MAX_CONFIRMATION_ATTEMPTS: nat := 12
  const MAX_CONFIRMATION_AGE_MS: int := 86_400_000

  /** The retry budget, checked with the attempts and age the lease was handed out with. */
  predicate RetryExhausted(attempts: nat, createdAt: int, now: int) {
    attempts + 1 >= MAX_CONFIRMATION_ATTEMPTS || now - createdAt >= MAX_CONFIRMATION_AGE_MS
  }

  datatype Step =
    | BeginStep(id: nat, subscription: Subscription, now: int, leaseFor: int)
    | ExpireStep(read: Operation, now: int, maxAge: int)
    | LeaseStep(read: Operation, now: int, leaseFor: int)
    | RenewStep(read: Operation, token: Token, now: int, leaseFor: int)
    | ActivateStep(read: Operation, token: Token)
    | RescheduleStep(read: Operation, token: Token, attemptedAt: int, dueAt: int, error: string)
    | AbandonStep(read: Operation, token: Token)
    | RemoveStep(destination: DestinationId)
    | DeactivateStep(id: nat)

  /** What the caller checked on the record it read, before it commits. */
  predicate Enabled(r: Registry, step: Step) {
    match step
    case BeginStep(id, s, _, _) => id !in r.begun && Valid(s)
    case ExpireStep(read, now, maxAge) => Expired(read, now, maxAge)
    case LeaseStep(read, now, _) => Due(read, now)
    case RenewStep(read, token, _, _) => read.state.Leased? && read.token == Some(token)
    case ActivateStep(read, token) => read.token == Some(token)
    case RescheduleStep(read, token, attemptedAt, _, _) =>
      read.token == Some(token) && token in r.leases && !RetryExhausted(r.leases[token], read.createdAt, attemptedAt)
    case AbandonStep(read, token) => read.token == Some(token)
    case RemoveStep(_) => true
    case DeactivateStep(_) => true
  }

  /** Whether the commit goes through. */
  predicate Succeeds(r: Registry, step: Step) {
    match step
    case BeginStep(_, _, _, _) => true
    case ExpireStep(read, _, _) => Unchanged(r, read) && RemovalAccepted(r, read)
    case LeaseStep(read, _, _) => Unchanged(r, read)
    case RenewStep(read, _, _, _) => Unchanged(r, read)
    case ActivateStep(read, _) => Unchanged(r, read) && RemovalAccepted(r, read) && StoreAccepted(r, read.subscription)
    case RescheduleStep(read, _, _, _, _) => Unchanged(r, read)
    case AbandonStep(read, _) => Unchanged(r, read) && RemovalAccepted(r, read)
    case RemoveStep(d) => d in r.operationOf
    case DeactivateStep(id) => id in r.subscriptions
  }

  function Apply(r: Registry, g: Geometry, step: Step): Registry {
    if !Succeeds(r, step) then r
    else
      match step
      case BeginStep(id, s, now, leaseFor) => Begin(r, id, s, now, leaseFor)
      case ExpireStep(read, _, _) => TakeOut(r, read)
      case LeaseStep(read, now, leaseFor) =>
        PutOperation(r, LeaseOf(read, now, leaseFor)).(leases := r.leases[Token(read.id, read.leaseGeneration + 1) := read.attempts])
      case RenewStep(read, _, now, leaseFor) => PutOperation(r, RenewalOf(read, now, leaseFor))
      case ActivateStep(read, _) => Store(r, g, read.subscription, Some(read.id))
      case RescheduleStep(read, _, attemptedAt, dueAt, error) => PutOperation(r, RescheduleOf(read, attemptedAt, dueAt, error))
      case AbandonStep(read, _) => TakeOut(r, read)
      case RemoveStep(d) => DropConfirmation(r, d)
      case DeactivateStep(id) => Deactivate(r, id)
  }

  // ---- the invariant ----

  /** Pending operations and destinations are one to one through the index. */
  ghost predicate ConfirmationsOk(operations: map<nat, Operation>, operationOf: map<DestinationId, nat>, begun: set<nat>) {
    && (forall i :: i in operations ==> operations[i].id == i && i in begun)
    && (forall i :: i in operations ==> operations[i].subscription.destination in operationOf && operationOf[operations[i].subscription.destination] == i)
    && (forall d :: d in operationOf ==> operationOf[d] in operations && operations[operationOf[d]].subscription.destination == d)
    && (forall i :: i in operations ==> OperationOk(operations[i]))
  }

  /** A token stands for the attempts it was handed out with, and the budget is never overdrawn. */
  ghost predicate LeasesOk(operations: map<nat, Operation>, leases: map<Token, nat>) {
    forall i :: i in operations ==> LeaseOk(operations[i], leases)
  }

  predicate LeaseOk(o: Operation, leases: map<Token, nat>) {
    && o.attempts < MAX_CONFIRMATION_ATTEMPTS
    && (o.token.Some? ==> o.token.value in leases && leases[o.token.value] == o.attempts)
  }

  /** A leased operation carries the token of its latest lease, a ready one carries none. */
  predicate OperationOk(o: Operation) {
    && Valid(o.subscription)
    && (o.state.Leased? <==> o.token.Some?)
    && (o.state.Leased? <==> o.leaseUntil.Some?)
    && (o.token.Some? ==> o.token.value == Token(o.id, o.leaseGeneration))
  }

  /** Destinations and records name each other, ids have been handed out, and no two records share a
      destination id. */
  ghost predicate RecordsOk(subscriptions: map<nat, StoredSubscription>, byDestination: map<DestinationId, nat>, lastSubscription: nat, lastDestination: nat) {
    && (forall id :: id in subscriptions ==> RecordOk(subscriptions[id], id, lastSubscription, lastDestination))
    && (forall id :: id in subscriptions ==>
          subscriptions[id].subscription.destination in byDestination && byDestination[subscriptions[id].subscription.destination] == id)
    && (forall d :: d in byDestination ==> byDestination[d] in subscriptions && subscriptions[byDestination[d]].subscription.destination == d)
    && (forall a, b :: a in subscriptions && b in subscriptions && a != b ==> subscriptions[a].destination != subscriptions[b].destination)
    && lastSubscription <= U64_MAX
  }

  predicate RecordOk(x: StoredSubscription, id: nat, lastSubscription: nat, lastDestination: nat) {
    x.id == id && 1 <= id <= lastSubscription && x.destination <= lastDestination && 1 <= x.generation
  }

  /** Exactly the active records are compiled. */
  ghost predicate CompiledOk(subscriptions: map<nat, StoredSubscription>, compiled: map<nat, Compiled>, g: Geometry) {
    && (forall id :: id in compiled <==> id in subscriptions && subscriptions[id].active)
    && (forall id :: id in compiled ==> CompiledRecord(g, subscriptions[id]) == Some(compiled[id]))
  }

  ghost predicate SubscriptionsOk(r: Registry, g: Geometry) {
    RecordsOk(r.subscriptions, r.byDestination, r.lastSubscription, r.lastDestination) && CompiledOk(r.subscriptions, r.compiled, g)
  }

  ghost predicate RegistryOk(r: Registry, g: Geometry) {
    && SubscriptionsOk(r, g)
    && Exact(r.postings, r.compiled)
    && ConfirmationsOk(r.operations, r.operationOf, r.begun)
    && LeasesOk(r.operations, r.leases)
  }

  const Empty := Registry(map[], map[], map[], map[], map[], map[], {}, map[], 0, 0, 0)
}
