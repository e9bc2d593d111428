/** Confirmation safety and generation fencing over whole runs of the registry. */
module RegistryRuns {
  import opened Records
  import opened Incidents
  import opened Subscriptions
  import opened Postings
  import opened Registry
  import opened RegistryTheorems

  ghost predicate Run(rs: seq<Registry>, g: Geometry, steps: seq<Step>) {
    && |rs| == |steps| + 1 && rs[0] == Empty
    && forall i :: 0 <= i < |steps| ==> Enabled(rs[i], steps[i]) && rs[i + 1] == Apply(rs[i], g, steps[i])
  }

  /** Every state of every run is whole: destinations and operations one to one, exactly the active
      records compiled, and the posting index exact. */
  lemma {:induction false} RunKeepsOk(rs: seq<Registry>, g: Geometry, steps: seq<Step>, n: nat)
    requires Run(rs, g, steps) && n < |rs|
    ensures RegistryOk(rs[n], g)
  {
    hide RegistryOk, Enabled, Apply;
    if n == 0 {
      EmptyOk(g);
    } else {
      RunKeepsOk(rs, g, steps, n - 1);
      StepKeeps(rs[n - 1], g, steps[n - 1]);
    }
  }

  // ---- confirmations ----

  /** The lease generation of an operation never goes back, and an operation that is gone stays gone. */
  ghost predicate Later(a: Registry, b: Registry) {
    && a.begun <= b.begun
    && forall i :: i in a.begun && i in b.operations ==> i in a.operations && SameOperation(a.operations[i], b.operations[i])
  }

  predicate SameOperation(a: Operation, b: Operation) {
    a.leaseGeneration <= b.leaseGeneration && a.subscription == b.subscription
  }

  lemma StepIsLater(r: Registry, g: Geometry, step: Step)
    requires RegistryOk(r, g) && Enabled(r, step)
    ensures Later(r, Apply(r, g, step))
  {
    hide RegistryOk, Valid, Reindex, CompiledRecord, StoreAccepted, Due, Expired, RetryExhausted, RemovalAccepted, Later, Store, Deactivate, DropConfirmation;
    var r' := Apply(r, g, step);
    if Succeeds(r, step) {
      match step {
        case BeginStep(id, s, _, _) =>
          DroppedOperations(r, s.destination);
          FreshOperation(r, DropConfirmation(r, s.destination), r', id);
        case LeaseStep(read, now, leaseFor) => ReplacedOperation(r, r', LeaseOf(read, now, leaseFor));
        case RenewStep(read, _, now, leaseFor) => ReplacedOperation(r, r', RenewalOf(read, now, leaseFor));
        case RescheduleStep(read, _, attemptedAt, dueAt, error) => ReplacedOperation(r, r', RescheduleOf(read, attemptedAt, dueAt, error));
        case ActivateStep(read, _) =>
          ActivateTakesOut(r, g, read);
          FewerOperations(r, r');
        case RemoveStep(d) =>
          DroppedOperations(r, d);
          FewerOperations(r, r');
        case DeactivateStep(id) =>
          DeactivateDrops(r, id);
          DroppedOperations(r, r.subscriptions[id].subscription.destination);
          FewerOperations(r, r');
        case _ => FewerOperations(r, r');
      }
    } else {
      FewerOperations(r, r');
    }
  }

  lemma DroppedOperations(r: Registry, d: DestinationId)
    ensures var r' := DropConfirmation(r, d); r'.begun == r.begun && forall i :: i in r'.operations ==> i in r.operations && r'.operations[i] == r.operations[i]
  {
  }

  lemma FewerOperations(r: Registry, r': Registry)
    requires r'.begun == r.begun && forall i :: i in r'.operations ==> i in r.operations && r'.operations[i] == r.operations[i]
    ensures Later(r, r')
  {
  }

  lemma FreshOperation(r: Registry, dropped: Registry, r': Registry, id: nat)
    requires id !in r.begun && r'.begun == r.begun + {id}
    requires forall i :: i in dropped.operations ==> i in r.operations && dropped.operations[i] == r.operations[i]
    requires forall i :: i in r'.operations && i != id ==> i in dropped.operations && r'.operations[i] == dropped.operations[i]
    ensures Later(r, r')
  {
  }

  lemma ReplacedOperation(r: Registry, r': Registry, o: Operation)
    requires r'.begun == r.begun && r'.operations == r.operations[o.id := o]
    requires o.id in r.operations && SameOperation(r.operations[o.id], o)
    ensures Later(r, r')
  {
  }

  lemma {:induction false} RunIsLater(rs: seq<Registry>, g: Geometry, steps: seq<Step>, i: nat, j: nat)
    requires Run(rs, g, steps) && i <= j < |rs|
    ensures Later(rs[i], rs[j])
  {
    hide RegistryOk, Enabled, Apply;
    if i < j {
      RunIsLater(rs, g, steps, i, j - 1);
      RunKeepsOk(rs, g, steps, j - 1);
      StepIsLater(rs[j - 1], g, steps[j - 1]);
    }
  }

  /** The token a step presents for its operation, if it needs one. */
  function Presented(step: Step): Option<(Operation, Token)> {
    match step
    case RenewStep(read, token, _, _) => Some((read, token))
    case ActivateStep(read, token) => Some((read, token))
    case RescheduleStep(read, token, _, _, _) => Some((read, token))
    case AbandonStep(read, token) => Some((read, token))
    case _ => None
  }

  /** A step that presents a token goes through only with the token of the operation's latest lease. */
  lemma OnlyLatestToken(r: Registry, g: Geometry, step: Step)
    requires RegistryOk(r, g) && Enabled(r, step) && Presented(step).Some? && Succeeds(r, step)
    ensures var (read, token) := Presented(step).value;
      read.id in r.operations && r.operations[read.id].state.Leased? && token == Token(read.id, r.operations[read.id].leaseGeneration)
  {
    hide SubscriptionsOk, Exact, LeasesOk, Valid, StoreAccepted, RetryExhausted, RemovalAccepted;
    assert OperationOk(r.operations[Presented(step).value.0.id]);
  }

  /** Once an operation has been leased again, its earlier tokens never work again. */
  lemma OldTokensFail(rs: seq<Registry>, g: Geometry, steps: seq<Step>, i: nat, j: nat)
    requires Run(rs, g, steps) && i < j < |steps|
    requires steps[i].LeaseStep? && Succeeds(rs[i], steps[i])
    requires Presented(steps[j]).Some? && Presented(steps[j]).value.1.id == steps[i].read.id
    requires Presented(steps[j]).value.1.generation <= steps[i].read.leaseGeneration
    ensures !Succeeds(rs[j], steps[j])
  {
    hide RegistryOk, Enabled, Apply;
    var id := steps[i].read.id;
    RunKeepsOk(rs, g, steps, i);
    RunKeepsOk(rs, g, steps, j);
    RunIsLater(rs, g, steps, i + 1, j);
    LeaseAdvances(rs[i], g, steps[i]);
    if Succeeds(rs[j], steps[j]) {
      OnlyLatestToken(rs[j], g, steps[j]);
      assert false;
    }
  }

  lemma LeaseAdvances(r: Registry, g: Geometry, step: Step)
    requires RegistryOk(r, g) && step.LeaseStep? && Enabled(r, step) && Succeeds(r, step)
    ensures var r' := Apply(r, g, step);
      step.read.id in r'.begun && step.read.id in r'.operations && r'.operations[step.read.id].leaseGeneration == step.read.leaseGeneration + 1
  {
    hide SubscriptionsOk, Exact, LeasesOk, Valid, Due;
  }

  /** A newer confirmation, a removal or a deactivation takes the destination away from an operation. */
  predicate Fences(r: Registry, step: Step, d: DestinationId) {
    match step
    case BeginStep(_, s, _, _) => s.destination == d
    case RemoveStep(x) => x == d
    case DeactivateStep(id) => id in r.subscriptions && r.subscriptions[id].subscription.destination == d
    case _ => false
  }

  lemma FencedIsGone(r: Registry, g: Geometry, step: Step, id: nat)
    requires RegistryOk(r, g) && Enabled(r, step) && id in r.operations && Fences(r, step, r.operations[id].subscription.destination)
    ensures id in Apply(r, g, step).begun && id !in Apply(r, g, step).operations
  {
    hide SubscriptionsOk, Exact, LeasesOk, Valid, OperationOk, Reindex;
  }

  /** Once a newer confirmation, a removal or a deactivation for the destination has committed, no earlier
      confirmation of it can activate, nor do anything else, whatever record its worker had read. */
  lemma FencedNeverActs(rs: seq<Registry>, g: Geometry, steps: seq<Step>, i: nat, j: nat, id: nat)
    requires Run(rs, g, steps) && i < j < |steps|
    requires id in rs[i].operations && Fences(rs[i], steps[i], rs[i].operations[id].subscription.destination)
    requires Presented(steps[j]).Some? && Presented(steps[j]).value.0.id == id
    ensures !Succeeds(rs[j], steps[j])
  {
    hide RegistryOk, Enabled, Apply, Fences;
    RunKeepsOk(rs, g, steps, i);
    RunKeepsOk(rs, g, steps, j);
    FencedIsGone(rs[i], g, steps[i], id);
    RunIsLater(rs, g, steps, i + 1, j);
    if Succeeds(rs[j], steps[j]) {
      OnlyLatestToken(rs[j], g, steps[j]);
      assert false;
    }
  }

  /** Between the read and the commit nothing else happened to the operation: a commit that compares the
      whole record acts on the record it read, so it equals one atomic step. */
  lemma CommitActsOnWhatWasRead(r: Registry, g: Geometry, read: Operation, token: Token)
    requires RegistryOk(r, g) && read.token == Some(token)
    ensures Succeeds(r, AbandonStep(read, token)) <==> Unchanged(r, read)
    ensures Succeeds(r, ActivateStep(read, token)) <==> Unchanged(r, read) && StoreAccepted(r, read.subscription)
  {
    hide SubscriptionsOk, Exact, LeasesOk, Valid, StoreAccepted, OperationOk;
  }

  /** A confirmation is tried at most 12 times: in every state each pending one was rescheduled at most
      11 times. */
  lemma AttemptsStayInBudget(rs: seq<Registry>, g: Geometry, steps: seq<Step>, n: nat, id: nat)
    requires Run(rs, g, steps) && n < |rs| && id in rs[n].operations
    ensures rs[n].operations[id].attempts < MAX_CONFIRMATION_ATTEMPTS
  {
    RunKeepsOk(rs, g, steps, n);
    hide Run, SubscriptionsOk, Exact, ConfirmationsOk;
    assert LeaseOk(rs[n].operations[id], rs[n].leases);
  }

  // ---- stored subscriptions ----

  /** A stored subscription keeps its ids and destination, and its generation tells its versions apart. */
  ghost predicate Fenced(a: StoredSubscription, b: StoredSubscription) {
    && a.id == b.id && a.destination == b.destination && a.subscription.destination == b.subscription.destination
    && a.generation <= b.generation
    && (a.generation == b.generation < U64_MAX ==> a == b)
  }

  lemma StepFences(r: Registry, g: Geometry, step: Step, id: nat)
    requires RegistryOk(r, g) && Enabled(r, step) && id in r.subscriptions && r.subscriptions[id].generation <= U64_MAX
    ensures id in Apply(r, g, step).subscriptions && Fenced(r.subscriptions[id], Apply(r, g, step).subscriptions[id])
    ensures Apply(r, g, step).subscriptions[id].generation <= U64_MAX
  {
    hide CompiledOk, Exact, LeasesOk, ConfirmationsOk, Valid, OperationOk, Reindex, CompiledRecord, Begin, TakeOut, PutOperation;
    BeginTouchesNoRecord(r, step);
    if step.ActivateStep? && Succeeds(r, step) {
      var s := step.read.subscription;
      StoreRecords(r, g, s, Some(step.read.id));
      if Previous(r, s.destination).None? {
        NewRecordIsNew(r, s, id);
      }
    }
    hide Store, StoreAccepted, StoredRecord;
    if step.DeactivateStep? && step.id in r.subscriptions {
      DropFrame(r, r.subscriptions[step.id].subscription.destination);
    }
  }

  lemma BeginTouchesNoRecord(r: Registry, step: Step)
    ensures forall id, s, now, leaseFor :: Begin(r, id, s, now, leaseFor).subscriptions == r.subscriptions
    ensures forall o :: TakeOut(r, o).subscriptions == r.subscriptions && PutOperation(r, o).subscriptions == r.subscriptions
    ensures forall d :: DropConfirmation(r, d).subscriptions == r.subscriptions
  {
  }

  lemma StoreRecords(r: Registry, g: Geometry, s: Subscription, confirmation: Option<nat>)
    requires StoreAccepted(r, s)
    ensures Store(r, g, s, confirmation).subscriptions == r.subscriptions[StoredRecord(r, s).id := StoredRecord(r, s)]
  {
    hide Valid, Reindex, CompiledRecord;
  }

  lemma NewRecordIsNew(r: Registry, s: Subscription, id: nat)
    requires RecordsOk(r.subscriptions, r.byDestination, r.lastSubscription, r.lastDestination)
    requires id in r.subscriptions && Previous(r, s.destination).None?
    ensures StoredRecord(r, s).id != id
  {
  }

  /** Generation fencing: over any run a subscription keeps its ids, its generation never goes back, and
      the same generation below the maximum means the very same record. */
  lemma {:induction false} GenerationFences(rs: seq<Registry>, g: Geometry, steps: seq<Step>, i: nat, j: nat, id: nat)
    requires Run(rs, g, steps) && i <= j < |rs| && id in rs[i].subscriptions && rs[i].subscriptions[id].generation <= U64_MAX
    ensures id in rs[j].subscriptions && Fenced(rs[i].subscriptions[id], rs[j].subscriptions[id])
    ensures rs[j].subscriptions[id].generation <= U64_MAX
  {
    hide RegistryOk, Enabled, Apply;
    if i < j {
      GenerationFences(rs, g, steps, i, j - 1, id);
      RunKeepsOk(rs, g, steps, j - 1);
      StepFences(rs[j - 1], g, steps[j - 1], id);
    }
  }

  /** The posting index is exact in every state of every run, with no empty bitmap, and exactly the active
      subscriptions have a compiled record, that of their current generation. */
  lemma IndexIsExact(rs: seq<Registry>, g: Geometry, steps: seq<Step>, n: nat)
    requires Run(rs, g, steps) && n < |rs|
    ensures var r := rs[n];
      && (forall k :: k in r.postings ==> r.postings[k] != {})
      && (forall k, offset :: offset in BitmapAt(r.postings, k) <==>
            exists id :: id in r.compiled && offset == PostingOffset(id) && k in PostingKeys(r.compiled[id]))
      && (forall id :: id in r.compiled <==> id in r.subscriptions && r.subscriptions[id].active)
      && (forall id :: id in r.compiled ==> r.compiled[id].generation == r.subscriptions[id].generation && r.compiled[id].id == id)
  {
    RunKeepsOk(rs, g, steps, n);
    var r := rs[n];
    hide Run, PostingKeys, PostingOffset, ConfirmationsOk, LeasesOk;
    forall id | id in r.compiled
      ensures r.compiled[id].generation == r.subscriptions[id].generation && r.compiled[id].id == id
    {
      CompiledNames(g, r.subscriptions[id]);
      assert RecordOk(r.subscriptions[id], id, r.lastSubscription, r.lastDestination);
    }
    forall k, offset
      ensures offset in BitmapAt(r.postings, k) <==> exists id :: id in r.compiled && offset == PostingOffset(id) && k in PostingKeys(r.compiled[id])
    {
      assert offset in BitmapAt(r.postings, k) <==> Posted(r.compiled, k, offset);
    }
    hide *;
  }

  lemma CompiledNames(g: Geometry, record: StoredSubscription)
    ensures CompiledRecord(g, record).Some? ==> CompiledRecord(g, record).value.id == record.id && CompiledRecord(g, record).value.generation == record.generation
  {
    hide Valid;
  }
}
