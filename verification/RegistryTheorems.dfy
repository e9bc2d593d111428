/** What the registry guarantees over every run of its operations. */
module RegistryTheorems {
  import opened Records
  import opened Incidents
  import opened Subscriptions
  import opened Postings
  import opened Registry

  lemma EmptyOk(g: Geometry)
    ensures RegistryOk(Empty, g)
  {
  }

  // ---- confirmations ----

  lemma DropKeeps(r: Registry, d: DestinationId)
    requires ConfirmationsOk(r.operations, r.operationOf, r.begun)
    ensures var r' := DropConfirmation(r, d); ConfirmationsOk(r'.operations, r'.operationOf, r'.begun) && d !in r'.operationOf
  {
    hide Valid;
  }

  lemma JoinKeeps(operations: map<nat, Operation>, operationOf: map<DestinationId, nat>, begun: set<nat>, o: Operation)
    requires ConfirmationsOk(operations, operationOf, begun)
    requires o.id !in begun && o.subscription.destination !in operationOf && OperationOk(o)
    ensures ConfirmationsOk(operations[o.id := o], operationOf[o.subscription.destination := o.id], begun + {o.id})
  {
    hide OperationOk;
  }

  lemma BeginKeeps(r: Registry, id: nat, s: Subscription, now: int, leaseFor: int)
    requires ConfirmationsOk(r.operations, r.operationOf, r.begun) && id !in r.begun && Valid(s)
    ensures var r' := Begin(r, id, s, now, leaseFor); ConfirmationsOk(r'.operations, r'.operationOf, r'.begun)
  {
    hide Valid, ConfirmationsOk, DropConfirmation;
    DropKeeps(r, s.destination);
    DropFrame(r, s.destination);
    var dropped := DropConfirmation(r, s.destination);
    JoinKeeps(dropped.operations, dropped.operationOf, dropped.begun, Begin(r, id, s, now, leaseFor).operations[id]);
  }

  lemma TakeOutKeeps(r: Registry, o: Operation)
    requires ConfirmationsOk(r.operations, r.operationOf, r.begun) && Unchanged(r, o)
    ensures RemovalAccepted(r, o)
    ensures var r' := TakeOut(r, o); ConfirmationsOk(r'.operations, r'.operationOf, r'.begun)
  {
    hide Valid;
  }

  lemma PutKeeps(r: Registry, read: Operation, next: Operation)
    requires ConfirmationsOk(r.operations, r.operationOf, r.begun) && Unchanged(r, read)
    requires next.id == read.id && next.subscription == read.subscription && OperationOk(next)
    ensures var r' := PutOperation(r, next); ConfirmationsOk(r'.operations, r'.operationOf, r'.begun)
  {
    hide Valid;
  }

  // ---- subscriptions ----

  lemma CompiledHasIds(r: Registry, g: Geometry)
    requires SubscriptionsOk(r, g)
    ensures CompiledIds(r.compiled)
  {
    forall id | id in r.compiled
      ensures r.compiled[id].id == id && id <= U64_MAX
    {
      assert CompiledRecord(g, r.subscriptions[id]) == Some(r.compiled[id]);
    }
  }

  lemma StoreKeepsSubscriptions(r: Registry, g: Geometry, s: Subscription, confirmation: Option<nat>)
    requires SubscriptionsOk(r, g) && StoreAccepted(r, s)
    ensures SubscriptionsOk(Store(r, g, s, confirmation), g)
  {
    hide Valid, Compile, Reindex, RecordsOk, CompiledOk, CompiledRecord;
    ValidCompiles(g, StoredRecord(r, s).id, StoredRecord(r, s).destination, StoredRecord(r, s).generation, s);
    StoreKeepsRecords(r, s);
    CompiledIs(g, StoredRecord(r, s));
    StoreKeepsCompiled(r.subscriptions, r.compiled, g, StoredRecord(r, s));
  }

  lemma CompiledIs(g: Geometry, record: StoredSubscription)
    ensures CompiledRecord(g, record) == Compile(g, record.id, record.destination, record.generation, record.subscription)
  {
  }

  lemma StoreKeepsRecords(r: Registry, s: Subscription)
    requires RecordsOk(r.subscriptions, r.byDestination, r.lastSubscription, r.lastDestination) && StoreAccepted(r, s)
    ensures var record, known := StoredRecord(r, s), Previous(r, s.destination).Some?;
      RecordsOk(r.subscriptions[record.id := record], r.byDestination[s.destination := record.id],
                if known then r.lastSubscription else r.lastSubscription + 1, if known then r.lastDestination else r.lastDestination + 1)
  {
    hide Valid;
  }

  lemma StoreKeepsCompiled(subscriptions: map<nat, StoredSubscription>, compiled: map<nat, Compiled>, g: Geometry, record: StoredSubscription)
    requires CompiledOk(subscriptions, compiled, g) && record.active && CompiledRecord(g, record).Some?
    ensures CompiledOk(subscriptions[record.id := record], compiled[record.id := CompiledRecord(g, record).value], g)
  {
    hide CompiledRecord;
  }

  lemma StoreKeepsPostings(r: Registry, g: Geometry, s: Subscription, confirmation: Option<nat>)
    requires SubscriptionsOk(r, g) && StoreAccepted(r, s) && Exact(r.postings, r.compiled)
    ensures var r' := Store(r, g, s, confirmation); Exact(r'.postings, r'.compiled)
  {
    hide Valid, Reindex, Exact;
    var record := StoredRecord(r, s);
    ValidCompiles(g, record.id, record.destination, record.generation, s);
    CompiledHasIds(r, g);
    NewIdIsFree(r, g, s);
    CompileKeepsId(g, record.id, record.destination, record.generation, s);
    hide Compile, SubscriptionsOk;
    ReindexIsExact(r.postings, r.compiled, record.id, CompiledRecord(g, record));
  }

  lemma CompileKeepsId(g: Geometry, id: nat, destination: nat, generation: nat, s: Subscription)
    requires Compile(g, id, destination, generation, s).Some?
    ensures Compile(g, id, destination, generation, s).value.id == id
  {
    hide Valid;
  }

  lemma NewIdIsFree(r: Registry, g: Geometry, s: Subscription)
    requires SubscriptionsOk(r, g) && StoreAccepted(r, s)
    ensures StoredRecord(r, s).id <= U64_MAX
    ensures Previous(r, s.destination).None? ==> StoredRecord(r, s).id !in r.compiled
  {
    hide Valid, CompiledRecord;
  }

  lemma DeactivateKeepsSubscriptions(r: Registry, g: Geometry, id: nat)
    requires SubscriptionsOk(r, g)
    ensures SubscriptionsOk(Deactivate(r, id), g)
  {
    hide RecordsOk, CompiledOk, Reindex, DropConfirmation;
    if id in r.subscriptions {
      DropFrame(r, r.subscriptions[id].subscription.destination);
      DeactivatedRecord(r.subscriptions, r.byDestination, r.lastSubscription, r.lastDestination, id);
      DeactivatedCompiled(r.subscriptions, r.compiled, g, id, Saturating(r.subscriptions[id].generation));
    }
  }

  lemma DeactivatedRecord(subscriptions: map<nat, StoredSubscription>, byDestination: map<DestinationId, nat>, lastSubscription: nat, lastDestination: nat, id: nat)
    requires RecordsOk(subscriptions, byDestination, lastSubscription, lastDestination) && id in subscriptions
    ensures subscriptions[id].id == id
    ensures var next := subscriptions[id].(active := false, generation := Saturating(subscriptions[id].generation));
      RecordsOk(subscriptions[id := next], byDestination, lastSubscription, lastDestination)
  {
  }

  lemma DeactivatedCompiled(subscriptions: map<nat, StoredSubscription>, compiled: map<nat, Compiled>, g: Geometry, id: nat, generation: nat)
    requires CompiledOk(subscriptions, compiled, g) && id in subscriptions
    ensures CompiledOk(subscriptions[id := subscriptions[id].(active := false, generation := generation)], compiled - {id}, g)
  {
    hide CompiledRecord;
  }

  lemma DeactivateKeepsPostings(r: Registry, g: Geometry, id: nat)
    requires SubscriptionsOk(r, g) && Exact(r.postings, r.compiled)
    ensures var r' := Deactivate(r, id); Exact(r'.postings, r'.compiled)
  {
    hide CompiledRecord, Reindex, Exact;
    CompiledHasIds(r, g);
    if id in r.subscriptions {
      assert r.subscriptions[id].id == id;
      if id in r.compiled {
        ReindexIsExact(r.postings, r.compiled, id, None);
      } else {
        assert r.compiled - {id} == r.compiled;
      }
    }
  }

  lemma SubscriptionsApart(r: Registry, r': Registry, g: Geometry)
    requires SubscriptionsOk(r, g)
    requires r' == r.(operations := r'.operations, operationOf := r'.operationOf, begun := r'.begun, leases := r'.leases)
    ensures SubscriptionsOk(r', g)
  {
    hide RecordsOk, CompiledOk;
  }

  /** Every operation keeps the registry whole, whatever record its caller had read. */
  lemma StepKeeps(r: Registry, g: Geometry, step: Step)
    requires RegistryOk(r, g) && Enabled(r, step)
    ensures RegistryOk(Apply(r, g, step), g)
  {
    hide SubscriptionsOk, Exact, ConfirmationsOk, LeasesOk, Valid, Store, Deactivate, Begin, TakeOut, DropConfirmation, StoreAccepted, OperationOk, LeaseOf, RenewalOf, RescheduleOf, Unchanged, RetryExhausted;
    var r' := Apply(r, g, step);
    LeasesKept(r, g, step);
    if Succeeds(r, step) {
      match step {
        case BeginStep(id, s, now, leaseFor) =>
          BeginKeeps(r, id, s, now, leaseFor);
          BeginFrame(r, id, s, now, leaseFor);
          SubscriptionsApart(r, r', g);
        case ExpireStep(read, _, _) =>
          TakeOutKeeps(r, read);
          TakeOutFrame(r, read);
          SubscriptionsApart(r, r', g);
        case LeaseStep(read, now, leaseFor) =>
          LeaseIsOk(read, now, leaseFor);
          PutStep(r, g, read, LeaseOf(read, now, leaseFor));
          SubscriptionsApart(r, r', g);
        case RenewStep(read, _, now, leaseFor) =>
          RenewalIsOk(read, now, leaseFor);
          PutStep(r, g, read, RenewalOf(read, now, leaseFor));
        case ActivateStep(read, _) =>
          StoreKeepsSubscriptions(r, g, read.subscription, Some(read.id));
          StoreKeepsPostings(r, g, read.subscription, Some(read.id));
          TakeOutKeeps(r, read);
          ActivateTakesOut(r, g, read);
        case RescheduleStep(read, _, attemptedAt, dueAt, error) =>
          RescheduleIsOk(read, attemptedAt, dueAt, error);
          PutStep(r, g, read, RescheduleOf(read, attemptedAt, dueAt, error));
        case AbandonStep(read, _) =>
          TakeOutKeeps(r, read);
          TakeOutFrame(r, read);
          SubscriptionsApart(r, r', g);
        case RemoveStep(d) =>
          DropKeeps(r, d);
          DropFrame(r, d);
          SubscriptionsApart(r, r', g);
        case DeactivateStep(id) =>
          DeactivateKeepsSubscriptions(r, g, id);
          DeactivateKeepsPostings(r, g, id);
          DeactivateDrops(r, id);
          DropKeeps(r, r.subscriptions[id].subscription.destination);
      }
    }
  }

  lemma LeasesShrink(operations: map<nat, Operation>, leases: map<Token, nat>, fewer: map<nat, Operation>)
    requires LeasesOk(operations, leases) && forall i :: i in fewer ==> i in operations && fewer[i] == operations[i]
    ensures LeasesOk(fewer, leases)
  {
  }

  lemma LeaseAdded(operations: map<nat, Operation>, leases: map<Token, nat>, o: Operation, attempts: nat)
    requires LeasesOk(operations, leases) && (forall i :: i in operations ==> operations[i].id == i && (operations[i].token.Some? ==> operations[i].token.value.id == i))
    requires o.token.Some? && o.token.value.id == o.id && o.attempts == attempts < MAX_CONFIRMATION_ATTEMPTS
    ensures LeasesOk(operations[o.id := o], leases[o.token.value := attempts])
  {
  }

  lemma LeasePut(operations: map<nat, Operation>, leases: map<Token, nat>, o: Operation)
    requires LeasesOk(operations, leases) && LeaseOk(o, leases)
    ensures LeasesOk(operations[o.id := o], leases)
  {
  }

  lemma TokensNameTheirOperation(r: Registry)
    requires ConfirmationsOk(r.operations, r.operationOf, r.begun)
    ensures forall i :: i in r.operations ==> r.operations[i].id == i && (r.operations[i].token.Some? ==> r.operations[i].token.value.id == i)
  {
    hide Valid;
  }

  lemma LeasesKept(r: Registry, g: Geometry, step: Step)
    requires RegistryOk(r, g) && Enabled(r, step)
    ensures LeasesOk(Apply(r, g, step).operations, Apply(r, g, step).leases)
  {
    hide SubscriptionsOk, Exact, ConfirmationsOk, LeasesOk, Valid, StoreAccepted, OperationOk, Reindex, CompiledRecord;
    TokensNameTheirOperation(r);
    var r' := Apply(r, g, step);
    if Succeeds(r, step) {
      match step {
        case BeginStep(id, s, now, leaseFor) =>
          var dropped := DropConfirmation(r, s.destination);
          LeasesShrink(r.operations, r.leases, dropped.operations);
          LeaseAdded(dropped.operations, r.leases, r'.operations[id], 0);
        case LeaseStep(read, now, leaseFor) =>
          assert LeaseOk(read, r.leases) by { LeaseHeld(r, read); }
          LeaseAdded(r.operations, r.leases, LeaseOf(read, now, leaseFor), read.attempts);
        case RenewStep(read, _, now, leaseFor) =>
          LeaseHeld(r, read);
          LeasePut(r.operations, r.leases, RenewalOf(read, now, leaseFor));
        case RescheduleStep(read, _, attemptedAt, dueAt, error) =>
          LeaseHeld(r, read);
          LeasePut(r.operations, r.leases, RescheduleOf(read, attemptedAt, dueAt, error));
        case _ =>
          LeasesShrink(r.operations, r.leases, r'.operations);
      }
    }
  }

  lemma LeaseHeld(r: Registry, o: Operation)
    requires LeasesOk(r.operations, r.leases) && Unchanged(r, o)
    ensures LeaseOk(o, r.leases)
  {
  }

  lemma BeginFrame(r: Registry, id: nat, s: Subscription, now: int, leaseFor: int)
    ensures var r' := Begin(r, id, s, now, leaseFor); r' == r.(operations := r'.operations, operationOf := r'.operationOf, begun := r'.begun, leases := r'.leases)
  {
  }

  lemma TakeOutFrame(r: Registry, o: Operation)
    ensures var r' := TakeOut(r, o); r' == r.(operations := r'.operations, operationOf := r'.operationOf, begun := r'.begun, leases := r'.leases)
  {
  }

  lemma DropFrame(r: Registry, d: DestinationId)
    ensures var r' := DropConfirmation(r, d); r' == r.(operations := r'.operations, operationOf := r'.operationOf)
  {
  }

  lemma ActivateTakesOut(r: Registry, g: Geometry, read: Operation)
    requires StoreAccepted(r, read.subscription)
    ensures var a, b := Store(r, g, read.subscription, Some(read.id)), TakeOut(r, read);
      a.operations == b.operations && a.operationOf == b.operationOf && a.begun == b.begun
  {
    hide Valid, Reindex, CompiledRecord;
  }

  lemma DeactivateDrops(r: Registry, id: nat)
    requires id in r.subscriptions
    ensures var a, b := Deactivate(r, id), DropConfirmation(r, r.subscriptions[id].subscription.destination);
      a.operations == b.operations && a.operationOf == b.operationOf && a.begun == b.begun
  {
    hide Reindex;
  }

  lemma PutStep(r: Registry, g: Geometry, read: Operation, next: Operation)
    requires RegistryOk(r, g) && Unchanged(r, read)
    requires next.id == read.id && next.subscription == read.subscription
    requires OperationOk(read) ==> OperationOk(next)
    ensures var r' := PutOperation(r, next);
      SubscriptionsOk(r', g) && ConfirmationsOk(r'.operations, r'.operationOf, r'.begun)
  {
    hide SubscriptionsOk, Exact, OperationOk;
    assert OperationOk(read);
    PutKeeps(r, read, next);
    SubscriptionsApart(r, PutOperation(r, next), g);
  }

  lemma LeaseIsOk(o: Operation, now: int, leaseFor: int)
    ensures var next := LeaseOf(o, now, leaseFor);
      next.id == o.id && next.subscription == o.subscription && (OperationOk(o) ==> OperationOk(next))
  {
    hide Valid;
  }

  lemma RenewalIsOk(o: Operation, now: int, leaseFor: int)
    ensures var next := RenewalOf(o, now, leaseFor);
      next.id == o.id && next.subscription == o.subscription && (o.state.Leased? && OperationOk(o) ==> OperationOk(next))
  {
    hide Valid;
  }

  lemma RescheduleIsOk(o: Operation, attemptedAt: int, dueAt: int, error: string)
    ensures var next := RescheduleOf(o, attemptedAt, dueAt, error);
      next.id == o.id && next.subscription == o.subscription && (OperationOk(o) ==> OperationOk(next))
  {
    hide Valid;
  }
}
