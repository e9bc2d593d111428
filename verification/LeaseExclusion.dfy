/**
 What a lease, a renewal or a reschedule of a confirmation promises its worker: nobody else is given the
 operation before the time that was set, and it can be taken from then on. In plain numbers.
 */
module LeaseExclusion {
  import opened Records
  import opened Incidents
  import opened Subscriptions
  import opened Postings
  import opened Registry
  import opened RegistryTheorems
  import opened RegistryRuns

  /** The step reserves the operation until this time: a lease for its duration, a second at least, a
      reschedule for its wait. */
  predicate Reserves(step: Step, id: nat, until: int) {
    match step
    case BeginStep(x, _, now, leaseFor) => x == id && until == now + (if leaseFor < 1_000 then 1_000 else leaseFor)
    case LeaseStep(read, now, leaseFor) => read.id == id && until == now + (if leaseFor < 1_000 then 1_000 else leaseFor)
    case RenewStep(read, _, now, leaseFor) => read.id == id && until == now + (if leaseFor < 1_000 then 1_000 else leaseFor)
    case RescheduleStep(read, _, attemptedAt, dueAt, _) => read.id == id && until == (if dueAt < attemptedAt then attemptedAt else dueAt)
    case _ => false
  }

  /** A renewal or a reschedule of the operation, which set another time. */
  predicate Resets(step: Step, id: nat) {
    (step.RenewStep? || step.RescheduleStep?) && step.read.id == id
  }

  predicate Reserved(o: Operation, until: int) {
    if o.state.Leased? then o.leaseUntil.Some? && until <= o.leaseUntil.value else until <= o.dueAt
  }

  ghost predicate ReservedIn(r: Registry, id: nat, until: int) {
    id in r.begun && (id in r.operations ==> Reserved(r.operations[id], until))
  }

  lemma ReservedAfter(r: Registry, g: Geometry, step: Step, id: nat, until: int)
    requires RegistryOk(r, g) && Enabled(r, step) && Succeeds(r, step) && Reserves(step, id, until)
    ensures ReservedIn(Apply(r, g, step), id, until)
  {
    hide SubscriptionsOk, Exact, LeasesOk, Valid, OperationOk, RetryExhausted, DropConfirmation, Due;
    if step.BeginStep? {
      DropFrame(r, step.subscription.destination);
    }
  }

  lemma StaysReserved(r: Registry, g: Geometry, step: Step, id: nat, until: int)
    requires RegistryOk(r, g) && Enabled(r, step) && ReservedIn(r, id, until) && !(Resets(step, id) && Succeeds(r, step))
    ensures ReservedIn(Apply(r, g, step), id, until)
  {
    hide SubscriptionsOk, Exact, LeasesOk, Valid, OperationOk, RetryExhausted, Store, StoreAccepted, Reindex, CompiledRecord, DropConfirmation;
    if Succeeds(r, step) {
      match step {
        case BeginStep(_, s, _, _) => DroppedOperations(r, s.destination);
        case ActivateStep(read, _) => ActivateTakesOut(r, g, read);
        case RemoveStep(d) => DroppedOperations(r, d);
        case DeactivateStep(x) => hide Deactivate; DeactivateDrops(r, x); DroppedOperations(r, r.subscriptions[x].subscription.destination);
        case _ =>
      }
    }
  }

  lemma {:induction false} RunStaysReserved(rs: seq<Registry>, g: Geometry, steps: seq<Step>, i: nat, j: nat, id: nat, until: int)
    requires Run(rs, g, steps) && i < j < |rs| && Succeeds(rs[i], steps[i]) && Reserves(steps[i], id, until)
    requires forall k :: i < k < j ==> !(Resets(steps[k], id) && Succeeds(rs[k], steps[k]))
    ensures ReservedIn(rs[j], id, until)
  {
    hide RegistryOk, Enabled, Apply, Succeeds, ReservedIn, Resets, Reserves;
    RunKeepsOk(rs, g, steps, j - 1);
    if i == j - 1 {
      ReservedAfter(rs[i], g, steps[i], id, until);
    } else {
      RunStaysReserved(rs, g, steps, i, j - 1, id, until);
      StaysReserved(rs[j - 1], g, steps[j - 1], id, until);
    }
  }

  /** Whatever happens in between, no one leases the operation before the reserved time, unless a renewal
      or a reschedule set another. */
  lemma NoLeaseBefore(rs: seq<Registry>, g: Geometry, steps: seq<Step>, i: nat, j: nat, id: nat, until: int, x: Step)
    requires Run(rs, g, steps) && i < j < |rs| && Succeeds(rs[i], steps[i]) && Reserves(steps[i], id, until)
    requires forall k :: i < k < j ==> !(Resets(steps[k], id) && Succeeds(rs[k], steps[k]))
    requires x.LeaseStep? && x.read.id == id && x.now < until
    ensures !(Enabled(rs[j], x) && Succeeds(rs[j], x))
  {
    hide Run, RegistryOk, Apply, Resets, Reserves;
    RunStaysReserved(rs, g, steps, i, j, id, until);
  }

  /** A current operation can be leased exactly when its wait or its lease is over. */
  lemma LeaseWhenOver(r: Registry, g: Geometry, id: nat, now: int, leaseFor: int)
    requires RegistryOk(r, g) && id in r.operations
    ensures var o := r.operations[id];
      var x := LeaseStep(o, now, leaseFor);
      Enabled(r, x) && Succeeds(r, x) <==>
        if o.state.Ready? then o.dueAt <= now else o.leaseUntil.Some? && o.leaseUntil.value <= now
  {
    hide SubscriptionsOk, Exact, LeasesOk, Valid, OperationOk;
  }

  /** A lease gives out the next token for exactly its duration, and a renewal moves the end of the lease and
      nothing else. */
  lemma LeaseSets(r: Registry, g: Geometry, id: nat, token: Token, now: int, leaseFor: int)
    requires RegistryOk(r, g) && id in r.operations
    ensures var o := r.operations[id];
      var until := now + (if leaseFor < 1_000 then 1_000 else leaseFor);
      var a, b := Apply(r, g, LeaseStep(o, now, leaseFor)), Apply(r, g, RenewStep(o, token, now, leaseFor));
      && id in a.operations && id in b.operations
      && a.operations[id] == o.(state := Leased, leaseUntil := Some(until), leaseGeneration := o.leaseGeneration + 1, token := Some(Token(id, o.leaseGeneration + 1)))
      && b.operations[id] == o.(leaseUntil := Some(until))
  {
    hide SubscriptionsOk, Exact, LeasesOk, Valid, OperationOk;
    assert r.operations[id].id == id;
  }

  /** A failed attempt is scheduled again exactly while its lease was handed out after at most ten others
      and the operation is less than a day old. */
  lemma TriedAgain(r: Registry, g: Geometry, id: nat, token: Token, attemptedAt: int, dueAt: int, error: string)
    requires RegistryOk(r, g) && id in r.operations && r.operations[id].token == Some(token)
    ensures var o := r.operations[id];
      var x := RescheduleStep(o, token, attemptedAt, dueAt, error);
      && (Enabled(r, x) && Succeeds(r, x) <==> o.attempts <= 10 && attemptedAt - o.createdAt < 86_400_000)
      && (Enabled(r, x) ==>
            && id in Apply(r, g, x).operations
            && var p := Apply(r, g, x).operations[id];
            && p.state.Ready? && p.dueAt == (if dueAt < attemptedAt then attemptedAt else dueAt)
            && p.leaseUntil.None? && p.token.None? && p.attempts == o.attempts + 1
            && p.id == o.id && p.subscription == o.subscription && p.createdAt == o.createdAt && p.leaseGeneration == o.leaseGeneration)
  {
    hide SubscriptionsOk, Exact, Valid, OperationOk;
    assert LeaseOk(r.operations[id], r.leases) && r.operations[id].id == id;
  }

  /** The holder of the latest token can renew, give up and activate; activating leaves an active
      subscription with the confirmed content and no operation, unless the ids have run out. */
  lemma LatestTokenWorks(r: Registry, g: Geometry, id: nat, token: Token, now: int, leaseFor: int)
    requires RegistryOk(r, g) && id in r.operations && r.operations[id].token == Some(token)
    ensures var o := r.operations[id];
      && Enabled(r, RenewStep(o, token, now, leaseFor)) && Succeeds(r, RenewStep(o, token, now, leaseFor))
      && Enabled(r, AbandonStep(o, token)) && Succeeds(r, AbandonStep(o, token))
      && Enabled(r, ActivateStep(o, token))
      && (Succeeds(r, ActivateStep(o, token)) <==>
            o.subscription.destination in r.byDestination || (r.lastSubscription < U64_MAX && r.lastDestination < U64_MAX))
      && (Succeeds(r, ActivateStep(o, token)) ==>
            var r' := Apply(r, g, ActivateStep(o, token));
            && id !in r'.operations && o.subscription.destination !in r'.operationOf
            && o.subscription.destination in r'.byDestination
            && var s := r'.byDestination[o.subscription.destination];
            && s in r'.subscriptions && r'.subscriptions[s].active && r'.subscriptions[s].subscription == o.subscription && s in r'.compiled)
  {
    hide Exact, LeasesOk, Valid, Reindex, CompiledOk, CompiledRecord;
    assert OperationOk(r.operations[id]) && r.operations[id].id == id;
  }

  /** A pass takes an operation out for its age exactly when it is that old. */
  lemma ExpiresWhenOld(r: Registry, g: Geometry, id: nat, now: int, maxAge: int)
    requires RegistryOk(r, g) && id in r.operations
    ensures var x := ExpireStep(r.operations[id], now, maxAge);
      && (Enabled(r, x) && Succeeds(r, x) <==> now - r.operations[id].createdAt >= maxAge)
      && (Succeeds(r, x) ==> id !in Apply(r, g, x).operations)
  {
    hide SubscriptionsOk, Exact, LeasesOk, Valid, OperationOk;
    assert r.operations[id].id == id;
  }
}
