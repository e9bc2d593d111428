/**
 One pass of the confirmation worker: the records are read first and handled one by one, each commit
 comparing with the record that was read. A pass is a run of expiry and lease steps of the registry.
 */
module ConfirmationPass {
  import opened Records
  import opened Registry
  import RegistryRuns
  import RegistryTheorems
  import opened Incidents
  import opened Subscriptions

  /** A pass stops at its limit, and an error aborts it: what was committed before stays. */
  datatype Progress = Running | Full | Aborted
  datatype Pass = Pass(registry: Registry, leased: seq<Operation>, progress: Progress)

  /** The times and the limit of one pass. */
  datatype Terms = Terms(now: int, leaseFor: int, maxAge: int, limit: nat)

  function HandleOne(p: Pass, o: Operation, t: Terms): Pass {
    if !p.progress.Running? then p
    else if Expired(o, t.now, t.maxAge) then
      if !Unchanged(p.registry, o) then p
      else if !RemovalAccepted(p.registry, o) then p.(progress := Aborted)
      else p.(registry := TakeOut(p.registry, o))
    else if !Due(o, t.now) then p
    else if |p.leased| >= t.limit then p.(progress := Full)
    else if o.leaseGeneration >= U64_MAX then p.(progress := Aborted)
    else if !Unchanged(p.registry, o) then p
    else p.(registry := WithLease(p.registry, o, t), leased := p.leased + [LeaseOf(o, t.now, t.leaseFor)])
  }

  function WithLease(r: Registry, o: Operation, t: Terms): Registry {
    PutOperation(r, LeaseOf(o, t.now, t.leaseFor)).(leases := r.leases[Token(o.id, o.leaseGeneration + 1) := o.attempts])
  }

  function HandleAll(r: Registry, read: seq<Operation>, t: Terms): Pass {
    if read == [] then Pass(r, [], Running)
    else HandleOne(HandleAll(r, read[..|read| - 1], t), read[|read| - 1], t)
  }

  /** Once a pass has stopped the remaining records change nothing. */
  lemma {:induction false} StoppedForGood(r: Registry, read: seq<Operation>, k: nat, t: Terms)
    requires k <= |read| && !HandleAll(r, read[..k], t).progress.Running?
    ensures HandleAll(r, read, t) == HandleAll(r, read[..k], t)
  {
    if k == |read| {
      assert read[..k] == read;
    } else {
      assert read[..|read| - 1][..k] == read[..k];
      StoppedForGood(r, read[..|read| - 1], k, t);
    }
  }

  lemma OneMore(r: Registry, read: seq<Operation>, k: nat, t: Terms)
    requires k < |read|
    ensures HandleAll(r, read[..k + 1], t) == HandleOne(HandleAll(r, read[..k], t), read[k], t)
  {
    assert read[..k + 1][..k] == read[..k];
  }

  // ---- what a pass promises ----

  /** The record is not too old, and its wait, or the lease of another worker, is over. */
  predicate Takeable(x: Operation, t: Terms) {
    && t.now - x.createdAt < t.maxAge
    && (if x.state.Ready? then x.dueAt <= t.now else x.leaseUntil.Some? && x.leaseUntil.value <= t.now)
  }

  /** At most `limit` leases, each of a due record that had not expired. */
  lemma {:induction false} LeasesAreNew(r: Registry, read: seq<Operation>, t: Terms)
    ensures var leased := HandleAll(r, read, t).leased;
      && |leased| <= t.limit
      && forall o :: o in leased ==> exists x :: x in read && Takeable(x, t) && o == LeaseOf(x, t.now, t.leaseFor)
  {
    hide LeaseOf, Unchanged, TakeOut, RemovalAccepted;
    if read != [] {
      var n := |read| - 1;
      LeasesAreNew(r, read[..n], t);
      forall o | o in HandleAll(r, read, t).leased
        ensures exists x :: x in read && Takeable(x, t) && o == LeaseOf(x, t.now, t.leaseFor)
      {
        if o in HandleAll(r, read[..n], t).leased {
          var x :| x in read[..n] && Takeable(x, t) && o == LeaseOf(x, t.now, t.leaseFor);
          assert x in read;
        } else {
          assert read[n] in read;
        }
      }
    }
  }

  /** The registry steps a pass takes: an expiry or a lease for each record it came to. */
  function StepsOf(r: Registry, read: seq<Operation>, t: Terms): seq<Step> {
    if read == [] then []
    else
      var n, o := |read| - 1, read[|read| - 1];
      var before, p := StepsOf(r, read[..n], t), HandleAll(r, read[..n], t);
      if !p.progress.Running? then before
      else if Expired(o, t.now, t.maxAge) then before + [ExpireStep(o, t.now, t.maxAge)]
      else if Due(o, t.now) && |p.leased| < t.limit && o.leaseGeneration < U64_MAX then before + [LeaseStep(o, t.now, t.leaseFor)]
      else before
  }

  /** A pass over any records that were read continues the run: its steps are enabled and lead to its
      result. Steps of others may come before, between and after, as each step carries what was read. */
  lemma {:induction false} PassIsRun(rs: seq<Registry>, g: Geometry, steps: seq<Step>, read: seq<Operation>, t: Terms) returns (more: seq<Registry>)
    requires RegistryRuns.Run(rs, g, steps)
    ensures var p := HandleAll(rs[|rs| - 1], read, t);
      && RegistryRuns.Run(rs + more, g, steps + StepsOf(rs[|rs| - 1], read, t))
      && (rs + more)[|rs + more| - 1] == p.registry
  {
    var r := rs[|rs| - 1];
    if read == [] {
      more := [];
      assert rs + more == rs && steps + StepsOf(r, read, t) == steps;
    } else {
      var n, o := |read| - 1, read[|read| - 1];
      var front := PassIsRun(rs, g, steps, read[..n], t);
      var before, p := StepsOf(r, read[..n], t), HandleAll(r, read[..n], t);
      if StepsOf(r, read, t) == before {
        more := front;
        NoStep(p, o, t);
      } else {
        var step := if Expired(o, t.now, t.maxAge) then ExpireStep(o, t.now, t.maxAge) else LeaseStep(o, t.now, t.leaseFor);
        HandleIsStep(p, g, o, t, step);
        hide HandleAll, StepsOf, HandleOne;
        RunGrows(rs + front, g, steps + before, step);
        more := front + [Apply(p.registry, g, step)];
        assert rs + more == rs + front + [Apply(p.registry, g, step)];
        assert steps + (before + [step]) == steps + before + [step];
      }
    }
  }

  lemma NoStep(p: Pass, o: Operation, t: Terms)
    requires !p.progress.Running? || (!Expired(o, t.now, t.maxAge) && !(Due(o, t.now) && |p.leased| < t.limit && o.leaseGeneration < U64_MAX))
    ensures HandleOne(p, o, t).registry == p.registry
  {
  }

  lemma HandleIsStep(p: Pass, g: Geometry, o: Operation, t: Terms, step: Step)
    requires p.progress.Running?
    requires if Expired(o, t.now, t.maxAge) then step == ExpireStep(o, t.now, t.maxAge)
             else step == LeaseStep(o, t.now, t.leaseFor) && Due(o, t.now) && |p.leased| < t.limit && o.leaseGeneration < U64_MAX
    ensures Enabled(p.registry, step)
    ensures HandleOne(p, o, t).registry == Apply(p.registry, g, step)
  {
    hide Expired, Due, Unchanged, RemovalAccepted, TakeOut, LeaseOf;
  }

  lemma RunGrows(rs: seq<Registry>, g: Geometry, steps: seq<Step>, step: Step)
    requires RegistryRuns.Run(rs, g, steps) && Enabled(rs[|rs| - 1], step)
    ensures RegistryRuns.Run(rs + [Apply(rs[|rs| - 1], g, step)], g, steps + [step])
  {
    hide Enabled, Apply;
  }

  /** From a reachable registry the index mismatch that aborts a pass cannot happen; only the last lease
      generation can abort it. */
  lemma {:induction false} PassIsNotAborted(rs: seq<Registry>, g: Geometry, steps: seq<Step>, read: seq<Operation>, t: Terms)
    requires RegistryRuns.Run(rs, g, steps)
    requires forall x :: x in read ==> x.leaseGeneration < U64_MAX
    ensures !HandleAll(rs[|rs| - 1], read, t).progress.Aborted?
  {
    if read != [] {
      var n, o := |read| - 1, read[|read| - 1];
      assert o in read && forall x :: x in read[..n] ==> x in read;
      PassIsNotAborted(rs, g, steps, read[..n], t);
      var front := PassIsRun(rs, g, steps, read[..n], t);
      var p := HandleAll(rs[|rs| - 1], read[..n], t);
      RegistryRuns.RunKeepsOk(rs + front, g, steps + StepsOf(rs[|rs| - 1], read[..n], t), |rs + front| - 1);
      hide RegistryRuns.Run, StepsOf;
      MatchingIndex(p.registry, g, o);
      hide Expired, Due, RemovalAccepted;
    }
  }

  lemma MatchingIndex(r: Registry, g: Geometry, o: Operation)
    requires RegistryOk(r, g)
    ensures Unchanged(r, o) ==> RemovalAccepted(r, o)
  {
    hide SubscriptionsOk, LeasesOk;
    if Unchanged(r, o) {
      RegistryTheorems.TakeOutKeeps(r, o);
    }
  }

  // ---- an undisturbed pass handles everything ----

  ghost predicate DistinctIds(read: seq<Operation>) {
    forall i, j :: 0 <= i < j < |read| ==> read[i].id != read[j].id
  }

  /** What is left of a record when the pass has run through. */
  ghost predicate Handled(p: Pass, x: Operation, t: Terms) {
    if t.now - x.createdAt >= t.maxAge then x.id !in p.registry.operations
    else if Takeable(x, t) then LeaseOf(x, t.now, t.leaseFor) in p.leased && Unchanged(p.registry, LeaseOf(x, t.now, t.leaseFor))
    else Unchanged(p.registry, x) && forall o :: o in p.leased ==> o.id != x.id
  }

  /** When no one interferes and the limit is not reached, every expired record is gone and every due one
      is leased; other records are as they were. */
  lemma {:induction false} PassHandlesAll(r: Registry, read: seq<Operation>, t: Terms, k: nat)
    requires DistinctIds(read) && k < |read| && forall x :: x in read ==> Unchanged(r, x)
    requires HandleAll(r, read, t).progress.Running?
    ensures Handled(HandleAll(r, read, t), read[k], t)
  {
    var n, o := |read| - 1, read[|read| - 1];
    assert o in read && forall x :: x in read[..n] ==> x in read;
    var p := HandleAll(r, read[..n], t);
    hide HandleAll, HandleOne, Takeable, Handled, LeaseOf;
    StillRunning(r, read, t);
    if k < n {
      assert read[..n][k] == read[k];
      PassHandlesAll(r, read[..n], t, k);
      HandleKeepsOthers(p, read[k], o, t);
    } else {
      OthersUntouched(r, read[..n], t, o.id);
      LeasesAreNew(r, read[..n], t);
      NotLeasedYet(read, p.leased, t);
      HandledNow(p, o, t);
    }
  }

  lemma StillRunning(r: Registry, read: seq<Operation>, t: Terms)
    requires read != [] && HandleAll(r, read, t).progress.Running?
    ensures HandleAll(r, read[..|read| - 1], t).progress.Running?
    ensures HandleAll(r, read, t) == HandleOne(HandleAll(r, read[..|read| - 1], t), read[|read| - 1], t)
  {
  }

  lemma NotLeasedYet(read: seq<Operation>, leased: seq<Operation>, t: Terms)
    requires DistinctIds(read) && read != []
    requires forall o :: o in leased ==> exists x :: x in read[..|read| - 1] && Takeable(x, t) && o == LeaseOf(x, t.now, t.leaseFor)
    ensures forall o :: o in leased ==> o.id != read[|read| - 1].id
  {
    hide Takeable;
  }

  lemma HandledNow(p: Pass, o: Operation, t: Terms)
    requires forall x :: x in p.leased ==> x.id != o.id
    requires p.progress.Running? && Unchanged(p.registry, o) && HandleOne(p, o, t).progress.Running?
    ensures Handled(HandleOne(p, o, t), o, t)
  {
  }

  lemma HandleKeepsOthers(p: Pass, x: Operation, o: Operation, t: Terms)
    requires x.id != o.id && Handled(p, x, t)
    ensures Handled(HandleOne(p, o, t), x, t)
  {
    hide Expired, Due, RemovalAccepted;
  }

  lemma {:induction false} OthersUntouched(r: Registry, read: seq<Operation>, t: Terms, id: nat)
    requires forall x :: x in read ==> x.id != id
    ensures var r' := HandleAll(r, read, t).registry;
      (id in r'.operations <==> id in r.operations) && (id in r.operations ==> r'.operations[id] == r.operations[id])
  {
    if read != [] {
      var n := |read| - 1;
      assert read[n] in read && forall x :: x in read[..n] ==> x in read;
      OthersUntouched(r, read[..n], t, id);
      hide Expired, Due, RemovalAccepted, Unchanged;
    }
  }
}
