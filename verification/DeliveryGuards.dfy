/**
 The checks made just before a row is sent: it is skipped when its revision was already delivered or
 the subscription has changed, and it cannot fail for a target or rule that is gone.
 */
module DeliveryGuards {
  import opened Records
  import opened DeliverySpec
  import opened Incidents
  import opened Subscriptions
  import opened Matching
  import opened Postings
  import opened Registry
  import opened FastMatch
  import MatchingTheorems
  import RegistryRuns
  import RegistryTheorems

  /** What the guards decide: skip, send to a target under a rule, or fail for good. */
  datatype Verdict = Skipped | Deliver(target: MonitoringTarget, rule: AlertRule) | NoTarget | NoRule

  predicate Recorded(ledger: map<LedgerKey, Stored>, b: Batch, destination: nat) {
    LedgerKeyOf(b, destination) in ledger && ledger[LedgerKeyOf(b, destination)].revision == b.revision
  }

  predicate Fresh(subscriptions: map<nat, StoredSubscription>, row: Row) {
    row.subscription in subscriptions && subscriptions[row.subscription].active && subscriptions[row.subscription].generation == row.generation
  }

  /** The guards before a send, in their order. */
  function Guarded(ledger: map<LedgerKey, Stored>, subscriptions: map<nat, StoredSubscription>, b: Batch, row: Row, eventCategory: Category): Verdict {
    if eventCategory.Retired() || b.category.Retired() || Recorded(ledger, b, row.destination) || !Fresh(subscriptions, row) then Skipped
    else
      var s := subscriptions[row.subscription].subscription;
      if row.targetOrdinal >= |s.targets| then NoTarget
      else if FindAlert(s.alerts, b.category).None? then NoRule
      else Deliver(s.targets[row.targetOrdinal], s.alerts[FindAlert(s.alerts, b.category).value])
  }

  /** The guards let a row through exactly when nothing stands against it: its revision is not recorded, its
      subscription is active at the same generation, and target and rule are there; then it goes to that
      target under the rule of its category. */
  lemma DeliversWhen(ledger: map<LedgerKey, Stored>, subscriptions: map<nat, StoredSubscription>, b: Batch, row: Row, eventCategory: Category)
    ensures var v := Guarded(ledger, subscriptions, b, row, eventCategory);
      var key := LedgerKey(b.incident, b.category, row.destination);
      && (v == Skipped <==>
            || eventCategory in {WeatherWarning, Tsunami, Typhoon} || b.category in {WeatherWarning, Tsunami, Typhoon}
            || (key in ledger && ledger[key].revision == b.revision)
            || row.subscription !in subscriptions || !subscriptions[row.subscription].active
            || subscriptions[row.subscription].generation != row.generation)
      && (v.Deliver? ==>
            && row.subscription in subscriptions && row.targetOrdinal < |subscriptions[row.subscription].subscription.targets|
            && v.target == subscriptions[row.subscription].subscription.targets[row.targetOrdinal]
            && v.rule in subscriptions[row.subscription].subscription.alerts && v.rule.Category() == b.category)
      && (v == NoTarget ==> row.subscription in subscriptions && row.targetOrdinal >= |subscriptions[row.subscription].subscription.targets|)
      && (v == NoRule ==> row.subscription in subscriptions && forall a :: a in subscriptions[row.subscription].subscription.alerts ==> a.Category() != b.category)
  {
  }

  /** A row of the engine names an existing target of a rule of the event's category. */
  lemma LookupRowIsWhole(r: Registry, g: Geometry, e: Event, cap: real, id: nat, row: Row)
    requires RegistryOk(r, g) && id in r.compiled && EngineSays(g, r.compiled[id], e, cap, Some(row))
    ensures id in r.subscriptions && row.subscription == id && row.generation == r.subscriptions[id].generation
    ensures row.destination == r.subscriptions[id].destination
    ensures row.targetOrdinal < |r.subscriptions[id].subscription.targets|
    ensures FindAlert(r.subscriptions[id].subscription.alerts, e.category).Some?
  {
    hide Exact, ConfirmationsOk, LeasesOk, EngineSays, RecordOk;
    var c := r.compiled[id];
    var x := r.subscriptions[id];
    assert CompiledRecord(g, x) == Some(c);
    assert x.id == id by { assert RecordOk(x, id, r.lastSubscription, r.lastDestination); RecordNamesItself(x, id, r.lastSubscription, r.lastDestination); }
    hide SubscriptionsOk;
    CompileNames(g, x, c);
    EngineRowIsWhole(g, x.subscription, c, e, cap, row);
  }

  lemma RecordNamesItself(x: StoredSubscription, id: nat, lastSubscription: nat, lastDestination: nat)
    requires RecordOk(x, id, lastSubscription, lastDestination)
    ensures x.id == id
  {
  }

  lemma EngineRowIsWhole(g: Geometry, s: Subscription, c: Compiled, e: Event, cap: real, row: Row)
    requires Compile(g, c.id, c.destination, c.generation, s) == Some(c)
    requires EngineSays(g, c, e, cap, Some(row))
    ensures row.subscription == c.id && row.generation == c.generation && row.destination == c.destination
    ensures row.targetOrdinal < |s.targets| && FindAlert(s.alerts, e.category).Some?
  {
    MatchingTheorems.SameRuleFound(s.alerts, c.rules, e.category);
    MatchingTheorems.CompiledPointsAre(g, s, c);
    hide Chosen, CompileRule, RuleMatches, CompileTargets, CompileRules, FindRule, FindAlert, IntensityAt, Points, Valid;
    var at := FindRule(c.rules, e.category).value;
    var choice :| Chosen(g, e, CompiledPoints(c.targets), BandsOfRule(c.rules[at]), Min(c.rules[at].distanceKm, cap), choice)
      && Some(row) == if choice.Some? then Some(RowOf(g, c, e, choice.value)) else None;
    MatchingTheorems.ChosenInRange(g, e, CompiledPoints(c.targets), BandsOfRule(c.rules[at]), Min(c.rules[at].distanceKm, cap), choice);
  }

  /** A row matched at one time, guarded at any later time of the run, is skipped or delivered to the very
      target and rule it was matched with: generation fencing leaves no room for a target or a rule that is
      gone, as long as the generation is below its maximum. */
  lemma MatchedRowIsSkippedOrWhole(rs: seq<Registry>, g: Geometry, steps: seq<Step>, i: nat, j: nat, e: Event, cap: real, id: nat, row: Row,
                                   ledger: map<LedgerKey, Stored>, b: Batch)
    requires RegistryRuns.Run(rs, g, steps) && i <= j < |rs|
    requires id in rs[i].compiled && EngineSays(g, rs[i].compiled[id], e, cap, Some(row)) && row.generation < U64_MAX
    requires b.category == e.category
    ensures var v := Guarded(ledger, rs[j].subscriptions, b, row, e.category);
      && id in rs[i].subscriptions
      && var s := rs[i].subscriptions[id].subscription;
      && row.targetOrdinal < |s.targets| && FindAlert(s.alerts, e.category).Some?
      && (v == Skipped || v == Deliver(s.targets[row.targetOrdinal], s.alerts[FindAlert(s.alerts, e.category).value]))
      && id in rs[j].subscriptions
      && (v == Skipped <==>
            || Recorded(ledger, b, row.destination)
            || !rs[j].subscriptions[id].active || rs[j].subscriptions[id].generation != row.generation)
  {
    hide *;
    MatchedIsEarthquake(g, rs[i].compiled[id], e, cap, row);
    SkippedWhen(ledger, rs[j].subscriptions, b, row, e.category);
    RegistryRuns.RunKeepsOk(rs, g, steps, i);
    LookupRowIsWhole(rs[i], g, e, cap, id, row);
    RegistryRuns.GenerationFences(rs, g, steps, i, j, id);
    SameRecordSameVerdict(ledger, rs[i].subscriptions, rs[j].subscriptions, b, row, e.category);
  }

  lemma MatchedIsEarthquake(g: Geometry, c: Compiled, e: Event, cap: real, row: Row)
    requires EngineSays(g, c, e, cap, Some(row))
    ensures !e.category.Retired()
  {
  }

  lemma SkippedWhen(ledger: map<LedgerKey, Stored>, subscriptions: map<nat, StoredSubscription>, b: Batch, row: Row, category: Category)
    requires !category.Retired() && b.category == category
    ensures Guarded(ledger, subscriptions, b, row, category) == Skipped <==>
      || Recorded(ledger, b, row.destination)
      || row.subscription !in subscriptions || !subscriptions[row.subscription].active || subscriptions[row.subscription].generation != row.generation
  {
    hide Recorded, FindAlert;
  }

  lemma SameRecordSameVerdict(ledger: map<LedgerKey, Stored>, before: map<nat, StoredSubscription>, after: map<nat, StoredSubscription>, b: Batch, row: Row, category: Category)
    requires row.subscription in before && row.subscription in after && RegistryRuns.Fenced(before[row.subscription], after[row.subscription])
    requires before[row.subscription].generation == row.generation < U64_MAX && b.category == category
    requires row.targetOrdinal < |before[row.subscription].subscription.targets|
    requires FindAlert(before[row.subscription].subscription.alerts, category).Some?
    ensures var v, s := Guarded(ledger, after, b, row, category), before[row.subscription].subscription;
      v == Skipped || v == Deliver(s.targets[row.targetOrdinal], s.alerts[FindAlert(s.alerts, category).value])
  {
    hide FindAlert, Recorded;
  }

  // ---- what a delivery leaves behind ----

  lemma {:induction false} SuccessesAreRecorded(m: map<LedgerKey, Stored>, b: Batch, xs: seq<Success>, now: int, x: Success)
    requires x in xs
    ensures Recorded(PutSuccesses(m, b, xs, now), b, x.row.destination)
  {
    var n := |xs| - 1;
    if x != xs[n] {
      assert x in xs[..n];
      SuccessesAreRecorded(m, b, xs[..n], now, x);
    }
  }

  /** Right after a lane has committed a success, any row of the same incident, category, destination and
      revision is skipped. DeliveryLedger says how long this lasts. */
  lemma DeliveredIsSkipped(s: Store, id: nat, lane: Lane, now: int, x: Success, subscriptions: map<nat, StoredSubscription>, other: Batch, row: Row, category: Category)
    requires LaneAccepted(s, id, lane) && x in lane.successes
    requires other.incident == s.pending[id].incident && other.category == s.pending[id].category && other.revision == s.pending[id].revision
    requires row.destination == x.row.destination
    ensures Guarded(LaneCommit(s, id, lane, now).ledger, subscriptions, other, row, category) == Skipped
  {
    SuccessesAreRecorded(s.ledger, s.pending[id], lane.successes, now, x);
    hide PutRetries, PutLetters, PutSuccesses, FindAlert, Fresh;
  }

  /** The same right after a retry has committed one. */
  lemma RetriedIsSkipped(s: Store, r: Retry, x: Success, now: int, subscriptions: map<nat, StoredSubscription>, other: Batch, row: Row, category: Category)
    requires SuccessAccepted(s, r, Some(x))
    requires var b := FindBatch(s, r.batch).value;
      other.incident == b.incident && other.category == b.category && other.revision == b.revision
    requires row.destination == r.destination
    ensures Guarded(RetrySuccess(s, r, Some(x), now).ledger, subscriptions, other, row, category) == Skipped
  {
    hide FindAlert, Fresh, Current, FinishRetry;
  }

  lemma {:induction false} LastSuccessStands(m: map<LedgerKey, Stored>, b: Batch, xs: seq<Success>, now: int)
    requires forall x, y :: x in xs && y in xs ==> x.row.destination == y.row.destination
    ensures PutSuccesses(m, b, xs, now) ==
      if xs == [] then m else m[LedgerKeyOf(b, xs[|xs| - 1].row.destination) := Stored(now, b.revision, xs[|xs| - 1].row)]
  {
    if xs != [] {
      var n := |xs| - 1;
      assert forall x :: x in xs[..n] ==> x in xs;
      LastSuccessStands(m, b, xs[..n], now);
      assert xs[n] in xs && (n > 0 ==> xs[n - 1] in xs && xs[..n][n - 1] == xs[n - 1]);
    }
  }

  /** A lane writes one ledger entry at most: that of its destination, with its last success. */
  lemma LaneWritesOneDelivery(s: Store, id: nat, lane: Lane, now: int)
    requires LaneAccepted(s, id, lane)
    ensures var b := s.pending[id];
      LaneCommit(s, id, lane, now).ledger ==
        if lane.successes == [] then s.ledger
        else
          var row := lane.successes[|lane.successes| - 1].row;
          s.ledger[LedgerKeyOf(b, row.destination) := Stored(now, b.revision, row)]
  {
    SuccessesShareDestination(s, id, lane);
    LastSuccessStands(s.ledger, s.pending[id], lane.successes, now);
    hide PutRetries, PutLetters, PutSuccesses, Distinct, OutcomeRows;
  }

  lemma SuccessesShareDestination(s: Store, id: nat, lane: Lane)
    requires LaneAccepted(s, id, lane)
    ensures forall x, y :: x in lane.successes && y in lane.successes ==> x.row.destination == y.row.destination
  {
    forall x | x in lane.successes
      ensures x.rowIndex in lane.completed
    {
      var k :| 0 <= k < |lane.successes| && lane.successes[k] == x;
      assert SuccessRows(lane.successes)[k] == x.rowIndex;
      assert x.rowIndex in OutcomeRows(lane);
      assert x.rowIndex in Elements(lane.completed);
    }
  }
}
