/**
 Delivery inside the whole pipeline. The delivery part of a pipeline run is a run of the delivery state
 machine, retention included, so what holds of its runs holds here; and with the output of the match
 worker no revision of an incident goes to a destination twice.
 */
module PipelineGuarantees {
  import opened Records
  import opened DeliverySpec
  import opened RowTable
  import opened RowSteps
  import opened DeliveryRuns
  import opened DeliveryInvariant
  import opened DeliveryTheorems
  import opened DeliveryGuarantees
  import opened DeliveryLedger
  import DeliveryGuards
  import opened Incidents
  import opened Catalog
  import opened CatalogSteps
  import opened Subscriptions
  import opened BatchSplitter
  import opened Pipeline
  import opened MatchWorker
  import Registry
  import RegistryRuns

  // ---- the delivery part of a run ----

  function DeliveryStates(ps: seq<Pipeline>): seq<Sys> {
    seq(|ps|, i requires 0 <= i < |ps| => ps[i].delivery)
  }

  /** What an action is to the delivery state machine; the others forget nothing. */
  function StepOf(p: Pipeline, a: Action): Step {
    match a
    case Match(_, batches) => CommitMatch(batches)
    case Deliver(step) => step
    case Retain(_, cutoff, _) => Forget(OldDeliveries(p.delivery.store.ledger, cutoff))
    case _ => Forget({})
  }

  function DeliverySteps(ps: seq<Pipeline>, actions: seq<Action>): seq<Step>
    requires |ps| == |actions| + 1
  {
    seq(|actions|, i requires 0 <= i < |actions| => StepOf(ps[i], actions[i]))
  }

  lemma ForgetNothing(y: Sys)
    ensures ForgetStep(y, {}) == y
  {
    assert y.store.ledger - {} == y.store.ledger;
  }

  lemma ActionIsStep(p: Pipeline, w: World, policy: Policy, a: Action)
    requires PipelineOk(p) && CanAct(p, w, a)
    ensures Enabled(p.delivery, StepOf(p, a))
    ensures Act(p, w, policy, a).delivery == Apply(p.delivery, StepOf(p, a))
  {
    hide PipelineOk, MatchAccepted, BatchesAccepted, BatchesFit, CanCommitMatch, MatchStep, Process, Ingest, Prune, OldDeliveries, CommitMatchJob, Resolves, IngestAccepted;
    ForgetNothing(p.delivery);
    if a.Match? {
      MatchAlwaysAccepted(p, a.job, a.batches);
    }
  }

  /** In every run of the pipeline the delivery keyspaces go through a run of the delivery state machine. */
  lemma DeliveryIsRun(ps: seq<Pipeline>, w: World, policy: Policy, actions: seq<Action>)
    requires PipelineRun(ps, w, policy, actions)
    ensures Run(DeliveryStates(ps), DeliverySteps(ps, actions)) && DeliveryStates(ps)[0] == Initial
    ensures forall n :: 0 <= n < |ps| ==> Reached(DeliveryStates(ps), DeliverySteps(ps, actions), n)
  {
    var ys, steps := DeliveryStates(ps), DeliverySteps(ps, actions);
    forall i | 0 <= i < |actions|
      ensures Enabled(ys[i], steps[i]) && ys[i + 1] == Apply(ys[i], steps[i])
    {
      RunKeepsPipeline(ps, w, policy, actions, i);
      hide PipelineOk, CanAct, Act, Enabled, Apply, StepOf;
      ActionIsStep(ps[i], w, policy, actions[i]);
    }
    hide CanAct, Act, Enabled, Apply, StepOf;
  }

  /** Per-destination order over whole pipeline runs: a row ends only after every earlier row of its
      destination, whose outcome then stays. */
  lemma InOrder(ps: seq<Pipeline>, w: World, policy: Policy, actions: seq<Action>, i: nat, j: nat, a: RowId, b: RowId)
    requires PipelineRun(ps, w, policy, actions) && i <= j < |ps|
    requires a in ps[j].delivery.table.status && b in ps[i].delivery.table.status && Before(ps[j].delivery.table, a, b)
    requires ps[i].delivery.table.status[b].Done?
    ensures a in ps[i].delivery.table.status && ps[i].delivery.table.status[a].Done?
    ensures ps[j].delivery.table.status[a] == ps[i].delivery.table.status[a]
  {
    hide CanAct, Act, Run, Before;
    DeliveryIsRun(ps, w, policy, actions);
    FirstInFirstOut(DeliveryStates(ps), DeliverySteps(ps, actions), i, j, a, b);
  }

  lemma EndsForGood(ps: seq<Pipeline>, w: World, policy: Policy, actions: seq<Action>, i: nat, j: nat, id: RowId)
    requires PipelineRun(ps, w, policy, actions) && i <= j < |ps|
    requires id in ps[i].delivery.table.status && ps[i].delivery.table.status[id].Done?
    ensures id in ps[j].delivery.table.status && ps[j].delivery.table.status[id] == ps[i].delivery.table.status[id]
  {
    hide CanAct, Act, Run;
    DeliveryIsRun(ps, w, policy, actions);
    DoneForever(DeliveryStates(ps), DeliverySteps(ps, actions), i, j, id);
  }

  /** Retention finds the ledger entry old and takes it out between the two states. */
  ghost predicate Retired(ps: seq<Pipeline>, actions: seq<Action>, i: nat, n: nat, key: LedgerKey)
    requires |ps| == |actions| + 1
  {
    exists k :: i < k < n && k < |actions| && actions[k].Retain? && key in OldDeliveries(ps[k].delivery.store.ledger, actions[k].ledgerCutoff)
  }

  lemma RemovedMeansRetired(ps: seq<Pipeline>, w: World, actions: seq<Action>, i: nat, n: nat, key: LedgerKey)
    requires |ps| == |actions| + 1 && forall k :: 0 <= k < |actions| ==> CanAct(ps[k], w, actions[k])
    requires RemovedBetween(DeliverySteps(ps, actions), i, n, key)
    ensures Retired(ps, actions, i, n, key)
  {
    var steps := DeliverySteps(ps, actions);
    var k :| i < k < n && steps[k].Forget? && key in steps[k].gone;
    assert CanAct(ps[k], w, actions[k]);
    assert steps[k] == StepOf(ps[k], actions[k]);
    hide OldDeliveries, Enabled, BatchesFit, CanCommitMatch, Resolves, IngestAccepted;
  }

  /** Once a revision is delivered, the guards skip it there in every later state of the pipeline, until
      another revision of the incident is delivered there or retention removes the entry. */
  lemma SkippedWhileRecorded(ps: seq<Pipeline>, w: World, policy: Policy, actions: seq<Action>, i: nat, n: nat, a: RowId, key: LedgerKey, revision: nat,
                             subscriptions: map<nat, Registry.StoredSubscription>, other: Batch, row: Row, category: Category)
    requires PipelineRun(ps, w, policy, actions) && i < n < |ps| && Delivers(DeliveryStates(ps), i, a, key, revision)
    requires !OtherBetween(DeliveryStates(ps), i, n, key, revision) && !Retired(ps, actions, i, n, key)
    requires LedgerKeyOf(other, row.destination) == key && other.revision == revision
    ensures DeliveryGuards.Guarded(ps[n].delivery.store.ledger, subscriptions, other, row, category) == DeliveryGuards.Skipped
  {
    hide Run, Delivers, OtherBetween, Retired, RemovedBetween, DeliverySteps, CanAct, Act, DeliveryGuards.Guarded;
    DeliveryIsRun(ps, w, policy, actions);
    if RemovedBetween(DeliverySteps(ps, actions), i, n, key) {
      RemovedMeansRetired(ps, w, actions, i, n, key);
    }
    SkippedUntilAnother(DeliveryStates(ps), DeliverySteps(ps, actions), i, n, a, key, revision, subscriptions, other, row, category);
  }

  // ---- no revision twice ----

  ghost predicate OneRowPerRevision(t: Table) {
    forall a, b :: SameDelivery(t, a, b) ==> a == b
  }

  /** The batches of a revision come from one job, which is gone, and name no destination twice. */
  ghost predicate RevisionsOnce(p: Pipeline) {
    && (forall k, x :: k in p.catalog.jobs && x in p.delivery.table.batches ==> p.catalog.jobs[k].revision != p.delivery.table.batches[x].revision)
    && (forall x :: x in p.delivery.table.batches ==> p.delivery.table.batches[x].revision <= p.catalog.lastRevision)
    && OneRowPerRevision(p.delivery.table)
  }

  lemma SameRowsOnce(t: Table, t': Table)
    requires OneRowPerRevision(t) && t'.batches == t.batches
    ensures OneRowPerRevision(t')
  {
    forall a, b | SameDelivery(t', a, b)
      ensures a == b
    {
      assert SameDelivery(t, a, b);
    }
  }

  /** Nothing but a match commit brings batches, and new jobs have new revisions. */
  lemma NoNewBatches(p: Pipeline, p': Pipeline)
    requires RevisionsOnce(p) && p'.delivery.table.batches == p.delivery.table.batches
    requires p.catalog.lastRevision <= p'.catalog.lastRevision
    requires forall k :: k in p'.catalog.jobs ==>
      (k in p.catalog.jobs && p'.catalog.jobs[k] == p.catalog.jobs[k]) || p'.catalog.jobs[k].revision == p.catalog.lastRevision + 1
    ensures RevisionsOnce(p')
  {
    SameRowsOnce(p.delivery.table, p'.delivery.table);
    hide OneRowPerRevision;
  }

  lemma {:induction false} InJoined(batches: seq<Batch>, k: nat, i: nat)
    requires k < |batches| && i < |batches[k].rows|
    ensures batches[k].rows[i] in Joined(batches)
  {
    var n := |batches| - 1;
    if k < n {
      InJoined(batches[..n], k, i);
    }
  }

  /** Rows joined from different places of the batches go to different destinations. */
  lemma {:induction false} JoinedOnce(batches: seq<Batch>, k: nat, i: nat, l: nat, j: nat)
    requires DistinctDestinations(Joined(batches)) && k < |batches| && l < |batches| && i < |batches[k].rows| && j < |batches[l].rows|
    requires batches[k].rows[i].destination == batches[l].rows[j].destination
    ensures k == l && i == j
  {
    var n := |batches| - 1;
    var front, rest := Joined(batches[..n]), batches[n].rows;
    assert Joined(batches) == front + rest;
    if k < n && l < n {
      assert forall x :: 0 <= x < |front| ==> Joined(batches)[x] == front[x];
      JoinedOnce(batches[..n], k, i, l, j);
    } else if k == n && l == n {
      assert Joined(batches)[|front| + i] == rest[i] && Joined(batches)[|front| + j] == rest[j];
    } else if k < n {
      InJoined(batches[..n], k, i);
      FrontAndRest(front, rest, batches[k].rows[i], j);
    } else {
      InJoined(batches[..n], l, j);
      FrontAndRest(front, rest, batches[l].rows[j], i);
    }
  }

  lemma FrontAndRest(front: seq<Row>, rest: seq<Row>, row: Row, j: nat)
    requires DistinctDestinations(front + rest) && row in front && j < |rest|
    ensures row.destination != rest[j].destination
  {
    var x :| 0 <= x < |front| && front[x] == row;
    assert (front + rest)[x] == row && (front + rest)[|front| + j] == rest[j];
  }

  /** The table after a match commit whose rows go to different destinations. */
  lemma NewRowsOnce(t: Table, t': Table, batches: seq<Batch>, revision: nat)
    requires OneRowPerRevision(t) && DistinctDestinations(Joined(batches))
    requires forall x :: x in t.batches ==> x in t'.batches && t'.batches[x] == t.batches[x] && t.batches[x].revision != revision
    requires forall x :: x in t'.batches ==> t'.batches[x].id == x
    requires forall x :: x in t'.batches && x !in t.batches ==> t'.batches[x] in batches
    requires forall b :: b in batches ==> b.revision == revision
    ensures OneRowPerRevision(t')
  {
    hide DistinctDestinations, Joined;
    forall a, b | SameDelivery(t', a, b)
      ensures a == b
    {
      if a.batch in t.batches || b.batch in t.batches {
        assert a.batch in t.batches && b.batch in t.batches;
        assert SameDelivery(t, a, b);
      } else {
        var k :| 0 <= k < |batches| && batches[k] == t'.batches[a.batch];
        var l :| 0 <= l < |batches| && batches[l] == t'.batches[b.batch];
        JoinedOnce(batches, k, a.row, l, b.row);
      }
    }
  }

  lemma MatchOnce(p: Pipeline, w: World, id: nat, batches: seq<Batch>)
    requires PipelineOk(p) && RevisionsOnce(p) && CanAct(p, w, Match(id, batches)) && DistinctDestinations(Joined(batches))
    ensures RevisionsOnce(MatchAction(p, id, batches))
  {
    hide PipelineOk, BatchesFit, CanCommitMatch, DistinctDestinations, Joined, OneRowPerRevision, MatchAction, Committed;
    CommitsOutput(p, id, batches);
    MatchKeepsAll(p, id, batches);
    var p' := MatchAction(p, id, batches);
    JobGone(p, id, batches);
    IdsInTable(p');
    NewBatches(p, p', id, batches);
    OneJobPerRevision(p, id);
    FittingRevisions(p.catalog, p.catalog.jobs[id], batches);
    NewRowsOnce(p.delivery.table, p'.delivery.table, batches, p.catalog.jobs[id].revision);
  }

  lemma NewBatches(p: Pipeline, p': Pipeline, id: nat, batches: seq<Batch>)
    requires Committed(p, p', id, batches)
    ensures forall x :: x in p.delivery.table.batches ==> x in p'.delivery.table.batches && p'.delivery.table.batches[x] == p.delivery.table.batches[x]
    ensures forall x :: x in p'.delivery.table.batches && x !in p.delivery.table.batches ==> p'.delivery.table.batches[x] in batches
  {
  }

  lemma FittingRevisions(c: Catalog, job: Job, batches: seq<Batch>)
    requires BatchesFit(c, job, batches)
    ensures forall b :: b in batches ==> b.revision == job.revision
  {
  }

  lemma OneJobPerRevision(p: Pipeline, id: nat)
    requires PipelineOk(p) && id in p.catalog.jobs
    ensures forall k :: k in p.catalog.jobs && k != id ==> p.catalog.jobs[k].revision != p.catalog.jobs[id].revision
    ensures p.catalog.jobs[id].revision <= p.catalog.lastRevision
  {
    hide IncidentsOk, AliasesOk, CorrelationOk, CountsOk, InboxOk, Inv, Linked;
  }

  lemma IdsInTable(p: Pipeline)
    requires PipelineOk(p)
    ensures forall x :: x in p.delivery.table.batches ==> p.delivery.table.batches[x].id == x
  {
    hide CatalogOk, Linked, Agrees, Fifo, Uniform, LanesOk, HoldsOk, AttemptsOk;
  }

  lemma JobGone(p: Pipeline, id: nat, batches: seq<Batch>)
    requires PipelineOk(p) && id in p.catalog.jobs && BatchesFit(p.catalog, p.catalog.jobs[id], batches) && CanCommitMatch(p.delivery, batches)
    ensures MatchAction(p, id, batches).catalog.jobs == p.catalog.jobs - {id}
    ensures MatchAction(p, id, batches).catalog.lastRevision == p.catalog.lastRevision
  {
    hide PipelineOk, BatchesFit, MatchAccepted, BatchesAccepted, CanCommitMatch, MatchStep, RemoveIndexes, LedgerHas;
    MatchAlwaysAccepted(p, id, batches);
  }

  lemma ItemOnce(p: Pipeline, w: World, policy: Policy, item: nat, r: Resolution, now: int)
    requires RevisionsOnce(p) && CatalogOk(p.catalog) && item in p.catalog.inbox
    ensures RevisionsOnce(p.(catalog := Process(p.catalog, w, policy, item, r, now, LedgerOf(p))))
  {
    hide CatalogOk, Process, LedgerOf, RevisionsOnce;
    ProcessGrows(p.catalog, w, policy, item, r, now, LedgerOf(p));
    NoNewBatches(p, p.(catalog := Process(p.catalog, w, policy, item, r, now, LedgerOf(p))));
  }

  lemma ReceiptOnce(p: Pipeline, events: seq<Event>)
    requires RevisionsOnce(p)
    ensures RevisionsOnce(p.(catalog := Ingest(p.catalog, events)))
  {
    hide Ingest, RevisionsOnce;
    IngestOnlyInbox(p.catalog, events);
    NoNewBatches(p, p.(catalog := Ingest(p.catalog, events)));
  }

  lemma DeliveryOnce(p: Pipeline, step: Step)
    requires RevisionsOnce(p) && Enabled(p.delivery, step) && !step.CommitMatch?
    ensures RevisionsOnce(p.(delivery := Apply(p.delivery, step)))
  {
    hide Enabled, Apply, RevisionsOnce;
    SameBatches(p.delivery, step);
    NoNewBatches(p, p.(delivery := Apply(p.delivery, step)));
  }

  lemma RetentionOnce(p: Pipeline, w: World, incidentCutoff: int, ledgerCutoff: int, eventCutoff: int)
    requires RevisionsOnce(p)
    ensures RevisionsOnce(RetainAction(p, w, incidentCutoff, ledgerCutoff, eventCutoff))
  {
    hide RevisionsOnce, RemoveIndexes, PrunedIncidents, PrunedEvents, LedgerOf, OldDeliveries, ReferencesOf;
    NoNewBatches(p, RetainAction(p, w, incidentCutoff, ledgerCutoff, eventCutoff));
  }

  lemma ActionOnce(p: Pipeline, w: World, policy: Policy, a: Action)
    requires PipelineOk(p) && RevisionsOnce(p) && CanAct(p, w, a)
    requires a.Match? ==> DistinctDestinations(Joined(a.batches))
    ensures RevisionsOnce(Act(p, w, policy, a))
  {
    assert CatalogOk(p.catalog);
    hide PipelineOk, CatalogOk, Apply, Enabled, Process, IngestAccepted, Resolves, Ingest, LedgerOf, RetainAction, MatchAction, RevisionsOnce, BatchesFit, CanCommitMatch, DistinctDestinations, Joined;
    match a {
      case Receive(_, events) => ReceiptOnce(p, events);
      case ProcessItem(item, resolution, now) => ItemOnce(p, w, policy, item, resolution, now);
      case Match(id, batches) => MatchOnce(p, w, id, batches);
      case Deliver(step) => DeliveryOnce(p, step);
      case Retain(incidents, ledger, events) => RetentionOnce(p, w, incidents, ledger, events);
    }
  }

  /** Every match commit of the run is the output of the match worker for its job. */
  ghost predicate WorkerRun(ps: seq<Pipeline>, w: World, policy: Policy, actions: seq<Action>, g: Geometry, rs: seq<Registry.Registry>, cap: real) {
    && PipelineRun(ps, w, policy, actions)
    && forall k :: 0 <= k < |actions| && actions[k].Match? ==> FromWorker(ps, k, actions[k].job, actions[k].batches, g, rs, cap)
  }

  lemma {:induction false} RunOnce(ps: seq<Pipeline>, w: World, policy: Policy, actions: seq<Action>, g: Geometry, rs: seq<Registry.Registry>, cap: real, n: nat)
    requires WorkerRun(ps, w, policy, actions, g, rs, cap) && n < |ps|
    ensures RevisionsOnce(ps[n])
  {
    hide PipelineOk, CanAct, Act, RevisionsOnce, FromWorker, DistinctDestinations, Joined;
    if n == 0 {
      EmptyOnce();
    } else {
      RunOnce(ps, w, policy, actions, g, rs, cap, n - 1);
      RunKeepsPipeline(ps, w, policy, actions, n - 1);
      if actions[n - 1].Match? {
        WorkerNamesOnce(ps, n - 1, actions[n - 1].job, actions[n - 1].batches, g, rs, cap);
      }
      ActionOnce(ps[n - 1], w, policy, actions[n - 1]);
    }
  }

  lemma EmptyOnce()
    ensures RevisionsOnce(EmptyPipeline)
  {
  }

  lemma WorkerNamesOnce(ps: seq<Pipeline>, k: nat, id: nat, batches: seq<Batch>, g: Geometry, rs: seq<Registry.Registry>, cap: real)
    requires FromWorker(ps, k, id, batches, g, rs, cap)
    ensures DistinctDestinations(Joined(batches))
  {
    hide DistinctDestinations, Joined, Resends, Announces;
  }

  /** In every state of every run of the pipeline there is at most one row for a revision of an incident and
      category and a destination, in whatever order the jobs are matched. */
  lemma OneRowForEach(ps: seq<Pipeline>, w: World, policy: Policy, actions: seq<Action>, g: Geometry, rs: seq<Registry.Registry>, cap: real, n: nat, a: RowId, b: RowId)
    requires WorkerRun(ps, w, policy, actions, g, rs, cap) && n < |ps| && SameDelivery(ps[n].delivery.table, a, b)
    ensures a == b
  {
    hide WorkerRun, SameDelivery;
    RunOnce(ps, w, policy, actions, g, rs, cap, n);
  }

  /** So no revision of an incident is delivered to a destination twice: two deliveries of it are one. */
  lemma DeliveredOnce(ps: seq<Pipeline>, w: World, policy: Policy, actions: seq<Action>, g: Geometry, rs: seq<Registry.Registry>, cap: real,
                      i: nat, j: nat, a: RowId, b: RowId, key: LedgerKey, revision: nat)
    requires WorkerRun(ps, w, policy, actions, g, rs, cap)
    requires Delivers(DeliveryStates(ps), i, a, key, revision) && Delivers(DeliveryStates(ps), j, b, key, revision)
    ensures i == j && a == b
  {
    assert PipelineRun(ps, w, policy, actions) && i + 1 < |ps| && j + 1 < |ps|;
    hide WorkerRun, PipelineRun, Run, Delivers;
    var ys, steps, n := DeliveryStates(ps), DeliverySteps(ps, actions), if i < j then j else i;
    DeliveryIsRun(ps, w, policy, actions);
    StillUnder(ys, steps, i, n, a, key, revision);
    StillUnder(ys, steps, j, n, b, key, revision);
    UnderSame(ys[n].table, a, b, key);
    OneRowForEach(ps, w, policy, actions, g, rs, cap, n, a, b);
    if i < j {
      NotAgain(ys, steps, i, j, a, key, revision);
    } else if j < i {
      NotAgain(ys, steps, j, i, a, key, revision);
    }
  }

  lemma UnderSame(t: Table, a: RowId, b: RowId, key: LedgerKey)
    requires Under(t, a, key) && Under(t, b, key) && t.batches[a.batch].revision == t.batches[b.batch].revision
    ensures SameDelivery(t, a, b)
  {
  }

  lemma StillUnder(ys: seq<Sys>, steps: seq<Step>, i: nat, n: nat, a: RowId, key: LedgerKey, revision: nat)
    requires Run(ys, steps) && ys[0] == Initial && i <= n < |ys| && Delivers(ys, i, a, key, revision)
    ensures Under(ys[n].table, a, key) && ys[n].table.batches[a.batch].revision == revision
  {
    hide Run, NewlyDelivered;
    BatchesStay(ys, steps, i, n, a.batch);
  }

  lemma NotAgain(ys: seq<Sys>, steps: seq<Step>, i: nat, j: nat, a: RowId, key: LedgerKey, revision: nat)
    requires Run(ys, steps) && ys[0] == Initial && i < j && Delivers(ys, i, a, key, revision)
    ensures !Delivers(ys, j, a, key, revision)
  {
    hide Run, Under;
    if j < |ys| {
      DoneForever(ys, steps, i + 1, j, a);
    }
  }
}
