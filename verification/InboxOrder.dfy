/** The order in which a run of the pipeline takes events from the inbox. */
module InboxOrder {
  import opened Records
  import opened DeliverySpec
  import opened DeliveryRuns
  import opened Incidents
  import opened EventKeys
  import opened IncidentRecords
  import opened Catalog
  import opened CatalogSteps
  import opened CatalogProcess
  import opened Correlation
  import opened Pipeline
  import JobDecision

  /** Whatever is in the inbox later than an item came after it. */
  ghost predicate PastItem(c: Catalog, item: nat) {
    item <= c.lastInbox && forall x :: x in c.inbox ==> x > item
  }

  /** Nothing but a receipt adds to the inbox, and that only behind what is there. */
  ghost predicate OnlyLater(c: Catalog, d: Catalog) {
    c.lastInbox <= d.lastInbox && forall x :: x in d.inbox ==> x in c.inbox || x > c.lastInbox
  }

  lemma ActionOnlyLater(p: Pipeline, w: World, policy: Policy, a: Action)
    requires CanAct(p, w, a)
    ensures OnlyLater(p.catalog, Act(p, w, policy, a).catalog)
  {
    hide Resolves, Enabled, CanCommitMatch, BatchesFit, Ingest, Process, Prune, DeliveryRuns.Apply, MatchAction, ReferencesOf, OldDeliveries, IngestAccepted;
    match a {
      case Receive(_, events) => IngestQueues(p.catalog, events);
      case ProcessItem(item, resolution, now) => ProcessOnlyTakes(p.catalog, w, policy, item, resolution, now, LedgerOf(p));
      case Match(job, batches) => MatchLeavesInbox(p, job, batches);
      case Deliver(_) =>
      case Retain(incidents, _, events) =>
        JobDecision.RetentionRemoves(p.catalog, w, ReferencesOf(p), incidents, events, LedgerOf(p));
        PruneKeepsCounters(p.catalog, w, ReferencesOf(p), incidents, events, LedgerOf(p));
    }
  }

  lemma PruneKeepsCounters(c: Catalog, w: World, refs: References, incidentCutoff: int, eventCutoff: int, ledger: IncidentId -> bool)
    ensures Prune(c, w, refs, incidentCutoff, eventCutoff, ledger).lastInbox == c.lastInbox
  {
    hide RemoveIndexes, PrunedIncidents, PrunedEvents;
  }

  lemma MatchLeavesInbox(p: Pipeline, job: nat, batches: seq<Batch>)
    requires job in p.catalog.jobs
    ensures MatchAction(p, job, batches).catalog.inbox == p.catalog.inbox && MatchAction(p, job, batches).catalog.lastInbox == p.catalog.lastInbox
  {
    hide BatchesFit, BatchesAccepted, AddBatches, MatchStep, RemoveIndexes, IndexesMatch, LedgerHas;
  }

  lemma PastGrows(c: Catalog, d: Catalog, item: nat)
    requires PastItem(c, item) && OnlyLater(c, d)
    ensures PastItem(d, item)
  {
  }

  lemma PastAfter(p: Pipeline, w: World, policy: Policy, a: Action)
    requires PipelineOk(p) && CanAct(p, w, a) && a.ProcessItem?
    ensures PastItem(Act(p, w, policy, a).catalog, a.item)
  {
    hide CatalogOk, Inv, Linked, Resolves, Process;
    ItemWasQueued(p.catalog, a.item);
    ProcessKeeps(p.catalog, w, policy, a.item, a.resolution, a.now, LedgerOf(p));
    ProcessOnlyTakes(p.catalog, w, policy, a.item, a.resolution, a.now, LedgerOf(p));
  }

  lemma ItemWasQueued(c: Catalog, item: nat)
    requires CatalogOk(c) && item in c.inbox
    ensures item <= c.lastInbox
  {
    hide IncidentsOk, AliasesOk, CorrelationOk, JobsOk, CountsOk;
  }

  lemma ProcessOnlyTakes(c: Catalog, w: World, policy: Policy, item: nat, r: Resolution, now: int, ledger: IncidentId -> bool)
    requires item in c.inbox
    ensures var d := Process(c, w, policy, item, r, now, ledger); d.lastInbox == c.lastInbox && forall x :: x in d.inbox ==> x in c.inbox
  {
    hide ReduceSpec, ShouldMatch, KeyOfEvent, CommitAccepted, CommitIncident;
    forall e: Event, c': Catalog, next: Incident, job: Option<Job>, l: bool
      ensures CommitOnlyTakes(c', CommitIncident(c', w, next, e, job, l, item))
    {
      CommitTakes(c', w, next, e, job, l, item);
    }
  }

  predicate CommitOnlyTakes(c: Catalog, d: Catalog) {
    d.lastInbox == c.lastInbox && d.inbox.Keys <= c.inbox.Keys
  }

  lemma CommitTakes(c: Catalog, w: World, next: Incident, e: Event, job: Option<Job>, ledger: bool, item: nat)
    ensures CommitOnlyTakes(c, CommitIncident(c, w, next, e, job, ledger, item))
  {
    hide Discards, Merged, RemoveIndexes, PutAliases, PutCorrelation;
  }

  /** Events are processed in the order in which they arrived, and each once. */
  lemma {:induction false} ProcessedInOrder(ps: seq<Pipeline>, w: World, policy: Policy, actions: seq<Action>, i: nat, j: nat)
    requires PipelineRun(ps, w, policy, actions) && i < j < |ps| && actions[i].ProcessItem?
    ensures PastItem(ps[j].catalog, actions[i].item)
    ensures j < |actions| && actions[j].ProcessItem? ==> actions[i].item < actions[j].item
  {
    hide PipelineOk, PastItem, OnlyLater, Act, CanAct;
    RunKeepsPipeline(ps, w, policy, actions, j - 1);
    if i == j - 1 {
      PastAfter(ps[i], w, policy, actions[i]);
    } else {
      ProcessedInOrder(ps, w, policy, actions, i, j - 1);
      ActionOnlyLater(ps[j - 1], w, policy, actions[j - 1]);
      PastGrows(ps[j - 1].catalog, ps[j].catalog, actions[i].item);
    }
    if j < |actions| && actions[j].ProcessItem? {
      ActsOnQueued(ps[j], w, actions[j]);
      PastIsLater(ps[j].catalog, actions[i].item);
    }
  }

  lemma ActsOnQueued(p: Pipeline, w: World, a: Action)
    requires CanAct(p, w, a) && a.ProcessItem?
    ensures a.item in p.catalog.inbox
  {
    hide Resolves;
  }

  lemma PastIsLater(c: Catalog, item: nat)
    requires PastItem(c, item)
    ensures forall x :: x in c.inbox ==> x > item
  {
  }
}
