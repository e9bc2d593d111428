/**
 The whole pipeline: catalog and delivery over one database. Match output is one write batch over
 both; pruning reads the references of both and removes from both.
 */
module Pipeline {
  import opened Records
  import opened DeliverySpec
  import opened RowTable
  import opened RowSteps
  import opened DeliveryRuns
  import opened DeliveryInvariant
  import opened DeliveryTheorems
  import opened Incidents
  import IncidentRecords
  import EventKeys
  import LaneOutcome
  import opened Catalog
  import opened CatalogInvariant
  import opened CatalogSteps
  import opened CatalogTheorems
  import opened CatalogProcess

  datatype Pipeline = Pipeline(catalog: Catalog, delivery: Sys)

  datatype Action =
    | Receive(provider: Channel, events: seq<Event>)
    | ProcessItem(item: nat, resolution: Resolution, now: int)
    | Match(job: nat, batches: seq<Batch>)
    | Deliver(step: Step)
    | Retain(incidentCutoff: int, ledgerCutoff: int, eventCutoff: int)

  predicate LedgerHas(ledger: map<LedgerKey, Stored>, id: IncidentId) {
    exists k | k in ledger :: k.incident == id
  }

  function LedgerOf(p: Pipeline): IncidentId -> bool {
    var ledger := p.delivery.store.ledger;
    id => LedgerHas(ledger, id)
  }

  /** The incidents and revisions that jobs and delivery batches of either state refer to. */
  function ReferencesOf(p: Pipeline): References {
    var c, s := p.catalog, p.delivery.store;
    References(
      (set j | j in c.jobs :: c.jobs[j].incident) + (set b | b in s.pending :: s.pending[b].incident) + (set b | b in s.retained :: s.retained[b].incident),
      (set j | j in c.jobs :: c.jobs[j].revision) + (set b | b in s.pending :: s.pending[b].revision) + (set b | b in s.retained :: s.retained[b].revision))
  }

  function OldDeliveries(ledger: map<LedgerKey, Stored>, cutoff: int): set<LedgerKey> {
    set k | k in ledger && ledger[k].deliveredAt <= cutoff
  }

  // ---- actions ----

  ghost predicate CanAct(p: Pipeline, w: World, a: Action) {
    match a
    case Receive(provider, events) => IngestAccepted(provider, events)
    case ProcessItem(item, resolution, now) => IsNext(p.catalog, item) && Resolves(p.catalog, w, p.catalog.inbox[item], resolution)
    case Match(job, batches) => job in p.catalog.jobs && BatchesFit(p.catalog, p.catalog.jobs[job], batches) && CanCommitMatch(p.delivery, batches)
    case Deliver(step) => !step.CommitMatch? && !step.Forget? && Enabled(p.delivery, step)
    case Retain(_, _, _) => true
  }

  ghost function Act(p: Pipeline, w: World, policy: Policy, a: Action): Pipeline
    requires CanAct(p, w, a)
  {
    match a
    case Receive(_, events) => p.(catalog := Ingest(p.catalog, events))
    case ProcessItem(item, resolution, now) => p.(catalog := Process(p.catalog, w, policy, item, resolution, now, LedgerOf(p)))
    case Match(job, batches) => MatchAction(p, job, batches)
    case Deliver(step) => p.(delivery := Apply(p.delivery, step))
    case Retain(incidents, ledger, events) => RetainAction(p, w, incidents, ledger, events)
  }

  ghost function MatchAction(p: Pipeline, job: nat, batches: seq<Batch>): Pipeline
    requires job in p.catalog.jobs
  {
    var ledger := LedgerHas(p.delivery.store.ledger, p.catalog.jobs[job].incident);
    if MatchAccepted(p.catalog, job, batches, ledger) && BatchesAccepted(p.delivery.store, batches)
    then Pipeline(CommitMatchJob(p.catalog, job, batches, ledger), MatchStep(p.delivery, batches))
    else p
  }

  /** Retention decides on the state before it removes anything, the ledger included. */
  function RetainAction(p: Pipeline, w: World, incidentCutoff: int, ledgerCutoff: int, eventCutoff: int): Pipeline {
    Pipeline(Prune(p.catalog, w, ReferencesOf(p), incidentCutoff, eventCutoff, LedgerOf(p)),
             ForgetStep(p.delivery, OldDeliveries(p.delivery.store.ledger, ledgerCutoff)))
  }

  // ---- the links between the two ----

  /** The event and the incident of a batch are stored, and the incident remembers it was matched. */
  ghost predicate BatchLinked(c: Catalog, b: Batch) {
    && b.revision in c.events
    && b.incident in c.incidents && c.incidents[b.incident].hasMatched
    && forall j :: j in c.jobs ==> c.jobs[j].revision != b.revision
  }

  ghost predicate Linked(c: Catalog, s: Store) {
    && (forall b :: b in s.pending ==> BatchLinked(c, s.pending[b]))
    && (forall b :: b in s.retained ==> BatchLinked(c, s.retained[b]))
  }

  ghost predicate PipelineOk(p: Pipeline) {
    CatalogOk(p.catalog) && Inv(p.delivery) && Linked(p.catalog, p.delivery.store)
  }

  const EmptyPipeline := Pipeline(EmptyCatalog, Initial)

  lemma EmptyPipelineOk()
    ensures PipelineOk(EmptyPipeline)
  {
    EmptyOk();
    InitialInv();
    hide CatalogOk, Inv;
  }

  // ---- what each catalog step leaves for the batches ----

  /** Every linked batch stays linked. */
  ghost predicate KeepsLinks(c: Catalog, d: Catalog) {
    forall b: Batch :: BatchLinked(c, b) ==> BatchLinked(d, b)
  }

  lemma LinkedStays(c: Catalog, d: Catalog, s: Store)
    requires Linked(c, s) && KeepsLinks(c, d)
    ensures Linked(d, s)
  {
    hide BatchLinked;
  }

  lemma {:induction false} IngestOnlyInbox(c: Catalog, events: seq<Event>)
    ensures var d := Ingest(c, events); d.incidents == c.incidents && d.jobs == c.jobs && d.events == c.events && d.lastRevision == c.lastRevision
  {
    if events != [] {
      IngestOnlyInbox(c, events[..|events| - 1]);
    }
  }

  lemma CommitKeepsLinks(c: Catalog, w: World, r: Incident, e: Event, job: Option<Job>, ledger: bool, item: nat)
    requires CatalogOk(c) && Commitable(c, r, job)
    ensures KeepsLinks(c, CommitIncident(c, w, r, e, job, ledger, item))
  {
    hide CatalogOk, Streams, PutAliases, PutCorrelation, RemoveIndexes;
    var d := CommitIncident(c, w, r, e, job, ledger, item);
    MergedIs(c, r, job);
    forall b: Batch | BatchLinked(c, b)
      ensures BatchLinked(d, b)
    {
      if Discards(c, r, e, job, ledger) {
      } else {
        JobsAre(c, e, job);
      }
    }
  }

  lemma CountersKeepLinks(c: Catalog)
    ensures KeepsLinks(c, c.(lastJob := c.lastJob + 1, lastRevision := c.lastRevision + 1))
  {
  }

  lemma ProcessKeepsLinks(c: Catalog, w: World, p: Policy, item: nat, r: Resolution, now: int, ledger: IncidentId -> bool)
    requires CatalogOk(c) && item in c.inbox && Resolves(c, w, c.inbox[item], r)
    ensures KeepsLinks(c, Process(c, w, p, item, r, now, ledger))
  {
    hide CatalogOk, Resolves, Registered, EventKeys.KeyOfEvent, Target, Commitable, ShouldMatch, IncidentRecords.ReduceSpec, CommitAccepted, CommitIncident, KeepsLinks;
    var e := c.inbox[item];
    assert Registered(e) by { InboxIsRegistered(c, item); }
    ResolvedJoins(c, w, e, r);
    SameEvents(c, c.(inbox := c.inbox - {item}));
    SameEvents(c, Reject(c, item));
    SameEvents(c, c);
    if !e.category.Retired() && r.Resolved? {
      var current := if r.id in c.incidents then Some(c.incidents[r.id]) else None;
      ReducedIsCommitable(c, w, e, r.id, now);
      var t := IncidentRecords.ReduceSpec(current, e, EventKeys.KeyOfEvent(e), now, w.digest);
      if t.Reduced? && t.outcome.Applied? {
        var next, l := t.incident, ledger(t.incident.id);
        if !ShouldMatch(w, p, current, e, now) {
          CommitKeepsLinks(c, w, next, e, None, l, item);
        } else {
          var job := Job(c.lastJob + 1, r.id, c.lastRevision + 1, now);
          var c' := c.(lastJob := c.lastJob + 1, lastRevision := c.lastRevision + 1);
          CounterKeeps(c);
          CountersKeepLinks(c);
          JobsAreOk(c);
          WithJob(c, next, now);
          CommitKeepsLinks(c', w, next, e, Some(job), l, item);
          LinksCompose(c, c', CommitIncident(c', w, next, e, Some(job), l, item));
        }
      }
    }
  }

  lemma SameEvents(c: Catalog, d: Catalog)
    requires d.incidents == c.incidents && d.jobs == c.jobs && d.events == c.events
    ensures KeepsLinks(c, d)
  {
  }

  lemma LinksCompose(a: Catalog, b: Catalog, c: Catalog)
    requires KeepsLinks(a, b) && KeepsLinks(b, c)
    ensures KeepsLinks(a, c)
  {
    hide BatchLinked;
  }

  lemma MatchKeepsLinks(c: Catalog, id: nat, batches: seq<Batch>, ledger: bool)
    requires IncidentsOk(c.incidents) && MatchAccepted(c, id, batches, ledger) && c.jobs[id].incident in c.incidents
    requires forall i, j :: i in c.jobs && j in c.jobs && c.jobs[i].revision == c.jobs[j].revision ==> i == j
    ensures KeepsLinks(c, CommitMatchJob(c, id, batches, ledger))
    ensures forall b :: b in batches ==> BatchLinked(CommitMatchJob(c, id, batches, ledger), b)
  {
    hide Streams, IndexesMatch, RemoveIndexes;
    StoredIncident(c, c.jobs[id].incident);
  }

  lemma PruneKeepsLinked(c: Catalog, w: World, s: Store, refs: References, incidentCutoff: int, eventCutoff: int, ledger: IncidentId -> bool)
    requires Linked(c, s)
    requires forall b :: b in s.pending ==> s.pending[b].incident in refs.incidents && s.pending[b].revision in refs.revisions
    requires forall b :: b in s.retained ==> s.retained[b].incident in refs.incidents && s.retained[b].revision in refs.revisions
    ensures Linked(Prune(c, w, refs, incidentCutoff, eventCutoff, ledger), s)
  {
    hide RemoveIndexes;
  }

  // ---- what each delivery step leaves ----

  /** Delivery only ever takes batches away. */
  lemma DeliveryShrinks(y: Sys, step: Step)
    requires Inv(y) && Enabled(y, step) && !step.CommitMatch?
    ensures var s, s' := y.store, Apply(y, step).store;
      && (forall b :: b in s'.pending ==> FindBatch(s, b) == Some(s'.pending[b]))
      && (forall b :: b in s'.retained ==> FindBatch(s, b) == Some(s'.retained[b]))
  {
    hide *;
    var y' := Apply(y, step);
    StepKeepsInv(y, step);
    TablesAgree(y);
    TablesAgree(y');
    SameBatches(y, step);
    forall b | b in y'.store.pending || b in y'.store.retained
      ensures FindBatch(y.store, b) == Some(y.table.batches[b])
    {
      StayedLive(y, step, b);
    }
  }

  lemma TablesAgree(y: Sys)
    requires Inv(y)
    ensures forall b :: b in y.store.pending || b in y.store.retained <==> b in y.table.batches && (HasFresh(y.table, b) || HasWaiting(y.table, b))
    ensures forall b :: b in y.store.pending ==> y.store.pending[b] == y.table.batches[b]
    ensures forall b :: b in y.store.retained ==> y.store.retained[b] == y.table.batches[b]
    ensures forall b :: b in y.store.pending || b in y.store.retained ==> FindBatch(y.store, b) == Some(y.table.batches[b])
  {
    AgreesParts(y.store, y.table);
    assert BatchesAgree(y.store, y.table);
    hide Inv, HasFresh, HasWaiting, Agrees, WellFormed;
  }

  lemma SameBatches(y: Sys, step: Step)
    requires Enabled(y, step) && !step.CommitMatch?
    ensures Apply(y, step).table.batches == y.table.batches
    ensures forall id :: id in Apply(y, step).table.status ==> id in y.table.status || (step.CommitRetry? && id == IdOf(y.holds[step.destination].retry))
  {
    hide LaneOutcome.Plan, LaneOutcome.LaneOf, LaneStatus, FreshRetries, FreshLetters, Live, Letters, LaneAccepted, LaneCommit, SuccessAccepted, RetrySuccess,
      DeliverySpec.RescheduleRetry, RetryDead, CanStart, CanLockLane, CanEnd, CanLockRetry;
  }

  lemma StayedLive(y: Sys, step: Step, b: nat)
    requires Inv(y) && Enabled(y, step) && !step.CommitMatch?
    requires b in Apply(y, step).table.batches && (HasFresh(Apply(y, step).table, b) || HasWaiting(Apply(y, step).table, b))
    ensures FindBatch(y.store, b) == Some(y.table.batches[b])
  {
    hide *;
    var t, t' := y.table, Apply(y, step).table;
    var i := RowLeft(t', b);
    SameBatches(y, step);
    if step.CommitRetry? { RetryRowExists(y, step); }
    if t.status[RowId(b, i)].Done? {
      StepKeepsDone(y, step, RowId(b, i));
    }
    TablesAgree(y);
    LeftIsLive(t, b, i);
  }

  lemma RowLeft(t: Table, b: nat) returns (i: nat)
    requires HasFresh(t, b) || HasWaiting(t, b)
    ensures RowId(b, i) in t.status && !t.status[RowId(b, i)].Done?
  {
    i :| RowId(b, i) in t.status && !t.status[RowId(b, i)].Done?;
  }

  lemma LeftIsLive(t: Table, b: nat, i: nat)
    requires RowId(b, i) in t.status && !t.status[RowId(b, i)].Done?
    ensures HasFresh(t, b) || HasWaiting(t, b)
  {
  }

  lemma RetryRowExists(y: Sys, step: Step)
    requires Inv(y) && Enabled(y, step) && step.CommitRetry?
    ensures IdOf(y.holds[step.destination].retry) in y.table.status
  {
    HeldRetryIsReady(y, step.destination);
    hide Inv, WellFormed, Agrees;
  }

  // ---- every action keeps everything ----

  lemma ReceiveKeeps(p: Pipeline, provider: Channel, events: seq<Event>)
    requires PipelineOk(p) && IngestAccepted(provider, events)
    ensures PipelineOk(p.(catalog := Ingest(p.catalog, events)))
  {
    hide CatalogOk, Inv, IngestAccepted, KeepsLinks, Linked, Ingest;
    IngestKeeps(p.catalog, provider, events);
    IngestOnlyInbox(p.catalog, events);
    SameEvents(p.catalog, Ingest(p.catalog, events));
    LinkedStays(p.catalog, Ingest(p.catalog, events), p.delivery.store);
  }

  lemma ItemKeeps(p: Pipeline, w: World, policy: Policy, item: nat, r: Resolution, now: int)
    requires PipelineOk(p) && item in p.catalog.inbox && Resolves(p.catalog, w, p.catalog.inbox[item], r)
    ensures PipelineOk(p.(catalog := Process(p.catalog, w, policy, item, r, now, LedgerOf(p))))
  {
    hide CatalogOk, Inv, Resolves, KeepsLinks, Linked, Process, LedgerOf;
    ProcessKeeps(p.catalog, w, policy, item, r, now, LedgerOf(p));
    ProcessKeepsLinks(p.catalog, w, policy, item, r, now, LedgerOf(p));
    LinkedStays(p.catalog, Process(p.catalog, w, policy, item, r, now, LedgerOf(p)), p.delivery.store);
  }

  lemma DeliverKeeps(p: Pipeline, step: Step)
    requires PipelineOk(p) && Enabled(p.delivery, step) && !step.CommitMatch?
    ensures PipelineOk(p.(delivery := Apply(p.delivery, step)))
  {
    hide CatalogOk, Inv, Enabled, Apply, BatchLinked;
    StepKeepsInv(p.delivery, step);
    DeliveryShrinks(p.delivery, step);
  }

  lemma ReferencesCover(p: Pipeline)
    ensures RefersToJobs(p.catalog, ReferencesOf(p))
    ensures forall b :: b in p.delivery.store.pending ==> p.delivery.store.pending[b].incident in ReferencesOf(p).incidents && p.delivery.store.pending[b].revision in ReferencesOf(p).revisions
    ensures forall b :: b in p.delivery.store.retained ==> p.delivery.store.retained[b].incident in ReferencesOf(p).incidents && p.delivery.store.retained[b].revision in ReferencesOf(p).revisions
  {
  }

  lemma RetainKeeps(p: Pipeline, w: World, incidentCutoff: int, ledgerCutoff: int, eventCutoff: int)
    requires PipelineOk(p)
    ensures PipelineOk(RetainAction(p, w, incidentCutoff, ledgerCutoff, eventCutoff))
  {
    hide CatalogOk, Inv, Linked, ReferencesOf, LedgerOf, OldDeliveries, ForgetStep, Prune, RefersToJobs;
    ReferencesCover(p);
    PruneKeeps(p.catalog, w, ReferencesOf(p), incidentCutoff, eventCutoff, LedgerOf(p));
    PruneKeepsLinked(p.catalog, w, p.delivery.store, ReferencesOf(p), incidentCutoff, eventCutoff, LedgerOf(p));
    var gone := OldDeliveries(p.delivery.store.ledger, ledgerCutoff);
    ForgetKeeps(p.delivery, gone);
    SameBatchesSameLinks(Prune(p.catalog, w, ReferencesOf(p), incidentCutoff, eventCutoff, LedgerOf(p)), p.delivery, gone);
  }

  lemma SameBatchesSameLinks(c: Catalog, y: Sys, gone: set<LedgerKey>)
    requires Linked(c, y.store)
    ensures Linked(c, ForgetStep(y, gone).store)
  {
    hide BatchLinked;
  }

  /** Match output is always accepted: its job, event, incident and count are there and its ids are new. */
  lemma MatchAlwaysAccepted(p: Pipeline, job: nat, batches: seq<Batch>)
    requires PipelineOk(p) && job in p.catalog.jobs && BatchesFit(p.catalog, p.catalog.jobs[job], batches) && CanCommitMatch(p.delivery, batches)
    ensures p.catalog.jobs[job].incident in p.catalog.incidents
    ensures MatchAccepted(p.catalog, job, batches, LedgerHas(p.delivery.store.ledger, p.catalog.jobs[job].incident))
    ensures BatchesAccepted(p.delivery.store, batches)
  {
    hide CatalogOk, Linked, BatchesFit, BatchesAccepted, Inv, CanCommitMatch, MatchAccepted, LedgerHas;
    MatchIsAccepted(p.catalog, job, batches, LedgerHas(p.delivery.store.ledger, p.catalog.jobs[job].incident));
    CommitMatchKeeps(p.delivery, batches);
  }

  lemma {:induction false} AddedBatches(s: Store, batches: seq<Batch>)
    ensures var s' := AddBatches(s, batches);
      && s'.retained == s.retained
      && forall b :: b in s'.pending ==> (b in s.pending && s'.pending[b] == s.pending[b]) || s'.pending[b] in batches
  {
    if batches != [] {
      AddedBatches(s, batches[..|batches| - 1]);
    }
  }

  lemma MatchKeepsAll(p: Pipeline, job: nat, batches: seq<Batch>)
    requires PipelineOk(p) && job in p.catalog.jobs && BatchesFit(p.catalog, p.catalog.jobs[job], batches) && CanCommitMatch(p.delivery, batches)
    ensures PipelineOk(MatchAction(p, job, batches))
  {
    var c, ledger := p.catalog, LedgerHas(p.delivery.store.ledger, p.catalog.jobs[job].incident);
    hide IncidentsOk, AliasesOk, CorrelationOk, CountsOk, InboxOk, Inv, Linked, BatchesFit, MatchAccepted, BatchesAccepted, CommitMatchJob, AddBatches, BatchLinked, LedgerHas, CanCommitMatch, KeepsLinks;
    MatchAlwaysAccepted(p, job, batches);
    MatchKeeps(c, job, batches, ledger);
    CommitMatchKeeps(p.delivery, batches);
    MatchKeepsLinks(c, job, batches, ledger);
    LinkedStays(c, CommitMatchJob(c, job, batches, ledger), p.delivery.store);
    AddedBatches(p.delivery.store, batches);
    JoinLinks(CommitMatchJob(c, job, batches, ledger), p.delivery.store, AddBatches(p.delivery.store, batches), batches);
  }

  lemma JoinLinks(c: Catalog, s: Store, s': Store, batches: seq<Batch>)
    requires Linked(c, s) && forall b :: b in batches ==> BatchLinked(c, b)
    requires s'.retained == s.retained
    requires forall b :: b in s'.pending ==> (b in s.pending && s'.pending[b] == s.pending[b]) || s'.pending[b] in batches
    ensures Linked(c, s')
  {
    hide BatchLinked;
  }

  lemma ActionKeeps(p: Pipeline, w: World, policy: Policy, a: Action)
    requires PipelineOk(p) && CanAct(p, w, a)
    ensures PipelineOk(Act(p, w, policy, a))
  {
    hide PipelineOk, Inv, Enabled, Apply, Process, Resolves, MatchAction, RetainAction, LedgerOf, BatchesFit, CanCommitMatch, IngestAccepted;
    match a {
      case Receive(provider, events) => ReceiveKeeps(p, provider, events);
      case ProcessItem(item, resolution, now) => ItemKeeps(p, w, policy, item, resolution, now);
      case Match(job, batches) => MatchKeepsAll(p, job, batches);
      case Deliver(step) => DeliverKeeps(p, step);
      case Retain(incidents, ledger, events) => RetainKeeps(p, w, incidents, ledger, events);
    }
  }

  // ---- runs ----

  ghost predicate PipelineRun(ps: seq<Pipeline>, w: World, policy: Policy, actions: seq<Action>) {
    && |ps| == |actions| + 1 && ps[0] == EmptyPipeline
    && forall i :: 0 <= i < |actions| ==> CanAct(ps[i], w, actions[i]) && ps[i + 1] == Act(ps[i], w, policy, actions[i])
  }

  lemma {:induction false} RunKeepsPipeline(ps: seq<Pipeline>, w: World, policy: Policy, actions: seq<Action>, n: nat)
    requires PipelineRun(ps, w, policy, actions) && n < |ps|
    ensures PipelineOk(ps[n])
  {
    hide PipelineOk, CanAct, Act;
    if n == 0 {
      EmptyPipelineOk();
    } else {
      RunKeepsPipeline(ps, w, policy, actions, n - 1);
      ActionKeeps(ps[n - 1], w, policy, actions[n - 1]);
    }
  }

  /** In every state of every run: aliases and correlation entries match their reverse entries and point
      at stored incidents; every job and every live batch has its event and its incident. */
  lemma ReferencesResolve(ps: seq<Pipeline>, w: World, policy: Policy, actions: seq<Action>, n: nat)
    requires PipelineRun(ps, w, policy, actions) && n < |ps|
    ensures var c, s := ps[n].catalog, ps[n].delivery.store;
      && (forall k :: k in c.index.aliases ==> c.index.aliases[k] in c.incidents && AliasKey(c.index.aliases[k], k) in c.index.aliasesOf)
      && (forall a :: a in c.index.aliasesOf ==> a.alias in c.index.aliases && c.index.aliases[a.alias] == a.incident)
      && (forall k :: k in c.index.correlation ==> c.index.correlation[k] in c.incidents)
      && (forall r :: r in c.index.correlationOf ==> c.index.correlationOf[r] in c.index.correlation && c.index.correlation[c.index.correlationOf[r]] == r.incident)
      && (forall j :: j in c.jobs ==> c.jobs[j].incident in c.incidents && c.jobs[j].revision in c.events)
      && (forall b :: b in s.pending ==> s.pending[b].incident in c.incidents && s.pending[b].revision in c.events)
      && (forall b :: b in s.retained ==> s.retained[b].incident in c.incidents && s.retained[b].revision in c.events)
  {
    RunKeepsPipeline(ps, w, policy, actions, n);
    var c, s := ps[n].catalog, ps[n].delivery.store;
    hide PipelineRun, Inv, Streams, IncidentsOk, CountsOk, InboxOk;
    CatalogResolves(c);
    LinksResolve(c, s);
    hide *;
  }

  lemma CatalogResolves(c: Catalog)
    requires AliasesOk(c.incidents, c.index.aliases, c.index.aliasesOf) && CorrelationOk(c.incidents.Keys, c.index.correlation, c.index.correlationOf)
    requires JobsOk(c.incidents.Keys, c.jobs, c.events, c.lastJob, c.lastRevision)
    ensures forall k :: k in c.index.aliases ==> c.index.aliases[k] in c.incidents && AliasKey(c.index.aliases[k], k) in c.index.aliasesOf
    ensures forall a :: a in c.index.aliasesOf ==> a.alias in c.index.aliases && c.index.aliases[a.alias] == a.incident
    ensures forall k :: k in c.index.correlation ==> c.index.correlation[k] in c.incidents
    ensures forall r :: r in c.index.correlationOf ==> c.index.correlationOf[r] in c.index.correlation && c.index.correlation[c.index.correlationOf[r]] == r.incident
    ensures forall j :: j in c.jobs ==> c.jobs[j].incident in c.incidents && c.jobs[j].revision in c.events
  {
  }

  lemma LinksResolve(c: Catalog, s: Store)
    requires Linked(c, s)
    ensures forall b :: b in s.pending ==> s.pending[b].incident in c.incidents && s.pending[b].revision in c.events
    ensures forall b :: b in s.retained ==> s.retained[b].incident in c.incidents && s.retained[b].revision in c.events
  {
    assert forall b :: b in s.pending ==> BatchLinked(c, s.pending[b]);
    assert forall b :: b in s.retained ==> BatchLinked(c, s.retained[b]);
  }

  /** In every state of every run each incident counts exactly its stored match jobs. */
  lemma JobCountsAreExact(ps: seq<Pipeline>, w: World, policy: Policy, actions: seq<Action>, n: nat, id: IncidentId)
    requires PipelineRun(ps, w, policy, actions) && n < |ps| && id in ps[n].catalog.incidents
    ensures ps[n].catalog.incidents[id].pendingJobs == |JobsOf(ps[n].catalog.jobs, id)|
  {
    RunKeepsPipeline(ps, w, policy, actions, n);
    hide PipelineRun, Inv, Linked, JobsOf, IncidentsOk, AliasesOk, CorrelationOk, JobsOk, InboxOk;
  }

  /** In every state of every run an incident has at most six streams, no two of one source; its latest
      reports, watermarks and event keys name the same streams, so nothing is ever evicted. */
  lemma OneStreamPerSource(ps: seq<Pipeline>, w: World, policy: Policy, actions: seq<Action>, n: nat, id: IncidentId)
    requires PipelineRun(ps, w, policy, actions) && n < |ps| && id in ps[n].catalog.incidents
    ensures var r := ps[n].catalog.incidents[id];
      && |r.latestBySource| == |r.watermarks| == |r.sourceEventKeys| <= 6
      && (forall i, j :: 0 <= i < j < |r.latestBySource| ==> r.latestBySource[i].source != r.latestBySource[j].source)
      && (forall i :: 0 <= i < |r.latestBySource| ==>
            Matches(r.watermarks[i], r.latestBySource[i]) && r.sourceEventKeys[i] == EventKeys.KeyOfEvent(r.latestBySource[i]))
  {
    RunKeepsPipeline(ps, w, policy, actions, n);
    var c := ps[n].catalog;
    hide PipelineRun, Inv, Linked, JobsOf, AliasesOk, CorrelationOk, JobsOk, InboxOk, CountsOk, Streams;
    assert Streams(c.incidents[id]);
    hide IncidentsOk;
    AtMostSixStreams(c.incidents[id]);
    var r := c.incidents[id];
    StreamsNamed(r);
  }

  lemma StreamsNamed(r: Incident)
    requires Streams(r)
    ensures forall i :: 0 <= i < |r.latestBySource| ==>
      Matches(r.watermarks[i], r.latestBySource[i]) && r.sourceEventKeys[i] == EventKeys.KeyOfEvent(r.latestBySource[i])
  {
    forall i | 0 <= i < |r.latestBySource|
      ensures Matches(r.watermarks[i], r.latestBySource[i]) && r.sourceEventKeys[i] == EventKeys.KeyOfEvent(r.latestBySource[i])
    {
      assert StreamAt(r, i);
    }
  }
}
