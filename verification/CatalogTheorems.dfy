/** Every step of the catalog keeps it whole, so none of its integrity errors can be reached. */
module CatalogTheorems {
  import opened Records
  import opened Incidents
  import opened EventKeys
  import opened IncidentRecords
  import opened Catalog
  import opened CatalogInvariant
  import opened CatalogSteps

  // ---- committing an incident ----

  lemma StoreKeeps(c: Catalog, w: World, r: Incident, e: Event, job: Option<Job>, ledger: bool, item: nat)
    requires CatalogOk(c) && Commitable(c, r, job) && !Discards(c, r, e, job, ledger)
    ensures CommitAccepted(c, r, e, job, ledger)
    ensures CatalogOk(CommitIncident(c, w, r, e, job, ledger, item))
  {
    hide IncidentsOk, AliasesOk, CorrelationOk, JobsOk, CountsOk, InboxOk, Streams, Merged, PutAliases, PutCorrelation, PutJob, Discards, CommitAccepted;
    var m, c' := Merged(c, r, job.Some?), CommitIncident(c, w, r, e, job, ledger, item);
    MergedIs(c, r, job);
    NotDiscarded(c, r, e, job, ledger);
    StreamsIgnoreCounts(r, m.hasMatched, m.pendingJobs);
    StoreIndexes(c, w, r, m, e, job);
    JobsAre(c, e, job);
    IncidentsWith(c.incidents, m);
    JobsWith(c.incidents.Keys, c, e, job, r.id);
    CountsWith(c.incidents, c.jobs, m, job, c.events, c.lastJob, c.lastRevision);
    assert c.incidents[r.id := m].Keys == c.incidents.Keys + {r.id};
    InboxLess(c, c', item);
  }

  lemma StoreIndexes(c: Catalog, w: World, r: Incident, m: Incident, e: Event, job: Option<Job>)
    requires Commitable(c, r, job)
    requires AliasesOk(c.incidents, c.index.aliases, c.index.aliasesOf) && CorrelationOk(c.incidents.Keys, c.index.correlation, c.index.correlationOf)
    requires m.id == r.id && m.sourceEventKeys == r.sourceEventKeys
    ensures var x := PutCorrelation(PutAliases(c.index, r.id, r.sourceEventKeys), w, r.id, e);
      AliasesOk(c.incidents[r.id := m], x.aliases, x.aliasesOf) && CorrelationOk(c.incidents.Keys + {r.id}, x.correlation, x.correlationOf)
  {
    MoreIncidents(c, r.id);
    PutAliasesFrame(c.index, r.id, r.sourceEventKeys);
    hide AliasesOk, CorrelationOk, Streams, PutAliases, PutCorrelation, AliasesPut, ReversePut;
    StoredAliases(c.incidents, c.index, m);
    StoredCorrelation(c.incidents.Keys + {r.id}, PutAliases(c.index, r.id, r.sourceEventKeys), w, r.id, e);
  }

  lemma JobsAre(c: Catalog, e: Event, job: Option<Job>)
    ensures var d := PutJob(c, e, job);
      && d.jobs == (if job.Some? then c.jobs[job.value.id := job.value] else c.jobs)
      && d.lastInbox == c.lastInbox && d.lastJob == c.lastJob && d.lastRevision == c.lastRevision
  {
  }

  lemma InboxLess(c: Catalog, d: Catalog, item: nat)
    requires InboxOk(c) && d.inbox == c.inbox - {item} && d.lastInbox == c.lastInbox
    ensures InboxOk(d)
  {
    hide Registered;
  }

  lemma MergedIs(c: Catalog, r: Incident, job: Option<Job>)
    requires Commitable(c, r, job)
    ensures var m := Merged(c, r, job.Some?);
      && m == r.(hasMatched := m.hasMatched, pendingJobs := m.pendingJobs)
      && m.pendingJobs == (if r.id in c.incidents then c.incidents[r.id].pendingJobs else 0) + (if job.Some? then 1 else 0)
      && (r.id in c.incidents && c.incidents[r.id].hasMatched ==> m.hasMatched)
  {
    hide Streams;
  }

  lemma NotDiscarded(c: Catalog, r: Incident, e: Event, job: Option<Job>, ledger: bool)
    requires Commitable(c, r, job) && !Discards(c, r, e, job, ledger)
    ensures CommitAccepted(c, r, e, job, ledger)
  {
    hide Streams, Discards;
  }

  lemma MoreIncidents(c: Catalog, id: IncidentId)
    requires CorrelationOk(c.incidents.Keys, c.index.correlation, c.index.correlationOf)
    ensures CorrelationOk(c.incidents.Keys + {id}, c.index.correlation, c.index.correlationOf)
  {
  }

  /** What is left of jobs, events and inbox after a step that removes incidents. */
  ghost predicate Leaves(c: Catalog, d: Catalog, ids: set<IncidentId>) {
    && d.incidents == c.incidents - ids && d.index == RemoveIndexes(c.index, ids)
    && d.lastInbox == c.lastInbox && d.lastJob == c.lastJob && d.lastRevision == c.lastRevision
    && (forall j :: j in d.jobs ==> j in c.jobs && d.jobs[j] == c.jobs[j] && d.jobs[j].incident !in ids && d.jobs[j].revision in d.events)
    && (forall k :: k in d.events ==> k in c.events)
    && (forall id :: id in c.incidents && id !in ids ==> JobsOf(d.jobs, id) == JobsOf(c.jobs, id))
    && (forall i :: i in d.inbox ==> i in c.inbox && d.inbox[i] == c.inbox[i])
  }

  /** Removing incidents that no job needs, together with all their index entries. */
  lemma RemoveKeeps(c: Catalog, d: Catalog, ids: set<IncidentId>)
    requires CatalogOk(c) && Leaves(c, d, ids)
    ensures IndexesMatch(c.index, ids)
    ensures CatalogOk(d)
  {
    IndexesAlwaysMatch(c, ids);
    RemovedAliases(c.incidents, c.index, ids);
    RemovedCorrelation(c.incidents.Keys, c.index, ids);
    assert (c.incidents - ids).Keys == c.incidents.Keys - ids;
    CountsKept(c, d, ids);
    JobsLeft(c, d, ids);
    IncidentsLeft(c.incidents, ids);
    InboxLeft(c, d);
    hide AliasesOk, CorrelationOk, CountsOk, JobsOk, IncidentsOk, IndexesMatch, RemoveIndexes, InboxOk, Leaves;
    LeavesFields(c, d, ids);
  }

  lemma LeavesFields(c: Catalog, d: Catalog, ids: set<IncidentId>)
    requires Leaves(c, d, ids)
    ensures d.incidents == c.incidents - ids && d.index == RemoveIndexes(c.index, ids)
    ensures d.lastInbox == c.lastInbox && d.lastJob == c.lastJob && d.lastRevision == c.lastRevision
  {
  }

  lemma JobsLeft(c: Catalog, d: Catalog, ids: set<IncidentId>)
    requires JobsOk(c.incidents.Keys, c.jobs, c.events, c.lastJob, c.lastRevision) && Leaves(c, d, ids)
    ensures JobsOk(c.incidents.Keys - ids, d.jobs, d.events, c.lastJob, c.lastRevision)
  {
    hide RemoveIndexes, JobsOf;
  }

  lemma IncidentsLeft(incidents: map<IncidentId, Incident>, ids: set<IncidentId>)
    requires IncidentsOk(incidents)
    ensures IncidentsOk(incidents - ids)
  {
    hide Streams;
  }

  lemma InboxLeft(c: Catalog, d: Catalog)
    requires InboxOk(c) && d.lastInbox == c.lastInbox
    requires forall i :: i in d.inbox ==> i in c.inbox && d.inbox[i] == c.inbox[i]
    ensures InboxOk(d)
  {
    hide Registered;
  }

  lemma CountsKept(c: Catalog, d: Catalog, ids: set<IncidentId>)
    requires CountsOk(c.incidents, c.jobs)
    requires forall id :: id in c.incidents && id !in ids ==> JobsOf(d.jobs, id) == JobsOf(c.jobs, id)
    ensures CountsOk(c.incidents - ids, d.jobs)
  {
  }

  lemma DiscardKeeps(c: Catalog, w: World, r: Incident, e: Event, ledger: bool, item: nat)
    requires CatalogOk(c) && Discards(c, r, e, None, ledger)
    ensures CommitAccepted(c, r, e, None, ledger)
    ensures CatalogOk(CommitIncident(c, w, r, e, None, ledger, item))
  {
    hide IncidentsOk, AliasesOk, CorrelationOk, RemoveIndexes, JobsOf;
    var d := CommitIncident(c, w, r, e, None, ledger, item);
    IndexesAlwaysMatch(c, {r.id});
    if r.id in c.incidents {
      assert c.incidents[r.id].pendingJobs == 0;
      NoJobs(c.jobs, r.id);
      hide IncidentsOk, AliasesOk, CorrelationOk, InboxOk, Discards, RemoveIndexes, JobsOf, CountsOk;
      RemoveKeeps(c, d, {r.id});
    } else {
      hide IncidentsOk, AliasesOk, CorrelationOk, Discards, RemoveIndexes, JobsOf, CountsOk, JobsOk;
      InboxLess(c, d, item);
      hide InboxOk;
    }
  }

  // ---- committing match output ----

  lemma MatchIsAccepted(c: Catalog, id: nat, batches: seq<Batch>, ledger: bool)
    requires CatalogOk(c) && id in c.jobs && BatchesFit(c, c.jobs[id], batches)
    ensures MatchAccepted(c, id, batches, ledger)
    ensures c.jobs[id].incident in c.incidents && c.jobs[id].revision in c.events
  {
    var job := c.jobs[id];
    assert job.incident in c.incidents;
    var r := c.incidents[job.incident];
    assert id in JobsOf(c.jobs, job.incident);
    assert r.pendingJobs > 0;
    IndexesAlwaysMatch(c, {r.id});
    hide IndexesMatch, AliasesOk, CorrelationOk, BatchesFit, InboxOk, Streams;
  }

  lemma MatchKeeps(c: Catalog, id: nat, batches: seq<Batch>, ledger: bool)
    requires CatalogOk(c) && MatchAccepted(c, id, batches, ledger)
    ensures CatalogOk(CommitMatchJob(c, id, batches, ledger))
  {
    hide IncidentsOk, AliasesOk, CorrelationOk, InboxOk, IndexesMatch, BatchesFit, RemoveIndexes, JobsOf;
    var job, d := c.jobs[id], CommitMatchJob(c, id, batches, ledger);
    StoredIncident(c, job.incident);
    var r := c.incidents[job.incident];
    forall x | x in c.incidents
      ensures |JobsOf(d.jobs, x)| == |JobsOf(c.jobs, x)| - if x == r.id then 1 else 0
    {
      JobRemoved(c.jobs, id, x);
    }
    if batches == [] && !KeepAfterEmptyMatch(r.(pendingJobs := r.pendingJobs - 1), ledger) {
      MatchRemoves(c, d, id);
    } else {
      MatchStores(c, d, r.(pendingJobs := r.pendingJobs - 1, hasMatched := r.hasMatched || batches != []));
    }
  }

  lemma StoredIncident(c: Catalog, id: IncidentId)
    requires IncidentsOk(c.incidents) && id in c.incidents
    ensures c.incidents[id].id == id
  {
  }

  lemma MatchRemoves(c: Catalog, d: Catalog, j: nat)
    requires CatalogOk(c) && j in c.jobs && c.jobs[j].incident in c.incidents
    requires |JobsOf(d.jobs, c.jobs[j].incident)| == 0
    requires d == c.(jobs := c.jobs - {j}, events := c.events - {c.jobs[j].revision},
                     incidents := c.incidents - {c.jobs[j].incident}, index := RemoveIndexes(c.index, {c.jobs[j].incident}))
    ensures CatalogOk(d)
  {
    hide IncidentsOk, AliasesOk, CorrelationOk, CountsOk, InboxOk, RemoveIndexes, JobsOf;
    var id := c.jobs[j].incident;
    NoJobs(d.jobs, id);
    forall x | x in c.incidents && x != id
      ensures JobsOf(d.jobs, x) == JobsOf(c.jobs, x)
    {
      JobsOfOthers(c.jobs, j, x);
    }
    RemoveKeeps(c, d, {id});
  }

  lemma MatchStores(c: Catalog, d: Catalog, r: Incident)
    requires CatalogOk(c) && r.id in c.incidents
    requires r == c.incidents[r.id].(pendingJobs := r.pendingJobs, hasMatched := r.hasMatched)
    requires d == c.(jobs := d.jobs, events := d.events, incidents := c.incidents[r.id := r])
    requires forall j :: j in d.jobs ==> j in c.jobs && d.jobs[j] == c.jobs[j] && d.jobs[j].revision in d.events
    requires forall k :: k in d.events ==> k in c.events
    requires forall id :: id in c.incidents ==> (if id == r.id then r.pendingJobs else c.incidents[id].pendingJobs) == |JobsOf(d.jobs, id)|
    ensures CatalogOk(d)
  {
    hide Streams, AliasesOk, CorrelationOk, InboxOk, JobsOf, JobsOk, CountsOk;
    assert Streams(c.incidents[r.id]) && r.id.origin in r.sourceEventKeys;
    hide IncidentsOk;
    StreamsIgnoreCounts(c.incidents[r.id], r.hasMatched, r.pendingJobs);
    assert c.incidents[r.id := r].Keys == c.incidents.Keys;
    SameKeysSameAliases(c, r);
    IncidentsWith(c.incidents, r);
    InboxLeft(c, d);
    FewerJobs(c, d);
    CountsAre(c.incidents, r, d.jobs);
  }

  lemma FewerJobs(c: Catalog, d: Catalog)
    requires JobsOk(c.incidents.Keys, c.jobs, c.events, c.lastJob, c.lastRevision)
    requires forall j :: j in d.jobs ==> j in c.jobs && d.jobs[j] == c.jobs[j] && d.jobs[j].revision in d.events
    requires forall k :: k in d.events ==> k in c.events
    ensures JobsOk(c.incidents.Keys, d.jobs, d.events, c.lastJob, c.lastRevision)
  {
  }

  lemma CountsAre(incidents: map<IncidentId, Incident>, r: Incident, jobs: map<nat, Job>)
    requires r.id in incidents
    requires forall id :: id in incidents ==> (if id == r.id then r.pendingJobs else incidents[id].pendingJobs) == |JobsOf(jobs, id)|
    ensures CountsOk(incidents[r.id := r], jobs)
  {
  }

  lemma SameKeysSameAliases(c: Catalog, r: Incident)
    requires AliasesOk(c.incidents, c.index.aliases, c.index.aliasesOf) && r.id in c.incidents && r.sourceEventKeys == c.incidents[r.id].sourceEventKeys
    ensures AliasesOk(c.incidents[r.id := r], c.index.aliases, c.index.aliasesOf)
  {
    hide AliasesMirrored;
  }

  // ---- pruning ----

  /** References taken from every stored job, and from more. */
  ghost predicate RefersToJobs(c: Catalog, refs: References) {
    forall j :: j in c.jobs ==> c.jobs[j].incident in refs.incidents && c.jobs[j].revision in refs.revisions
  }

  lemma PruneKeeps(c: Catalog, w: World, refs: References, incidentCutoff: int, eventCutoff: int, ledger: IncidentId -> bool)
    requires CatalogOk(c) && RefersToJobs(c, refs)
    ensures IndexesMatch(c.index, PrunedIncidents(c, refs, incidentCutoff, ledger))
    ensures CatalogOk(Prune(c, w, refs, incidentCutoff, eventCutoff, ledger))
  {
    var ids := PrunedIncidents(c, refs, incidentCutoff, ledger);
    assert forall k :: k in PrunedEvents(c, w, refs, eventCutoff) ==> k !in refs.revisions;
    assert forall id :: id in ids ==> id !in refs.incidents;
    hide PrunedEvents, PrunedIncidents, IncidentsOk, AliasesOk, CorrelationOk, CountsOk, InboxOk, RemoveIndexes, JobsOf;
    RemoveKeeps(c, Prune(c, w, refs, incidentCutoff, eventCutoff, ledger), ids);
  }
}
