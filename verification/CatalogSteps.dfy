/** The catalog's indexes, jobs and counts stay exact under every committed step. */
module CatalogSteps {
  import opened Records
  import opened Incidents
  import opened IncidentTheorems
  import opened EventKeys
  import opened IncidentRecords
  import opened Catalog
  import opened CatalogInvariant

  // ---- the invariant, one keyspace group at a time ----

  ghost predicate IncidentsOk(incidents: map<IncidentId, Incident>) {
    forall id :: id in incidents ==>
      incidents[id].id == id && Streams(incidents[id]) && id.origin in incidents[id].sourceEventKeys
  }

  /** Aliases are exactly the event keys of the stored incidents. */
  ghost predicate AliasesOwned(incidents: map<IncidentId, Incident>, aliases: map<KeyText, IncidentId>) {
    && (forall id, k :: id in incidents && k in incidents[id].sourceEventKeys ==> k in aliases && aliases[k] == id)
    && (forall k :: k in aliases ==> aliases[k] in incidents && k in incidents[aliases[k]].sourceEventKeys)
  }

  ghost predicate AliasesMirrored(aliases: map<KeyText, IncidentId>, aliasesOf: map<AliasKey, KeyText>) {
    && (forall k :: k in aliases ==> AliasKey(aliases[k], k) in aliasesOf)
    && (forall a :: a in aliasesOf ==> aliasesOf[a] == a.alias && a.alias in aliases && aliases[a.alias] == a.incident)
  }

  ghost predicate AliasesOk(incidents: map<IncidentId, Incident>, aliases: map<KeyText, IncidentId>, aliasesOf: map<AliasKey, KeyText>) {
    AliasesOwned(incidents, aliases) && AliasesMirrored(aliases, aliasesOf)
  }

  /** Correlation entries match their reverse entries and point at stored incidents. */
  ghost predicate CorrelationOk(ids: set<IncidentId>, correlation: map<CorrelationKey, IncidentId>, correlationOf: map<ReverseKey, CorrelationKey>) {
    && (forall k :: k in correlation ==> correlation[k] == k.incident && k.incident in ids)
    && (forall k :: k in correlation ==> ReverseKey(k.incident, k.stream) in correlationOf && correlationOf[ReverseKey(k.incident, k.stream)] == k)
    && (forall r :: r in correlationOf ==> correlationOf[r] in correlation && correlationOf[r].incident == r.incident && correlationOf[r].stream == r.stream)
  }

  function JobsOf(jobs: map<nat, Job>, id: IncidentId): set<nat> {
    set j | j in jobs && jobs[j].incident == id
  }

  /** Every job has its own event and its incident. */
  ghost predicate JobsOk(ids: set<IncidentId>, jobs: map<nat, Job>, events: map<nat, Event>, lastJob: nat, lastRevision: nat) {
    && (forall j :: j in jobs ==> jobs[j].id == j && j <= lastJob && jobs[j].incident in ids && jobs[j].revision in events)
    && (forall i, j :: i in jobs && j in jobs && jobs[i].revision == jobs[j].revision ==> i == j)
    && (forall k :: k in events ==> k <= lastRevision)
  }

  /** Every incident counts its stored jobs. */
  ghost predicate CountsOk(incidents: map<IncidentId, Incident>, jobs: map<nat, Job>) {
    forall id :: id in incidents ==> incidents[id].pendingJobs == |JobsOf(jobs, id)|
  }

  ghost predicate InboxOk(c: Catalog) {
    forall i :: i in c.inbox ==> Registered(c.inbox[i]) && i <= c.lastInbox
  }

  ghost predicate CatalogOk(c: Catalog) {
    && IncidentsOk(c.incidents)
    && AliasesOk(c.incidents, c.index.aliases, c.index.aliasesOf)
    && CorrelationOk(c.incidents.Keys, c.index.correlation, c.index.correlationOf)
    && JobsOk(c.incidents.Keys, c.jobs, c.events, c.lastJob, c.lastRevision)
    && CountsOk(c.incidents, c.jobs)
    && InboxOk(c)
  }

  const EmptyCatalog := Catalog(map[], Indexes(map[], map[], map[], map[]), map[], map[], map[], map[], 0, 0, 0)

  lemma EmptyOk()
    ensures CatalogOk(EmptyCatalog)
  {
  }

  // ---- removing incidents ----

  /** The reverse indexes always find what they remove: the orphan and mismatch errors cannot happen. */
  lemma IndexesAlwaysMatch(c: Catalog, ids: set<IncidentId>)
    requires AliasesOk(c.incidents, c.index.aliases, c.index.aliasesOf)
    requires CorrelationOk(c.incidents.Keys, c.index.correlation, c.index.correlationOf)
    ensures IndexesMatch(c.index, ids)
  {
  }

  lemma AliasesWithout(incidents: map<IncidentId, Incident>, aliases: map<KeyText, IncidentId>, aliasesOf: map<AliasKey, KeyText>,
                       ids: set<IncidentId>, gone: set<KeyText>, entries: set<AliasKey>)
    requires AliasesOk(incidents, aliases, aliasesOf)
    requires forall a :: a in entries <==> a in aliasesOf && a.incident in ids
    requires forall k :: k in gone <==> k in aliases && aliases[k] in ids
    ensures AliasesOk(incidents - ids, aliases - gone, aliasesOf - entries)
  {
  }

  lemma GoneAliases(x: Indexes, ids: set<IncidentId>)
    requires AliasesMirrored(x.aliases, x.aliasesOf)
    ensures forall k :: k in (set a | a in AliasEntries(x, ids) :: x.aliasesOf[a]) <==> k in x.aliases && x.aliases[k] in ids
  {
    var gone := set a | a in AliasEntries(x, ids) :: x.aliasesOf[a];
    forall k | k in x.aliases && x.aliases[k] in ids
      ensures k in gone
    {
      assert AliasKey(x.aliases[k], k) in AliasEntries(x, ids);
    }
  }

  lemma RemovedAliases(incidents: map<IncidentId, Incident>, x: Indexes, ids: set<IncidentId>)
    requires AliasesOk(incidents, x.aliases, x.aliasesOf)
    ensures AliasesOk(incidents - ids, RemoveIndexes(x, ids).aliases, RemoveIndexes(x, ids).aliasesOf)
  {
    GoneAliases(x, ids);
    assert forall a :: a in AliasEntries(x, ids) <==> a in x.aliasesOf && a.incident in ids;
    hide AliasEntries, CorrelationEntries, AliasesOk, AliasesOwned, AliasesMirrored;
    AliasesWithout(incidents, x.aliases, x.aliasesOf, ids, set a | a in AliasEntries(x, ids) :: x.aliasesOf[a], AliasEntries(x, ids));
  }

  lemma CorrelationWithout(known: set<IncidentId>, correlation: map<CorrelationKey, IncidentId>, correlationOf: map<ReverseKey, CorrelationKey>,
                           ids: set<IncidentId>, gone: set<CorrelationKey>, entries: set<ReverseKey>)
    requires CorrelationOk(known, correlation, correlationOf)
    requires forall r :: r in entries <==> r in correlationOf && r.incident in ids
    requires forall k :: k in gone <==> k in correlation && k.incident in ids
    ensures CorrelationOk(known - ids, correlation - gone, correlationOf - entries)
  {
  }

  lemma GoneCorrelation(known: set<IncidentId>, x: Indexes, ids: set<IncidentId>)
    requires CorrelationOk(known, x.correlation, x.correlationOf)
    ensures forall k :: k in (set r | r in CorrelationEntries(x, ids) :: x.correlationOf[r]) <==> k in x.correlation && k.incident in ids
  {
    var gone := set r | r in CorrelationEntries(x, ids) :: x.correlationOf[r];
    forall k | k in x.correlation && k.incident in ids
      ensures k in gone
    {
      assert ReverseKey(k.incident, k.stream) in CorrelationEntries(x, ids);
    }
  }

  lemma RemovedCorrelation(known: set<IncidentId>, x: Indexes, ids: set<IncidentId>)
    requires CorrelationOk(known, x.correlation, x.correlationOf)
    ensures CorrelationOk(known - ids, RemoveIndexes(x, ids).correlation, RemoveIndexes(x, ids).correlationOf)
  {
    GoneCorrelation(known, x, ids);
    assert forall r :: r in CorrelationEntries(x, ids) <==> r in x.correlationOf && r.incident in ids;
    hide AliasEntries, CorrelationEntries, CorrelationOk;
    CorrelationWithout(known, x.correlation, x.correlationOf, ids, set r | r in CorrelationEntries(x, ids) :: x.correlationOf[r], CorrelationEntries(x, ids));
  }

  // ---- storing an incident ----

  ghost predicate AliasesPut(aliases: map<KeyText, IncidentId>, aliases': map<KeyText, IncidentId>, id: IncidentId, keys: seq<KeyText>) {
    && (forall k :: k in aliases' <==> k in aliases || k in keys)
    && (forall k :: k in aliases' ==> aliases'[k] == if k in keys then id else aliases[k])
  }

  ghost predicate ReversePut(aliasesOf: map<AliasKey, KeyText>, aliasesOf': map<AliasKey, KeyText>, id: IncidentId, keys: seq<KeyText>) {
    && (forall a :: a in aliasesOf' <==> a in aliasesOf || (a.incident == id && a.alias in keys))
    && (forall a :: a in aliasesOf' ==> aliasesOf'[a] == if a.incident == id && a.alias in keys then a.alias else aliasesOf[a])
  }

  lemma {:induction false} PutAliasesFrame(x: Indexes, id: IncidentId, keys: seq<KeyText>)
    ensures var x' := PutAliases(x, id, keys);
      && x'.correlation == x.correlation && x'.correlationOf == x.correlationOf
      && AliasesPut(x.aliases, x'.aliases, id, keys)
      && ReversePut(x.aliasesOf, x'.aliasesOf, id, keys)
  {
    if keys != [] {
      var n := |keys| - 1;
      PutAliasesFrame(x, id, keys[..n]);
      assert keys == keys[..n] + [keys[n]];
      var rest := PutAliases(x, id, keys[..n]);
      PutOne(x.aliases, rest.aliases, x.aliasesOf, rest.aliasesOf, id, keys[..n], keys[n]);
      hide AliasesPut, ReversePut;
    }
  }

  lemma PutOne(aliases: map<KeyText, IncidentId>, aliases': map<KeyText, IncidentId>, aliasesOf: map<AliasKey, KeyText>,
               aliasesOf': map<AliasKey, KeyText>, id: IncidentId, keys: seq<KeyText>, key: KeyText)
    requires AliasesPut(aliases, aliases', id, keys) && ReversePut(aliasesOf, aliasesOf', id, keys)
    ensures AliasesPut(aliases, aliases'[key := id], id, keys + [key])
    ensures ReversePut(aliasesOf, aliasesOf'[AliasKey(id, key) := key], id, keys + [key])
  {
  }

  lemma OwnersWith(incidents: map<IncidentId, Incident>, aliases: map<KeyText, IncidentId>, aliases': map<KeyText, IncidentId>, r: Incident)
    requires AliasesOwned(incidents, aliases) && AliasesPut(aliases, aliases', r.id, r.sourceEventKeys)
    requires forall k :: k in r.sourceEventKeys && k in aliases ==> aliases[k] == r.id
    requires r.id in incidents ==> forall k :: k in incidents[r.id].sourceEventKeys ==> k in r.sourceEventKeys
    ensures AliasesOwned(incidents[r.id := r], aliases')
  {
  }

  lemma MirrorWith(aliases: map<KeyText, IncidentId>, aliasesOf: map<AliasKey, KeyText>, aliases': map<KeyText, IncidentId>,
                   aliasesOf': map<AliasKey, KeyText>, id: IncidentId, keys: seq<KeyText>)
    requires AliasesMirrored(aliases, aliasesOf) && AliasesPut(aliases, aliases', id, keys) && ReversePut(aliasesOf, aliasesOf', id, keys)
    requires forall k :: k in keys && k in aliases ==> aliases[k] == id
    ensures AliasesMirrored(aliases', aliasesOf')
  {
  }

  lemma StoredAliases(incidents: map<IncidentId, Incident>, x: Indexes, r: Incident)
    requires AliasesOk(incidents, x.aliases, x.aliasesOf)
    requires forall k :: k in r.sourceEventKeys && k in x.aliases ==> x.aliases[k] == r.id
    requires r.id in incidents ==> forall k :: k in incidents[r.id].sourceEventKeys ==> k in r.sourceEventKeys
    ensures AliasesOk(incidents[r.id := r], PutAliases(x, r.id, r.sourceEventKeys).aliases, PutAliases(x, r.id, r.sourceEventKeys).aliasesOf)
  {
    PutAliasesFrame(x, r.id, r.sourceEventKeys);
    var x' := PutAliases(x, r.id, r.sourceEventKeys);
    hide PutAliases, AliasesOwned, AliasesMirrored, AliasesPut, ReversePut;
    OwnersWith(incidents, x.aliases, x'.aliases, r);
    MirrorWith(x.aliases, x.aliasesOf, x'.aliases, x'.aliasesOf, r.id, r.sourceEventKeys);
  }

  lemma CorrelationWith(ids: set<IncidentId>, correlation: map<CorrelationKey, IncidentId>, correlationOf: map<ReverseKey, CorrelationKey>,
                        reverse: ReverseKey, key: CorrelationKey)
    requires CorrelationOk(ids, correlation, correlationOf)
    requires key.incident == reverse.incident && key.stream == reverse.stream && key.incident in ids
    ensures var cleared := if reverse in correlationOf then correlation - {correlationOf[reverse]} else correlation;
      CorrelationOk(ids, cleared[key := key.incident], correlationOf[reverse := key])
  {
  }

  lemma StoredCorrelation(ids: set<IncidentId>, x: Indexes, w: World, id: IncidentId, e: Event)
    requires CorrelationOk(ids, x.correlation, x.correlationOf) && id in ids
    ensures CorrelationOk(ids, PutCorrelation(x, w, id, e).correlation, PutCorrelation(x, w, id, e).correlationOf)
    ensures PutCorrelation(x, w, id, e).aliases == x.aliases && PutCorrelation(x, w, id, e).aliasesOf == x.aliasesOf
  {
    if e.category.Earthquake() && w.epoch(e).Some? {
      CorrelationWith(ids, x.correlation, x.correlationOf, ReverseKey(id, StreamKeyOf(e)),
                      CorrelationKey(NonNegative(w.epoch(e).value), id, StreamKeyOf(e)));
    }
    hide CorrelationOk;
  }

  // ---- jobs ----

  lemma JobAdded(jobs: map<nat, Job>, job: Job, id: IncidentId)
    requires job.id !in jobs
    ensures |JobsOf(jobs[job.id := job], id)| == |JobsOf(jobs, id)| + if job.incident == id then 1 else 0
  {
    var jobs' := jobs[job.id := job];
    if job.incident == id {
      assert JobsOf(jobs', id) == JobsOf(jobs, id) + {job.id};
    } else {
      assert JobsOf(jobs', id) == JobsOf(jobs, id);
    }
  }

  lemma JobRemoved(jobs: map<nat, Job>, j: nat, id: IncidentId)
    requires j in jobs
    ensures |JobsOf(jobs - {j}, id)| == |JobsOf(jobs, id)| - if jobs[j].incident == id then 1 else 0
  {
    if jobs[j].incident == id {
      assert JobsOf(jobs - {j}, id) == JobsOf(jobs, id) - {j};
    } else {
      assert JobsOf(jobs - {j}, id) == JobsOf(jobs, id);
    }
  }

  lemma JobsOfOthers(jobs: map<nat, Job>, j: nat, id: IncidentId)
    requires j in jobs && jobs[j].incident != id
    ensures JobsOf(jobs - {j}, id) == JobsOf(jobs, id)
  {
  }

  lemma NoJobs(jobs: map<nat, Job>, id: IncidentId)
    requires |JobsOf(jobs, id)| == 0
    ensures forall j :: j in jobs ==> jobs[j].incident != id
  {
    assert forall j :: j in jobs && jobs[j].incident == id ==> j in JobsOf(jobs, id);
  }

  // ---- committing an incident transition ----

  /** What the coordinator commits: the reduced record of a stored incident, or a first record. */
  ghost predicate Commitable(c: Catalog, r: Incident, job: Option<Job>) {
    && Streams(r) && r.id.origin in r.sourceEventKeys
    && (r.id in c.incidents ==> forall k :: k in c.incidents[r.id].sourceEventKeys ==> k in r.sourceEventKeys)
    && (r.id !in c.incidents ==> !r.hasMatched && r.pendingJobs == 0)
    && (forall k :: k in r.sourceEventKeys && k in c.index.aliases ==> c.index.aliases[k] == r.id)
    && (job.Some? ==> job.value.incident == r.id && job.value.id == c.lastJob && job.value.revision == c.lastRevision
                      && (forall j :: j in c.jobs ==> j < c.lastJob)
                      && (forall k :: k in c.events ==> k < c.lastRevision))
  }

  lemma IncidentsWith(incidents: map<IncidentId, Incident>, r: Incident)
    requires IncidentsOk(incidents) && Streams(r) && r.id.origin in r.sourceEventKeys
    ensures IncidentsOk(incidents[r.id := r])
  {
    hide Streams;
  }

  lemma StreamsIgnoreCounts(r: Incident, matched: bool, pending: nat)
    requires Streams(r)
    ensures Streams(r.(hasMatched := matched, pendingJobs := pending))
  {
    var r' := r.(hasMatched := matched, pendingJobs := pending);
    forall i | 0 <= i < |r'.latestBySource|
      ensures StreamAt(r', i)
    {
      assert StreamAt(r, i);
    }
  }

  lemma CountsWith(incidents: map<IncidentId, Incident>, jobs: map<nat, Job>, r: Incident, job: Option<Job>, events: map<nat, Event>, lastJob: nat, lastRevision: nat)
    requires CountsOk(incidents, jobs) && JobsOk(incidents.Keys, jobs, events, lastJob, lastRevision)
    requires r.pendingJobs == (if r.id in incidents then incidents[r.id].pendingJobs else 0) + if job.Some? then 1 else 0
    requires job.Some? ==> job.value.incident == r.id && job.value.id !in jobs
    ensures CountsOk(incidents[r.id := r], if job.Some? then jobs[job.value.id := job.value] else jobs)
  {
    var jobs' := if job.Some? then jobs[job.value.id := job.value] else jobs;
    if r.id !in incidents {
      assert JobsOf(jobs, r.id) == {};
    }
    forall id | id in incidents[r.id := r]
      ensures incidents[r.id := r][id].pendingJobs == |JobsOf(jobs', id)|
    {
      if job.Some? {
        JobAdded(jobs, job.value, id);
      }
    }
  }

  lemma JobsWith(ids: set<IncidentId>, c: Catalog, e: Event, job: Option<Job>, id: IncidentId)
    requires JobsOk(ids, c.jobs, c.events, c.lastJob, c.lastRevision)
    requires job.Some? ==> job.value.incident == id && job.value.id == c.lastJob && job.value.revision == c.lastRevision
    requires job.Some? ==> (forall j :: j in c.jobs ==> j < c.lastJob) && forall k :: k in c.events ==> k < c.lastRevision
    ensures JobsOk(ids + {id}, PutJob(c, e, job).jobs, PutJob(c, e, job).events, c.lastJob, c.lastRevision)
  {
  }
}
