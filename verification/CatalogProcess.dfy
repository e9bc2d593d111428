/** Ingesting and processing events keeps the catalog whole. */
module CatalogProcess {
  import opened Records
  import opened Incidents
  import opened EventKeys
  import opened IncidentRecords
  import opened Catalog
  import opened CatalogInvariant
  import opened CatalogSteps
  import opened CatalogTheorems

  // ---- ingest ----

  lemma {:induction false} IngestKeeps(c: Catalog, provider: Channel, events: seq<Event>)
    requires CatalogOk(c) && IngestAccepted(provider, events)
    ensures CatalogOk(Ingest(c, events))
  {
    hide Registered, IncidentsOk, AliasesOk, CorrelationOk, JobsOk, CountsOk;
    if events != [] {
      var n := |events| - 1;
      assert events[n] in events && forall e :: e in events[..n] ==> e in events;
      IngestKeeps(c, provider, events[..n]);
    }
  }

  // ---- resolution ----

  /** The incident an event resolves to is one it may join, or a new one that no key belongs to; a
      resolution that refers to a missing record cannot happen. */
  lemma ResolvedJoins(c: Catalog, w: World, e: Event, r: Resolution)
    requires CatalogOk(c) && Resolves(c, w, e, r)
    ensures !r.Broken?
    ensures r.TooManyCandidates? ==> e.category.Earthquake() && w.epoch(e).Some? && |Window(c, w.epoch(e).value)| > MAX_CORRELATION_CANDIDATES
    ensures r.Resolved? ==> Target(c, e, r.id)
  {
    hide Streams, Registered, JobsOk, CountsOk, InboxOk;
    var key := KeyOfEvent(e);
    if key in c.index.aliases {
      KnownTarget(c, e);
    } else {
      NoBrokenCandidate(c, w, e);
      if r.Resolved? {
        hide Resolves, AliasesOk, CorrelationOk;
        var found := FoundOf(c, w, e, r);
        if found.Some? {
          CorrelatedTarget(c, w, e, found.value);
        } else {
          NewTarget(c, e);
        }
      }
    }
  }

  /** Where an event may go: an incident it joins and whose key, if known, is its own; or a new one. */
  ghost predicate Target(c: Catalog, e: Event, id: IncidentId) {
    && (KeyOfEvent(e) in c.index.aliases ==> c.index.aliases[KeyOfEvent(e)] == id)
    && (if id in c.incidents then Joins(c.incidents[id], e)
        else id == IncidentId(KeyOfEvent(e)) && KeyOfEvent(e) !in c.index.aliases)
  }

  lemma KnownTarget(c: Catalog, e: Event)
    requires AliasesOwned(c.incidents, c.index.aliases) && KeyOfEvent(e) in c.index.aliases
    ensures c.index.aliases[KeyOfEvent(e)] in c.incidents
    ensures Target(c, e, c.index.aliases[KeyOfEvent(e)])
  {
    hide KeyOfEvent;
  }

  lemma OriginsAreAliases(c: Catalog)
    requires AliasesOwned(c.incidents, c.index.aliases) && IncidentsOk(c.incidents)
    ensures forall id :: id in c.incidents ==> id.origin in c.index.aliases
  {
    hide Streams;
  }

  lemma NewTarget(c: Catalog, e: Event)
    requires AliasesOwned(c.incidents, c.index.aliases) && IncidentsOk(c.incidents) && KeyOfEvent(e) !in c.index.aliases
    ensures IncidentId(KeyOfEvent(e)) !in c.incidents
    ensures Target(c, e, IncidentId(KeyOfEvent(e)))
  {
    hide KeyOfEvent, Streams;
    var id := IncidentId(KeyOfEvent(e));
    OriginsAreAliases(c);
  }

  lemma NoBrokenCandidate(c: Catalog, w: World, e: Event)
    requires CorrelationOk(c.incidents.Keys, c.index.correlation, c.index.correlationOf)
    ensures forall k :: k in c.index.correlation ==> c.index.correlation[k] in c.incidents
  {
  }

  ghost function FoundOf(c: Catalog, w: World, e: Event, r: Resolution): (found: Option<IncidentId>)
    requires Resolves(c, w, e, r) && r.Resolved? && KeyOfEvent(e) !in c.index.aliases
    ensures Correlates(c, w, e, found) && r == Resolved(if found.Some? then found.value else IncidentId(KeyOfEvent(e)))
  {
    hide Correlates, Window;
    var found :| Correlates(c, w, e, found) && r == Resolved(if found.Some? then found.value else IncidentId(KeyOfEvent(e)));
    found
  }

  lemma CorrelatedTarget(c: Catalog, w: World, e: Event, id: IncidentId)
    requires Correlates(c, w, e, Some(id)) && KeyOfEvent(e) !in c.index.aliases
    ensures id in c.incidents && Target(c, e, id)
  {
    var k, score :| Offers(c, w, e, w.epoch(e).value, k, score) && c.index.correlation[k] == id;
    hide KeyOfEvent, Score, HasSource;
  }

  // ---- processing ----

  /** The transition the reducer makes for a resolved event is one the catalog can commit. */
  lemma ReducedIsCommitable(c: Catalog, w: World, e: Event, id: IncidentId, now: int)
    requires CatalogOk(c) && Registered(e) && Target(c, e, id)
    ensures var current := if id in c.incidents then Some(c.incidents[id]) else None;
      match ReduceSpec(current, e, KeyOfEvent(e), now, w.digest)
      case Failed(capacity) => capacity.CurrentReportUpdates? || capacity.StateVersions?
      case Reduced(next, outcome) => next.id == id && (outcome.Applied? ==> Commitable(c, next, None))
  {
    hide Registered, KeyOfEvent, CorrelationOk, JobsOk, CountsOk, InboxOk, Streams, Joins, NewKeys, AliasesMirrored;
    if id in c.incidents {
      var r := c.incidents[id];
      ReduceKeepsStreams(r, e, now, w.digest);
      var t := ReduceSpec(Some(r), e, KeyOfEvent(e), now, w.digest);
      hide ReduceSpec;
      if t.Reduced? && t.outcome.Applied? {
        JoinedIsCommitable(c, e, r, t.incident);
      }
    } else {
      NewIncidentStreams(id, e, now, w.digest);
      NewIncidentIsCommitable(c, e, now, w.digest);
    }
  }

  lemma JoinedIsCommitable(c: Catalog, e: Event, r: Incident, next: Incident)
    requires AliasesOwned(c.incidents, c.index.aliases) && IncidentsOk(c.incidents)
    requires r.id in c.incidents && c.incidents[r.id] == r && Target(c, e, r.id)
    requires Streams(next) && next.id == r.id && next.sourceEventKeys == WithKey(r.sourceEventKeys, KeyOfEvent(e))
    ensures Commitable(c, next, None)
  {
    hide Streams, Joins, KeyOfEvent;
  }

  lemma NewIncidentIsCommitable(c: Catalog, e: Event, now: int, digest: Digest)
    requires Registered(e) && Target(c, e, IncidentId(KeyOfEvent(e))) && IncidentId(KeyOfEvent(e)) !in c.incidents
    ensures Commitable(c, NewIncident(IncidentId(KeyOfEvent(e)), e, KeyOfEvent(e), now, digest), None)
  {
    NewIncidentStreams(IncidentId(KeyOfEvent(e)), e, now, digest);
    hide Streams, Joins, KeyOfEvent, Registered;
  }

  lemma WithJob(c: Catalog, next: Incident, now: int)
    requires JobsOk(c.incidents.Keys, c.jobs, c.events, c.lastJob, c.lastRevision) && Commitable(c, next, None)
    ensures Commitable(c.(lastJob := c.lastJob + 1, lastRevision := c.lastRevision + 1), next,
                       Some(Job(c.lastJob + 1, next.id, c.lastRevision + 1, now)))
  {
    hide Streams;
  }

  lemma CounterKeeps(c: Catalog)
    requires CatalogOk(c)
    ensures CatalogOk(c.(lastJob := c.lastJob + 1, lastRevision := c.lastRevision + 1))
  {
    hide IncidentsOk, AliasesOk, CorrelationOk, CountsOk, Registered;
  }

  lemma DropItemKeeps(c: Catalog, item: nat)
    requires CatalogOk(c) && item in c.inbox
    ensures CatalogOk(c.(inbox := c.inbox - {item}))
    ensures CatalogOk(Reject(c, item))
  {
    hide IncidentsOk, AliasesOk, CorrelationOk, JobsOk, CountsOk, Registered;
  }

  lemma CommitKeeps(c: Catalog, w: World, r: Incident, e: Event, job: Option<Job>, ledger: bool, item: nat)
    requires CatalogOk(c) && Commitable(c, r, job)
    ensures CommitAccepted(c, r, e, job, ledger)
    ensures CatalogOk(CommitIncident(c, w, r, e, job, ledger, item))
  {
    hide *;
    if Discards(c, r, e, job, ledger) {
      assert job.None? by { OnlyWithoutJob(c, r, e, job, ledger); }
      DiscardKeeps(c, w, r, e, ledger, item);
    } else {
      StoreKeeps(c, w, r, e, job, ledger, item);
    }
  }

  lemma OnlyWithoutJob(c: Catalog, r: Incident, e: Event, job: Option<Job>, ledger: bool)
    requires Discards(c, r, e, job, ledger)
    ensures job == None
  {
  }

  /** Processing the next inbox item keeps the catalog whole and always takes the item out of the inbox:
      no error other than a capacity error is reachable. */
  lemma ProcessKeeps(c: Catalog, w: World, p: Policy, item: nat, r: Resolution, now: int, ledger: IncidentId -> bool)
    requires CatalogOk(c) && item in c.inbox && Resolves(c, w, c.inbox[item], r)
    ensures CatalogOk(Process(c, w, p, item, r, now, ledger))
    ensures item !in Process(c, w, p, item, r, now, ledger).inbox
  {
    hide CatalogOk, Resolves, Registered, KeyOfEvent, Target, Commitable, ShouldMatch, ReduceSpec, CommitAccepted, CommitIncident, Streams;
    var e := c.inbox[item];
    assert Registered(e) by { InboxIsRegistered(c, item); }
    ResolvedJoins(c, w, e, r);
    DropItemKeeps(c, item);
    if !e.category.Retired() && r.Resolved? {
      var current := if r.id in c.incidents then Some(c.incidents[r.id]) else None;
      ReducedIsCommitable(c, w, e, r.id, now);
      var t := ReduceSpec(current, e, KeyOfEvent(e), now, w.digest);
      if t.Reduced? && t.outcome.Applied? {
        var next, l := t.incident, ledger(t.incident.id);
        if !ShouldMatch(w, p, current, e, now) {
          CommitKeeps(c, w, next, e, None, l, item);
          CommitTakesItem(c, w, next, e, None, l, item);
        } else {
          var job := Job(c.lastJob + 1, r.id, c.lastRevision + 1, now);
          var c' := c.(lastJob := c.lastJob + 1, lastRevision := c.lastRevision + 1);
          CounterKeeps(c);
          JobsAreOk(c);
          WithJob(c, next, now);
          CommitKeeps(c', w, next, e, Some(job), l, item);
          CommitTakesItem(c', w, next, e, Some(job), l, item);
        }
      }
    }
  }

  lemma JobsAreOk(c: Catalog)
    requires CatalogOk(c)
    ensures JobsOk(c.incidents.Keys, c.jobs, c.events, c.lastJob, c.lastRevision)
  {
    hide JobsOk, IncidentsOk, AliasesOk, CorrelationOk, CountsOk, InboxOk;
  }

  lemma InboxIsRegistered(c: Catalog, item: nat)
    requires CatalogOk(c) && item in c.inbox
    ensures Registered(c.inbox[item])
  {
    hide JobsOk, IncidentsOk, AliasesOk, CorrelationOk, CountsOk, Registered;
  }

  lemma CommitTakesItem(c: Catalog, w: World, r: Incident, e: Event, job: Option<Job>, ledger: bool, item: nat)
    ensures CommitIncident(c, w, r, e, job, ledger, item).inbox == c.inbox - {item}
  {
    hide Discards, Merged, PutAliases, PutCorrelation, RemoveIndexes;
  }
}
