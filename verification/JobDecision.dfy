/**
 When an event leads to a match job, in the catalog before and after its processing: the conditions of the
 coordinator in plain words, what a new job leaves, and which incidents are kept without one.
 */
module JobDecision {
  import opened Records
  import opened Incidents
  import opened EventKeys
  import opened IncidentRecords
  import opened Catalog
  import opened CatalogInvariant
  import opened CatalogSteps
  import opened CatalogTheorems
  import opened CatalogProcess

  /** The occurrence time is known and not too long ago; a limit of zero or less asks nothing. */
  predicate InTime(w: World, p: Policy, e: Event, now: int) {
    p.staleOriginSeconds > 0 ==>
      && w.epoch(e).Some?
      && now / 1_000 - w.epoch(e).value <= (if e.category.EarthquakeReport? && p.staleOriginSeconds < 3_600 then 3_600 else p.staleOriginSeconds)
  }

  /** The report is ahead of what its stream has reached by the configured gap, of one at least. */
  ghost predicate AheadByGap(r: Incident, e: Event, gap: nat) {
    && (forall x :: x in r.watermarks && x.category == e.category && x.source == e.source && x.eventId == e.eventId ==>
          e.reportNum >= x.reportNum + gap && e.reportNum > x.reportNum)
    && ((forall x :: x in r.watermarks ==> !(x.category == e.category && x.source == e.source && x.eventId == e.eventId)) ==>
          e.reportNum >= gap && e.reportNum >= 1)
  }

  /** The event is to be matched: it is not ignored, it is in time, and it is the first of its incident, a
      cancellation, or an update while updates are pushed that is final or ahead by the gap. */
  ghost predicate Calls(c: Catalog, w: World, p: Policy, id: IncidentId, e: Event, now: int) {
    && !(e.training && p.ignoreTraining) && !(e.cancel && p.ignoreCancel)
    && InTime(w, p, e, now)
    && (e.cancel || id !in c.incidents
        || (p.pushUpdates && (e.finalReport || AheadByGap(c.incidents[id], e, p.updateMinReportGap))))
  }

  /** The reducer applies the event to the incident it was resolved to. */
  predicate AppliedTo(c: Catalog, w: World, id: IncidentId, e: Event, now: int) {
    var t := ReduceSpec(if id in c.incidents then Some(c.incidents[id]) else None, e, KeyOfEvent(e), now, w.digest);
    t.Reduced? && t.outcome.Applied?
  }

  lemma OneStreamReached(r: Incident, e: Event, gap: nat)
    requires Streams(r)
    ensures var at := Find(r.watermarks, e);
      var previous := if at.Some? then r.watermarks[at.value].reportNum else 0;
      AheadByGap(r, e, gap) <==> e.reportNum - previous >= (if gap < 1 then 1 else gap)
  {
    var at := Find(r.watermarks, e);
    hide Find;
    if at.Some? {
      forall x | x in r.watermarks && Matches(x, e)
        ensures x == r.watermarks[at.value]
      {
        var i :| 0 <= i < |r.watermarks| && r.watermarks[i] == x;
        SameStreamOnce(r, i, at.value, e);
      }
      assert r.watermarks[at.value] in r.watermarks;
    } else {
      forall x | x in r.watermarks
        ensures !Matches(x, e)
      {
        var i :| 0 <= i < |r.watermarks| && r.watermarks[i] == x;
      }
    }
  }

  lemma SameStreamOnce(r: Incident, i: nat, j: nat, e: Event)
    requires Streams(r) && i < |r.watermarks| && j < |r.watermarks| && Matches(r.watermarks[i], e) && Matches(r.watermarks[j], e)
    ensures i == j
  {
    assert StreamAt(r, i) && StreamAt(r, j);
  }

  lemma CallsIsMatch(c: Catalog, w: World, p: Policy, id: IncidentId, e: Event, now: int)
    requires IncidentsOk(c.incidents) && !e.category.Retired()
    ensures ShouldMatch(w, p, if id in c.incidents then Some(c.incidents[id]) else None, e, now) <==> Calls(c, w, p, id, e, now)
  {
    hide Find, AheadByGap, Streams;
    if id in c.incidents {
      assert Streams(c.incidents[id]);
      OneStreamReached(c.incidents[id], e, p.updateMinReportGap);
    }
  }

  /** What a job leaves: the job for the incident and the event at its revision, both new, and one more
      pending job of the incident, which is stored. */
  ghost predicate JobMade(c: Catalog, d: Catalog, id: IncidentId, e: Event, now: int) {
    && d.jobs == c.jobs[c.lastJob + 1 := Job(c.lastJob + 1, id, c.lastRevision + 1, now)]
    && d.events == c.events[c.lastRevision + 1 := e]
    && c.lastJob + 1 !in c.jobs && c.lastRevision + 1 !in c.events
    && id in d.incidents
    && d.incidents[id].pendingJobs == (if id in c.incidents then c.incidents[id].pendingJobs else 0) + 1
  }

  /** An incident without a new job is kept while it was matched, has pending jobs or recorded deliveries,
      or is an earthquake report that was stored already or is neither training nor a cancellation. */
  ghost predicate KeptQuietly(c: Catalog, d: Catalog, id: IncidentId, e: Event, category: Category, delivered: bool) {
    && d.jobs == c.jobs && d.events == c.events
    && (id in d.incidents <==>
          || (id in c.incidents && (c.incidents[id].hasMatched || c.incidents[id].pendingJobs > 0))
          || delivered
          || (category.EarthquakeReport? && (id in c.incidents || (!e.training && !e.cancel))))
  }

  /** Processing an event that applies to its incident makes a job exactly when it calls for one. */
  lemma JobWhenCalled(c: Catalog, w: World, p: Policy, item: nat, r: Resolution, now: int, ledger: IncidentId -> bool)
    requires CatalogOk(c) && item in c.inbox && Resolves(c, w, c.inbox[item], r)
    requires r.Resolved? && !c.inbox[item].category.Retired() && AppliedTo(c, w, r.id, c.inbox[item], now)
    ensures var d, e := Process(c, w, p, item, r, now, ledger), c.inbox[item];
      if Calls(c, w, p, r.id, e, now) then JobMade(c, d, r.id, e, now)
      else KeptQuietly(c, d, r.id, e, if r.id in c.incidents then c.incidents[r.id].category else e.category, ledger(r.id))
  {
    hide CatalogOk, Resolves, Registered, KeyOfEvent, Target, Commitable, ShouldMatch, ReduceSpec, CommitAccepted, CommitIncident, Streams, Calls, JobMade, KeptQuietly;
    var e, d := c.inbox[item], Process(c, w, p, item, r, now, ledger);
    assert Registered(e) by { InboxIsRegistered(c, item); }
    ResolvedJoins(c, w, e, r);
    ReducedIsCommitable(c, w, e, r.id, now);
    IncidentsAreOk(c);
    CallsIsMatch(c, w, p, r.id, e, now);
    var current := if r.id in c.incidents then Some(c.incidents[r.id]) else None;
    var t := ReduceSpec(current, e, KeyOfEvent(e), now, w.digest);
    var next, l := t.incident, ledger(t.incident.id);
    NextKeeps(c, w, r.id, e, now);
    if !Calls(c, w, p, r.id, e, now) {
      CommitKeeps(c, w, next, e, None, l, item);
      QuietCommit(c, w, next, e, l, item);
    } else {
      var job := Job(c.lastJob + 1, r.id, c.lastRevision + 1, now);
      var c' := c.(lastJob := c.lastJob + 1, lastRevision := c.lastRevision + 1);
      CounterKeeps(c);
      JobsAreOk(c);
      WithJob(c, next, now);
      CommitKeeps(c', w, next, e, Some(job), l, item);
      JobCommit(c, w, next, e, job, l, item, now);
    }
  }

  lemma IncidentsAreOk(c: Catalog)
    requires CatalogOk(c)
    ensures IncidentsOk(c.incidents)
  {
    hide IncidentsOk, AliasesOk, CorrelationOk, JobsOk, CountsOk, InboxOk;
  }

  /** The reduced incident carries over what the stored one says about matching; a new one has none. */
  lemma NextKeeps(c: Catalog, w: World, id: IncidentId, e: Event, now: int)
    requires IncidentsOk(c.incidents) && AppliedTo(c, w, id, e, now)
    ensures var next := ReduceSpec(if id in c.incidents then Some(c.incidents[id]) else None, e, KeyOfEvent(e), now, w.digest).incident;
      if id in c.incidents then next.hasMatched == c.incidents[id].hasMatched && next.category == c.incidents[id].category
      else !next.hasMatched && next.pendingJobs == 0 && next.category == e.category
  {
    hide Streams, KeyOfEvent, DecideIncident, NewKeys;
  }

  lemma QuietCommit(c: Catalog, w: World, next: Incident, e: Event, ledger: bool, item: nat)
    requires if next.id in c.incidents then next.hasMatched == c.incidents[next.id].hasMatched && next.category == c.incidents[next.id].category
             else !next.hasMatched && next.pendingJobs == 0 && next.category == e.category
    ensures KeptQuietly(c, CommitIncident(c, w, next, e, None, ledger, item), next.id, e, next.category, ledger)
  {
    hide PutAliases, PutCorrelation, RemoveIndexes;
  }

  lemma JobCommit(c: Catalog, w: World, next: Incident, e: Event, job: Job, ledger: bool, item: nat, now: int)
    requires JobsOk(c.incidents.Keys, c.jobs, c.events, c.lastJob, c.lastRevision)
    requires job == Job(c.lastJob + 1, next.id, c.lastRevision + 1, now)
    requires next.id !in c.incidents ==> next.pendingJobs == 0
    ensures JobMade(c, CommitIncident(c.(lastJob := c.lastJob + 1, lastRevision := c.lastRevision + 1), w, next, e, Some(job), ledger, item), next.id, e, now)
  {
    hide PutAliases, PutCorrelation, RemoveIndexes, KeepUnmatched;
  }

  /** The event is resolved to an incident that cannot hold it. */
  predicate OverCapacity(c: Catalog, w: World, id: IncidentId, e: Event, now: int) {
    ReduceSpec(if id in c.incidents then Some(c.incidents[id]) else None, e, KeyOfEvent(e), now, w.digest).Failed?
  }

  /** An event that is of a retired category, is not applied or is over a capacity makes no job and changes
      no incident; one that is over a capacity is set aside, and nothing else is. */
  lemma NothingWithoutApplying(c: Catalog, w: World, p: Policy, item: nat, r: Resolution, now: int, ledger: IncidentId -> bool)
    requires item in c.inbox
    requires c.inbox[item].category.Retired() || !r.Resolved? || !AppliedTo(c, w, r.id, c.inbox[item], now)
    ensures var d, e := Process(c, w, p, item, r, now, ledger), c.inbox[item];
      && d.jobs == c.jobs && d.events == c.events && d.incidents == c.incidents && d.index == c.index
      && (if !e.category.Retired() && (r.TooManyCandidates? || (r.Resolved? && OverCapacity(c, w, r.id, e, now)))
          then d.rejected == c.rejected[item := e] else d.rejected == c.rejected)
      && (e.category.Retired() || !r.Broken? ==> d.inbox == c.inbox - {item})
  {
    hide ReduceSpec, KeyOfEvent, ShouldMatch;
  }

  // ---- after matching, and retention ----

  /** What a match commit leaves: with batches the event stays and the incident is marked as matched;
      without any the event goes, and the incident too unless something else keeps it. */
  lemma MatchLeaves(c: Catalog, id: nat, batches: seq<Batch>, ledger: bool)
    requires CatalogOk(c) && MatchAccepted(c, id, batches, ledger) && c.jobs[id].incident in c.incidents
    ensures var d, job, r := CommitMatchJob(c, id, batches, ledger), c.jobs[id], c.incidents[c.jobs[id].incident];
      && d.jobs == c.jobs - {id}
      && (batches != [] ==>
            && d.events == c.events && job.incident in d.incidents
            && d.incidents[job.incident] == r.(pendingJobs := r.pendingJobs - 1, hasMatched := true))
      && (batches == [] ==>
            && d.events == c.events - {job.revision}
            && (job.incident in d.incidents <==> r.hasMatched || r.pendingJobs > 1 || ledger || r.category.EarthquakeReport?)
            && (job.incident in d.incidents ==> d.incidents[job.incident] == r.(pendingJobs := r.pendingJobs - 1)))
  {
    hide CatalogOk, BatchesFit, RemoveIndexes, IndexesMatch;
    NamesItself(c, c.jobs[id].incident);
  }

  lemma NamesItself(c: Catalog, id: IncidentId)
    requires CatalogOk(c) && id in c.incidents
    ensures c.incidents[id].id == id
  {
    hide AliasesOk, CorrelationOk, JobsOk, CountsOk, InboxOk, Streams;
  }

  /** What retention removes: the events dated at or before its cutoff that no reference names, a date that
      cannot be read counting as 1970, and the incidents not updated since theirs that nothing refers to
      and nobody was told about. Everything else stays. */
  lemma RetentionRemoves(c: Catalog, w: World, refs: References, incidentCutoff: int, eventCutoff: int, ledger: IncidentId -> bool)
    ensures var d := Prune(c, w, refs, incidentCutoff, eventCutoff, ledger);
      && d.jobs == c.jobs && d.inbox == c.inbox
      && (forall k :: k in d.events ==> k in c.events && d.events[k] == c.events[k])
      && (forall k :: k in c.events && k !in d.events <==>
            k in c.events && k !in refs.revisions && (if w.epoch(c.events[k]).Some? then w.epoch(c.events[k]).value * 1_000 <= eventCutoff else 0 <= eventCutoff))
      && (forall i :: i in d.incidents ==> i in c.incidents && d.incidents[i] == c.incidents[i])
      && (forall i :: i in c.incidents && i !in d.incidents <==>
            i in c.incidents && i !in refs.incidents && c.incidents[i].updatedAt <= incidentCutoff && !ledger(i))
  {
    hide RemoveIndexes;
  }

  /** Two reports of different sources are taken for one earthquake when both are placed, at most 100 km
      apart, and their magnitudes, where both are known, differ by at most 1; the score adds the three
      distances, each as a part of its bound, so it lies between 0 and 3 for times within 120 s. */
  lemma ScoreMeans(w: World, current: Event, candidate: Event, seconds: nat)
    requires current.latitude.Some? && current.longitude.Some? && candidate.latitude.Some? && candidate.longitude.Some?
    ensures var apart := w.distance(current.latitude.value, current.longitude.value, candidate.latitude.value, candidate.longitude.value);
      var known := current.magnitude.Some? && candidate.magnitude.Some?;
      var delta := if !known then 0.0
                   else if current.magnitude.value < candidate.magnitude.value then candidate.magnitude.value - current.magnitude.value
                   else current.magnitude.value - candidate.magnitude.value;
      && (Score(w, current, candidate, seconds).Some? <==>
            current.category in {EarthquakeWarning, EarthquakeReport} && current.source != candidate.source && apart.Some? && apart.value <= 100.0 && delta <= 1.0)
      && (Score(w, current, candidate, seconds).Some? ==>
            Score(w, current, candidate, seconds).value == seconds as real / 120.0 + apart.value / 100.0 + delta)
  {
  }

  lemma UnplacedNeverScores(w: World, current: Event, candidate: Event, seconds: nat)
    ensures !(current.latitude.Some? && current.longitude.Some? && candidate.latitude.Some? && candidate.longitude.Some?) ==>
      Score(w, current, candidate, seconds).None?
  {
  }
}
