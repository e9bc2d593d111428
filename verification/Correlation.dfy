/**
 Which incident an event joins, and that a stored incident is found again: the alias of its key, the reports
 that are near enough to be the same earthquake, and the index entries that lead to them. In plain numbers.
 */
module Correlation {
  import opened Records
  import opened Incidents
  import opened EventKeys
  import opened IncidentRecords
  import opened Catalog
  import opened CatalogInvariant
  import opened CatalogSteps
  import opened CatalogTheorems
  import opened CatalogProcess
  import opened JobDecision

  // ---- ingest ----

  /** An ingested batch is queued behind what is there, in its order. */
  lemma {:induction false} IngestQueues(c: Catalog, events: seq<Event>)
    ensures var d := Ingest(c, events);
      && d == c.(inbox := d.inbox, lastInbox := c.lastInbox + |events|)
      && (forall k :: c.lastInbox < k <= c.lastInbox + |events| ==> k in d.inbox && d.inbox[k] == events[k - c.lastInbox - 1])
      && (forall k :: k in d.inbox && !(c.lastInbox < k <= c.lastInbox + |events|) ==> k in c.inbox && d.inbox[k] == c.inbox[k])
      && (forall k :: k in c.inbox && k <= c.lastInbox ==> k in d.inbox)
  {
    if events != [] {
      IngestQueues(c, events[..|events| - 1]);
    }
  }

  /** A batch is taken when it has at most 1024 events, all sent by the provider under sources it has. */
  lemma IngestTakes(provider: Channel, events: seq<Event>)
    ensures IngestAccepted(provider, events) <==>
      && |events| <= 1_024
      && forall e :: e in events ==>
           (e.channel == provider && exists s :: s in SOURCES && s.id == e.source && s.channel == provider && s.category == e.category)
  {
    forall e | e in events && e.channel == provider
      ensures Registered(e) <==> exists s :: s in SOURCES && s.id == e.source && s.channel == provider && s.category == e.category
    {
      RegisteredMeans(e);
    }
    hide Registered;
  }

  /** A cursor is taken under the provider key of a source that the provider has. */
  lemma CursorTaken(provider: Channel, cursor: Option<Cursor>)
    ensures CursorKnown(provider, cursor) <==>
      cursor.None? || exists s :: s in SOURCES && s.channel == provider && s.providerKey == cursor.value.stream
  {
    if CursorKnown(provider, cursor) && cursor.Some? {
      var k :| 0 <= k < |SOURCES| && SOURCES[k].channel == provider && SOURCES[k].providerKey == cursor.value.stream;
      assert SOURCES[k] in SOURCES;
    }
    if cursor.Some? {
      if s :| s in SOURCES && s.channel == provider && s.providerKey == cursor.value.stream {
        var k :| 0 <= k < |SOURCES| && SOURCES[k] == s;
        assert SOURCES[k].channel == provider;
      }
    }
  }

  lemma RegisteredMeans(e: Event)
    ensures Registered(e) <==> exists s :: s in SOURCES && s.id == e.source && s.channel == e.channel && s.category == e.category
  {
    if Registered(e) {
      var k :| 0 <= k < |SOURCES| && SOURCES[k].id == e.source && SOURCES[k].channel == e.channel && SOURCES[k].category == e.category;
      assert SOURCES[k] in SOURCES;
    }
    if s :| s in SOURCES && s.id == e.source && s.channel == e.channel && s.category == e.category {
      var k :| 0 <= k < |SOURCES| && SOURCES[k] == s;
      assert SOURCES[k].id == e.source;
    }
  }

  // ---- resolution ----

  /** How far apart two reports of the same earthquake may be in magnitude, where both tell one. */
  function MagnitudeApart(a: Event, b: Event): real {
    if a.magnitude.None? || b.magnitude.None? then 0.0
    else if a.magnitude.value < b.magnitude.value then b.magnitude.value - a.magnitude.value else a.magnitude.value - b.magnitude.value
  }

  predicate Placed(e: Event) { e.latitude.Some? && e.longitude.Some? }

  /** The report may be of the same earthquake as the event: both are placed, at most 100 km apart, from
      different sources, and their magnitudes differ by at most 1. */
  predicate Near(w: World, report: Event, e: Event) {
    && report.category in {EarthquakeWarning, EarthquakeReport} && report.source != e.source && Placed(report) && Placed(e)
    && w.distance(report.latitude.value, report.longitude.value, e.latitude.value, e.longitude.value).Some?
    && w.distance(report.latitude.value, report.longitude.value, e.latitude.value, e.longitude.value).value <= 100.0
    && MagnitudeApart(report, e) <= 1.0
  }

  /** The three distances, each as a part of its bound. */
  function Misfit(w: World, report: Event, e: Event, seconds: nat): real {
    if !Near(w, report, e) then 0.0
    else seconds as real / 120.0 + w.distance(report.latitude.value, report.longitude.value, e.latitude.value, e.longitude.value).value / 100.0 + MagnitudeApart(report, e)
  }

  predicate WithinTwoMinutes(k: CorrelationKey, occurred: int) {
    occurred - 120 <= k.epoch && (k.epoch <= occurred + 120 || k.epoch == 0)
  }

  function SecondsApart(a: int, b: int): nat {
    if a < b then b - a else a - b
  }

  /** An indexed report within two minutes leads to a stored incident without a report of the event's
      source, and one of the latest reports of that incident is near the event. */
  ghost predicate Leads(c: Catalog, w: World, e: Event, occurred: int, k: CorrelationKey, report: Event) {
    && k in c.index.correlation && WithinTwoMinutes(k, occurred)
    && c.index.correlation[k] in c.incidents
    && var r := c.incidents[c.index.correlation[k]];
    && (forall x :: x in r.latestBySource ==> x.source != e.source)
    && report in r.latestBySource && Near(w, report, e)
  }

  lemma ScoreIsMisfit(w: World, report: Event, e: Event, seconds: nat)
    ensures Score(w, report, e, seconds).Some? <==> Near(w, report, e)
    ensures Near(w, report, e) ==> Score(w, report, e, seconds) == Some(Misfit(w, report, e, seconds))
  {
    hide Score;
    if Placed(report) && Placed(e) {
      ScoreMeans(w, report, e, seconds);
    } else {
      UnplacedNeverScores(w, report, e, seconds);
    }
  }

  lemma OffersMeans(c: Catalog, w: World, e: Event, occurred: int, k: CorrelationKey, score: real)
    ensures Offers(c, w, e, occurred, k, score) <==>
      exists report :: Leads(c, w, e, occurred, k, report) && Misfit(w, report, e, SecondsApart(k.epoch, occurred)) == score
  {
    hide Score, Near, Misfit;
    if k in c.index.correlation && c.index.correlation[k] in c.incidents {
      forall report: Event
        ensures Score(w, report, e, Distance(k.epoch, occurred)) == Some(score) <==>
          Near(w, report, e) && Misfit(w, report, e, SecondsApart(k.epoch, occurred)) == score
      {
        ScoreIsMisfit(w, report, e, SecondsApart(k.epoch, occurred));
      }
    }
  }

  /** The incident is one of those with the least misfit, the first of equals in the order of the keys. */
  ghost predicate FitsBest(c: Catalog, w: World, e: Event, occurred: int, id: IncidentId) {
    exists k, report :: Leads(c, w, e, occurred, k, report) && c.index.correlation[k] == id
      && forall k', report' :: Leads(c, w, e, occurred, k', report') ==>
           var a, b := Misfit(w, report, e, SecondsApart(k.epoch, occurred)), Misfit(w, report', e, SecondsApart(k'.epoch, occurred));
           a < b || (a == b && w.rank(k) <= w.rank(k'))
  }

  lemma CorrelatesMeans(c: Catalog, w: World, e: Event, found: Option<IncidentId>)
    requires e.category.Earthquake() && w.epoch(e).Some? && Correlates(c, w, e, found)
    ensures var occurred := w.epoch(e).value;
      && (found.None? <==> forall k, report :: !Leads(c, w, e, occurred, k, report))
      && (found.Some? ==> FitsBest(c, w, e, occurred, found.value))
  {
    hide Score, Near, Misfit, Leads, Offers, Window;
    var occurred := w.epoch(e).value;
    forall k, score: real
      ensures Offers(c, w, e, occurred, k, score) <==>
        exists report :: Leads(c, w, e, occurred, k, report) && Misfit(w, report, e, SecondsApart(k.epoch, occurred)) == score
    {
      OffersMeans(c, w, e, occurred, k, score);
    }
    assert forall k, report :: Leads(c, w, e, occurred, k, report) ==>
      Offers(c, w, e, occurred, k, Misfit(w, report, e, SecondsApart(k.epoch, occurred)));
  }

  ghost predicate Holds(c: Catalog, id: IncidentId, key: KeyText) {
    id in c.incidents && key in c.incidents[id].sourceEventKeys
  }

  /** In a whole catalog an event joins the incident that holds its key; with a new key and a known time, an
      earthquake joins the incident that fits best, if the window is not too full and there is one; and
      otherwise the event starts an incident of its own. */
  lemma ResolutionMeans(c: Catalog, w: World, e: Event, r: Resolution)
    requires CatalogOk(c) && Resolves(c, w, e, r)
    ensures var key, timed := KeyOfEvent(e), e.category.Earthquake() && w.epoch(e).Some?;
      && (forall id :: Holds(c, id, key) ==> r == Resolved(id))
      && ((forall id :: !Holds(c, id, key)) ==>
            if !timed then r == Resolved(IncidentId(key))
            else
              var occurred := w.epoch(e).value;
              if |set k | k in c.index.correlation && WithinTwoMinutes(k, occurred)| > 1_024 then r == TooManyCandidates
              else if forall k, report :: !Leads(c, w, e, occurred, k, report) then r == Resolved(IncidentId(key))
              else r.Resolved? && FitsBest(c, w, e, occurred, r.id))
  {
    var key := KeyOfEvent(e);
    assert AliasesOwned(c.incidents, c.index.aliases) && CorrelationOk(c.incidents.Keys, c.index.correlation, c.index.correlationOf);
    hide CatalogOk, KeyOfEvent, Correlates, FitsBest, Leads, CorrelationOk;
    NoBrokenCandidate(c, w, e);
    KeyIsHeld(c, key);
    if key !in c.index.aliases && e.category.Earthquake() && w.epoch(e).Some? {
      WindowMeans(c, w.epoch(e).value);
      hide Window;
      if r.Resolved? {
        var found := FoundOf(c, w, e, r);
        CorrelatesMeans(c, w, e, found);
      }
    } else if key !in c.index.aliases {
      UntimedIsNew(c, w, e);
    }
  }

  lemma UntimedIsNew(c: Catalog, w: World, e: Event)
    requires !(e.category.Earthquake() && w.epoch(e).Some?)
    ensures forall found :: Correlates(c, w, e, found) ==> found.None?
  {
  }

  lemma KeyIsHeld(c: Catalog, key: KeyText)
    requires AliasesOwned(c.incidents, c.index.aliases)
    ensures key in c.index.aliases ==> Holds(c, c.index.aliases[key], key) && c.index.aliases[key] in c.incidents
    ensures forall id :: Holds(c, id, key) ==> key in c.index.aliases && c.index.aliases[key] == id
  {
  }

  lemma WindowMeans(c: Catalog, occurred: int)
    ensures Window(c, occurred) == set k | k in c.index.correlation && WithinTwoMinutes(k, occurred)
  {
  }

  // ---- a processed event is found again ----

  /** Processing an event that applies is one commit of the reduced incident. */
  lemma ProcessedIsCommit(c: Catalog, w: World, p: Policy, item: nat, r: Resolution, now: int, ledger: IncidentId -> bool)
    returns (c': Catalog, next: Incident, job: Option<Job>)
    requires CatalogOk(c) && item in c.inbox && Resolves(c, w, c.inbox[item], r)
    requires r.Resolved? && !c.inbox[item].category.Retired() && AppliedTo(c, w, r.id, c.inbox[item], now)
    ensures Process(c, w, p, item, r, now, ledger) == CommitIncident(c', w, next, c.inbox[item], job, ledger(r.id), item)
    ensures c' == c.(lastJob := c'.lastJob, lastRevision := c'.lastRevision) && next.id == r.id
    ensures next == ReduceSpec(if r.id in c.incidents then Some(c.incidents[r.id]) else None, c.inbox[item], KeyOfEvent(c.inbox[item]), now, w.digest).incident
  {
    hide CatalogOk, Resolves, Registered, KeyOfEvent, Target, Commitable, ShouldMatch, ReduceSpec, CommitAccepted, CommitIncident, Streams;
    var e := c.inbox[item];
    assert Registered(e) by { InboxIsRegistered(c, item); }
    ResolvedJoins(c, w, e, r);
    ReducedIsCommitable(c, w, e, r.id, now);
    var current := if r.id in c.incidents then Some(c.incidents[r.id]) else None;
    next := ReduceSpec(current, e, KeyOfEvent(e), now, w.digest).incident;
    var l := ledger(r.id);
    if !ShouldMatch(w, p, current, e, now) {
      c', job := c, None;
      CommitKeeps(c, w, next, e, None, l, item);
    } else {
      job := Some(Job(c.lastJob + 1, r.id, c.lastRevision + 1, now));
      c' := c.(lastJob := c.lastJob + 1, lastRevision := c.lastRevision + 1);
      CounterKeeps(c);
      JobsAreOk(c);
      WithJob(c, next, now);
      CommitKeeps(c', w, next, e, job, l, item);
    }
  }

  /** An incident that is stored after an event was applied to it holds the event's key, and an earthquake
      with a known time is indexed under that time; entries of other streams stay. */
  ghost predicate Indexed(c: Catalog, d: Catalog, w: World, e: Event, id: IncidentId) {
    && Holds(d, id, KeyOfEvent(e))
    && (e.category.Earthquake() && w.epoch(e).Some? ==>
          exists k :: k in d.index.correlation && d.index.correlation[k] == id
            && k.epoch == (if w.epoch(e).value < 0 then 0 else w.epoch(e).value)
            && k.stream.category == e.category && k.stream.source == e.source && k.stream.eventId == e.eventId)
    && (forall k :: k in c.index.correlation && !(k.incident == id && k.stream == StreamKey(e.category, e.source, e.eventId)) ==>
          k in d.index.correlation && d.index.correlation[k] == c.index.correlation[k])
  }

  lemma AppliedIsIndexed(c: Catalog, w: World, p: Policy, item: nat, r: Resolution, now: int, ledger: IncidentId -> bool)
    requires CatalogOk(c) && item in c.inbox && Resolves(c, w, c.inbox[item], r)
    requires r.Resolved? && !c.inbox[item].category.Retired() && AppliedTo(c, w, r.id, c.inbox[item], now)
    ensures var d := Process(c, w, p, item, r, now, ledger);
      r.id in d.incidents ==> Indexed(c, d, w, c.inbox[item], r.id)
  {
    assert CorrelationOk(c.incidents.Keys, c.index.correlation, c.index.correlationOf);
    KeyIsTaken(c, w, r.id, c.inbox[item], now);
    hide CatalogOk, Resolves, AppliedTo, Process, CommitIncident, KeyOfEvent, ReduceSpec, Indexed, CorrelationOk;
    var c', next, job := ProcessedIsCommit(c, w, p, item, r, now, ledger);
    CommitIndexes(c', w, next, c.inbox[item], job, ledger(r.id), item);
    IndexedFrom(c, c', CommitIncident(c', w, next, c.inbox[item], job, ledger(r.id), item), w, c.inbox[item], r.id);
  }

  lemma IndexedFrom(c: Catalog, c': Catalog, d: Catalog, w: World, e: Event, id: IncidentId)
    requires c'.index == c.index
    ensures Indexed(c, d, w, e, id) <==> Indexed(c', d, w, e, id)
  {
    hide Holds, KeyOfEvent;
  }

  lemma KeyIsTaken(c: Catalog, w: World, id: IncidentId, e: Event, now: int)
    requires AppliedTo(c, w, id, e, now)
    ensures KeyOfEvent(e) in ReduceSpec(if id in c.incidents then Some(c.incidents[id]) else None, e, KeyOfEvent(e), now, w.digest).incident.sourceEventKeys
  {
    KeyIsSomething(e);
    hide KeyOfEvent, DecideIncident;
  }

  lemma KeyIsSomething(e: Event)
    ensures KeyOfEvent(e) != ""
  {
  }

  lemma CommitIndexes(c: Catalog, w: World, next: Incident, e: Event, job: Option<Job>, ledger: bool, item: nat)
    requires CorrelationOk(c.incidents.Keys, c.index.correlation, c.index.correlationOf) && KeyOfEvent(e) in next.sourceEventKeys
    ensures var d := CommitIncident(c, w, next, e, job, ledger, item);
      next.id in d.incidents ==> Indexed(c, d, w, e, next.id)
  {
    PutAliasesFrame(c.index, next.id, next.sourceEventKeys);
    hide KeyOfEvent, PutAliases, RemoveIndexes, KeepUnmatched, AliasesPut, ReversePut;
    PutCorrelationKeeps(c, PutAliases(c.index, next.id, next.sourceEventKeys), w, next.id, e);
    hide PutCorrelation, CorrelationOk;
  }

  lemma PutCorrelationKeeps(c: Catalog, x: Indexes, w: World, id: IncidentId, e: Event)
    requires CorrelationOk(c.incidents.Keys, c.index.correlation, c.index.correlationOf)
    requires x.correlation == c.index.correlation && x.correlationOf == c.index.correlationOf
    ensures var y := PutCorrelation(x, w, id, e);
      && (e.category.Earthquake() && w.epoch(e).Some? ==>
            exists k :: k in y.correlation && y.correlation[k] == id
              && k.epoch == (if w.epoch(e).value < 0 then 0 else w.epoch(e).value)
              && k.stream.category == e.category && k.stream.source == e.source && k.stream.eventId == e.eventId)
      && (forall k :: k in c.index.correlation && !(k.incident == id && k.stream == StreamKey(e.category, e.source, e.eventId)) ==>
            k in y.correlation && y.correlation[k] == c.index.correlation[k])
  {
    if e.category.Earthquake() && w.epoch(e).Some? {
      var key := CorrelationKey(NonNegative(w.epoch(e).value), id, StreamKeyOf(e));
      assert key in PutCorrelation(x, w, id, e).correlation;
    }
  }

  /** The next event with the same key joins the same incident, as long as that is stored. */
  lemma SameKeyJoins(c: Catalog, w: World, p: Policy, item: nat, r: Resolution, now: int, ledger: IncidentId -> bool, e: Event, again: Resolution)
    requires CatalogOk(c) && item in c.inbox && Resolves(c, w, c.inbox[item], r)
    requires r.Resolved? && !c.inbox[item].category.Retired() && AppliedTo(c, w, r.id, c.inbox[item], now)
    requires var d := Process(c, w, p, item, r, now, ledger); r.id in d.incidents && Resolves(d, w, e, again)
    requires e.category == c.inbox[item].category && e.source == c.inbox[item].source && e.eventId == c.inbox[item].eventId
    ensures again == Resolved(r.id)
  {
    hide CatalogOk, Resolves, AppliedTo, Process, EventKey, Correlates, FitsBest, Leads;
    var d := Process(c, w, p, item, r, now, ledger);
    AppliedIsIndexed(c, w, p, item, r, now, ledger);
    ProcessKeeps(c, w, p, item, r, now, ledger);
    ResolutionMeans(d, w, e, again);
    assert Holds(d, r.id, KeyOfEvent(e));
  }

  // ---- application ----

  /** An event applies to the incident it was resolved to when that is new, or takes the report and has room
      for its key among 32. */
  lemma AppliedWhen(c: Catalog, w: World, id: IncidentId, e: Event, now: int)
    ensures AppliedTo(c, w, id, e, now) <==>
      id in c.incidents ==>
        && DecideIncident(c.incidents[id], e, w.digest).Applied?
        && (KeyOfEvent(e) in c.incidents[id].sourceEventKeys || |c.incidents[id].sourceEventKeys| < 32)
  {
    KeyIsSomething(e);
    hide KeyOfEvent, DecideIncident;
    if id in c.incidents {
      var r := c.incidents[id];
      assert |NewKeys(r.sourceEventKeys, [KeyOfEvent(e)])| == if KeyOfEvent(e) in r.sourceEventKeys then 0 else 1 by { OneKey(r.sourceEventKeys, KeyOfEvent(e)); }
    }
  }

  lemma OneKey(known: seq<KeyText>, key: KeyText)
    requires key != ""
    ensures NewKeys(known, [key]) == if key in known then [] else [key]
  {
    assert [key][..0] == [];
    assert NewKeys(known, []) == [];
  }
}
