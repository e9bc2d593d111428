/** Integrity of the incident keyspaces, kept by every step. */
module CatalogInvariant {
  import opened Records
  import opened Incidents
  import opened IncidentTheorems
  import opened EventKeys
  import opened IncidentRecords
  import opened Catalog

  // ---- one stream per source ----

  ghost predicate StreamAt(r: Incident, i: nat)
    requires i < |r.latestBySource| == |r.watermarks| == |r.sourceEventKeys|
  {
    && Matches(r.watermarks[i], r.latestBySource[i])
    && r.sourceEventKeys[i] == KeyOfEvent(r.latestBySource[i])
    && Registered(r.latestBySource[i])
  }

  ghost predicate OneEach(es: seq<Event>) {
    forall i, j :: 0 <= i < j < |es| ==> es[i].source != es[j].source
  }

  /** The latest reports, watermarks and event keys of an incident name the same streams in the same
      order, all from registered sources, no two from the same source. */
  ghost predicate Streams(r: Incident) {
    && |r.latestBySource| == |r.watermarks| == |r.sourceEventKeys|
    && (forall i :: 0 <= i < |r.latestBySource| ==> StreamAt(r, i))
    && OneEach(r.latestBySource)
  }

  function SourceIds(): set<string> {
    set k | 0 <= k < |SOURCES| :: SOURCES[k].id
  }

  lemma SixSources()
    ensures |SourceIds()| <= 6
    ensures forall e: Event :: Registered(e) ==> e.source in SourceIds()
  {
    var ids := seq(6, k requires 0 <= k < 6 => SOURCES[k].id);
    assert forall k :: 0 <= k < 6 ==> ids[k] == SOURCES[k].id;
    assert SourceIds() == Elements(ids);
    CardinalityOfElements(ids);
  }

  function SourcesOf(es: seq<Event>): seq<string> {
    seq(|es|, i requires 0 <= i < |es| => es[i].source)
  }

  /** So an incident has at most six streams: nothing is ever evicted and no stream or key capacity
      error is ever raised. */
  lemma AtMostSixStreams(r: Incident)
    requires Streams(r)
    ensures |r.latestBySource| <= 6
  {
    SixSources();
    var names := SourcesOf(r.latestBySource);
    forall i | 0 <= i < |names|
      ensures names[i] in SourceIds()
    {
      assert StreamAt(r, i);
    }
    CardinalityOfElements(names);
    SubsetCardinality(Elements(names), SourceIds());
  }

  lemma RoomForNewSource(r: Incident, e: Event)
    requires Streams(r) && Registered(e) && !HasSource(r, e.source)
    ensures |r.latestBySource| == |r.watermarks| == |r.sourceEventKeys| <= 5
  {
    SixSources();
    var es := r.latestBySource + [e];
    var names := SourcesOf(es);
    forall i | 0 <= i < |names|
      ensures names[i] in SourceIds()
    {
      if i < |r.latestBySource| { assert StreamAt(r, i); }
    }
    assert Distinct(names) by {
      forall i, j | 0 <= i < j < |names|
        ensures names[i] != names[j]
      {
        if j == |r.latestBySource| { assert r.latestBySource[i] in r.latestBySource; }
      }
    }
    CardinalityOfElements(names);
    SubsetCardinality(Elements(names), SourceIds());
  }

  lemma KnownStream(r: Incident, e: Event)
    requires Streams(r) && KeyOfEvent(e) in r.sourceEventKeys
    ensures Find(r.watermarks, e).Some? && FindLatest(r.latestBySource, e) == Find(r.watermarks, e)
    ensures r.sourceEventKeys[Find(r.watermarks, e).value] == KeyOfEvent(e)
  {
    var i :| 0 <= i < |r.sourceEventKeys| && r.sourceEventKeys[i] == KeyOfEvent(e);
    assert StreamAt(r, i);
    var x := r.latestBySource[i];
    EventKeyInjective(x.category, x.source, x.eventId, e.category, e.source, e.eventId);
    assert Matches(r.watermarks[i], e) && SameStream(x, e);
    var a, b := Find(r.watermarks, e).value, FindLatest(r.latestBySource, e).value;
    assert StreamAt(r, a) && r.latestBySource[a].source == e.source;
    assert a == i && b == i;
  }

  lemma UnknownStream(r: Incident, e: Event)
    requires Streams(r) && !HasSource(r, e.source)
    ensures Find(r.watermarks, e).None? && FindLatest(r.latestBySource, e).None?
    ensures KeyOfEvent(e) !in r.sourceEventKeys
  {
    forall i | 0 <= i < |r.latestBySource|
      ensures !Matches(r.watermarks[i], e) && !SameStream(r.latestBySource[i], e) && r.sourceEventKeys[i] != KeyOfEvent(e)
    {
      assert StreamAt(r, i) && r.latestBySource[i] in r.latestBySource;
      var x := r.latestBySource[i];
      if KeyOfEvent(x) == KeyOfEvent(e) {
        EventKeyInjective(x.category, x.source, x.eventId, e.category, e.source, e.eventId);
      }
    }
    assert forall i :: 0 <= i < |r.sourceEventKeys| ==> r.sourceEventKeys[i] != KeyOfEvent(e);
  }

  /** The event belongs to the incident: a known stream of it, or the first of its source. */
  ghost predicate Joins(r: Incident, e: Event) {
    KeyOfEvent(e) in r.sourceEventKeys || !HasSource(r, e.source)
  }

  lemma BoundedKeepsStream(e: Event)
    ensures KeyOfEvent(Bounded(e)) == KeyOfEvent(e) && Bounded(e).source == e.source
    ensures Registered(Bounded(e)) <==> Registered(e)
  {
  }

  function WithKey(keys: seq<KeyText>, key: KeyText): seq<KeyText> {
    if key in keys then keys else keys + [key]
  }

  /** What reducing does to an incident with one stream per source. */
  ghost predicate ReducesTo(r: Incident, e: Event, t: Transition) {
    match t
    case Failed(capacity) => capacity.CurrentReportUpdates? || capacity.StateVersions?
    case Reduced(next, outcome) =>
      && Streams(next) && next.id == r.id && next.category == r.category
      && next.hasMatched == r.hasMatched && next.pendingJobs == r.pendingJobs
      && (!outcome.Applied? ==> next == r)
      && (outcome.Applied? ==> next.sourceEventKeys == WithKey(r.sourceEventKeys, KeyOfEvent(e)))
  }

  /** Reducing an event that belongs to the incident keeps one stream per source, and can fail only on
      the updates of one report or on the version counter. */
  lemma ReduceKeepsStreams(r: Incident, e: Event, now: int, digest: Digest)
    requires Streams(r) && Registered(e) && Joins(r, e)
    ensures ReducesTo(r, e, ReduceSpec(Some(r), e, KeyOfEvent(e), now, digest))
  {
    BoundedKeepsStream(e);
    EventKeyNotEmpty(e);
    hide Bounded, Decide, Registered, KeyOfEvent, Streams, ReduceSpec, ReducesTo;
    if KeyOfEvent(e) in r.sourceEventKeys {
      ReduceKnown(r, e, now, digest);
    } else {
      ReduceUnknown(r, e, now, digest);
    }
  }

  lemma ReduceKnown(r: Incident, e: Event, now: int, digest: Digest)
    requires Streams(r) && Registered(Bounded(e)) && KeyOfEvent(Bounded(e)) == KeyOfEvent(e)
    requires KeyOfEvent(e) in r.sourceEventKeys
    ensures ReducesTo(r, e, ReduceSpec(Some(r), e, KeyOfEvent(e), now, digest))
  {
    var outcome, after := DecideIncident(r, e, digest), ApplyIncident(r, e, now, digest);
    KnownStream(r, Bounded(e));
    hide Streams, Bounded, Decide, Registered, KeyOfEvent;
    KnownStreamKept(r, Bounded(e), now, digest, after, outcome, e);
    NewKeysOfKnown(after.sourceEventKeys, KeyOfEvent(e));
    assert after.sourceEventKeys + [] == after.sourceEventKeys;
    ApplyKeepsIdentity(r, e, now, digest);
    hide ApplyIncident, DecideIncident, NewKeys;
  }

  lemma ReduceUnknown(r: Incident, e: Event, now: int, digest: Digest)
    requires Streams(r) && Registered(Bounded(e)) && KeyOfEvent(Bounded(e)) == KeyOfEvent(e) && KeyOfEvent(e) != ""
    requires KeyOfEvent(e) !in r.sourceEventKeys && !HasSource(r, e.source) && Bounded(e).source == e.source
    ensures ReducesTo(r, e, ReduceSpec(Some(r), e, KeyOfEvent(e), now, digest))
  {
    var outcome, after := DecideIncident(r, e, digest), ApplyIncident(r, e, now, digest);
    UnknownStream(r, Bounded(e));
    RoomForNewSource(r, Bounded(e));
    assert outcome.Applied? || outcome == CapacityExceeded(StateVersions);
    ApplyKeepsIdentity(r, e, now, digest);
    hide Bounded, Decide, Registered, KeyOfEvent, DecideIncident;
    if outcome.Applied? {
      StreamAdded(r, e, now, digest);
      NewKeysOfUnknown(after.sourceEventKeys, KeyOfEvent(e));
      hide ApplyIncident, NewKeys, Streams, HasSource;
      assert |after.sourceEventKeys| + 1 <= MAX_SOURCE_EVENT_KEYS by { assert |r.sourceEventKeys| <= 5; }
    }
  }

  lemma ApplyKeepsIdentity(r: Incident, e: Event, now: int, digest: Digest)
    ensures var after := ApplyIncident(r, e, now, digest);
      && after.id == r.id && after.category == r.category && after.hasMatched == r.hasMatched && after.pendingJobs == r.pendingJobs
      && after.sourceEventKeys == r.sourceEventKeys
      && (!DecideIncident(r, e, digest).Applied? ==> after == r)
  {
    hide DecideIncident, Bounded, Commit, Stream, PushTimeline, PutLatest;
  }

  lemma NewKeysOfKnown(known: seq<KeyText>, key: KeyText)
    requires key in known
    ensures NewKeys(known, [key]) == []
  {
  }

  lemma NewKeysOfUnknown(known: seq<KeyText>, key: KeyText)
    requires key !in known && key != ""
    ensures NewKeys(known, [key]) == [key]
  {
    assert [key][..0] == [];
  }

  lemma KnownStreamKept(r: Incident, b: Event, now: int, digest: Digest, after: Incident, outcome: Outcome, e: Event)
    requires Streams(r) && b == Bounded(e) && Registered(b)
    requires Find(r.watermarks, b).Some? && FindLatest(r.latestBySource, b) == Find(r.watermarks, b)
    requires r.sourceEventKeys[Find(r.watermarks, b).value] == KeyOfEvent(b)
    requires outcome == DecideIncident(r, e, digest) && after == ApplyIncident(r, e, now, digest)
    ensures Streams(after) && after.sourceEventKeys == r.sourceEventKeys
    ensures outcome.CapacityExceeded? ==> outcome.capacity.CurrentReportUpdates? || outcome.capacity.StateVersions?
  {
    if outcome.Applied? {
      var at := Find(r.watermarks, b).value;
      hide Bounded, Decide, Registered, KeyOfEvent, PushTimeline;
      CommitKeepsKey(r.watermarks[at], b, digest);
      hide Commit;
      forall i | 0 <= i < |after.latestBySource|
        ensures StreamAt(after, i)
      {
        assert StreamAt(r, i);
      }
    }
  }

  lemma StreamAdded(r: Incident, e: Event, now: int, digest: Digest)
    requires Streams(r) && |r.latestBySource| <= 5 && Registered(Bounded(e)) && KeyOfEvent(Bounded(e)) == KeyOfEvent(e)
    requires Find(r.watermarks, Bounded(e)).None? && FindLatest(r.latestBySource, Bounded(e)).None?
    requires DecideIncident(r, e, digest).Applied? && !HasSource(r, Bounded(e).source)
    ensures var after := ApplyIncident(r, e, now, digest);
      && after.sourceEventKeys == r.sourceEventKeys
      && Streams(after.(sourceEventKeys := after.sourceEventKeys + [KeyOfEvent(e)]))
  {
    hide Bounded, Decide, Registered, KeyOfEvent, PushTimeline;
    var b := Bounded(e);
    var after := ApplyIncident(r, e, now, digest);
    var next := after.(sourceEventKeys := after.sourceEventKeys + [KeyOfEvent(e)]);
    assert next.latestBySource == r.latestBySource + [b] && next.watermarks == r.watermarks + [Stream(b, digest)];
    forall i | 0 <= i < |next.latestBySource|
      ensures StreamAt(next, i)
    {
      if i < |r.latestBySource| { assert StreamAt(r, i); }
    }
    assert forall i :: 0 <= i < |r.latestBySource| ==> r.latestBySource[i] in r.latestBySource;
  }

  lemma NewIncidentStreams(id: IncidentId, e: Event, now: int, digest: Digest)
    requires Registered(e)
    ensures Streams(NewIncident(id, e, KeyOfEvent(e), now, digest))
  {
    BoundedKeepsStream(e);
    hide Registered, KeyOfEvent, Bounded;
    var r := NewIncident(id, e, KeyOfEvent(e), now, digest);
    assert StreamAt(r, 0);
  }
}
