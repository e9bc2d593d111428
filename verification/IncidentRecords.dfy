/** The incident record as it is updated in place, and the reducer that drives it. */
module IncidentRecords {
  import opened Records
  import opened Incidents

  class IncidentRecord {
    const id: IncidentId
    const category: Category
    const firstSeenAt: int
    const digest: Digest
    var updatedAt: int
    var stateVersion: nat
    var sourceEventKeys: seq<KeyText>
    var latestBySource: seq<Event>
    var watermarks: seq<Watermark>
    var timeline: seq<Summary>
    var hasMatched: bool
    var pendingJobs: nat

    function View(): Incident
      reads this
    {
      Incident(id, category, firstSeenAt, updatedAt, stateVersion, sourceEventKeys, latestBySource, watermarks,
               timeline, hasMatched, pendingJobs)
    }

    constructor (stored: Incident, digest: Digest)
      ensures View() == stored && this.digest == digest
    {
      id, category, firstSeenAt, this.digest := stored.id, stored.category, stored.firstSeenAt, digest;
      updatedAt, stateVersion, sourceEventKeys := stored.updatedAt, stored.stateVersion, stored.sourceEventKeys;
      latestBySource, watermarks, timeline := stored.latestBySource, stored.watermarks, stored.timeline;
      hasMatched, pendingJobs := stored.hasMatched, stored.pendingJobs;
    }

    /** Accepts, ignores or refuses one report. */
    method ApplyOutcome(event: Event, now: int) returns (outcome: Outcome)
      modifies this
      ensures outcome == DecideIncident(old(View()), event, digest)
      ensures View() == ApplyIncident(old(View()), event, now, digest)
    {
      var e := Bounded(event);
      if stateVersion == U64_MAX {
        return CapacityExceeded(StateVersions);
      }
      var at := Find(watermarks, e);
      if at.Some? {
        outcome := Decide(watermarks[at.value], e, digest);
      } else if |watermarks| >= MAX_STREAM_WATERMARKS {
        outcome := CapacityExceeded(StreamWatermarks);
      } else {
        outcome := Applied;
      }
      if !outcome.Applied? {
        return;
      }
      if at.Some? {
        var w := CommitStream(watermarks[at.value], e);
        watermarks := watermarks[at.value := w];
      } else {
        watermarks := watermarks + [Stream(e, digest)];
      }
      PushSummary(SummaryOf(e, now));
      StoreLatest(e);
      updatedAt := if updatedAt < now then now else updatedAt;
      stateVersion := stateVersion + 1;
    }

    method CommitStream(before: Watermark, e: Event) returns (w: Watermark)
      ensures w == Commit(before, e, digest)
    {
      w := before;
      var newer := e.reportNum > w.reportNum;
      var safety := SafetyTransition(w, e);
      if newer || (safety && e.reportNum == w.reportNum) {
        w := w.(updates := []);
      }
      if e.reportNum >= w.reportNum {
        w := w.(reportNum := e.reportNum, level := e.level);
      }
      w := w.(finalReport := w.finalReport || e.finalReport);
      w := w.(cancel := w.cancel || e.cancel);
      w := w.(updates := Remember(w.updates, digest(e), safety && e.reportNum == w.reportNum));
    }

    method PushSummary(x: Summary)
      modifies this`timeline
      ensures timeline == PushTimeline(old(timeline), x)
    {
      if timeline == [] || !SameReport(timeline[|timeline| - 1], x) {
        if |timeline| >= MAX_INCIDENT_TIMELINE {
          timeline := timeline[1..];
        }
        timeline := timeline + [x];
      }
    }

    method StoreLatest(e: Event)
      modifies this`latestBySource
      ensures latestBySource == PutLatest(old(latestBySource), e)
    {
      var at := FindLatest(latestBySource, e);
      if at.Some? {
        latestBySource := latestBySource[at.value := e];
      } else {
        if |latestBySource| >= MAX_LATEST_SOURCES {
          latestBySource := latestBySource[1..];
        }
        latestBySource := latestBySource + [e];
      }
    }

    /** Adds the keys that are new; nothing is added when they would exceed the capacity. */
    method RememberSourceEventKeys(keys: seq<KeyText>) returns (changed: Option<bool>)
      modifies this`sourceEventKeys
      ensures var fresh_ := NewKeys(old(sourceEventKeys), keys);
        var full := fresh_ != [] && |old(sourceEventKeys)| + |fresh_| > MAX_SOURCE_EVENT_KEYS;
        && changed == (if full then None else Some(fresh_ != []))
        && sourceEventKeys == if full then old(sourceEventKeys) else old(sourceEventKeys) + fresh_
    {
      var additions: seq<KeyText> := [];
      var k := 0;
      while k < |keys|
        invariant 0 <= k <= |keys|
        invariant additions == NewKeys(sourceEventKeys, keys[..k]) && sourceEventKeys == old(sourceEventKeys)
        invariant additions != [] ==> |sourceEventKeys| + |additions| <= MAX_SOURCE_EVENT_KEYS
      {
        var key := keys[k];
        assert keys[..k + 1][..k] == keys[..k];
        if key != "" && key !in sourceEventKeys && key !in additions {
          if |sourceEventKeys| + |additions| >= MAX_SOURCE_EVENT_KEYS {
            NewKeysGrow(sourceEventKeys, keys, k + 1);
            return None;
          }
          additions := additions + [key];
        }
        k := k + 1;
      }
      assert keys[..k] == keys;
      sourceEventKeys := sourceEventKeys + additions;
      changed := Some(additions != []);
    }
  }

  lemma {:induction false} NewKeysGrow(known: seq<KeyText>, keys: seq<KeyText>, k: nat)
    requires k <= |keys|
    ensures |NewKeys(known, keys[..k])| <= |NewKeys(known, keys)|
  {
    if k < |keys| {
      assert keys[..|keys| - 1][..k] == keys[..k];
      NewKeysGrow(known, keys[..|keys| - 1], k);
    } else {
      assert keys[..k] == keys;
    }
  }

  datatype Transition = Reduced(incident: Incident, outcome: Outcome) | Failed(capacity: Capacity)

  /** What reducing one event means for the stored incident. */
  function ReduceSpec(current: Option<Incident>, e: Event, key: KeyText, now: int, digest: Digest): Transition {
    match current
    case None => Reduced(NewIncident(IncidentId(key), e, key, now, digest), Applied)
    case Some(r) =>
      var outcome := DecideIncident(r, e, digest);
      var after := ApplyIncident(r, e, now, digest);
      var fresh_ := NewKeys(after.sourceEventKeys, [key]);
      if outcome.CapacityExceeded? then Failed(outcome.capacity)
      else if outcome.ShouldProject() && fresh_ != [] && |after.sourceEventKeys| + |fresh_| > MAX_SOURCE_EVENT_KEYS then Failed(SourceEventKeys)
      else if outcome.ShouldProject() then Reduced(after.(sourceEventKeys := after.sourceEventKeys + fresh_), outcome)
      else Reduced(after, outcome)
  }

  /** The reducer works on a copy: the caller's record is a value and stays as it was. */
  method Reduce(current: Option<Incident>, e: Event, key: KeyText, now: int, digest: Digest) returns (t: Transition)
    ensures t == ReduceSpec(current, e, key, now, digest)
  {
    var incident: IncidentRecord;
    var outcome: Outcome;
    if current.Some? {
      incident := new IncidentRecord(current.value, digest);
      outcome := incident.ApplyOutcome(e, now);
    } else {
      incident := new IncidentRecord(NewIncident(IncidentId(key), e, key, now, digest), digest);
      outcome := Applied;
    }
    if outcome.CapacityExceeded? {
      return Failed(outcome.capacity);
    }
    if outcome.ShouldProject() {
      assert current.None? ==> NewKeys([key], [key]) == [];
      var changed := incident.RememberSourceEventKeys([key]);
      if changed.None? {
        return Failed(SourceEventKeys);
      }
    }
    t := Reduced(incident.View(), outcome);
  }
}
