/** How often a stream is matched: the coordinator's decision over a whole sequence of reports. */
module MatchPolicy {
  import opened Records
  import opened Incidents
  import opened IncidentTheorems
  import opened Catalog

  /** The stream of e has reached the report number of e. */
  ghost predicate Reached(r: Incident, e: Event) {
    exists w :: w in r.watermarks && Matches(w, e) && w.reportNum >= e.reportNum
  }

  lemma AppliedReaches(r: Incident, e: Event, now: int, digest: Digest)
    requires DecideIncident(r, e, digest).Applied?
    ensures Reached(ApplyIncident(r, e, now, digest), e)
  {
    var b, r' := Bounded(e), ApplyIncident(r, e, now, digest);
    var at := Find(r.watermarks, b);
    if at.Some? {
      assert r'.watermarks[at.value] in r'.watermarks;
    } else {
      assert r'.watermarks[|r.watermarks|] in r'.watermarks;
    }
  }

  lemma ReachedStays(r: Incident, e: Event, x: Event, now: int, digest: Digest)
    requires Reached(r, e)
    ensures Reached(ApplyIncident(r, x, now, digest), e)
  {
    var w :| w in r.watermarks && Matches(w, e) && w.reportNum >= e.reportNum;
    var i :| 0 <= i < |r.watermarks| && r.watermarks[i] == w;
    if DecideIncident(r, x, digest).Applied? {
      var r' := ApplyIncident(r, x, now, digest);
      assert r'.watermarks[i] in r'.watermarks;
    }
  }

  lemma {:induction false} ReachedForGood(r: Incident, arrivals: seq<Arrival>, j: nat, k: nat, e: Event, digest: Digest)
    requires j <= k <= |arrivals| && Reached(RunIncident(r, arrivals[..j], digest), e)
    ensures Reached(RunIncident(r, arrivals[..k], digest), e)
  {
    hide Reached, RunIncident, ApplyIncident;
    if j < k {
      ReachedForGood(r, arrivals, j, k - 1, e, digest);
      RunOneMore(r, arrivals, k - 1, digest);
      ReachedStays(RunIncident(r, arrivals[..k - 1], digest), e, arrivals[k - 1].event, arrivals[k - 1].now, digest);
    }
  }

  function Gap(p: Policy): nat {
    if p.updateMinReportGap < 1 then 1 else p.updateMinReportGap
  }

  /** Whatever arrives in between, a plain update that is matched is ahead of every earlier applied report
      of its stream by at least the configured gap; only final reports and cancellations are exempt. */
  lemma MatchedUpdatesAdvance(r: Incident, arrivals: seq<Arrival>, j: nat, k: nat, w: World, p: Policy)
    requires IncidentOk(r) && j < k < |arrivals|
    requires AppliedAt(r, arrivals, j, w.digest)
    requires SameStream(arrivals[j].event, arrivals[k].event) && !arrivals[k].event.finalReport && !arrivals[k].event.cancel
    requires ShouldMatch(w, p, Some(RunIncident(r, arrivals[..k], w.digest)), arrivals[k].event, arrivals[k].now)
    ensures arrivals[k].event.reportNum >= arrivals[j].event.reportNum + Gap(p) && p.pushUpdates
  {
    var before, current := RunIncident(r, arrivals[..j], w.digest), RunIncident(r, arrivals[..k], w.digest);
    hide RunIncident, DecideIncident, ApplyIncident, IncidentOk;
    AppliedReaches(before, arrivals[j].event, arrivals[j].now, w.digest);
    RunOneMore(r, arrivals, j, w.digest);
    ReachedForGood(r, arrivals, j + 1, k, arrivals[j].event, w.digest);
    RunKeepsOk(r, arrivals[..k], w.digest);
    WatermarkBound(current, arrivals[j].event, arrivals[k].event);
    hide StaleOrigin;
  }

  lemma WatermarkBound(r: Incident, e: Event, x: Event)
    requires IncidentOk(r) && Reached(r, e) && SameStream(e, x)
    ensures Find(r.watermarks, x).Some? && r.watermarks[Find(r.watermarks, x).value].reportNum >= e.reportNum
  {
    var w :| w in r.watermarks && Matches(w, e) && w.reportNum >= e.reportNum;
    var i :| 0 <= i < |r.watermarks| && r.watermarks[i] == w;
    var at := Find(r.watermarks, x);
    assert SameKey(w, r.watermarks[at.value]);
    assert at.value == i;
  }
}
