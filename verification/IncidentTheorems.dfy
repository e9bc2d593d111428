/** What the rules that accept reports guarantee over whole sequences of them. */
module IncidentTheorems {
  import opened Records
  import opened Incidents

  // ---- progress of one stream ----

  function Flags(w: Watermark): nat {
    (if w.finalReport then 1 else 0) + (if w.cancel then 1 else 0)
  }

  predicate Room(w: Watermark) {
    |w.updates| <= MAX_CURRENT_REPORT_UPDATES
  }

  ghost predicate StreamOk(w: Watermark) {
    Room(w) && Distinct(w.updates)
  }

  /** The watermark is later in the order (report number, terminal flags, level, remembered updates). */
  predicate Later(a: Watermark, b: Watermark) {
    a.reportNum < b.reportNum || (a.reportNum == b.reportNum && (Flags(a) < Flags(b) ||
    (Flags(a) == Flags(b) && (a.level < b.level || (a.level == b.level && |a.updates| < |b.updates|)))))
  }

  /** Accepting a report moves the stream strictly forward; terminal flags and the report number never
      go back, and the remembered updates stay distinct and at most 16. */
  lemma AcceptedMovesForward(w: Watermark, e: Event, digest: Digest)
    requires StreamOk(w) && Decide(w, e, digest).Applied?
    ensures var w' := Commit(w, e, digest);
      && StreamOk(w')
      && Later(w, w')
      && w.reportNum <= w'.reportNum
      && (w.finalReport ==> w'.finalReport) && (w.cancel ==> w'.cancel)
  {
    var w' := Commit(w, e, digest);
    assert w'.updates == w.updates + [digest(e)] || w'.updates == [digest(e)] || w'.updates == w.updates;
  }

  /** A step counter that every accepted report of the same report number increases. */
  function Steps(w: Watermark): nat {
    Flags(w) * 4352 + w.level as int * 17 + |w.updates|
  }

  lemma StepsGrow(w: Watermark, w': Watermark)
    requires Room(w) && Room(w') && Later(w, w') && w.reportNum == w'.reportNum
    ensures Steps(w) < Steps(w') <= 13_055
  {
  }

  /** The watermark after a sequence of accepted reports. */
  ghost predicate Accepts(w: Watermark, es: seq<Event>, digest: Digest) {
    es == [] || (Accepts(w, es[..|es| - 1], digest) && Decide(After(w, es[..|es| - 1], digest), es[|es| - 1], digest).Applied?)
  }

  function After(w: Watermark, es: seq<Event>, digest: Digest): Watermark {
    if es == [] then w else Commit(After(w, es[..|es| - 1], digest), es[|es| - 1], digest)
  }

  /** While a stream stays at one report number it accepts at most 13055 reports, whatever arrives. */
  lemma {:induction false} AcceptedPerReport(w: Watermark, es: seq<Event>, digest: Digest)
    requires StreamOk(w) && Accepts(w, es, digest) && After(w, es, digest).reportNum == w.reportNum
    ensures StreamOk(After(w, es, digest))
    ensures Steps(w) + |es| <= Steps(After(w, es, digest)) && |es| <= 13_055
  {
    if es != [] {
      var n := |es| - 1;
      AcceptedKeepsOk(w, es[..n], digest);
      AcceptedMovesForward(After(w, es[..n], digest), es[n], digest);
      AcceptedPerReport(w, es[..n], digest);
      StepsGrow(After(w, es[..n], digest), After(w, es, digest));
    }
  }

  lemma {:induction false} AcceptedKeepsOk(w: Watermark, es: seq<Event>, digest: Digest)
    requires StreamOk(w) && Accepts(w, es, digest)
    ensures StreamOk(After(w, es, digest))
    ensures w.reportNum <= After(w, es, digest).reportNum
  {
    if es != [] {
      AcceptedKeepsOk(w, es[..|es| - 1], digest);
      AcceptedMovesForward(After(w, es[..|es| - 1], digest), es[|es| - 1], digest);
    }
  }

  /** What a watermark means: the highest report number accepted, and whether a final report and a
      cancellation were ever accepted. */
  lemma {:induction false} WatermarkSummarises(first: Event, es: seq<Event>, digest: Digest)
    requires Accepts(Stream(first, digest), es, digest)
    ensures var w := After(Stream(first, digest), es, digest);
      && (exists e :: e in [first] + es && e.reportNum == w.reportNum)
      && (forall e :: e in [first] + es ==> e.reportNum <= w.reportNum)
      && (w.finalReport <==> exists e :: e in [first] + es && e.finalReport)
      && (w.cancel <==> exists e :: e in [first] + es && e.cancel)
  {
    if es != [] {
      var n := |es| - 1;
      WatermarkSummarises(first, es[..n], digest);
      assert [first] + es == [first] + es[..n] + [es[n]];
      var w := After(Stream(first, digest), es[..n], digest);
      var all := [first] + es;
      assert es[n] in all;
      assert forall e :: e in [first] + es[..n] ==> e in all;
      assert forall e :: e in all ==> e in [first] + es[..n] || e == es[n];
    } else {
      assert first in [first] + es;
    }
  }

  // ---- at most once ----

  /** The stream can never accept this report again. */
  predicate Spent(w: Watermark, e: Event, digest: Digest) {
    || (w.cancel && !e.cancel)
    || (w.finalReport && !e.finalReport && !e.cancel)
    || (&& (e.cancel ==> w.cancel) && (e.finalReport ==> w.finalReport)
        && (w.reportNum > e.reportNum || (w.reportNum == e.reportNum &&
           (w.level > e.level || (w.level == e.level && digest(e) in w.updates)))))
  }

  /** A report that can cancel but is not final is the only kind that may be accepted twice. */
  predicate AcceptedOnce(e: Event) {
    e.cancel ==> e.finalReport
  }

  lemma AcceptedIsSpent(w: Watermark, e: Event, digest: Digest)
    requires Decide(w, e, digest).Applied?
    ensures Spent(Commit(w, e, digest), e, digest)
  {
  }

  lemma SpentIsNotAccepted(w: Watermark, e: Event, digest: Digest)
    requires Spent(w, e, digest)
    ensures !Decide(w, e, digest).Applied?
  {
  }

  lemma SpentStays(w: Watermark, e: Event, x: Event, digest: Digest)
    requires Spent(w, e, digest) && AcceptedOnce(e) && StreamOk(w) && Decide(w, x, digest).Applied?
    ensures Spent(Commit(w, x, digest), e, digest)
  {
  }

  // ---- the record ----

  ghost predicate IncidentOk(r: Incident) {
    && (forall w :: w in r.watermarks ==> StreamOk(w))
    && (forall i, j :: 0 <= i < j < |r.watermarks| ==> !SameKey(r.watermarks[i], r.watermarks[j]))
    && |r.watermarks| <= MAX_STREAM_WATERMARKS
    && |r.latestBySource| <= MAX_LATEST_SOURCES
    && 0 < |r.timeline| <= MAX_INCIDENT_TIMELINE
  }

  predicate SameKey(a: Watermark, b: Watermark) {
    a.category == b.category && a.source == b.source && a.eventId == b.eventId
  }

  /** The stream of e exists and can never accept e again. */
  ghost predicate SpentIn(r: Incident, e: Event, digest: Digest) {
    exists w :: w in r.watermarks && Matches(w, e) && Spent(w, Bounded(e), digest)
  }

  lemma NewIncidentOk(id: IncidentId, e: Event, key: KeyText, now: int, digest: Digest)
    ensures IncidentOk(NewIncident(id, e, key, now, digest))
    ensures SpentIn(NewIncident(id, e, key, now, digest), e, digest)
  {
    var r := NewIncident(id, e, key, now, digest);
    assert Matches(r.watermarks[0], e);
  }

  lemma ApplyKeepsOk(r: Incident, e: Event, now: int, digest: Digest)
    requires IncidentOk(r)
    ensures IncidentOk(ApplyIncident(r, e, now, digest))
  {
    var b := Bounded(e);
    if DecideIncident(r, e, digest).Applied? {
      var at := Find(r.watermarks, b);
      hide Bounded, Decide, Commit, StreamOk, SameReport;
      if at.Some? {
        AcceptedMovesForward(r.watermarks[at.value], b, digest);
        CommitKeepsKey(r.watermarks[at.value], b, digest);
        KnownStreamOk(r.watermarks, at.value, Commit(r.watermarks[at.value], b, digest));
      } else {
        assert StreamOk(Stream(b, digest)) by { NewStreamOk(b, digest); }
        assert forall i :: 0 <= i < |r.watermarks| ==> !Matches(r.watermarks[i], b);
      }
    }
  }

  lemma NewStreamOk(e: Event, digest: Digest)
    ensures StreamOk(Stream(e, digest))
  {
  }

  lemma KnownStreamOk(ws: seq<Watermark>, at: nat, w: Watermark)
    requires at < |ws| && SameKey(w, ws[at]) && StreamOk(w)
    requires forall i, j :: 0 <= i < j < |ws| ==> !SameKey(ws[i], ws[j])
    requires forall x :: x in ws ==> StreamOk(x)
    ensures var ws' := ws[at := w];
      && (forall i, j :: 0 <= i < j < |ws'| ==> !SameKey(ws'[i], ws'[j]))
      && (forall x :: x in ws' ==> StreamOk(x))
  {
    hide StreamOk;
    var ws' := ws[at := w];
    assert forall i :: 0 <= i < |ws| ==> SameKey(ws'[i], ws[i]);
  }

  lemma CommitKeepsKey(w: Watermark, e: Event, digest: Digest)
    ensures SameKey(Commit(w, e, digest), w)
  {
  }

  lemma AppliedIsSpentIn(r: Incident, e: Event, now: int, digest: Digest)
    requires DecideIncident(r, e, digest).Applied?
    ensures SpentIn(ApplyIncident(r, e, now, digest), e, digest)
  {
    var b, r' := Bounded(e), ApplyIncident(r, e, now, digest);
    var at := Find(r.watermarks, b);
    if at.Some? {
      AcceptedIsSpent(r.watermarks[at.value], b, digest);
      assert r'.watermarks[at.value] in r'.watermarks;
    } else {
      assert r'.watermarks[|r.watermarks|] in r'.watermarks;
    }
  }

  lemma SpentInIsNotAccepted(r: Incident, e: Event, digest: Digest)
    requires IncidentOk(r) && SpentIn(r, e, digest)
    ensures !DecideIncident(r, e, digest).Applied?
  {
    var w :| w in r.watermarks && Matches(w, e) && Spent(w, Bounded(e), digest);
    var i :| 0 <= i < |r.watermarks| && r.watermarks[i] == w;
    var at := Find(r.watermarks, Bounded(e));
    assert SameKey(w, r.watermarks[at.value]);
    assert at.value == i;
    SpentIsNotAccepted(w, Bounded(e), digest);
  }

  lemma SpentInStays(r: Incident, e: Event, x: Event, now: int, digest: Digest)
    requires IncidentOk(r) && SpentIn(r, e, digest) && AcceptedOnce(e)
    ensures SpentIn(ApplyIncident(r, x, now, digest), e, digest)
  {
    var w :| w in r.watermarks && Matches(w, e) && Spent(w, Bounded(e), digest);
    var i :| 0 <= i < |r.watermarks| && r.watermarks[i] == w;
    if DecideIncident(r, x, digest).Applied? {
      var r' := ApplyIncident(r, x, now, digest);
      var at := Find(r.watermarks, Bounded(x));
      assert r'.watermarks[i] in r'.watermarks;
      if at == Some(i) {
        SpentStays(w, Bounded(e), Bounded(x), digest);
      }
    }
  }

  // ---- runs of a record ----

  datatype Arrival = Arrival(event: Event, now: int)

  function RunIncident(r: Incident, arrivals: seq<Arrival>, digest: Digest): Incident {
    if arrivals == [] then r
    else
      var last := arrivals[|arrivals| - 1];
      ApplyIncident(RunIncident(r, arrivals[..|arrivals| - 1], digest), last.event, last.now, digest)
  }

  /** Whether arrival k of the sequence is applied. */
  predicate AppliedAt(r: Incident, arrivals: seq<Arrival>, k: nat, digest: Digest)
    requires k < |arrivals|
  {
    DecideIncident(RunIncident(r, arrivals[..k], digest), arrivals[k].event, digest).Applied?
  }

  lemma {:induction false} RunKeepsOk(r: Incident, arrivals: seq<Arrival>, digest: Digest)
    requires IncidentOk(r)
    ensures IncidentOk(RunIncident(r, arrivals, digest))
  {
    if arrivals != [] {
      var n := |arrivals| - 1;
      RunKeepsOk(r, arrivals[..n], digest);
      ApplyKeepsOk(RunIncident(r, arrivals[..n], digest), arrivals[n].event, arrivals[n].now, digest);
    }
  }

  lemma {:induction false} SpentStaysSpent(r: Incident, arrivals: seq<Arrival>, j: nat, k: nat, e: Event, digest: Digest)
    requires IncidentOk(r) && j <= k <= |arrivals| && AcceptedOnce(e)
    requires SpentIn(RunIncident(r, arrivals[..j], digest), e, digest)
    ensures SpentIn(RunIncident(r, arrivals[..k], digest), e, digest)
  {
    hide IncidentOk, AcceptedOnce, SpentIn, RunIncident;
    if j < k {
      SpentStaysSpent(r, arrivals, j, k - 1, e, digest);
      RunKeepsOk(r, arrivals[..k - 1], digest);
      RunOneMore(r, arrivals, k - 1, digest);
      SpentInStays(RunIncident(r, arrivals[..k - 1], digest), e, arrivals[k - 1].event, arrivals[k - 1].now, digest);
    }
  }

  /** Over any sequence of reports on one record, a report that does not cancel, or that cancels and is
      final, is applied at most once. */
  lemma AppliedAtMostOnce(r: Incident, arrivals: seq<Arrival>, j: nat, k: nat, digest: Digest)
    requires IncidentOk(r) && j < k < |arrivals|
    requires arrivals[j].event == arrivals[k].event && AcceptedOnce(arrivals[j].event)
    ensures !(AppliedAt(r, arrivals, j, digest) && AppliedAt(r, arrivals, k, digest))
  {
    if AppliedAt(r, arrivals, j, digest) {
      var e := arrivals[j].event;
      hide IncidentOk, AcceptedOnce, SpentIn, RunIncident, DecideIncident, ApplyIncident;
      RunOneMore(r, arrivals, j, digest);
      AppliedIsSpentIn(RunIncident(r, arrivals[..j], digest), e, arrivals[j].now, digest);
      SpentStaysSpent(r, arrivals, j + 1, k, e, digest);
      RunKeepsOk(r, arrivals[..k], digest);
      SpentInIsNotAccepted(RunIncident(r, arrivals[..k], digest), e, digest);
    }
  }

  /** The version counts the applied reports of the run. */
  function AppliedCount(r: Incident, arrivals: seq<Arrival>, digest: Digest): nat {
    if arrivals == [] then 0
    else
      var n := |arrivals| - 1;
      AppliedCount(r, arrivals[..n], digest) + if AppliedAt(r, arrivals, n, digest) then 1 else 0
  }

  lemma {:induction false} VersionCountsApplied(r: Incident, arrivals: seq<Arrival>, digest: Digest)
    ensures RunIncident(r, arrivals, digest).stateVersion == r.stateVersion + AppliedCount(r, arrivals, digest)
  {
    if arrivals != [] {
      VersionCountsApplied(r, arrivals[..|arrivals| - 1], digest);
    }
  }

  /** A cancellation that is not final can be applied again: accepting a final cancellation of the same
      report forgets the updates seen before. This holds for every such report whose digest differs
      from that of its final twin. */
  lemma CancelAppliesTwice(c: Event, id: IncidentId, key: KeyText, now: int, digest: Digest)
    requires !AcceptedOnce(c)
    requires digest(Bounded(c)) != digest(Bounded(c.(finalReport := true)))
    ensures var arrivals := [Arrival(c.(cancel := false), now), Arrival(c, now), Arrival(c.(finalReport := true), now), Arrival(c, now)];
      var r := NewIncident(id, arrivals[0].event, key, now, digest);
      && AppliedAt(r, arrivals, 1, digest) && AppliedAt(r, arrivals, 2, digest) && AppliedAt(r, arrivals, 3, digest)
  {
    hide Commit, Decide, Bounded, NewIncident, RunIncident, ApplyIncident, DecideIncident, Stream, Matches;
    var a, f := c.(cancel := false), c.(finalReport := true);
    var arrivals := [Arrival(a, now), Arrival(c, now), Arrival(f, now), Arrival(c, now)];
    var r := NewIncident(id, a, key, now, digest);
    NewIncidentReplays(id, a, key, now, digest);
    CancelsTwiceInStream(c, a, f, digest);
    assert arrivals[..0] == [];
    EmptyRun(r, digest);
    RunOneMore(r, arrivals, 0, digest);
    RunOneMore(r, arrivals, 1, digest);
    RunOneMore(r, arrivals, 2, digest);
    OneStreamApplies(r, c, now, digest);
    var r2 := ApplyIncident(r, c, now, digest);
    OneStreamApplies(r2, f, now, digest);
    OneStreamApplies(ApplyIncident(r2, f, now, digest), c, now, digest);
  }

  lemma CancelsTwiceInStream(c: Event, a: Event, f: Event, digest: Digest)
    requires c.cancel && !c.finalReport && a == c.(cancel := false) && f == c.(finalReport := true)
    requires digest(Bounded(c)) != digest(Bounded(f))
    ensures var w := Stream(Bounded(a), digest);
      var w2 := Commit(w, Bounded(c), digest);
      var w3 := Commit(w2, Bounded(f), digest);
      && Matches(w, c) && Matches(w2, f) && Matches(w3, c)
      && Decide(w, Bounded(c), digest).Applied? && Decide(w2, Bounded(f), digest).Applied? && Decide(w3, Bounded(c), digest).Applied?
  {
    var w := Stream(Bounded(a), digest);
    assert Bounded(f) == Bounded(c).(finalReport := true);
    StreamCancelsTwice(w, Bounded(c), digest);
  }

  lemma EmptyRun(r: Incident, digest: Digest)
    ensures RunIncident(r, [], digest) == r
  {
  }

  lemma NewIncidentReplays(id: IncidentId, e: Event, key: KeyText, now: int, digest: Digest)
    ensures ApplyIncident(NewIncident(id, e, key, now, digest), e, now, digest) == NewIncident(id, e, key, now, digest)
    ensures NewIncident(id, e, key, now, digest).watermarks == [Stream(Bounded(e), digest)]
    ensures NewIncident(id, e, key, now, digest).stateVersion == 1
  {
  }

  lemma OneStreamApplies(r: Incident, e: Event, now: int, digest: Digest)
    requires |r.watermarks| == 1 && Matches(r.watermarks[0], e) && r.stateVersion < U64_MAX
    requires Decide(r.watermarks[0], Bounded(e), digest).Applied?
    ensures DecideIncident(r, e, digest).Applied?
    ensures ApplyIncident(r, e, now, digest).watermarks == [Commit(r.watermarks[0], Bounded(e), digest)]
    ensures ApplyIncident(r, e, now, digest).stateVersion == r.stateVersion + 1
  {
    assert Matches(r.watermarks[0], Bounded(e));
  }

  lemma RunOneMore(r: Incident, arrivals: seq<Arrival>, k: nat, digest: Digest)
    requires k < |arrivals|
    ensures RunIncident(r, arrivals[..k + 1], digest) ==
            ApplyIncident(RunIncident(r, arrivals[..k], digest), arrivals[k].event, arrivals[k].now, digest)
  {
    assert arrivals[..k + 1][..k] == arrivals[..k];
    hide ApplyIncident;
  }

  lemma StreamCancelsTwice(w: Watermark, c: Event, digest: Digest)
    requires w.reportNum == c.reportNum && !w.cancel && !w.finalReport && c.cancel && !c.finalReport
    requires digest(c) != digest(c.(finalReport := true))
    ensures var f := c.(finalReport := true);
      var w2 := Commit(w, c, digest);
      var w3 := Commit(w2, f, digest);
      Decide(w, c, digest).Applied? && Decide(w2, f, digest).Applied? && Decide(w3, c, digest).Applied?
  {
  }
}
