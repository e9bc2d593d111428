/**
 Incident records: one watermark for every stream of reports, and the rules that accept, ignore or
 refuse a report. The digest of an update is a parameter: nothing here needs it to be injective.
 */
module Incidents {
  import opened Records

  const MAX_INCIDENT_TIMELINE := 16
  const MAX_LATEST_SOURCES := 8
  const MAX_SOURCE_EVENT_KEYS := 32
  const MAX_STREAM_WATERMARKS := 32
  const MAX_CURRENT_REPORT_UPDATES := 16
  const U64_MAX: nat := 0xFFFF_FFFF_FFFF_FFFF

  datatype Channel = Wolfx | Huania | FanStudio

  /** Reports carry an 8-bit level. */
  newtype Level = x: int | 0 <= x < 256

  datatype Event = Event(
    category: Category, channel: Channel, source: string, eventId: string, revision: string, reportNum: nat,
    title: string, description: string, latitude: Option<real>, longitude: Option<real>,
    magnitude: Option<real>, depthKm: Option<real>, affectedRegions: seq<string>, radiusKm: Option<real>,
    level: Level, occurredAt: string, finalReport: bool, cancel: bool, training: bool)

  type Digest = Event -> string

  datatype Capacity = StreamWatermarks | CurrentReportUpdates | SourceEventKeys | StateVersions | CorrelationCandidates
  datatype Outcome = Applied | Replay | Rejected | CapacityExceeded(capacity: Capacity)
  {
    predicate ShouldProject() { Applied? || Replay? }
  }

  datatype Watermark = Watermark(
    category: Category, source: string, eventId: string, reportNum: nat, level: Level,
    finalReport: bool, cancel: bool, updates: seq<string>)

  datatype Summary = Summary(
    category: Category, source: string, reportNum: nat, revision: string, observedAt: int,
    magnitude: Option<real>, latitude: Option<real>, longitude: Option<real>, depthKm: Option<real>,
    level: Level, finalReport: bool, cancel: bool)

  /** The stored form of an incident. */
  datatype Incident = Incident(
    id: IncidentId, category: Category, firstSeenAt: int, updatedAt: int, stateVersion: nat,
    sourceEventKeys: seq<KeyText>, latestBySource: seq<Event>, watermarks: seq<Watermark>,
    timeline: seq<Summary>, hasMatched: bool, pendingJobs: nat)

  // ---- bounded copies ----

  function Truncate<T>(s: seq<T>, n: nat): (r: seq<T>)
    ensures |r| <= n && r <= s
    ensures |s| <= n ==> r == s
  {
    if |s| > n then s[..n] else s
  }

  function TruncateAll(regions: seq<string>): (r: seq<string>)
    ensures |r| == |regions|
    ensures forall i :: 0 <= i < |r| ==> r[i] == Truncate(regions[i], 80)
  {
    seq(|regions|, i requires 0 <= i < |regions| => Truncate(regions[i], 80))
  }

  /** Long texts and region lists are cut before they are stored or digested. */
  function Bounded(e: Event): Event {
    e.(title := Truncate(e.title, 180), description := Truncate(e.description, 4_000),
       occurredAt := Truncate(e.occurredAt, 80), affectedRegions := TruncateAll(Truncate(e.affectedRegions, 20)))
  }

  // ---- one stream ----

  predicate Matches(w: Watermark, e: Event) {
    w.category == e.category && w.source == e.source && w.eventId == e.eventId
  }

  predicate TerminalTransition(w: Watermark, e: Event) {
    (e.cancel && !w.cancel) || (e.finalReport && !w.finalReport)
  }

  predicate SafetyTransition(w: Watermark, e: Event) {
    TerminalTransition(w, e) || e.level > w.level
  }

  /** The decision on a report of a known stream. */
  function Decide(w: Watermark, e: Event, digest: Digest): Outcome {
    if (w.cancel && !e.cancel) || (w.finalReport && !e.finalReport && !e.cancel) then Rejected
    else if e.reportNum > w.reportNum then Applied
    else if e.reportNum < w.reportNum then
      if TerminalTransition(w, e) then Applied
      else if ((e.cancel && w.cancel) || (e.finalReport && w.finalReport)) && digest(e) in w.updates then Replay
      else Rejected
    else if TerminalTransition(w, e) then Applied
    else if e.level > w.level then Applied
    else if e.level < w.level then Rejected
    else if digest(e) in w.updates then Replay
    else if |w.updates| < MAX_CURRENT_REPORT_UPDATES then Applied
    else CapacityExceeded(CurrentReportUpdates)
  }

  function Remember(updates: seq<string>, update: string, replaceOldest: bool): seq<string> {
    if update in updates then updates
    else if |updates| >= MAX_CURRENT_REPORT_UPDATES then
      if replaceOldest then updates[1..] + [update] else updates
    else updates + [update]
  }

  function Commit(w: Watermark, e: Event, digest: Digest): Watermark {
    var safety := SafetyTransition(w, e);
    var kept := if e.reportNum > w.reportNum || (safety && e.reportNum == w.reportNum) then [] else w.updates;
    var newest := e.reportNum >= w.reportNum;
    w.(reportNum := if newest then e.reportNum else w.reportNum,
       level := if newest then e.level else w.level,
       finalReport := w.finalReport || e.finalReport,
       cancel := w.cancel || e.cancel,
       updates := Remember(kept, digest(e), safety && newest))
  }

  function Stream(e: Event, digest: Digest): Watermark {
    Watermark(e.category, e.source, e.eventId, e.reportNum, e.level, e.finalReport, e.cancel, [digest(e)])
  }

  // ---- the record ----

  function Find(ws: seq<Watermark>, e: Event): (r: Option<nat>)
    ensures r.Some? ==> r.value < |ws| && Matches(ws[r.value], e) && forall i :: 0 <= i < r.value ==> !Matches(ws[i], e)
    ensures r.None? ==> forall i :: 0 <= i < |ws| ==> !Matches(ws[i], e)
  {
    if ws == [] then None
    else if Matches(ws[0], e) then Some(0)
    else
      var rest := Find(ws[1..], e);
      if rest.Some? then
        assert forall i :: 0 < i <= rest.value ==> ws[i] == ws[1..][i - 1];
        Some(rest.value + 1)
      else
        assert forall i :: 0 < i < |ws| ==> ws[i] == ws[1..][i - 1];
        None
  }

  predicate SameStream(a: Event, b: Event) {
    a.source == b.source && a.category == b.category && a.eventId == b.eventId
  }

  function FindLatest(es: seq<Event>, e: Event): (r: Option<nat>)
    ensures r.Some? ==> r.value < |es| && SameStream(es[r.value], e)
    ensures r.None? ==> forall i :: 0 <= i < |es| ==> !SameStream(es[i], e)
  {
    if es == [] then None
    else if SameStream(es[0], e) then Some(0)
    else
      var rest := FindLatest(es[1..], e);
      if rest.Some? then Some(rest.value + 1)
      else
        assert forall i :: 0 < i < |es| ==> es[i] == es[1..][i - 1];
        None
  }

  function SummaryOf(e: Event, now: int): Summary {
    Summary(e.category, e.source, e.reportNum, e.revision, now, e.magnitude, e.latitude, e.longitude,
            e.depthKm, e.level, e.finalReport, e.cancel)
  }

  predicate SameReport(a: Summary, b: Summary) {
    a.(observedAt := 0) == b.(observedAt := 0)
  }

  function PushTimeline(timeline: seq<Summary>, x: Summary): seq<Summary> {
    if timeline != [] && SameReport(timeline[|timeline| - 1], x) then timeline
    else (if |timeline| >= MAX_INCIDENT_TIMELINE then timeline[1..] else timeline) + [x]
  }

  function PutLatest(es: seq<Event>, e: Event): seq<Event> {
    var at := FindLatest(es, e);
    if at.Some? then es[at.value := e]
    else (if |es| >= MAX_LATEST_SOURCES then es[1..] else es) + [e]
  }

  function DecideIncident(r: Incident, e: Event, digest: Digest): Outcome {
    var at := Find(r.watermarks, Bounded(e));
    if r.stateVersion == U64_MAX then CapacityExceeded(StateVersions)
    else if at.Some? then Decide(r.watermarks[at.value], Bounded(e), digest)
    else if |r.watermarks| >= MAX_STREAM_WATERMARKS then CapacityExceeded(StreamWatermarks)
    else Applied
  }

  function ApplyIncident(r: Incident, e: Event, now: int, digest: Digest): Incident {
    if !DecideIncident(r, e, digest).Applied? then r
    else
      var b := Bounded(e);
      var at := Find(r.watermarks, b);
      r.(watermarks := if at.Some? then r.watermarks[at.value := Commit(r.watermarks[at.value], b, digest)]
                       else r.watermarks + [Stream(b, digest)],
         timeline := PushTimeline(r.timeline, SummaryOf(b, now)),
         latestBySource := PutLatest(r.latestBySource, b),
         updatedAt := if r.updatedAt < now then now else r.updatedAt,
         stateVersion := r.stateVersion + 1)
  }

  function NewIncident(id: IncidentId, e: Event, key: KeyText, now: int, digest: Digest): Incident {
    var b := Bounded(e);
    Incident(id, b.category, now, now, 1, [key], [b], [Stream(b, digest)], [SummaryOf(b, now)], false, 0)
  }

  /** The keys that are new, in order, each once; empty keys are skipped. */
  function NewKeys(known: seq<KeyText>, keys: seq<KeyText>): (r: seq<KeyText>)
    ensures forall k :: k in r <==> k in keys && k != "" && k !in known
    ensures Distinct(r)
  {
    if keys == [] then []
    else
      var front, last := NewKeys(known, keys[..|keys| - 1]), keys[|keys| - 1];
      assert keys == keys[..|keys| - 1] + [last];
      if last == "" || last in known || last in front then front else front + [last]
  }
}
