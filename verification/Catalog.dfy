/**
 The incident keyspaces: incidents with their alias and correlation indexes, events, match jobs and
 the inbox, and what one committed write batch does to them.
 */
module Catalog {
  import opened Records
  import opened Incidents
  import opened EventKeys
  import opened IncidentRecords

  const CORRELATION_WINDOW_SECONDS: int := 120
  const MAX_CORRELATION_CANDIDATES: nat := 1_024
  const CORRELATION_DISTANCE_KM: real := 100.0
  const CORRELATION_MAGNITUDE_DELTA: real := 1.0

  // ---- the source registry ----

  datatype SourceDefinition = SourceDefinition(id: string, providerKey: string, channel: Channel, category: Category)

  const SOURCES: seq<SourceDefinition> := [
    SourceDefinition("wolfx.jma_eew", "jma_eew", Wolfx, EarthquakeWarning),
    SourceDefinition("wolfx.sc_eew", "sc_eew", Wolfx, EarthquakeWarning),
    SourceDefinition("wolfx.cenc_eew", "cenc_eew", Wolfx, EarthquakeWarning),
    SourceDefinition("wolfx.fj_eew", "fj_eew", Wolfx, EarthquakeWarning),
    SourceDefinition("wolfx.cq_eew", "cq_eew", Wolfx, EarthquakeWarning),
    SourceDefinition("wolfx.cenc_eqlist", "cenc_eqlist", Wolfx, EarthquakeReport)]

  /** Category and provider of an event are those of its registered source. */
  predicate Registered(e: Event) {
    exists k | 0 <= k < |SOURCES| :: SOURCES[k].id == e.source && SOURCES[k].channel == e.channel && SOURCES[k].category == e.category
  }

  // ---- keys ----

  /** The digest of (category, source, event id) that names a stream in the correlation index. */
  datatype StreamKey = StreamKey(category: Category, source: string, eventId: string)
  datatype CorrelationKey = CorrelationKey(epoch: nat, incident: IncidentId, stream: StreamKey)
  datatype AliasKey = AliasKey(incident: IncidentId, alias: KeyText)
  datatype ReverseKey = ReverseKey(incident: IncidentId, stream: StreamKey)

  function StreamKeyOf(e: Event): StreamKey { StreamKey(e.category, e.source, e.eventId) }

  /** The alias and correlation indexes, each with its reverse. */
  datatype Indexes = Indexes(
    aliases: map<KeyText, IncidentId>,
    aliasesOf: map<AliasKey, KeyText>,
    correlation: map<CorrelationKey, IncidentId>,
    correlationOf: map<ReverseKey, CorrelationKey>)

  datatype Catalog = Catalog(
    incidents: map<IncidentId, Incident>,
    index: Indexes,
    events: map<nat, Event>,
    jobs: map<nat, Job>,
    inbox: map<nat, Event>,
    rejected: map<nat, Event>,
    lastInbox: nat, lastJob: nat, lastRevision: nat)

  /** What the catalog computes from event texts and positions but does not define: the occurrence time
      in seconds, the distance between two positions in kilometres, the update digest, and the place of a
      correlation key in the order of its bytes, which follows hashed ids. */
  datatype World = World(
    epoch: Event -> Option<int>, distance: (real, real, real, real) -> Option<real>, digest: Digest,
    rank: CorrelationKey -> int)

  datatype Policy = Policy(
    pushUpdates: bool, updateMinReportGap: nat, ignoreTraining: bool, ignoreCancel: bool, staleOriginSeconds: int)

  // ---- ingest ----

  function Ingest(c: Catalog, events: seq<Event>): Catalog {
    if events == [] then c
    else
      var rest := Ingest(c, events[..|events| - 1]);
      rest.(inbox := rest.inbox[rest.lastInbox + 1 := events[|events| - 1]], lastInbox := rest.lastInbox + 1)
  }

  /** At most 1024 events, all of one provider and of registered sources. */
  predicate IngestAccepted(provider: Channel, events: seq<Event>) {
    |events| <= 1_024 && forall e | e in events :: e.channel == provider && Registered(e)
  }

  /** A provider stores its cursor under the provider key of one of its sources. */
  datatype Cursor = Cursor(stream: string, value: string)

  predicate CursorKnown(provider: Channel, cursor: Option<Cursor>) {
    cursor.Some? ==> exists k | 0 <= k < |SOURCES| :: SOURCES[k].channel == provider && SOURCES[k].providerKey == cursor.value.stream
  }

  // ---- resolution ----

  function Delta(a: real, b: real): real {
    if a < b then b - a else a - b
  }

  /** How badly two reports of different sources fit together; None when they cannot be one earthquake. */
  function Score(w: World, current: Event, candidate: Event, seconds: nat): Option<real> {
    if !current.category.Earthquake() || current.source == candidate.source then None
    else if current.latitude.None? || current.longitude.None? || candidate.latitude.None? || candidate.longitude.None? then None
    else
      var distance := w.distance(current.latitude.value, current.longitude.value, candidate.latitude.value, candidate.longitude.value);
      if distance.None? || distance.value > CORRELATION_DISTANCE_KM then None
      else
        var delta := if current.magnitude.Some? && candidate.magnitude.Some? then Delta(current.magnitude.value, candidate.magnitude.value) else 0.0;
        if delta > CORRELATION_MAGNITUDE_DELTA then None
        else Some(seconds as real / CORRELATION_WINDOW_SECONDS as real + distance.value / CORRELATION_DISTANCE_KM + delta / CORRELATION_MAGNITUDE_DELTA)
  }

  function Distance(a: int, b: int): nat {
    if a < b then b - a else a - b
  }

  /** The correlation entries inside the time window of an event. */
  function Window(c: Catalog, occurred: int): set<CorrelationKey> {
    set k | k in c.index.correlation && NonNegative(occurred - CORRELATION_WINDOW_SECONDS) <= k.epoch <= NonNegative(occurred + CORRELATION_WINDOW_SECONDS)
  }

  predicate HasSource(r: Incident, source: string) {
    exists e | e in r.latestBySource :: e.source == source
  }

  /** The candidate entry offers this score through one of the reports of its incident. */
  predicate Offers(c: Catalog, w: World, e: Event, occurred: int, k: CorrelationKey, score: real) {
    && k in Window(c, occurred)
    && c.index.correlation[k] in c.incidents
    && !HasSource(c.incidents[c.index.correlation[k]], e.source)
    && exists current | current in c.incidents[c.index.correlation[k]].latestBySource :: Score(w, current, e, Distance(k.epoch, occurred)) == Some(score)
  }

  /** The correlated incident has the least score, the first key of equals. */
  ghost predicate Correlates(c: Catalog, w: World, e: Event, found: Option<IncidentId>) {
    if !e.category.Earthquake() || w.epoch(e).None? then found.None?
    else
      var occurred := w.epoch(e).value;
      match found
      case None => forall k, score :: !Offers(c, w, e, occurred, k, score)
      case Some(id) => exists k, score :: Offers(c, w, e, occurred, k, score) && c.index.correlation[k] == id
                         && forall k', score' :: Offers(c, w, e, occurred, k', score') ==> score < score' || (score == score' && w.rank(k) <= w.rank(k'))
  }

  datatype Resolution = Resolved(id: IncidentId) | TooManyCandidates | Broken

  /** The incident an event belongs to: by its alias, else by correlation, else a new one. */
  ghost predicate Resolves(c: Catalog, w: World, e: Event, r: Resolution) {
    var key := KeyOfEvent(e);
    if key in c.index.aliases then
      r == if c.index.aliases[key] in c.incidents then Resolved(c.index.aliases[key]) else Broken
    else if e.category.Earthquake() && w.epoch(e).Some? && exists k :: k in Window(c, w.epoch(e).value) && c.index.correlation[k] !in c.incidents then
      r.Broken? || (r.TooManyCandidates? && |Window(c, w.epoch(e).value)| > MAX_CORRELATION_CANDIDATES)
    else if e.category.Earthquake() && w.epoch(e).Some? && |Window(c, w.epoch(e).value)| > MAX_CORRELATION_CANDIDATES then
      r.TooManyCandidates?
    else
      exists found :: Correlates(c, w, e, found) && r == Resolved(if found.Some? then found.value else IncidentId(key))
  }

  // ---- match decision ----

  const EARTHQUAKE_REPORT_MIN_STALE_ORIGIN_SECONDS: int := 3_600

  function DivEuclid(x: int, n: int): int
    requires n > 0
  {
    x / n
  }

  predicate StaleOrigin(w: World, e: Event, limitSeconds: int, now: int) {
    limitSeconds > 0 &&
    match e.category
    case Tsunami => false
    case Typhoon => false
    case _ =>
      var limit := if e.category.EarthquakeReport? && limitSeconds < EARTHQUAKE_REPORT_MIN_STALE_ORIGIN_SECONDS
                   then EARTHQUAKE_REPORT_MIN_STALE_ORIGIN_SECONDS else limitSeconds;
      w.epoch(e).None? || DivEuclid(now, 1_000) - w.epoch(e).value > limit
  }

  predicate ShouldMatch(w: World, p: Policy, current: Option<Incident>, e: Event, now: int) {
    if e.category.Retired() || (e.training && p.ignoreTraining) || (e.cancel && p.ignoreCancel)
       || StaleOrigin(w, e, p.staleOriginSeconds, now) then false
    else if e.cancel || current.None? then true
    else if !p.pushUpdates then false
    else
      var at := Find(current.value.watermarks, e);
      var previous := if at.Some? then current.value.watermarks[at.value].reportNum else 0;
      var gap := if p.updateMinReportGap < 1 then 1 else p.updateMinReportGap;
      e.reportNum - previous >= gap || e.finalReport
  }

  // ---- committing an incident ----

  predicate KeepUnmatched(r: Incident, e: Event, stored: bool, ledger: bool) {
    r.hasMatched || r.pendingJobs > 0 || ledger
    || (r.category.EarthquakeReport? && (stored || (!e.training && !e.cancel)))
  }

  predicate KeepAfterEmptyMatch(r: Incident, ledger: bool) {
    r.hasMatched || r.pendingJobs > 0 || ledger || r.category.EarthquakeReport?
  }

  /** The alias and correlation entries of the incidents, found through the reverse indexes. */
  function AliasEntries(x: Indexes, ids: set<IncidentId>): set<AliasKey> {
    set a | a in x.aliasesOf && a.incident in ids
  }

  function CorrelationEntries(x: Indexes, ids: set<IncidentId>): set<ReverseKey> {
    set r | r in x.correlationOf && r.incident in ids
  }

  function RemoveIndexes(x: Indexes, ids: set<IncidentId>): Indexes {
    var aliases, reverse := AliasEntries(x, ids), CorrelationEntries(x, ids);
    Indexes(x.aliases - (set a | a in aliases :: x.aliasesOf[a]),
            x.aliasesOf - aliases,
            x.correlation - (set r | r in reverse :: x.correlationOf[r]),
            x.correlationOf - reverse)
  }

  /** Every reverse entry of these incidents is matched by its forward entry. */
  predicate IndexesMatch(x: Indexes, ids: set<IncidentId>) {
    && (forall a | a in x.aliasesOf :: a.incident in ids ==> x.aliasesOf[a] in x.aliases && x.aliases[x.aliasesOf[a]] == a.incident)
    && (forall r | r in x.correlationOf :: r.incident in ids ==> x.correlationOf[r] in x.correlation && x.correlation[x.correlationOf[r]] == r.incident)
  }

  /** The record as it is stored: what the caller reduced, with the counters of the stored one. */
  function Merged(c: Catalog, r: Incident, hasJob: bool): Incident {
    var carried := if r.id in c.incidents
                   then r.(hasMatched := r.hasMatched || c.incidents[r.id].hasMatched, pendingJobs := c.incidents[r.id].pendingJobs)
                   else r;
    if hasJob then carried.(pendingJobs := carried.pendingJobs + 1) else carried
  }

  function PutAliases(x: Indexes, id: IncidentId, keys: seq<KeyText>): Indexes {
    if keys == [] then x
    else
      var rest, key := PutAliases(x, id, keys[..|keys| - 1]), keys[|keys| - 1];
      rest.(aliases := rest.aliases[key := id], aliasesOf := rest.aliasesOf[AliasKey(id, key) := key])
  }

  function PutCorrelation(x: Indexes, w: World, id: IncidentId, e: Event): Indexes {
    if !e.category.Earthquake() || w.epoch(e).None? then x
    else
      var reverse := ReverseKey(id, StreamKeyOf(e));
      var key := CorrelationKey(NonNegative(w.epoch(e).value), id, StreamKeyOf(e));
      var cleared := if reverse in x.correlationOf then x.correlation - {x.correlationOf[reverse]} else x.correlation;
      x.(correlation := cleared[key := id], correlationOf := x.correlationOf[reverse := key])
  }

  function PutJob(c: Catalog, e: Event, job: Option<Job>): Catalog {
    match job
    case None => c
    case Some(j) => c.(events := c.events[j.revision := e], jobs := c.jobs[j.id := j])
  }

  predicate Discards(c: Catalog, r: Incident, e: Event, job: Option<Job>, ledger: bool) {
    job.None? && !KeepUnmatched(Merged(c, r, false), e, r.id in c.incidents, ledger)
  }

  /** The incident transition is refused when an alias belongs to another incident, or, on the discard
      path, when the reverse indexes are broken. */
  predicate CommitAccepted(c: Catalog, r: Incident, e: Event, job: Option<Job>, ledger: bool) {
    if Discards(c, r, e, job, ledger) then r.id in c.incidents ==> IndexesMatch(c.index, {r.id})
    else forall key | key in r.sourceEventKeys :: key in c.index.aliases ==> c.index.aliases[key] == r.id
  }

  function CommitIncident(c: Catalog, w: World, r: Incident, e: Event, job: Option<Job>, ledger: bool, item: nat): Catalog {
    if Discards(c, r, e, job, ledger) then
      if r.id in c.incidents then
        c.(inbox := c.inbox - {item}, incidents := c.incidents - {r.id}, index := RemoveIndexes(c.index, {r.id}))
      else c.(inbox := c.inbox - {item})
    else
      PutJob(c, e, job).(
        inbox := c.inbox - {item},
        incidents := c.incidents[r.id := Merged(c, r, job.Some?)],
        index := PutCorrelation(PutAliases(c.index, r.id, r.sourceEventKeys), w, r.id, e))
  }

  // ---- processing the inbox ----

  predicate IsNext(c: Catalog, item: nat) {
    item in c.inbox && forall other | other in c.inbox :: item <= other
  }

  function Reject(c: Catalog, item: nat): Catalog
    requires item in c.inbox
  {
    c.(rejected := c.rejected[item := c.inbox[item]], inbox := c.inbox - {item})
  }

  /** What processing the next inbox item does. The two id counters advance even if the commit fails. */
  function Process(c: Catalog, w: World, p: Policy, item: nat, r: Resolution, now: int, ledger: IncidentId -> bool): Catalog
    requires item in c.inbox
  {
    var e := c.inbox[item];
    if e.category.Retired() then c.(inbox := c.inbox - {item})
    else match r
      case Broken => c
      case TooManyCandidates => Reject(c, item)
      case Resolved(id) =>
        var current := if id in c.incidents then Some(c.incidents[id]) else None;
        match ReduceSpec(current, e, KeyOfEvent(e), now, w.digest)
        case Failed(_) => Reject(c, item)
        case Reduced(next, outcome) =>
          if !outcome.Applied? then c.(inbox := c.inbox - {item})
          else Advance(c, w, item, e, next, if ShouldMatch(w, p, current, e, now) then Some(id) else None, now, ledger(next.id))
  }

  /** Commits the reduced incident, with a new match job when there is something to match. */
  function Advance(c: Catalog, w: World, item: nat, e: Event, next: Incident, matched: Option<IncidentId>, now: int, ledger: bool): Catalog {
    match matched
    case None => if CommitAccepted(c, next, e, None, ledger) then CommitIncident(c, w, next, e, None, ledger, item) else c
    case Some(id) =>
      var job := Job(c.lastJob + 1, id, c.lastRevision + 1, now);
      var c' := c.(lastJob := c.lastJob + 1, lastRevision := c.lastRevision + 1);
      if CommitAccepted(c', next, e, Some(job), ledger) then CommitIncident(c', w, next, e, Some(job), ledger, item) else c'
  }

  // ---- match output ----

  predicate BatchesFit(c: Catalog, job: Job, batches: seq<Batch>) {
    && job.revision in c.events
    && forall b | b in batches :: b.incident == job.incident && b.revision == job.revision && b.category == c.events[job.revision].category
  }

  /** The checks on the match job; those on the batches themselves are in DeliverySpec. */
  predicate MatchAccepted(c: Catalog, id: nat, batches: seq<Batch>, ledger: bool) {
    && id in c.jobs && c.jobs[id].id == id
    && BatchesFit(c, c.jobs[id], batches)
    && (c.jobs[id].incident in c.incidents ==>
          var r := c.incidents[c.jobs[id].incident];
          r.pendingJobs > 0
          && (batches == [] && !KeepAfterEmptyMatch(r.(pendingJobs := r.pendingJobs - 1), ledger) ==> IndexesMatch(c.index, {r.id})))
  }

  function CommitMatchJob(c: Catalog, id: nat, batches: seq<Batch>, ledger: bool): Catalog
    requires MatchAccepted(c, id, batches, ledger)
  {
    var job := c.jobs[id];
    var done := c.(jobs := c.jobs - {id}, events := if batches == [] then c.events - {job.revision} else c.events);
    if job.incident !in c.incidents then done
    else
      var r := c.incidents[job.incident];
      var less := r.(pendingJobs := r.pendingJobs - 1);
      if batches == [] && !KeepAfterEmptyMatch(less, ledger) then
        done.(incidents := c.incidents - {r.id}, index := RemoveIndexes(c.index, {r.id}))
      else
        done.(incidents := c.incidents[r.id := less.(hasMatched := less.hasMatched || batches != [])])
  }

  // ---- pruning ----

  datatype References = References(incidents: set<IncidentId>, revisions: set<nat>)

  /** Old events that nothing refers to, and old incidents that nothing refers to and nobody was told about. */
  function PrunedEvents(c: Catalog, w: World, refs: References, cutoff: int): set<nat> {
    set k | k in c.events && (if w.epoch(c.events[k]).Some? then w.epoch(c.events[k]).value * 1_000 else 0) <= cutoff && k !in refs.revisions
  }

  function PrunedIncidents(c: Catalog, refs: References, cutoff: int, ledger: IncidentId -> bool): set<IncidentId> {
    set id | id in c.incidents && c.incidents[id].updatedAt <= cutoff && id !in refs.incidents && !ledger(id)
  }

  function Prune(c: Catalog, w: World, refs: References, incidentCutoff: int, eventCutoff: int, ledger: IncidentId -> bool): Catalog {
    var ids := PrunedIncidents(c, refs, incidentCutoff, ledger);
    c.(incidents := c.incidents - ids, index := RemoveIndexes(c.index, ids), events := c.events - PrunedEvents(c, w, refs, eventCutoff))
  }
}
