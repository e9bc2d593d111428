/** Subscriptions, their validation, and the compiler that turns them into matchable records. */
module Subscriptions {
  import opened Records
  import opened Incidents
  import opened Catalog

  const UNLIMITED_WARNING_DISTANCE_KM: real := 20_000.0
  const UNKNOWN_SOURCE_ID: nat := 0xFFFF

  datatype SourceSelection = All | Include(ids: seq<string>)
  datatype IntensityBand = IntensityBand(min: nat, max: nat, level: InterruptionLevel)
  datatype Point = Point(latitude: real, longitude: real)
  datatype MonitoringTarget = MonitoringTarget(point: Point, province: string, city: string, district: string)

  datatype AlertRule =
    | WarningRule(sources: SourceSelection, bands: seq<IntensityBand>)
    | ReportRule(sources: SourceSelection, minMagnitude: real)
  {
    function Category(): Category {
      if WarningRule? then EarthquakeWarning else EarthquakeReport
    }
  }

  datatype DestinationId = DestinationId(baseUrl: string, deviceKey: string)
  datatype Subscription = Subscription(destination: DestinationId, targets: seq<MonitoringTarget>, alerts: seq<AlertRule>)

  // ---- validation ----

  function SourceIndex(source: string): (r: Option<nat>)
    ensures r.Some? ==> r.value < |SOURCES| && SOURCES[r.value].id == source
    ensures r.None? ==> forall k :: 0 <= k < |SOURCES| ==> SOURCES[k].id != source
  {
    SourceIndexFrom(source, 0)
  }

  function SourceIndexFrom(source: string, from: nat): (r: Option<nat>)
    requires from <= |SOURCES|
    ensures r.Some? ==> from <= r.value < |SOURCES| && SOURCES[r.value].id == source
    ensures r.None? ==> forall k :: from <= k < |SOURCES| ==> SOURCES[k].id != source
    decreases |SOURCES| - from
  {
    if from == |SOURCES| then None
    else if SOURCES[from].id == source then Some(from)
    else SourceIndexFrom(source, from + 1)
  }

  predicate ValidSources(category: Category, sources: SourceSelection) {
    sources.Include? ==>
      && sources.ids != []
      && (forall i, j | 0 <= i < j < |sources.ids| :: sources.ids[i] != sources.ids[j])
      && (forall id | id in sources.ids :: SourceIndex(id).Some? && SOURCES[SourceIndex(id).value].category == category)
  }

  predicate ValidBands(bands: seq<IntensityBand>) {
    && 1 <= |bands| <= 3
    && (forall b | b in bands :: b.min <= b.max <= 7 && (b.level.Critical? ==> b.max == 7))
    && (forall i, j | 0 <= i < j < |bands| :: bands[i].level != bands[j].level && (bands[i].max < bands[j].min || bands[j].max < bands[i].min))
  }

  predicate ValidAlert(alert: AlertRule) {
    ValidSources(alert.Category(), alert.sources) &&
    match alert
    case WarningRule(_, bands) => ValidBands(bands)
    case ReportRule(_, minMagnitude) => 0.0 <= minMagnitude <= 10.0
  }

  /** What matching depends on; the checks on texts, coordinates and the destination are not modelled. */
  predicate Valid(s: Subscription) {
    && 1 <= |s.targets| <= 3
    && 1 <= |s.alerts| <= 2
    && (forall i, j | 0 <= i < j < |s.alerts| :: s.alerts[i].Category() != s.alerts[j].Category())
    && (forall a | a in s.alerts :: ValidAlert(a))
  }

  // ---- compiled form ----

  /** Source masks are modelled as the set of source ids whose bit is on. */
  datatype CompiledTarget = CompiledTarget(ordinal: nat, point: Point, regions: set<nat>, cells: seq<nat>)
  datatype CompiledRule = CompiledRule(
    category: Category, sourceMask: set<nat>, wildcard: bool, minMagnitude: real, minSeverity: nat,
    distanceKm: real, bands: seq<IntensityBand>)
  datatype Compiled = Compiled(id: nat, destination: nat, generation: nat, targets: seq<CompiledTarget>, rules: seq<CompiledRule>)

  /** Everything computed from positions and region names that the model does not define. */
  datatype Geometry = Geometry(
    distance: (Point, Point) -> real,
    hypocentral: (real, real) -> real,
    intensity: (real, real) -> real,
    round: real -> nat,
    meters: real -> nat,
    cents: real -> nat,
    region: string -> Option<nat>,
    cells: Point -> seq<nat>)

  function SourceIdOf(source: string): nat {
    match SourceIndex(source)
    case Some(k) => k + 1
    case None => UNKNOWN_SOURCE_ID
  }

  predicate HasBit(id: nat) {
    1 <= id <= 64
  }

  predicate AcceptsSource(rule: CompiledRule, id: nat) {
    rule.wildcard || (HasBit(id) && id in rule.sourceMask)
  }

  function Mask(ids: seq<string>): Option<set<nat>> {
    if ids == [] then Some({})
    else
      var front, id := Mask(ids[..|ids| - 1]), SourceIdOf(ids[|ids| - 1]);
      if front.Some? && HasBit(id) then Some(front.value + {id}) else None
  }

  function CompileRule(rule: AlertRule): Option<CompiledRule> {
    var mask := if rule.sources.All? then Some({}) else Mask(rule.sources.ids);
    if mask.None? then None
    else
      match rule
      case WarningRule(sources, bands) =>
        Some(CompiledRule(EarthquakeWarning, mask.value, sources.All?, 0.0, 0, UNLIMITED_WARNING_DISTANCE_KM, bands))
      case ReportRule(sources, minMagnitude) =>
        Some(CompiledRule(EarthquakeReport, mask.value, sources.All?, minMagnitude, 0, UNLIMITED_WARNING_DISTANCE_KM, []))
  }

  function CompileRules(rules: seq<AlertRule>): (r: Option<seq<CompiledRule>>)
    ensures r.Some? ==> |r.value| == |rules| && forall i :: 0 <= i < |rules| ==> CompileRule(rules[i]) == Some(r.value[i])
    ensures (forall rule :: rule in rules ==> CompileRule(rule).Some?) ==> r.Some?
  {
    if rules == [] then Some([])
    else
      var first, rest := CompileRule(rules[0]), CompileRules(rules[1..]);
      if first.Some? && rest.Some? then Some([first.value] + rest.value) else None
  }

  function TargetRegions(g: Geometry, t: MonitoringTarget): set<nat> {
    (if g.region(t.province).Some? then {g.region(t.province).value} else {})
    + (if g.region(t.city).Some? then {g.region(t.city).value} else {})
    + (if g.region(t.district).Some? then {g.region(t.district).value} else {})
  }

  function CompileTargets(g: Geometry, targets: seq<MonitoringTarget>): (r: seq<CompiledTarget>)
    ensures |r| == |targets|
    ensures forall i :: 0 <= i < |r| ==>
      r[i] == CompiledTarget(i, targets[i].point, TargetRegions(g, targets[i]), g.cells(targets[i].point))
  {
    seq(|targets|, i requires 0 <= i < |targets| => CompiledTarget(i, targets[i].point, TargetRegions(g, targets[i]), g.cells(targets[i].point)))
  }

  function Compile(g: Geometry, id: nat, destination: nat, generation: nat, s: Subscription): Option<Compiled> {
    if !Valid(s) then None
    else match CompileRules(s.alerts)
      case None => None
      case Some(rules) => Some(Compiled(id, destination, generation, CompileTargets(g, s.targets), rules))
  }

  lemma SourcesAreDistinct()
    ensures forall i, j :: 0 <= i < j < |SOURCES| ==> SOURCES[i].id != SOURCES[j].id
  {
    assert |SOURCES[0].id| == 13 && |SOURCES[1].id| == 12 && |SOURCES[2].id| == 14;
    assert |SOURCES[3].id| == 12 && |SOURCES[4].id| == 12 && |SOURCES[5].id| == 17;
    assert SOURCES[1].id[6] == 's' && SOURCES[3].id[6] == 'f' && SOURCES[4].id[6] == 'c';
  }

  /** A mask holds exactly the ids of the listed sources. */
  lemma {:induction false} MaskHolds(ids: seq<string>, source: string)
    requires forall id :: id in ids ==> SourceIndex(id).Some?
    ensures Mask(ids).Some?
    ensures (HasBit(SourceIdOf(source)) && SourceIdOf(source) in Mask(ids).value) <==> source in ids
    ensures forall id :: id in Mask(ids).value ==> HasBit(id)
  {
    if ids != [] {
      var n := |ids| - 1;
      assert ids == ids[..n] + [ids[n]];
      assert ids[n] in ids;
      MaskHolds(ids[..n], source);
      SourcesAreDistinct();
      assert SourceIdOf(source) == SourceIdOf(ids[n]) && HasBit(SourceIdOf(source)) ==> source == ids[n];
    }
  }

  /** Every valid subscription compiles. */
  lemma ValidCompiles(g: Geometry, id: nat, destination: nat, generation: nat, s: Subscription)
    ensures Compile(g, id, destination, generation, s).Some? <==> Valid(s)
  {
    if Valid(s) {
      forall rule | rule in s.alerts
        ensures CompileRule(rule).Some?
      {
        assert ValidAlert(rule);
        if rule.sources.Include? { MaskHolds(rule.sources.ids, ""); }
      }
    }
  }
}
