/** Compilation preserves meaning: the engine over compiled records agrees with the reference matcher. */
module MatchingTheorems {
  import opened Records
  import opened Incidents
  import opened Catalog
  import opened Subscriptions
  import opened Matching

  /** A warning whose magnitude is negative; the engine's zero threshold refuses it, the reference has none. */
  predicate NegativeWarning(e: Event) {
    e.category.EarthquakeWarning? && e.magnitude.Some? && e.magnitude.value < 0.0
  }

  /** The row the reference verdict stands for. */
  function RowFor(g: Geometry, c: Compiled, e: Event, r: Option<Choice>): Option<Row> {
    if r.None? then None
    else Some(Row(c.destination, c.id, c.generation, r.value.ordinal, 1, r.value.level, g.meters(r.value.distance),
                  g.cents(IntensityAt(g, e, r.value.distance))))
  }

  /** The reference has one verdict. */
  lemma ReferenceSaysOnce(g: Geometry, s: Subscription, e: Event, limit: real, a: Option<Choice>, b: Option<Choice>)
    requires ReferenceSays(g, s, e, limit, a) && ReferenceSays(g, s, e, limit, b)
    ensures a == b
  {
    var at := FindAlert(s.alerts, e.category);
    hide Chosen;
    if at.Some? && SourceMatches(s.alerts[at.value].sources, e.source) && ThresholdMatches(s.alerts[at.value], e) {
      ChosenOnce(g, e, Points(s.targets), Banded(BandsOf(s.alerts[at.value])), limit, a, b);
    }
  }

  /** The compiled rules are found at the places of the alerts they come from. */
  lemma {:induction false} SameRuleFound(alerts: seq<AlertRule>, rules: seq<CompiledRule>, category: Category)
    requires |alerts| == |rules| && forall i :: 0 <= i < |rules| ==> CompileRule(alerts[i]) == Some(rules[i])
    ensures FindRule(rules, category) == FindAlert(alerts, category)
  {
    hide CompileRule;
    if alerts != [] {
      CompiledCategory(alerts[0], rules[0]);
      forall i | 0 <= i < |rules[1..]|
        ensures CompileRule(alerts[1..][i]) == Some(rules[1..][i])
      {
        assert alerts[1..][i] == alerts[i + 1] && rules[1..][i] == rules[i + 1];
      }
      SameRuleFound(alerts[1..], rules[1..], category);
    }
  }

  lemma CompiledCategory(rule: AlertRule, compiled: CompiledRule)
    requires CompileRule(rule) == Some(compiled)
    ensures compiled.category == rule.Category()
    ensures compiled.distanceKm == UNLIMITED_WARNING_DISTANCE_KM && compiled.bands == BandsOf(rule)
  {
    hide Mask;
  }

  /** Source and threshold checks agree, except for warnings with a negative magnitude. */
  lemma SameChecks(rule: AlertRule, compiled: CompiledRule, e: Event)
    requires CompileRule(rule) == Some(compiled) && ValidAlert(rule) && rule.Category() == e.category
    ensures RuleMatches(compiled, e, SourceIdOf(e.source)) <==>
      SourceMatches(rule.sources, e.source) && ThresholdMatches(rule, e) && !NegativeWarning(e)
  {
    if rule.sources.Include? {
      MaskHolds(rule.sources.ids, e.source);
    }
  }

  lemma CompiledPointsAre(g: Geometry, s: Subscription, c: Compiled)
    requires c.targets == CompileTargets(g, s.targets)
    ensures CompiledPoints(c.targets) == Points(s.targets)
    ensures forall i :: 0 <= i < |c.targets| ==> c.targets[i].ordinal == i
  {
  }

  /** For every valid subscription and every event the engine gives the same target, match kind and
      interruption level as the reference with the same distance limit, unless the event is a warning
      with a negative magnitude; then the engine gives nothing. With an estimate that is zero for such
      magnitudes the two disagree exactly on the overlooked warnings. */
  lemma CompilationPreserves(g: Geometry, s: Subscription, c: Compiled, e: Event, cap: real, row: Option<Row>, r: Option<Choice>)
    requires Compile(g, c.id, c.destination, c.generation, s) == Some(c)
    requires EngineSays(g, c, e, cap, row) && ReferenceSays(g, s, e, Min(UNLIMITED_WARNING_DISTANCE_KM, cap), r)
    ensures row == if NegativeWarning(e) then None else RowFor(g, c, e, r)
    ensures ZeroBelow(g) ==> (row == RowFor(g, c, e, r) <==> !Overlooked(g, s, e, Min(UNLIMITED_WARNING_DISTANCE_KM, cap)))
  {
    hide EngineSays, ReferenceSays, Compile, NegativeWarning, ZeroBelow, Overlooked;
    EngineRow(g, s, c, e, cap, row, r);
    if ZeroBelow(g) {
      CompiledIsValid(g, s, c);
      NegativeVerdict(g, s, e, Min(UNLIMITED_WARNING_DISTANCE_KM, cap), r);
    }
  }

  /** So the engine tells of a valid subscription what it asks for in its own words: the nearest target that
      is to be told, at its level, and nothing only when no target is, warnings with a negative magnitude
      apart. */
  lemma EngineTells(g: Geometry, s: Subscription, c: Compiled, e: Event, cap: real, row: Option<Row>, r: Option<Choice>)
    requires Compile(g, c.id, c.destination, c.generation, s) == Some(c)
    requires EngineSays(g, c, e, cap, row) && ReferenceSays(g, s, e, Min(UNLIMITED_WARNING_DISTANCE_KM, cap), r)
    ensures Tells(g, s, e, if cap < 20_000.0 then cap else 20_000.0, r)
    ensures row.Some? <==> r.Some? && !(e.category.EarthquakeWarning? && e.magnitude.Some? && e.magnitude.value < 0.0)
    ensures row.Some? ==> row.value.targetOrdinal == r.value.ordinal && row.value.level == r.value.level && row.value.distanceM == g.meters(r.value.distance)
  {
    hide EngineSays, ReferenceSays, Tells, Compile;
    CompiledIsValid(g, s, c);
    CompilationPreserves(g, s, c, e, cap, row, r);
    VerdictTells(g, s, e, Min(UNLIMITED_WARNING_DISTANCE_KM, cap), r);
  }

  lemma CompiledIsValid(g: Geometry, s: Subscription, c: Compiled)
    requires Compile(g, c.id, c.destination, c.generation, s) == Some(c)
    ensures Valid(s)
  {
    hide Valid;
  }

  lemma EngineRow(g: Geometry, s: Subscription, c: Compiled, e: Event, cap: real, row: Option<Row>, r: Option<Choice>)
    requires Compile(g, c.id, c.destination, c.generation, s) == Some(c)
    requires EngineSays(g, c, e, cap, row) && ReferenceSays(g, s, e, Min(UNLIMITED_WARNING_DISTANCE_KM, cap), r)
    ensures row == if NegativeWarning(e) then None else RowFor(g, c, e, r)
  {
    SameRuleFound(s.alerts, c.rules, e.category);
    CompiledPointsAre(g, s, c);
    var at := FindAlert(s.alerts, e.category);
    hide Chosen, CompileRule, RuleMatches, ValidAlert, NegativeWarning, SourceMatches, ThresholdMatches, CompileTargets, CompileRules, FindRule, FindAlert, IntensityAt, Points, CompiledPoints;
    if at.Some? {
      var rule, compiled := s.alerts[at.value], c.rules[at.value];
      CompiledCategory(rule, compiled);
      SameChecks(rule, compiled, e);
      BandsAgree(rule, compiled);
      if RuleMatches(compiled, e, SourceIdOf(e.source)) {
        SameChoice(g, s, c, e, cap, row, r, at.value);
      }
    }
  }

  lemma BandsAgree(rule: AlertRule, compiled: CompiledRule)
    requires ValidAlert(rule) && compiled.bands == BandsOf(rule)
    ensures rule.WarningRule? ==> BandsOfRule(compiled) == Banded(BandsOf(rule))
  {
  }

  /** For a report rule the bands do not matter. */
  lemma ReportIgnoresBands(g: Geometry, e: Event, points: seq<Point>, a: Bands, b: Bands, limit: real, r: Option<Choice>)
    requires e.category.EarthquakeReport? && Chosen(g, e, points, a, limit, r)
    ensures Chosen(g, e, points, b, limit, r)
  {
  }

  lemma SameChoice(g: Geometry, s: Subscription, c: Compiled, e: Event, cap: real, row: Option<Row>, r: Option<Choice>, at: nat)
    requires FindRule(c.rules, e.category) == Some(at) && at < |c.rules| && RuleMatches(c.rules[at], e, SourceIdOf(e.source))
    requires EngineSays(g, c, e, cap, row) && !e.category.Retired()
    requires FindAlert(s.alerts, e.category) == Some(at) && at < |s.alerts|
    requires Chosen(g, e, Points(s.targets), Banded(BandsOf(s.alerts[at])), Min(UNLIMITED_WARNING_DISTANCE_KM, cap), r)
    requires c.rules[at].distanceKm == UNLIMITED_WARNING_DISTANCE_KM && s.alerts[at].Category() == e.category
    requires s.alerts[at].WarningRule? ==> BandsOfRule(c.rules[at]) == Banded(BandsOf(s.alerts[at]))
    requires CompiledPoints(c.targets) == Points(s.targets) && forall i :: 0 <= i < |c.targets| ==> c.targets[i].ordinal == i
    ensures row == RowFor(g, c, e, r)
  {
    hide Chosen, RuleMatches, FindRule, FindAlert, IntensityAt, BandsOf;
    var points, limit := Points(s.targets), Min(UNLIMITED_WARNING_DISTANCE_KM, cap);
    var choice :| Chosen(g, e, points, BandsOfRule(c.rules[at]), limit, choice) && row == if choice.Some? then Some(RowOf(g, c, e, choice.value)) else None;
    if s.alerts[at].ReportRule? {
      ReportIgnoresBands(g, e, points, BandsOfRule(c.rules[at]), Banded(BandsOf(s.alerts[at])), limit, choice);
    }
    ChosenOnce(g, e, points, Banded(BandsOf(s.alerts[at])), limit, choice, r);
    if r.Some? {
      ChosenInRange(g, e, points, Banded(BandsOf(s.alerts[at])), limit, r);
      assert |points| == |CompiledPoints(c.targets)| == |c.targets|;
    }
  }

  lemma ChosenInRange(g: Geometry, e: Event, points: seq<Point>, bands: Bands, limit: real, r: Option<Choice>)
    requires Chosen(g, e, points, bands, limit, r) && r.Some?
    ensures r.value.ordinal < |points|
  {
  }

  // ---- warnings with a negative magnitude ----

  /** The intensity estimate of the program: zero for every magnitude that is not positive. */
  ghost predicate ZeroBelow(g: Geometry) {
    forall m: real, d: real :: m <= 0.0 ==> g.round(g.intensity(m, d)) == 0
  }

  /** A warning with a negative magnitude that a subscription asks for: it is placed, a target is within
      the limit, and a warning alert accepts its source and has a band that starts at 0. */
  predicate Overlooked(g: Geometry, s: Subscription, e: Event, limit: real) {
    && NegativeWarning(e)
    && Epicenter(e).Some?
    && (exists a :: a in s.alerts && a.WarningRule? && SourceMatches(a.sources, e.source) && StartsAtZero(a.bands))
    && (exists t :: t in s.targets && g.distance(Epicenter(e).value, t.point) <= limit)
  }

  predicate StartsAtZero(bands: seq<IntensityBand>) {
    exists b :: b in bands && b.min == 0
  }

  lemma {:induction false} BandAtZero(bands: seq<IntensityBand>)
    ensures FindBand(bands, 0).Some? <==> StartsAtZero(bands)
  {
    if bands != [] {
      BandAtZero(bands[1..]);
      assert bands == [bands[0]] + bands[1..];
      if FindBand(bands, 0).Some? && bands[0].min != 0 {
        var b :| b in bands[1..] && b.min == 0;
        assert b in bands;
      }
    }
  }

  /** The reference accepts a warning with a negative magnitude exactly when it is overlooked. */
  lemma NegativeVerdict(g: Geometry, s: Subscription, e: Event, limit: real, r: Option<Choice>)
    requires ZeroBelow(g) && Valid(s) && ReferenceSays(g, s, e, limit, r)
    ensures NegativeWarning(e) && r.Some? <==> Overlooked(g, s, e, limit)
  {
    hide Chosen, ZeroBelow, ValidAlert, StartsAtZero, LevelAt;
    if NegativeWarning(e) {
      var at := FindAlert(s.alerts, e.category);
      AlertIsUnique(s, at);
      if at.Some? && SourceMatches(s.alerts[at.value].sources, e.source) {
        var bands := s.alerts[at.value].bands;
        NegativeChoice(g, s, e, bands, limit, r);
      }
    }
  }

  /** A valid subscription has at most one warning alert, the one that is found. */
  lemma AlertIsUnique(s: Subscription, at: Option<nat>)
    requires Valid(s) && at == FindAlert(s.alerts, EarthquakeWarning)
    ensures forall a :: a in s.alerts && a.WarningRule? ==> at.Some? && a == s.alerts[at.value]
    ensures at.Some? ==> s.alerts[at.value].WarningRule? && s.alerts[at.value] in s.alerts
  {
    hide ValidAlert;
  }

  lemma NegativeChoice(g: Geometry, s: Subscription, e: Event, bands: seq<IntensityBand>, limit: real, r: Option<Choice>)
    requires ZeroBelow(g) && NegativeWarning(e) && Chosen(g, e, Points(s.targets), Banded(bands), limit, r)
    ensures r.Some? <==>
      && Epicenter(e).Some? && StartsAtZero(bands)
      && exists t :: t in s.targets && g.distance(Epicenter(e).value, t.point) <= limit
  {
    if Epicenter(e).Some? {
      var at, points := Epicenter(e).value, Points(s.targets);
      forall j | 0 <= j < |points|
        ensures LevelAt(g, e, Banded(bands), limit, g.distance(at, points[j])).Some? <==> g.distance(at, s.targets[j].point) <= limit && StartsAtZero(bands)
      {
        NegativeLevel(g, e, bands, limit, g.distance(at, points[j]));
      }
    }
  }

  lemma NothingFelt(g: Geometry, m: real, d: real)
    requires ZeroBelow(g) && m < 0.0
    ensures g.round(g.intensity(m, d)) == 0
  {
  }

  lemma NegativeLevel(g: Geometry, e: Event, bands: seq<IntensityBand>, limit: real, distance: real)
    requires ZeroBelow(g) && NegativeWarning(e) && Epicenter(e).Some?
    ensures LevelAt(g, e, Banded(bands), limit, distance).Some? <==> distance <= limit && StartsAtZero(bands)
  {
    hide StartsAtZero, FindBand;
    BandAtZero(bands);
    NothingFelt(g, e.magnitude.value, g.hypocentral(distance, Depth(e)));
  }

  // ---- the exception is real ----

  /** One place, and an estimate that is zero for magnitudes that are not positive and 5 for others. */
  const OnePlace := Geometry((a, b) => 0.0, (a, b) => 0.0, (m, d) => if m <= 0.0 then 0.0 else 5.0,
                             i => if i <= 0.0 then 0 else 5, d => 0, i => 0, s => None, p => [])
  const Everything := Subscription(DestinationId("", ""), [MonitoringTarget(Point(0.0, 0.0), "", "", "")],
                                   [WarningRule(All, [IntensityBand(0, 7, Critical)])])

  /** Any placed warning with a negative magnitude is announced by the reference and not by the engine,
      for a subscription that watches all intensities. */
  lemma NegativeMagnitudeDiffers(e: Event, c: Compiled, row: Option<Row>, r: Option<Choice>)
    requires NegativeWarning(e) && Epicenter(e).Some?
    requires Compile(OnePlace, c.id, c.destination, c.generation, Everything) == Some(c)
    requires ReferenceSays(OnePlace, Everything, e, UNLIMITED_WARNING_DISTANCE_KM, r)
    requires EngineSays(OnePlace, c, e, UNLIMITED_WARNING_DISTANCE_KM, row)
    ensures r.Some? && r.value.level == Critical && row.None?
  {
    hide ReferenceSays, EngineSays, Compile, ZeroBelow;
    var limit := UNLIMITED_WARNING_DISTANCE_KM;
    OnePlaceIsZeroBelow();
    CompilationPreserves(OnePlace, Everything, c, e, limit, row, r);
    assert Everything.alerts[0] in Everything.alerts && Everything.targets[0] in Everything.targets;
    assert Everything.alerts[0].bands[0] in Everything.alerts[0].bands;
    assert Overlooked(OnePlace, Everything, e, limit);
    CriticalVerdict(e, r);
  }

  lemma OnePlaceIsZeroBelow()
    ensures ZeroBelow(OnePlace)
  {
  }

  lemma CriticalVerdict(e: Event, r: Option<Choice>)
    requires e.category.EarthquakeWarning? && ReferenceSays(OnePlace, Everything, e, UNLIMITED_WARNING_DISTANCE_KM, r)
    ensures r.Some? ==> r.value.level == Critical
  {
    assert FindAlert(Everything.alerts, EarthquakeWarning) == Some(0);
  }

  // ---- administrative regions ----

  ghost predicate Sorted(s: seq<nat>) {
    forall i, j :: 0 <= i < j < |s| ==> s[i] < s[j]
  }

  /** The merge walk over two sorted lists finds a common region exactly when there is one. */
  method RegionsIntersect(left: seq<nat>, right: seq<nat>) returns (r: bool)
    requires Sorted(left) && Sorted(right)
    ensures r <==> exists x :: x in left && x in right
  {
    var i, j := 0, 0;
    while i < |left| && j < |right|
      invariant 0 <= i <= |left| && 0 <= j <= |right|
      invariant forall x :: x in left[..i] ==> x !in right
      invariant forall x :: x in right[..j] ==> x !in left
      decreases |left| - i + |right| - j
    {
      if left[i] < right[j] {
        NotInRest(left[i], right, j);
        assert left[..i + 1] == left[..i] + [left[i]];
        i := i + 1;
      } else if left[i] == right[j] {
        assert left[i] in left && left[i] in right;
        return true;
      } else {
        NotInRest(right[j], left, i);
        assert right[..j + 1] == right[..j] + [right[j]];
        j := j + 1;
      }
    }
    assert left == left[..i] + left[i..] && right == right[..j] + right[j..];
    r := false;
  }

  lemma NotInRest(x: nat, s: seq<nat>, k: nat)
    requires Sorted(s) && k < |s| && x < s[k] && x !in s[..k]
    ensures x !in s
  {
    forall i | 0 <= i < |s|
      ensures s[i] != x
    {
      if i < k { assert s[i] == s[..k][i]; }
    }
  }
}
