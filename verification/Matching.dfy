/**
 Matching one subscription against an event: the reference matcher over the subscription itself and
 the engine's matcher over the compiled record, both proved against one declarative description.
 */
module Matching {
  import opened Records
  import opened Incidents
  import opened Catalog
  import opened Subscriptions

  // ---- what both matchers agree on ----

  function Depth(e: Event): real {
    if e.depthKm.Some? && e.depthKm.value > 0.0 then e.depthKm.value else 0.0
  }

  function Epicenter(e: Event): Option<Point> {
    if e.latitude.Some? && e.longitude.Some? then Some(Point(e.latitude.value, e.longitude.value)) else None
  }

  function Estimate(g: Geometry, e: Event, distance: real): real
    requires e.magnitude.Some?
  {
    g.intensity(e.magnitude.value, g.hypocentral(distance, Depth(e)))
  }

  function FindBand(bands: seq<IntensityBand>, value: nat): Option<IntensityBand> {
    if bands == [] then None
    else if bands[0].min <= value <= bands[0].max then Some(bands[0])
    else FindBand(bands[1..], value)
  }

  /** Band i covers the value and none before it does. */
  ghost predicate FirstCover(bands: seq<IntensityBand>, value: nat, i: nat) {
    && i < |bands| && bands[i].min <= value <= bands[i].max
    && forall j :: 0 <= j < i ==> !(bands[j].min <= value <= bands[j].max)
  }

  /** The search finds the first band that covers the value, and fails only when none does. */
  lemma {:induction false} BandFound(bands: seq<IntensityBand>, value: nat) returns (i: nat)
    ensures if FindBand(bands, value).Some? then FirstCover(bands, value, i) && bands[i] == FindBand(bands, value).value
            else forall j :: 0 <= j < |bands| ==> !(bands[j].min <= value <= bands[j].max)
  {
    i := 0;
    if bands != [] && !(bands[0].min <= value <= bands[0].max) {
      var k := BandFound(bands[1..], value);
      assert forall j :: 0 < j < |bands| ==> bands[j] == bands[1..][j - 1];
      i := k + 1;
    }
  }

  /** The bands of a valid alert do not overlap, so the band found is the only one that covers the value. */
  lemma OnlyBand(bands: seq<IntensityBand>, value: nat, b: IntensityBand)
    requires ValidBands(bands)
    ensures FindBand(bands, value) == Some(b) <==> b in bands && b.min <= value <= b.max
  {
    var f := BandFound(bands, value);
    if b in bands && b.min <= value <= b.max {
      var i :| 0 <= i < |bands| && bands[i] == b;
      assert i == f;
    }
  }

  function BarkLevel(level: Level): InterruptionLevel {
    if level >= 3 then Critical else if level >= 2 then Active else Passive
  }

  /** The intensity bands of a rule; a compiled rule without any falls back to the event's own level. */
  datatype Bands = Banded(bands: seq<IntensityBand>) | Bark

  /** The event can be placed and, for a warning, its intensity estimated. */
  predicate Placeable(e: Event) {
    e.category.Earthquake() && Epicenter(e).Some? && (e.category.EarthquakeWarning? ==> e.magnitude.Some?)
  }

  /** How an event would be announced for a target at this distance; None when the target is out of
      reach or no intensity band covers it. */
  function LevelAt(g: Geometry, e: Event, bands: Bands, limit: real, distance: real): Option<InterruptionLevel>
    requires Placeable(e)
  {
    if e.category.EarthquakeReport? then Some(Passive)
    else if distance > limit then None
    else if bands.Bark? then Some(BarkLevel(e.level))
    else
      var band := FindBand(bands.bands, g.round(Estimate(g, e, distance)));
      if band.Some? then Some(band.value.level) else None
  }

  /** Target k is the nearest of those that match, the first of equals. */
  ghost predicate IsNearest(g: Geometry, e: Event, points: seq<Point>, bands: Bands, limit: real, k: nat)
    requires Placeable(e)
  {
    var at := Epicenter(e).value;
    && k < |points|
    && LevelAt(g, e, bands, limit, g.distance(at, points[k])).Some?
    && forall j :: 0 <= j < |points| && LevelAt(g, e, bands, limit, g.distance(at, points[j])).Some? ==>
         g.distance(at, points[k]) < g.distance(at, points[j])
         || (g.distance(at, points[k]) == g.distance(at, points[j]) && k <= j)
  }

  ghost predicate NoneMatches(g: Geometry, e: Event, points: seq<Point>, bands: Bands, limit: real)
    requires Placeable(e)
  {
    forall j :: 0 <= j < |points| ==> LevelAt(g, e, bands, limit, g.distance(Epicenter(e).value, points[j])).None?
  }

  datatype Choice = Choice(ordinal: nat, distance: real, level: InterruptionLevel)

  /** The target an accepted event goes to, if any. */
  ghost predicate Chosen(g: Geometry, e: Event, points: seq<Point>, bands: Bands, limit: real, r: Option<Choice>) {
    if !Placeable(e) then r.None?
    else match r
      case None => NoneMatches(g, e, points, bands, limit)
      case Some(c) =>
        && IsNearest(g, e, points, bands, limit, c.ordinal)
        && c.distance == g.distance(Epicenter(e).value, points[c.ordinal])
        && LevelAt(g, e, bands, limit, c.distance) == Some(c.level)
  }

  /** There is only one such target. */
  lemma ChosenOnce(g: Geometry, e: Event, points: seq<Point>, bands: Bands, limit: real, a: Option<Choice>, b: Option<Choice>)
    requires Chosen(g, e, points, bands, limit, a) && Chosen(g, e, points, bands, limit, b)
    ensures a == b
  {
  }

  /** One more target: it is chosen when it matches and is strictly nearer than the best so far. */
  lemma ChosenOneMore(g: Geometry, e: Event, points: seq<Point>, k: nat, bands: Bands, limit: real, best: Option<Choice>)
    requires k < |points| && Placeable(e) && Chosen(g, e, points[..k], bands, limit, best)
    ensures var distance := g.distance(Epicenter(e).value, points[k]);
      var level := LevelAt(g, e, bands, limit, distance);
      Chosen(g, e, points[..k + 1], bands, limit,
             if level.Some? && (best.None? || distance < best.value.distance) then Some(Choice(k, distance, level.value)) else best)
  {
    hide LevelAt;
    assert points[..k + 1] == points[..k] + [points[k]];
  }

  lemma ChosenNone(g: Geometry, e: Event, points: seq<Point>, bands: Bands, limit: real)
    ensures points == [] || !Placeable(e) ==> Chosen(g, e, points, bands, limit, None)
  {
  }

  // ---- the reference matcher ----

  function FindAlert(alerts: seq<AlertRule>, category: Category): (r: Option<nat>)
    ensures r.Some? ==> r.value < |alerts| && alerts[r.value].Category() == category && forall i :: 0 <= i < r.value ==> alerts[i].Category() != category
    ensures r.None? ==> forall i :: 0 <= i < |alerts| ==> alerts[i].Category() != category
  {
    if alerts == [] then None
    else if alerts[0].Category() == category then Some(0)
    else
      var rest := FindAlert(alerts[1..], category);
      if rest.Some? then
        assert forall i :: 0 < i <= rest.value ==> alerts[i] == alerts[1..][i - 1];
        Some(rest.value + 1)
      else
        assert forall i :: 0 < i < |alerts| ==> alerts[i] == alerts[1..][i - 1];
        None
  }

  predicate SourceMatches(s: SourceSelection, source: string) {
    s.All? || source in s.ids
  }

  function Magnitude(e: Event): real {
    if e.magnitude.Some? then e.magnitude.value else 0.0
  }

  predicate ThresholdMatches(rule: AlertRule, e: Event) {
    rule.ReportRule? ==> Magnitude(e) >= rule.minMagnitude
  }

  function Points(targets: seq<MonitoringTarget>): seq<Point> {
    seq(|targets|, i requires 0 <= i < |targets| => targets[i].point)
  }

  function BandsOf(rule: AlertRule): seq<IntensityBand> {
    if rule.WarningRule? then rule.bands else []
  }

  // ---- what a subscription asks for, in its own words ----

  /** How far the event is from a target, by the event's own position. */
  function Reach(g: Geometry, e: Event, target: Point): real
    requires e.latitude.Some? && e.longitude.Some?
  {
    g.distance(Point(e.latitude.value, e.longitude.value), target)
  }

  /** The estimated intensity at a distance, by the event's magnitude and depth; a depth that is unknown or
      not positive counts as zero. */
  function Felt(g: Geometry, e: Event, distance: real): real
    requires e.magnitude.Some?
  {
    g.intensity(e.magnitude.value, g.hypocentral(distance, if e.depthKm.Some? && e.depthKm.value > 0.0 then e.depthKm.value else 0.0))
  }

  /** The alert calls for this level at a distance: a report from its least magnitude on, always passive; a
      warning within the limit, at the level of a band that covers the rounded intensity. */
  ghost predicate CallsFor(g: Geometry, alert: AlertRule, e: Event, limit: real, distance: real, level: InterruptionLevel) {
    && (alert.sources.All? || e.source in alert.sources.ids)
    && match alert
       case ReportRule(_, least) => e.category.EarthquakeReport? && least <= (if e.magnitude.Some? then e.magnitude.value else 0.0) && level == Passive
       case WarningRule(_, bands) =>
         && e.category.EarthquakeWarning? && e.magnitude.Some? && distance <= limit
         && exists b :: b in bands && b.min <= g.round(Felt(g, e, distance)) <= b.max && b.level == level
  }

  /** Target k of the subscription is to be told of the event at this level. */
  ghost predicate Heard(g: Geometry, s: Subscription, e: Event, limit: real, k: nat, level: InterruptionLevel) {
    && k < |s.targets| && e.latitude.Some? && e.longitude.Some?
    && exists alert :: alert in s.alerts && CallsFor(g, alert, e, limit, Reach(g, e, s.targets[k].point), level)
  }

  /** The verdict is the nearest target that is to be told, the first of equals, with its level; none only
      when no target is. */
  ghost predicate Tells(g: Geometry, s: Subscription, e: Event, limit: real, r: Option<Choice>) {
    && (r.None? ==> forall k: nat, level :: !Heard(g, s, e, limit, k, level))
    && (r.Some? ==>
          && Heard(g, s, e, limit, r.value.ordinal, r.value.level)
          && r.value.distance == Reach(g, e, s.targets[r.value.ordinal].point)
          && forall k: nat, level :: Heard(g, s, e, limit, k, level) ==>
               r.value.distance < Reach(g, e, s.targets[k].point) || (r.value.distance == Reach(g, e, s.targets[k].point) && r.value.ordinal <= k))
  }

  lemma LevelCalls(g: Geometry, alert: AlertRule, e: Event, limit: real, distance: real, level: InterruptionLevel)
    requires ValidAlert(alert) && Placeable(e) && alert.Category() == e.category && SourceMatches(alert.sources, e.source) && ThresholdMatches(alert, e)
    ensures LevelAt(g, e, Banded(BandsOf(alert)), limit, distance) == Some(level) <==> CallsFor(g, alert, e, limit, distance, level)
  {
    if alert.WarningRule? {
      var value := g.round(Felt(g, e, distance));
      forall b
        ensures FindBand(alert.bands, value) == Some(b) <==> b in alert.bands && b.min <= value <= b.max
      {
        OnlyBand(alert.bands, value, b);
      }
      OneBandEach(alert.bands, value);
      hide FindBand, ValidBands;
    }
  }

  lemma OneBandEach(bands: seq<IntensityBand>, value: nat)
    requires ValidBands(bands)
    ensures forall b, c :: b in bands && c in bands && b.min <= value <= b.max && c.min <= value <= c.max ==> b == c
  {
    forall b, c | b in bands && c in bands && b.min <= value <= b.max && c.min <= value <= c.max
      ensures b == c
    {
      OnlyBand(bands, value, b);
      OnlyBand(bands, value, c);
    }
  }

  /** Only the alert that is found can call for anything. */
  lemma OnlyFoundAlertCalls(g: Geometry, s: Subscription, e: Event, limit: real, distance: real, alert: AlertRule, level: InterruptionLevel)
    requires Valid(s) && alert in s.alerts && CallsFor(g, alert, e, limit, distance, level)
    ensures FindAlert(s.alerts, e.category).Some? && alert == s.alerts[FindAlert(s.alerts, e.category).value]
    ensures SourceMatches(alert.sources, e.source) && ThresholdMatches(alert, e) && alert.Category() == e.category
    ensures e.latitude.Some? && e.longitude.Some? ==> Placeable(e)
  {
    hide ValidAlert, FindAlert;
    var at := FindAlert(s.alerts, e.category);
    var i :| 0 <= i < |s.alerts| && s.alerts[i] == alert;
    assert alert.Category() == e.category;
  }

  lemma HeardIsLevel(g: Geometry, s: Subscription, e: Event, limit: real, at: nat, k: nat, level: InterruptionLevel)
    requires Valid(s) && FindAlert(s.alerts, e.category) == Some(at) && at < |s.alerts| && Placeable(e) && k < |s.targets|
    requires SourceMatches(s.alerts[at].sources, e.source) && ThresholdMatches(s.alerts[at], e)
    ensures Heard(g, s, e, limit, k, level) <==>
      LevelAt(g, e, Banded(BandsOf(s.alerts[at])), limit, Reach(g, e, s.targets[k].point)) == Some(level)
  {
    hide LevelAt, FindAlert, CallsFor;
    assert s.alerts[at] in s.alerts && ValidAlert(s.alerts[at]);
    var distance := Reach(g, e, s.targets[k].point);
    hide Valid, ValidAlert, Reach;
    LevelCalls(g, s.alerts[at], e, limit, distance, level);
    if Heard(g, s, e, limit, k, level) {
      var alert :| alert in s.alerts && CallsFor(g, alert, e, limit, distance, level);
      OnlyFoundAlertCalls(g, s, e, limit, distance, alert, level);
    }
  }

  /** The reference verdict is what the subscription asks for. */
  lemma VerdictTells(g: Geometry, s: Subscription, e: Event, limit: real, r: Option<Choice>)
    requires Valid(s) && ReferenceSays(g, s, e, limit, r)
    ensures Tells(g, s, e, limit, r)
  {
    hide Valid, LevelAt, FindAlert, CallsFor, SourceMatches, ThresholdMatches;
    var at := FindAlert(s.alerts, e.category);
    if at.Some? && SourceMatches(s.alerts[at.value].sources, e.source) && ThresholdMatches(s.alerts[at.value], e) && Placeable(e) {
      forall k: nat, level | k < |s.targets|
        ensures Heard(g, s, e, limit, k, level) <==>
          LevelAt(g, e, Banded(BandsOf(s.alerts[at.value])), limit, Reach(g, e, s.targets[k].point)) == Some(level)
      {
        HeardIsLevel(g, s, e, limit, at.value, k, level);
      }
      ChosenTells(g, s, e, limit, Banded(BandsOf(s.alerts[at.value])), r);
    } else {
      forall k: nat, level
        ensures !Heard(g, s, e, limit, k, level)
      {
        if Heard(g, s, e, limit, k, level) {
          var alert :| alert in s.alerts && CallsFor(g, alert, e, limit, Reach(g, e, s.targets[k].point), level);
          OnlyFoundAlertCalls(g, s, e, limit, Reach(g, e, s.targets[k].point), alert, level);
          assert false;
        }
      }
      hide Heard, Chosen;
      NothingChosen(g, s, e, limit, r);
    }
  }

  lemma NothingChosen(g: Geometry, s: Subscription, e: Event, limit: real, r: Option<Choice>)
    requires ReferenceSays(g, s, e, limit, r)
    requires var at := FindAlert(s.alerts, e.category);
      !(at.Some? && SourceMatches(s.alerts[at.value].sources, e.source) && ThresholdMatches(s.alerts[at.value], e) && Placeable(e))
    ensures r.None?
  {
  }

  lemma ChosenTells(g: Geometry, s: Subscription, e: Event, limit: real, bands: Bands, r: Option<Choice>)
    requires Placeable(e) && Chosen(g, e, Points(s.targets), bands, limit, r)
    requires forall k: nat, level :: k < |s.targets| ==> (Heard(g, s, e, limit, k, level) <==> LevelAt(g, e, bands, limit, Reach(g, e, s.targets[k].point)) == Some(level))
    ensures Tells(g, s, e, limit, r)
  {
    var points := Points(s.targets);
    assert forall k :: 0 <= k < |s.targets| ==> points[k] == s.targets[k].point;
    assert forall k: nat, level :: Heard(g, s, e, limit, k, level) ==> k < |s.targets|;
    hide LevelAt, Heard;
    forall k: nat, level | Heard(g, s, e, limit, k, level)
      ensures r.Some? && (r.value.distance < Reach(g, e, s.targets[k].point) || (r.value.distance == Reach(g, e, s.targets[k].point) && r.value.ordinal <= k))
    {
      assert LevelAt(g, e, bands, limit, g.distance(Epicenter(e).value, points[k])).Some?;
    }
    if r.Some? {
      var c := r.value;
      assert c.ordinal < |s.targets| && c.distance == Reach(g, e, s.targets[c.ordinal].point);
      assert Heard(g, s, e, limit, c.ordinal, c.level);
    }
  }

  lemma VerdictsTell(g: Geometry, s: Subscription, e: Event, limit: real)
    ensures Valid(s) ==> forall r :: ReferenceSays(g, s, e, limit, r) ==> Tells(g, s, e, limit, r)
  {
    hide *;
    if Valid(s) {
      forall r | ReferenceSays(g, s, e, limit, r)
        ensures Tells(g, s, e, limit, r)
      {
        VerdictTells(g, s, e, limit, r);
      }
    }
  }

  /** The reference verdict, as a property of its result; `limit` is 20000 km in the reference. */
  ghost predicate ReferenceSays(g: Geometry, s: Subscription, e: Event, limit: real, r: Option<Choice>) {
    var at := FindAlert(s.alerts, e.category);
    if at.None? || !SourceMatches(s.alerts[at.value].sources, e.source) || !ThresholdMatches(s.alerts[at.value], e)
    then r.None?
    else Chosen(g, e, Points(s.targets), Banded(BandsOf(s.alerts[at.value])), limit, r)
  }

  method MatchSubscription(g: Geometry, s: Subscription, e: Event) returns (r: Option<Choice>)
    ensures ReferenceSays(g, s, e, UNLIMITED_WARNING_DISTANCE_KM, r)
    ensures Valid(s) ==> Tells(g, s, e, 20_000.0, r)
  {
    hide Tells, Valid;
    VerdictsTell(g, s, e, 20_000.0);
    var at := FindAlert(s.alerts, e.category);
    if at.None? {
      return None;
    }
    var rule := s.alerts[at.value];
    if !SourceMatches(rule.sources, e.source) || !ThresholdMatches(rule, e) {
      return None;
    }
    var best: Option<Choice> := None;
    var k := 0;
    ghost var points, bands := Points(s.targets), Banded(BandsOf(rule));
    hide Chosen;
    ChosenNone(g, e, points[..0], bands, UNLIMITED_WARNING_DISTANCE_KM);
    ChosenNone(g, e, points, bands, UNLIMITED_WARNING_DISTANCE_KM);
    while k < |s.targets|
      invariant 0 <= k <= |s.targets|
      invariant Chosen(g, e, points[..k], bands, UNLIMITED_WARNING_DISTANCE_KM, best)
      invariant Placeable(e) || best.None?
    {
      if Placeable(e) {
        ChosenOneMore(g, e, points, k, bands, UNLIMITED_WARNING_DISTANCE_KM, best);
      } else {
        ChosenNone(g, e, points[..k + 1], bands, UNLIMITED_WARNING_DISTANCE_KM);
      }
      if Epicenter(e).None? {
        return None;
      }
      var distance := g.distance(Epicenter(e).value, s.targets[k].point);
      if e.category.EarthquakeWarning? && distance > UNLIMITED_WARNING_DISTANCE_KM {
        k := k + 1;
        continue;
      }
      var level := Passive;
      if rule.WarningRule? {
        if e.magnitude.None? {
          return None;
        }
        var band := FindBand(rule.bands, g.round(Estimate(g, e, distance)));
        if band.None? {
          k := k + 1;
          continue;
        }
        level := band.value.level;
      }
      if best.None? || distance < best.value.distance {
        best := Some(Choice(k, distance, level));
      }
      k := k + 1;
    }
    assert points[..k] == points;
    r := best;
  }

  // ---- the engine's matcher ----

  function FindRule(rules: seq<CompiledRule>, category: Category): (r: Option<nat>)
    ensures r.Some? ==> r.value < |rules| && rules[r.value].category == category && forall i :: 0 <= i < r.value ==> rules[i].category != category
    ensures r.None? ==> forall i :: 0 <= i < |rules| ==> rules[i].category != category
  {
    if rules == [] then None
    else if rules[0].category == category then Some(0)
    else
      var rest := FindRule(rules[1..], category);
      if rest.Some? then
        assert forall i :: 0 < i <= rest.value ==> rules[i] == rules[1..][i - 1];
        Some(rest.value + 1)
      else
        assert forall i :: 0 < i < |rules| ==> rules[i] == rules[1..][i - 1];
        None
  }

  predicate RuleMatches(rule: CompiledRule, e: Event, source: nat) {
    AcceptsSource(rule, source) && Magnitude(e) >= rule.minMagnitude && e.level as int >= rule.minSeverity
  }

  function CompiledPoints(targets: seq<CompiledTarget>): seq<Point> {
    seq(|targets|, i requires 0 <= i < |targets| => targets[i].point)
  }

  function Min(a: real, b: real): real {
    if a < b then a else b
  }

  /** What the engine answers for one compiled subscription. */
  ghost predicate EngineSays(g: Geometry, c: Compiled, e: Event, cap: real, r: Option<Row>) {
    var at := FindRule(c.rules, e.category);
    if e.category.Retired() || at.None? || !RuleMatches(c.rules[at.value], e, SourceIdOf(e.source)) then r.None?
    else
      exists choice :: Chosen(g, e, CompiledPoints(c.targets), BandsOfRule(c.rules[at.value]), Min(c.rules[at.value].distanceKm, cap), choice)
                       && r == if choice.Some? then Some(RowOf(g, c, e, choice.value)) else None
  }

  function RowOf(g: Geometry, c: Compiled, e: Event, choice: Choice): Row {
    var ordinal := if choice.ordinal < |c.targets| then c.targets[choice.ordinal].ordinal else 0;
    Row(c.destination, c.id, c.generation, ordinal, 1, choice.level, g.meters(choice.distance),
        g.cents(IntensityAt(g, e, choice.distance)))
  }

  function IntensityAt(g: Geometry, e: Event, distance: real): real {
    if e.category.EarthquakeWarning? && e.magnitude.Some? then Estimate(g, e, distance) else 0.0
  }

  function BandsOfRule(rule: CompiledRule): Bands {
    if rule.bands == [] then Bark else Banded(rule.bands)
  }

  /** The row tells of target k as a rule of the record says: a report passively, a warning at the level of
      the band that covers the rounded intensity, or, without bands, of the event's own level. */
  ghost predicate Answers(g: Geometry, c: Compiled, rule: CompiledRule, e: Event, cap: real, k: nat, row: Row) {
    && rule in c.rules && rule.category == e.category && k < |c.targets| && e.latitude.Some? && e.longitude.Some?
    && var distance := Reach(g, e, c.targets[k].point);
    && row.destination == c.destination && row.subscription == c.id && row.generation == c.generation && row.matchKind == 1
    && row.targetOrdinal == c.targets[k].ordinal && row.distanceM == g.meters(distance)
    && (if e.category.EarthquakeReport? then row.level == Passive && row.intensityCent == g.cents(0.0)
        else
          && e.category.EarthquakeWarning? && e.magnitude.Some? && distance <= rule.distanceKm && distance <= cap
          && row.intensityCent == g.cents(Felt(g, e, distance))
          && if rule.bands == [] then row.level == (if e.level as int >= 3 then Critical else if e.level as int == 2 then Active else Passive)
             else exists b :: b in rule.bands && b.min <= g.round(Felt(g, e, distance)) <= b.max && row.level == b.level)
  }

  lemma EngineAnswers(g: Geometry, c: Compiled, e: Event, cap: real, row: Row)
    requires EngineSays(g, c, e, cap, Some(row))
    ensures exists rule, k: nat :: Answers(g, c, rule, e, cap, k, row)
  {
    var at := FindRule(c.rules, e.category);
    var rule := c.rules[at.value];
    var choice :| Chosen(g, e, CompiledPoints(c.targets), BandsOfRule(rule), Min(rule.distanceKm, cap), choice)
                  && Some(row) == if choice.Some? then Some(RowOf(g, c, e, choice.value)) else None;
    var k, distance := choice.value.ordinal, choice.value.distance;
    assert Placeable(e) && LevelAt(g, e, BandsOfRule(rule), Min(rule.distanceKm, cap), distance) == Some(choice.value.level);
    assert k < |c.targets| && distance == Reach(g, e, c.targets[k].point);
    hide Chosen, FindRule, RuleMatches;
    if e.category.EarthquakeWarning? && rule.bands != [] {
      var i := BandFound(rule.bands, g.round(Felt(g, e, distance)));
      hide FindBand;
      assert rule.bands[i] in rule.bands;
    }
    assert Answers(g, c, rule, e, cap, k, row);
  }

  lemma EngineAlwaysAnswers(g: Geometry, c: Compiled, e: Event, cap: real)
    ensures forall row :: EngineSays(g, c, e, cap, Some(row)) ==> exists rule, k: nat :: Answers(g, c, rule, e, cap, k, row)
  {
    forall row | EngineSays(g, c, e, cap, Some(row))
      ensures exists rule, k: nat :: Answers(g, c, rule, e, cap, k, row)
    {
      EngineAnswers(g, c, e, cap, row);
    }
  }

  method MatchCompiled(g: Geometry, c: Compiled, e: Event, cap: real) returns (r: Option<Row>)
    ensures EngineSays(g, c, e, cap, r)
    ensures r.Some? ==> exists rule, k: nat :: Answers(g, c, rule, e, cap, k, r.value)
  {
    hide Answers;
    EngineAlwaysAnswers(g, c, e, cap);
    if e.category.Retired() {
      return None;
    }
    var at := FindRule(c.rules, e.category);
    if at.None? {
      return None;
    }
    var rule := c.rules[at.value];
    if !RuleMatches(rule, e, SourceIdOf(e.source)) {
      return None;
    }
    var best: Option<Choice> := None;
    var intensity := 0.0;
    var k := 0;
    ghost var points, bands, limit := CompiledPoints(c.targets), BandsOfRule(rule), Min(rule.distanceKm, cap);
    hide Chosen;
    ChosenNone(g, e, points[..0], bands, limit);
    ChosenNone(g, e, points, bands, limit);
    while k < |c.targets|
      invariant 0 <= k <= |c.targets|
      invariant Chosen(g, e, points[..k], bands, limit, best)
      invariant Placeable(e) || best.None?
      invariant best.Some? ==> best.value.ordinal < k && intensity == IntensityAt(g, e, best.value.distance)
    {
      if Placeable(e) {
        ChosenOneMore(g, e, points, k, bands, limit, best);
      } else {
        ChosenNone(g, e, points[..k + 1], bands, limit);
      }
      if Epicenter(e).None? {
        return None;
      }
      var distance := g.distance(Epicenter(e).value, c.targets[k].point);
      if e.category.EarthquakeWarning? && distance > Min(rule.distanceKm, cap) {
        k := k + 1;
        continue;
      }
      var estimated := 0.0;
      if e.category.EarthquakeWarning? {
        if e.magnitude.None? {
          return None;
        }
        estimated := Estimate(g, e, distance);
      }
      var level := Passive;
      if e.category.EarthquakeWarning? {
        if rule.bands == [] {
          level := BarkLevel(e.level);
        } else {
          var band := FindBand(rule.bands, g.round(estimated));
          if band.None? {
            k := k + 1;
            continue;
          }
          level := band.value.level;
        }
      }
      if best.None? || distance < best.value.distance {
        best := Some(Choice(k, distance, level));
        intensity := estimated;
      }
      k := k + 1;
    }
    assert points[..k] == points;
    if best.None? {
      return None;
    }
    r := Some(Row(c.destination, c.id, c.generation, c.targets[best.value.ordinal].ordinal, 1, best.value.level,
                  g.meters(best.value.distance), g.cents(intensity)));
  }
}
