/**
 Matching an earthquake event against all stored subscriptions by way of the posting index, proved to
 give the same rows as asking the engine about every compiled record.
 */
module FastMatch {
  import opened Records
  import opened Incidents
  import opened Catalog
  import opened Subscriptions
  import opened Matching
  import opened MatchingTheorems
  import opened Postings
  import opened Registry
  import RegistryTheorems
  import RegistryRuns

  datatype Scope = Regions(regions: set<nat>) | Broad
  datatype Plan = Plan(category: Category, sourceId: nat, scopes: seq<Scope>)

  function RegionIds(g: Geometry, names: seq<string>): set<nat> {
    set n | n in names && g.region(n).Some? :: g.region(n).value
  }

  /** An earthquake is always looked up broadly, and by region when it names any. */
  method PlanForEvent(g: Geometry, e: Event) returns (plan: Plan)
    requires e.category.Earthquake()
    ensures plan.category == e.category && plan.sourceId == SourceIdOf(e.source) && Broad in plan.scopes
    ensures forall scope :: scope in plan.scopes ==> scope == Broad || scope == Regions(RegionIds(g, e.affectedRegions))
  {
    var scopes := [Broad];
    var regions := RegionIds(g, e.affectedRegions);
    if regions != {} {
      scopes := scopes + [Regions(regions)];
    }
    plan := Plan(e.category, SourceIdOf(e.source), scopes);
  }

  // ---- posting blocks ----

  predicate ScopeWants(scope: Scope, k: PostingKey) {
    match scope
    case Broad => k.kind == 0 && k.value == 0
    case Regions(regions) => k.kind == 4 && k.value in regions
  }

  /** The event's own source and the wildcard are both looked up. */
  predicate SourceWants(plan: Plan, k: PostingKey) {
    k.category == plan.category && (k.source == Some(plan.sourceId) || k.source == None)
  }

  predicate Wanted(plan: Plan, scopes: seq<Scope>, k: PostingKey) {
    SourceWants(plan, k) && exists scope | scope in scopes :: ScopeWants(scope, k)
  }

  type Blocks = map<nat, set<nat>>

  predicate InBlocks(blocks: Blocks, block: nat, offset: nat) {
    block in blocks && offset in blocks[block]
  }

  /** The blocks are the union of the bitmaps under the keys. */
  ghost predicate UnionOf(index: Index, keys: set<PostingKey>, blocks: Blocks) {
    forall block, offset :: InBlocks(blocks, block, offset) <==> exists k :: k in keys && k.block == block && k in index && offset in index[k]
  }

  function WantedKeys(index: Index, plan: Plan, scopes: seq<Scope>): set<PostingKey> {
    set k | k in index && Wanted(plan, scopes, k)
  }

  /** Merges into the blocks every bitmap one scope asks for. */
  method ExtendPostingBlocks(index: Index, plan: Plan, scope: Scope, ghost keys: set<PostingKey>, blocks: Blocks) returns (blocks': Blocks)
    requires UnionOf(index, keys, blocks)
    ensures UnionOf(index, keys + WantedKeys(index, plan, [scope]), blocks')
  {
    hide WantedKeys, UnionOf;
    blocks' := blocks;
    var rest := set k | k in index && SourceWants(plan, k) && ScopeWants(scope, k);
    KeysOfScope(index, plan, scope, rest);
    hide SourceWants, ScopeWants;
    ghost var all, done := rest, keys;
    while rest != {}
      invariant rest <= all && done == keys + (all - rest)
      invariant UnionOf(index, done, blocks')
      invariant forall k :: k in rest ==> k in index
      decreases |rest|
    {
      var k :| k in rest;
      MergeOne(index, done, blocks', k);
      blocks' := blocks'[k.block := (if k.block in blocks' then blocks'[k.block] else {}) + index[k]];
      rest, done := rest - {k}, done + {k};
    }
    assert done == keys + all;
  }

  lemma KeysOfScope(index: Index, plan: Plan, scope: Scope, keys: set<PostingKey>)
    requires keys == set k | k in index && SourceWants(plan, k) && ScopeWants(scope, k)
    ensures keys == WantedKeys(index, plan, [scope]) && forall k :: k in keys ==> k in index
  {
    hide SourceWants, ScopeWants;
    assert scope in [scope];
  }

  lemma MergeOne(index: Index, keys: set<PostingKey>, blocks: Blocks, k: PostingKey)
    requires UnionOf(index, keys, blocks) && k in index
    ensures UnionOf(index, keys + {k}, blocks[k.block := (if k.block in blocks then blocks[k.block] else {}) + index[k]])
  {
    var blocks' := blocks[k.block := (if k.block in blocks then blocks[k.block] else {}) + index[k]];
    forall block, offset
      ensures InBlocks(blocks', block, offset) <==> exists x :: x in keys + {k} && x.block == block && x in index && offset in index[x]
    {
      assert InBlocks(blocks', block, offset) <==> InBlocks(blocks, block, offset) || (block == k.block && offset in index[k]);
      if InBlocks(blocks, block, offset) {
        var x :| x in keys && x.block == block && x in index && offset in index[x];
        assert x in keys + {k};
      }
      assert k in keys + {k};
    }
  }

  method PostingBlocksFor(index: Index, plan: Plan) returns (blocks: Blocks)
    ensures UnionOf(index, WantedKeys(index, plan, plan.scopes), blocks)
  {
    blocks := map[];
    var i := 0;
    assert WantedKeys(index, plan, plan.scopes[..0]) == {};
    while i < |plan.scopes|
      invariant 0 <= i <= |plan.scopes|
      invariant UnionOf(index, WantedKeys(index, plan, plan.scopes[..i]), blocks)
    {
      hide UnionOf;
      blocks := ExtendPostingBlocks(index, plan, plan.scopes[i], WantedKeys(index, plan, plan.scopes[..i]), blocks);
      MoreScopes(index, plan, plan.scopes, i);
      i := i + 1;
    }
    assert plan.scopes[..i] == plan.scopes;
  }

  lemma MoreScopes(index: Index, plan: Plan, scopes: seq<Scope>, i: nat)
    requires i < |scopes|
    ensures WantedKeys(index, plan, scopes[..i + 1]) == WantedKeys(index, plan, scopes[..i]) + WantedKeys(index, plan, [scopes[i]])
  {
    hide SourceWants, ScopeWants;
    assert scopes[..i + 1] == scopes[..i] + [scopes[i]];
    forall k | k in index
      ensures Wanted(plan, scopes[..i + 1], k) <==> Wanted(plan, scopes[..i], k) || Wanted(plan, [scopes[i]], k)
    {
      if ScopeWants(scopes[i], k) { assert scopes[i] in scopes[..i + 1] && scopes[i] in [scopes[i]]; }
    }
  }

  // ---- matching the blocks ----

  /** The rows are those of the ids that the blocks hold. */
  ghost predicate RowsOf(g: Geometry, compiled: map<nat, Compiled>, e: Event, cap: real, ids: set<nat>, rows: map<nat, Row>) {
    && (forall id :: id in rows ==> id in ids && id in compiled && EngineSays(g, compiled[id], e, cap, Some(rows[id])))
    && (forall id :: id in ids && id in compiled && id !in rows ==> EngineSays(g, compiled[id], e, cap, None))
  }

  method MatchOne(g: Geometry, compiled: map<nat, Compiled>, e: Event, cap: real, ghost ids: set<nat>, rows: map<nat, Row>, id: nat) returns (rows': map<nat, Row>)
    requires RowsOf(g, compiled, e, cap, ids, rows) && id in compiled
    ensures RowsOf(g, compiled, e, cap, ids + {id}, rows')
  {
    hide EngineSays;
    var row := MatchCompiled(g, compiled[id], e, cap);
    rows' := if row.Some? && id !in rows then rows[id := row.value] else rows;
  }

  function IdsOf(blocks: Blocks): set<nat> {
    set block, offset | block in blocks && offset in blocks[block] && FromPosting(block, offset).Some? :: FromPosting(block, offset).value
  }

  function IdsOfBlock(block: nat, offsets: set<nat>): set<nat> {
    set offset | offset in offsets && FromPosting(block, offset).Some? :: FromPosting(block, offset).value
  }

  /** One block: every offset that names a loaded record is matched, and gives at most one row. */
  method MatchBlock(g: Geometry, compiled: map<nat, Compiled>, e: Event, cap: real, ghost ids: set<nat>, rows: map<nat, Row>, block: nat, offsets: set<nat>)
    returns (rows': map<nat, Row>)
    requires RowsOf(g, compiled, e, cap, ids, rows)
    ensures RowsOf(g, compiled, e, cap, ids + IdsOfBlock(block, offsets), rows')
  {
    hide RowsOf, FromPosting, Reached;
    rows' := rows;
    var rest := offsets;
    ghost var done: set<nat> := {};
    ReachedNone(ids, block);
    while rest != {}
      invariant done !! rest && done + rest == offsets
      invariant RowsOf(g, compiled, e, cap, Reached(ids, block, done), rows')
      decreases |rest|
    {
      var offset :| offset in rest;
      var id := FromPosting(block, offset);
      ReachedMore(ids, block, done, offset);
      if id.Some? {
        rows' := TryOne(g, compiled, e, cap, Reached(ids, block, done), rows', id.value);
      }
      rest, done := rest - {offset}, done + {offset};
    }
    assert done == offsets;
    ReachedAll(ids, block, offsets);
  }

  method TryOne(g: Geometry, compiled: map<nat, Compiled>, e: Event, cap: real, ghost ids: set<nat>, rows: map<nat, Row>, id: nat) returns (rows': map<nat, Row>)
    requires RowsOf(g, compiled, e, cap, ids, rows)
    ensures RowsOf(g, compiled, e, cap, ids + {id}, rows')
  {
    hide RowsOf;
    if id in compiled {
      rows' := MatchOne(g, compiled, e, cap, ids, rows, id);
    } else {
      rows' := rows;
      UnloadedId(g, compiled, e, cap, ids, rows, id);
    }
  }

  function Reached(ids: set<nat>, block: nat, offsets: set<nat>): set<nat> {
    ids + IdsOfBlock(block, offsets)
  }

  lemma ReachedNone(ids: set<nat>, block: nat)
    ensures Reached(ids, block, {}) == ids
  {
    assert IdsOfBlock(block, {}) == {};
  }

  lemma ReachedMore(ids: set<nat>, block: nat, done: set<nat>, offset: nat)
    ensures Reached(ids, block, done + {offset}) ==
      if FromPosting(block, offset).Some? then Reached(ids, block, done) + {FromPosting(block, offset).value} else Reached(ids, block, done)
  {
    hide FromPosting, IdsOfBlock;
    MoreOffsets(block, done, offset);
  }

  lemma ReachedAll(ids: set<nat>, block: nat, offsets: set<nat>)
    ensures Reached(ids, block, offsets) == ids + IdsOfBlock(block, offsets)
  {
  }

  lemma UnloadedId(g: Geometry, compiled: map<nat, Compiled>, e: Event, cap: real, ids: set<nat>, rows: map<nat, Row>, id: nat)
    requires RowsOf(g, compiled, e, cap, ids, rows) && id !in compiled
    ensures RowsOf(g, compiled, e, cap, ids + {id}, rows)
  {
    hide EngineSays;
  }

  lemma MoreOffsets(block: nat, done: set<nat>, offset: nat)
    ensures IdsOfBlock(block, done + {offset}) ==
      IdsOfBlock(block, done) + if FromPosting(block, offset).Some? then {FromPosting(block, offset).value} else {}
  {
    hide FromPosting;
  }

  method MatchBlocks(g: Geometry, compiled: map<nat, Compiled>, e: Event, cap: real, blocks: Blocks) returns (rows: map<nat, Row>)
    ensures RowsOf(g, compiled, e, cap, IdsOf(blocks), rows)
  {
    hide RowsOf, FromPosting, IdsOf, IdsOfBlock;
    rows := map[];
    var rest := blocks.Keys;
    ghost var done: Blocks := map[];
    NoBlocks(g, compiled, e, cap);
    while rest != {}
      invariant done.Keys !! rest && done.Keys + rest == blocks.Keys
      invariant forall b :: b in done ==> done[b] == blocks[b]
      invariant RowsOf(g, compiled, e, cap, IdsOf(done), rows)
      decreases |rest|
    {
      var block :| block in rest;
      rows := MatchBlock(g, compiled, e, cap, IdsOf(done), rows, block, blocks[block]);
      MoreBlocks(done, block, blocks[block]);
      rest, done := rest - {block}, done[block := blocks[block]];
    }
    assert done == blocks;
  }

  lemma NoBlocks(g: Geometry, compiled: map<nat, Compiled>, e: Event, cap: real)
    ensures IdsOf(map[]) == {} && RowsOf(g, compiled, e, cap, {}, map[])
  {
  }

  lemma MoreBlocks(done: Blocks, block: nat, offsets: set<nat>)
    requires block !in done
    ensures IdsOf(done[block := offsets]) == IdsOf(done) + IdsOfBlock(block, offsets)
  {
    hide FromPosting;
    var more := done[block := offsets];
    forall id | id in IdsOf(done)
      ensures id in IdsOf(more)
    {
      var b, o :| b in done && o in done[b] && FromPosting(b, o).Some? && id == FromPosting(b, o).value;
      assert b in more && o in more[b];
    }
    forall id | id in IdsOfBlock(block, offsets)
      ensures id in IdsOf(more)
    {
      var o :| o in offsets && FromPosting(block, o).Some? && id == FromPosting(block, o).value;
      assert block in more && o in more[block];
    }
  }

  // ---- the whole lookup ----

  /** A plain scan: every compiled record is asked, and the rows are exactly the accepted ones. */
  ghost predicate FullScan(g: Geometry, compiled: map<nat, Compiled>, e: Event, cap: real, rows: map<nat, Row>) {
    forall id :: id in compiled || id in rows ==>
      id in compiled && EngineSays(g, compiled[id], e, cap, if id in rows then Some(rows[id]) else None)
  }

  /** A record the engine accepts has posted a broad key under the event's source or the wildcard. */
  lemma AcceptedIsPosted(g: Geometry, c: Compiled, e: Event, cap: real, row: Row) returns (k: PostingKey)
    requires EngineSays(g, c, e, cap, Some(row))
    ensures k in PostingKeys(c) && k.category == e.category && k.kind == 0 && k.value == 0 && k.block == PostingBlock(c.id)
    ensures k.source == Some(SourceIdOf(e.source)) || k.source == None
  {
    var at := FindRule(c.rules, e.category).value;
    var rule := c.rules[at];
    hide EngineSays, PostingBlock, Chosen;
    var s := if rule.wildcard then None else Some(SourceIdOf(e.source));
    assert s in RuleSources(rule) by { assert AcceptsSource(rule, SourceIdOf(e.source)); }
    k := PostingKey(e.category, s, 0, 0, PostingBlock(c.id));
  }

  /** Every record the engine accepts is among the ids the lookup reaches. */
  lemma AcceptedIsReached(g: Geometry, index: Index, compiled: map<nat, Compiled>, e: Event, cap: real, plan: Plan, blocks: Blocks, id: nat, row: Row)
    requires Exact(index, compiled) && CompiledIds(compiled) && id in compiled
    requires plan.category == e.category && plan.sourceId == SourceIdOf(e.source) && Broad in plan.scopes
    requires UnionOf(index, WantedKeys(index, plan, plan.scopes), blocks)
    requires EngineSays(g, compiled[id], e, cap, Some(row))
    ensures id in IdsOf(blocks)
  {
    var k := AcceptedIsPosted(g, compiled[id], e, cap, row);
    var offset := PostingOffset(id);
    assert Posted(compiled, k, offset);
    assert offset in BitmapAt(index, k) && k in index;
    assert ScopeWants(Broad, k) && Wanted(plan, plan.scopes, k);
    PostingIdRoundTrip(id, PostingBlock(id), offset);
    hide EngineSays, PostingBlock, PostingOffset, PostingKeys, Posted, FromPosting, Wanted;
    assert k in WantedKeys(index, plan, plan.scopes);
    assert InBlocks(blocks, k.block, offset);
  }

  /** Records accepted now, and every accepted one among those that were the same when the index was read. */
  ghost predicate SplitScan(g: Geometry, before: map<nat, Compiled>, now: map<nat, Compiled>, e: Event, cap: real, rows: map<nat, Row>) {
    && (forall id :: id in rows ==> id in now && EngineSays(g, now[id], e, cap, Some(rows[id])))
    && (forall id :: id in now && id in before && before[id] == now[id] && id !in rows ==> EngineSays(g, now[id], e, cap, None))
  }

  /** The lookup, with an index read when the records were those of `before`. */
  method MatchSplit(g: Geometry, e: Event, cap: real, index: Index, ghost before: map<nat, Compiled>, now: map<nat, Compiled>) returns (rows: map<nat, Row>)
    requires e.category.Earthquake() && Exact(index, before) && CompiledIds(before)
    ensures SplitScan(g, before, now, e, cap, rows)
  {
    var plan := PlanForEvent(g, e);
    var blocks := PostingBlocksFor(index, plan);
    rows := MatchBlocks(g, now, e, cap, blocks);
    hide Exact, UnionOf, EngineSays, IdsOf, CompiledIds, WantedKeys;
    forall id | id in now && id in before && before[id] == now[id] && id !in rows
      ensures EngineSays(g, now[id], e, cap, None)
    {
      if id !in IdsOf(blocks) {
        if !EngineSays(g, now[id], e, cap, None) {
          var row := EngineSaysSomething(g, before[id], e, cap);
          AcceptedIsReached(g, index, before, e, cap, plan, blocks, id, row);
          assert false;
        }
      }
    }
  }

  /** Plan, posting blocks, compiled records and block matching together return exactly one row for each
      stored record that the engine accepts, and no others. */
  method MatchEvent(g: Geometry, e: Event, cap: real, index: Index, compiled: map<nat, Compiled>) returns (rows: map<nat, Row>)
    requires e.category.Earthquake() && Exact(index, compiled) && CompiledIds(compiled)
    ensures FullScan(g, compiled, e, cap, rows)
  {
    hide Exact, EngineSays, CompiledIds;
    rows := MatchSplit(g, e, cap, index, compiled, compiled);
  }

  /** The engine always has an answer. */
  lemma EngineSaysSomething(g: Geometry, c: Compiled, e: Event, cap: real) returns (row: Row)
    requires !EngineSays(g, c, e, cap, None)
    ensures EngineSays(g, c, e, cap, Some(row))
  {
    var at := FindRule(c.rules, e.category);
    assert at.Some? && !e.category.Retired() && RuleMatches(c.rules[at.value], e, SourceIdOf(e.source));
    var rule := c.rules[at.value];
    var choice := SomeChoice(g, e, CompiledPoints(c.targets), BandsOfRule(rule), Min(rule.distanceKm, cap));
    hide Chosen, RuleMatches, FindRule;
    assert choice.Some?;
    row := RowOf(g, c, e, choice.value);
  }

  lemma {:induction false} SomeChoice(g: Geometry, e: Event, points: seq<Point>, bands: Bands, limit: real) returns (r: Option<Choice>)
    ensures Chosen(g, e, points, bands, limit, r)
  {
    if !Placeable(e) || points == [] {
      r := None;
    } else {
      var n := |points| - 1;
      var front := SomeChoice(g, e, points[..n], bands, limit);
      assert points == points[..n] + [points[n]];
      var distance := g.distance(Epicenter(e).value, points[n]);
      var level := LevelAt(g, e, bands, limit, distance);
      r := if level.Some? && (front.None? || distance < front.value.distance) then Some(Choice(n, distance, level.value)) else front;
    }
  }

  // ---- against the reference matcher ----

  /** In a whole registry the lookup agrees with the reference matcher on every stored subscription: an
      active one gets a row exactly when the reference accepts it under the same distance limit, with
      the same target and level; an inactive one gets none. Warnings with a negative magnitude get none,
      which differs from the reference exactly on the overlooked ones. */
  lemma LookupIsReference(r: Registry, g: Geometry, e: Event, cap: real, rows: map<nat, Row>, id: nat, verdict: Option<Choice>)
    requires RegistryOk(r, g) && FullScan(g, r.compiled, e, cap, rows) && id in r.subscriptions
    requires ReferenceSays(g, r.subscriptions[id].subscription, e, Min(UNLIMITED_WARNING_DISTANCE_KM, cap), verdict)
    ensures id in rows <==> r.subscriptions[id].active && verdict.Some? && !NegativeWarning(e)
    ensures ZeroBelow(g) && r.subscriptions[id].active ==>
      ((id in rows <==> verdict.Some?) <==> !Overlooked(g, r.subscriptions[id].subscription, e, Min(UNLIMITED_WARNING_DISTANCE_KM, cap)))
    ensures id in rows ==>
      && rows[id].subscription == id && rows[id].destination == r.subscriptions[id].destination
      && rows[id].generation == r.subscriptions[id].generation
      && rows[id].targetOrdinal == verdict.value.ordinal && rows[id].matchKind == 1 && rows[id].level == verdict.value.level
  {
    var x := r.subscriptions[id];
    assert RecordOk(x, id, r.lastSubscription, r.lastDestination);
    hide Exact, ConfirmationsOk, LeasesOk, EngineSays, ReferenceSays, NegativeWarning, ZeroBelow, Overlooked;
    if x.active {
      var c := r.compiled[id];
      assert CompiledRecord(g, x) == Some(c);
      CompileNames(g, x, c);
      CompilationPreserves(g, x.subscription, c, e, cap, if id in rows then Some(rows[id]) else None, verdict);
    }
  }

  lemma CompileNames(g: Geometry, x: StoredSubscription, c: Compiled)
    requires CompiledRecord(g, x) == Some(c)
    ensures c.id == x.id && c.destination == x.destination && c.generation == x.generation
    ensures Compile(g, c.id, c.destination, c.generation, x.subscription) == Some(c)
  {
    hide Valid;
  }

  /** In every state of every run of the registry the lookup agrees with the reference matcher asked
      about each stored subscription in turn. */
  method LookupOfReachable(g: Geometry, ghost rs: seq<Registry>, ghost steps: seq<Step>, ghost n: nat, index: Index, compiled: map<nat, Compiled>, e: Event, cap: real)
    returns (rows: map<nat, Row>)
    requires RegistryRuns.Run(rs, g, steps) && n < |rs| && index == rs[n].postings && compiled == rs[n].compiled
    requires e.category.Earthquake()
    ensures forall id, verdict :: id in rs[n].subscriptions && ReferenceSays(g, rs[n].subscriptions[id].subscription, e, Min(UNLIMITED_WARNING_DISTANCE_KM, cap), verdict) ==>
      RowAgrees(rs[n].subscriptions[id], e, rows, verdict)
    ensures FullScan(g, compiled, e, cap, rows)
  {
    hide *;
    RegistryRuns.RunKeepsOk(rs, g, steps, n);
    WholeRegistry(rs[n], g);
    rows := MatchEvent(g, e, cap, index, compiled);
    forall id, verdict | id in rs[n].subscriptions && ReferenceSays(g, rs[n].subscriptions[id].subscription, e, Min(UNLIMITED_WARNING_DISTANCE_KM, cap), verdict)
      ensures RowAgrees(rs[n].subscriptions[id], e, rows, verdict)
    {
      LookupIsReference(rs[n], g, e, cap, rows, id, verdict);
      RowAgreement(rs[n], g, e, cap, rows, id, verdict);
    }
  }

  lemma WholeRegistry(r: Registry, g: Geometry)
    requires RegistryOk(r, g)
    ensures Exact(r.postings, r.compiled) && CompiledIds(r.compiled)
  {
    hide Exact, SubscriptionsOk, CompiledIds;
    RegistryTheorems.CompiledHasIds(r, g);
  }

  /** The row of one stored subscription is what the reference verdict asks for. */
  predicate RowAgrees(x: StoredSubscription, e: Event, rows: map<nat, Row>, verdict: Option<Choice>) {
    if x.active && verdict.Some? && !NegativeWarning(e) then
      && x.id in rows && rows[x.id].subscription == x.id && rows[x.id].destination == x.destination && rows[x.id].generation == x.generation
      && rows[x.id].targetOrdinal == verdict.value.ordinal && rows[x.id].matchKind == 1 && rows[x.id].level == verdict.value.level
    else x.id !in rows
  }

  lemma RowAgreement(r: Registry, g: Geometry, e: Event, cap: real, rows: map<nat, Row>, id: nat, verdict: Option<Choice>)
    requires RegistryOk(r, g) && id in r.subscriptions
    requires id in rows <==> r.subscriptions[id].active && verdict.Some? && !NegativeWarning(e)
    requires id in rows ==>
      && rows[id].subscription == id && rows[id].destination == r.subscriptions[id].destination
      && rows[id].generation == r.subscriptions[id].generation
      && rows[id].targetOrdinal == verdict.value.ordinal && rows[id].matchKind == 1 && rows[id].level == verdict.value.level
    ensures RowAgrees(r.subscriptions[id], e, rows, verdict)
  {
    hide NegativeWarning, Exact, CompiledOk, ConfirmationsOk, LeasesOk;
    assert RecordOk(r.subscriptions[id], id, r.lastSubscription, r.lastDestination);
  }

  // ---- postings and records read at two moments ----

  /** The engine's answer on the compiled record of an active subscription is that of the reference. */
  lemma RecordAgrees(r: Registry, g: Geometry, e: Event, cap: real, id: nat, row: Option<Row>, verdict: Option<Choice>)
    requires RegistryOk(r, g) && id in r.compiled && id in r.subscriptions && EngineSays(g, r.compiled[id], e, cap, row)
    requires ReferenceSays(g, r.subscriptions[id].subscription, e, Min(UNLIMITED_WARNING_DISTANCE_KM, cap), verdict)
    ensures r.subscriptions[id].active
    ensures RowAgrees(r.subscriptions[id], e, if row.Some? then map[id := row.value] else map[], verdict)
  {
    var x, c := r.subscriptions[id], r.compiled[id];
    assert CompiledRecord(g, x) == Some(c);
    assert RecordOk(x, id, r.lastSubscription, r.lastDestination);
    hide RegistryOk, EngineSays, ReferenceSays, NegativeWarning, ZeroBelow, Overlooked;
    CompileNames(g, x, c);
    CompilationPreserves(g, x.subscription, c, e, cap, row, verdict);
  }

  /** The program reads the postings first and the records after, and a subscription may change in between.
      Still every row belongs to an active subscription that the reference accepts at the second moment, and
      one that is stored alike at both moments has its row exactly when it should. */
  method LookupOverTime(g: Geometry, ghost rs: seq<Registry>, ghost steps: seq<Step>, ghost i: nat, ghost j: nat, index: Index, compiled: map<nat, Compiled>, e: Event, cap: real)
    returns (rows: map<nat, Row>)
    requires RegistryRuns.Run(rs, g, steps) && i <= j < |rs| && index == rs[i].postings && compiled == rs[j].compiled
    requires e.category.Earthquake()
    ensures rows.Keys <= rs[j].subscriptions.Keys
    ensures forall id, verdict :: id in rs[j].subscriptions && ReferenceSays(g, rs[j].subscriptions[id].subscription, e, Min(UNLIMITED_WARNING_DISTANCE_KM, cap), verdict) ==>
      (id in rows || Steady(rs[i], rs[j], id) ==> RowAgrees(rs[j].subscriptions[id], e, rows, verdict))
    ensures SplitScan(g, rs[i].compiled, compiled, e, cap, rows)
  {
    hide *;
    RegistryRuns.RunKeepsOk(rs, g, steps, i);
    RegistryRuns.RunKeepsOk(rs, g, steps, j);
    WholeRegistry(rs[i], g);
    rows := MatchSplit(g, e, cap, index, rs[i].compiled, compiled);
    SplitRowsAreStored(rs[j], g, rs[i].compiled, e, cap, rows);
    forall id, verdict | id in rs[j].subscriptions && ReferenceSays(g, rs[j].subscriptions[id].subscription, e, Min(UNLIMITED_WARNING_DISTANCE_KM, cap), verdict)
                         && (id in rows || Steady(rs[i], rs[j], id))
      ensures RowAgrees(rs[j].subscriptions[id], e, rows, verdict)
    {
      if id !in rows { SteadyIsSame(rs[i], rs[j], g, id); }
      SplitAgrees(rs[j], g, rs[i].compiled, e, cap, rows, id, verdict);
    }
  }

  /** The subscription is stored alike at both moments; RegistryRuns.GenerationFences says that the same
      generation is enough, below the last one. */
  predicate Steady(a: Registry, b: Registry, id: nat) {
    id in a.subscriptions && id in b.subscriptions && a.subscriptions[id] == b.subscriptions[id]
  }

  lemma SplitRowsAreStored(r: Registry, g: Geometry, before: map<nat, Compiled>, e: Event, cap: real, rows: map<nat, Row>)
    requires RegistryOk(r, g) && SplitScan(g, before, r.compiled, e, cap, rows)
    ensures rows.Keys <= r.subscriptions.Keys
  {
    hide Exact, ConfirmationsOk, LeasesOk, RecordsOk, EngineSays, CompiledRecord;
  }

  lemma SteadyIsSame(a: Registry, b: Registry, g: Geometry, id: nat)
    requires RegistryOk(a, g) && RegistryOk(b, g) && Steady(a, b, id)
    ensures id in a.compiled <==> id in b.compiled
    ensures id in a.compiled ==> a.compiled[id] == b.compiled[id]
  {
    hide Exact, ConfirmationsOk, LeasesOk, RecordsOk, CompiledRecord;
  }

  lemma SplitAgrees(r: Registry, g: Geometry, before: map<nat, Compiled>, e: Event, cap: real, rows: map<nat, Row>, id: nat, verdict: Option<Choice>)
    requires RegistryOk(r, g) && SplitScan(g, before, r.compiled, e, cap, rows) && id in r.subscriptions
    requires ReferenceSays(g, r.subscriptions[id].subscription, e, Min(UNLIMITED_WARNING_DISTANCE_KM, cap), verdict)
    requires id in rows || ((id in before <==> id in r.compiled) && (id in before ==> before[id] == r.compiled[id]))
    ensures RowAgrees(r.subscriptions[id], e, rows, verdict)
  {
    hide Exact, ConfirmationsOk, LeasesOk, EngineSays, ReferenceSays, NegativeWarning, CompiledRecord;
    assert RecordOk(r.subscriptions[id], id, r.lastSubscription, r.lastDestination);
    if id in r.compiled {
      RecordAgrees(r, g, e, cap, id, if id in rows then Some(rows[id]) else None, verdict);
    } else {
      assert !r.subscriptions[id].active;
    }
  }
}
