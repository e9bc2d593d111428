/**
 One match job from its event to its committed batches: the lookup or the recorded deliveries give the
 rows, the rows are sorted and split, and the batches are committed with the job's end. For a job of a
 reachable state the committed rows are those the reference matcher asks for.
 */
module MatchWorker {
  import opened Records
  import opened DeliverySpec
  import opened RowTable
  import opened RowSteps
  import opened Incidents
  import opened Catalog
  import opened Subscriptions
  import opened Matching
  import opened MatchingTheorems
  import opened Postings
  import opened Registry
  import opened FastMatch
  import opened BatchSplitter
  import RegistryRuns
  import DeliveryRuns
  import DeliveryInvariant
  import DeliveryGuards
  import opened DeliveryTheorems
  import DeliveryLedger
  import LaneOutcome
  import IncidentRecords
  import EventKeys
  import opened CatalogSteps
  import opened Pipeline

  // ---- sorting ----

  /** Rows are sorted by shard, destination and subscription. */
  predicate RowLess(a: Row, b: Row) {
    Shard(a.destination) < Shard(b.destination) ||
    (Shard(a.destination) == Shard(b.destination) && (a.destination < b.destination ||
    (a.destination == b.destination && a.subscription < b.subscription)))
  }

  ghost predicate Ordered(rows: seq<Row>) {
    forall i, j :: 0 <= i < j < |rows| ==> !RowLess(rows[j], rows[i])
  }

  /** Rows in order have their shards together and, within a shard, ascending destinations. */
  lemma OrderedMeans(rows: seq<Row>, i: nat, j: nat)
    requires Ordered(rows) && i < j < |rows|
    ensures rows[i].destination % 64 <= rows[j].destination % 64
    ensures rows[i].destination % 64 == rows[j].destination % 64 ==> rows[i].destination <= rows[j].destination
    ensures rows[i].destination == rows[j].destination ==> rows[i].subscription <= rows[j].subscription
  {
    assert !RowLess(rows[j], rows[i]);
  }

  method InsertRow(sorted: seq<Row>, row: Row) returns (r: seq<Row>)
    requires Ordered(sorted)
    ensures Ordered(r) && multiset(r) == multiset(sorted) + multiset{row}
  {
    var i := 0;
    while i < |sorted| && !RowLess(row, sorted[i])
      invariant 0 <= i <= |sorted|
      invariant forall j :: 0 <= j < i ==> !RowLess(row, sorted[j])
    {
      i := i + 1;
    }
    r := sorted[..i] + [row] + sorted[i..];
    assert sorted == sorted[..i] + sorted[i..];
  }

  method SortRows(rows: seq<Row>) returns (r: seq<Row>)
    ensures Ordered(r) && multiset(r) == multiset(rows)
  {
    assert Ordered([]);
    hide Ordered;
    r := [];
    var i := 0;
    while i < |rows|
      invariant 0 <= i <= |rows| && Ordered(r) && multiset(r) == multiset(rows[..i])
    {
      r := InsertRow(r, rows[i]);
      assert rows[..i + 1] == rows[..i] + [rows[i]];
      i := i + 1;
    }
    assert rows[..i] == rows;
  }

  // ---- the rows of a job ----

  ghost predicate DistinctDestinations(rows: seq<Row>) {
    forall i, j :: 0 <= i < j < |rows| ==> rows[i].destination != rows[j].destination
  }

  predicate Delivery(ledger: map<LedgerKey, Stored>, k: LedgerKey, incident: IncidentId, category: Category) {
    k in ledger && k.incident == incident && k.category == category
  }

  /** A cancellation goes once to every recorded delivery of the incident, at the active level. */
  ghost predicate Resends(ledger: map<LedgerKey, Stored>, incident: IncidentId, category: Category, rows: seq<Row>) {
    && (forall row :: row in rows ==> exists k :: Delivery(ledger, k, incident, category) && row == ledger[k].row.(level := Active))
    && (forall k :: Delivery(ledger, k, incident, category) ==> ledger[k].row.(level := Active) in rows)
  }

  /** The rows of a cancellation are exactly the delivered rows of the incident, at the active level. */
  lemma ResendsAll(ledger: map<LedgerKey, Stored>, incident: IncidentId, category: Category, rows: seq<Row>, row: Row)
    requires Resends(ledger, incident, category, rows)
    ensures row in rows <==> exists k :: k in ledger && k.incident == incident && k.category == category && row == ledger[k].row.(level := Active)
  {
    if k :| k in ledger && k.incident == incident && k.category == category && row == ledger[k].row.(level := Active) {
      assert Delivery(ledger, k, incident, category);
    }
  }

  /** The row is what the verdict on the subscription asks for. */
  predicate RowFits(x: StoredSubscription, row: Row, verdict: Choice) {
    && row.subscription == x.id && row.destination == x.destination && row.generation == x.generation
    && row.targetOrdinal == verdict.ordinal && row.matchKind == 1 && row.level == verdict.level
  }

  /** A stored subscription has one fitting row when it is active and the reference accepts the event, and
      none otherwise. */
  ghost predicate Announced(x: StoredSubscription, e: Event, rows: seq<Row>, verdict: Option<Choice>) {
    if x.active && verdict.Some? && !NegativeWarning(e) then exists row :: row in rows && RowFits(x, row, verdict.value)
    else forall row :: row in rows ==> row.subscription != x.id
  }

  ghost predicate HasRow(rows: seq<Row>, id: nat) {
    exists row :: row in rows && row.subscription == id
  }

  /** The postings were read from `before` and the records from `r`: every row is what `r` asks for, and
      so is the absence of one for every subscription stored alike in both. */
  ghost predicate Announces(before: Registry, r: Registry, g: Geometry, e: Event, cap: real, rows: seq<Row>) {
    && (forall row :: row in rows ==> row.subscription in r.subscriptions && row.destination == r.subscriptions[row.subscription].destination)
    && (forall id, verdict :: id in r.subscriptions && ReferenceSays(g, r.subscriptions[id].subscription, e, Min(UNLIMITED_WARNING_DISTANCE_KM, cap), verdict) ==>
          (HasRow(rows, id) || Steady(before, r, id) ==> Announced(r.subscriptions[id], e, rows, verdict)))
  }

  /** What the rows of a job are: nothing for a retired category, the recorded deliveries for a
      cancellation, and otherwise the subscriptions that the reference accepts; no destination twice. */
  ghost predicate JobRows(before: Registry, r: Registry, g: Geometry, ledger: map<LedgerKey, Stored>, incident: IncidentId, e: Event, cap: real, rows: seq<Row>) {
    && DistinctDestinations(rows)
    && if e.category.Retired() then rows == []
       else if e.cancel then Resends(ledger, incident, e.category, rows)
       else Announces(before, r, g, e, cap, rows)
  }

  // ---- what sorting keeps ----

  lemma {:induction false} AtMostOnce(rows: seq<Row>, row: Row)
    requires DistinctDestinations(rows)
    ensures multiset(rows)[row] <= 1
  {
    if rows != [] {
      var n := |rows| - 1;
      assert rows == rows[..n] + [rows[n]];
      AtMostOnce(rows[..n], row);
    }
  }

  lemma TwoPlaces(rows: seq<Row>, i: nat, j: nat)
    requires i < j < |rows| && rows[i] == rows[j]
    ensures multiset(rows)[rows[i]] >= 2
  {
    assert rows == rows[..j] + rows[j..];
    assert rows[..j][i] in rows[..j] && rows[j..][0] in rows[j..];
  }

  lemma PermutationStaysDistinct(a: seq<Row>, b: seq<Row>)
    requires DistinctDestinations(a) && multiset(a) == multiset(b)
    ensures DistinctDestinations(b)
  {
    forall i, j | 0 <= i < j < |b|
      ensures b[i].destination != b[j].destination
    {
      if b[i] == b[j] {
        TwoPlaces(b, i, j);
        AtMostOnce(a, b[i]);
      } else {
        assert b[i] in multiset(a) && b[j] in multiset(a);
        var x, y :| 0 <= x < |a| && 0 <= y < |a| && a[x] == b[i] && a[y] == b[j];
      }
    }
  }

  lemma SameMembers(a: seq<Row>, b: seq<Row>)
    requires multiset(a) == multiset(b)
    ensures forall row :: row in a <==> row in b
  {
    forall row
      ensures row in a <==> row in b
    {
      assert row in a <==> row in multiset(a);
      assert row in b <==> row in multiset(b);
    }
  }

  /** Sorting changes nothing about which rows there are. */
  lemma SortedJobRows(before: Registry, r: Registry, g: Geometry, ledger: map<LedgerKey, Stored>, incident: IncidentId, e: Event, cap: real, a: seq<Row>, b: seq<Row>)
    requires JobRows(before, r, g, ledger, incident, e, cap, a) && multiset(a) == multiset(b)
    ensures JobRows(before, r, g, ledger, incident, e, cap, b)
  {
    PermutationStaysDistinct(a, b);
    SameMembers(a, b);
    hide ReferenceSays, RowFits, NegativeWarning, Delivery, DistinctDestinations;
    if e.category.Retired() {
      assert |multiset(b)| == |b| == 0;
    } else if !e.cancel {
      SameAnnouncements(before, r, g, e, cap, a, b);
    }
  }

  lemma SameAnnouncements(before: Registry, r: Registry, g: Geometry, e: Event, cap: real, a: seq<Row>, b: seq<Row>)
    requires Announces(before, r, g, e, cap, a) && forall row :: row in a <==> row in b
    ensures Announces(before, r, g, e, cap, b)
  {
    hide ReferenceSays, RowFits, NegativeWarning, Steady;
    forall id, verdict | id in r.subscriptions && ReferenceSays(g, r.subscriptions[id].subscription, e, Min(UNLIMITED_WARNING_DISTANCE_KM, cap), verdict)
                         && (HasRow(b, id) || Steady(before, r, id))
      ensures Announced(r.subscriptions[id], e, b, verdict)
    {
      assert HasRow(b, id) ==> HasRow(a, id);
      assert Announced(r.subscriptions[id], e, a, verdict);
    }
  }

  // ---- collecting the rows ----

  ghost predicate DestinationsApart(all: set<Row>) {
    forall a, b :: a in all && b in all && a != b ==> a.destination != b.destination
  }

  /** The rows of a set, one by one. */
  method ListRows(all: set<Row>) returns (rows: seq<Row>)
    requires DestinationsApart(all)
    ensures DistinctDestinations(rows)
    ensures forall row :: row in rows <==> row in all
  {
    rows := [];
    var rest := all;
    while rest != {}
      invariant rest <= all && DistinctDestinations(rows)
      invariant forall row :: row in rows <==> row in all - rest
      decreases |rest|
    {
      var next :| next in rest;
      assert forall row :: row in rows ==> row != next && row.destination != next.destination;
      rows, rest := rows + [next], rest - {next};
    }
  }

  /** Ledger entries name the destination of the row they hold. */
  ghost predicate LedgerNamesRows(ledger: map<LedgerKey, Stored>) {
    forall k :: k in ledger ==> ledger[k].row.destination == k.destination
  }

  method CancellationRows(ledger: map<LedgerKey, Stored>, incident: IncidentId, category: Category) returns (rows: seq<Row>)
    requires LedgerNamesRows(ledger)
    ensures DistinctDestinations(rows) && Resends(ledger, incident, category, rows)
  {
    var all := set k | k in ledger && Delivery(ledger, k, incident, category) :: ledger[k].row.(level := Active);
    rows := ListRows(all);
  }

  /** The rows of a lookup, listed. */
  lemma ListedLookup(before: Registry, r: Registry, g: Geometry, e: Event, cap: real, m: map<nat, Row>, rows: seq<Row>)
    requires forall id :: id in m ==> id in r.subscriptions && m[id].subscription == id && m[id].destination == r.subscriptions[id].destination
    requires forall row :: row in rows <==> exists id :: id in m && m[id] == row
    requires forall id, verdict :: id in r.subscriptions && ReferenceSays(g, r.subscriptions[id].subscription, e, Min(UNLIMITED_WARNING_DISTANCE_KM, cap), verdict) ==>
      (id in m || Steady(before, r, id) ==> RowAgrees(r.subscriptions[id], e, m, verdict))
    ensures Announces(before, r, g, e, cap, rows)
  {
    hide ReferenceSays, NegativeWarning, RowAgrees, Announced, Steady;
    forall id, verdict | id in r.subscriptions && ReferenceSays(g, r.subscriptions[id].subscription, e, Min(UNLIMITED_WARNING_DISTANCE_KM, cap), verdict)
                         && (HasRow(rows, id) || Steady(before, r, id))
      ensures Announced(r.subscriptions[id], e, rows, verdict)
    {
      ListedRow(r.subscriptions[id], e, m, rows, verdict);
    }
  }

  lemma ListedRow(x: StoredSubscription, e: Event, m: map<nat, Row>, rows: seq<Row>, verdict: Option<Choice>)
    requires RowAgrees(x, e, m, verdict)
    requires forall row :: row in rows <==> exists id :: id in m && m[id] == row
    requires forall id :: id in m ==> m[id].subscription == id
    ensures Announced(x, e, rows, verdict)
  {
    hide NegativeWarning;
    if x.active && verdict.Some? && !NegativeWarning(e) {
      assert m[x.id] in rows && RowFits(x, m[x.id], verdict.value);
    }
  }

  lemma RecordsNameThemselves(r: Registry, g: Geometry)
    requires RegistryOk(r, g)
    ensures forall id :: id in r.subscriptions ==> r.subscriptions[id].id == id
    ensures forall a, b :: a in r.subscriptions && b in r.subscriptions && a != b ==> r.subscriptions[a].destination != r.subscriptions[b].destination
  {
    hide Exact, ConfirmationsOk, LeasesOk, CompiledOk;
  }

  lemma LookupNames(before: map<nat, Compiled>, r: Registry, g: Geometry, e: Event, cap: real, m: map<nat, Row>)
    requires RegistryOk(r, g) && SplitScan(g, before, r.compiled, e, cap, m)
    ensures forall id :: id in m ==> id in r.subscriptions && m[id].subscription == id && m[id].destination == r.subscriptions[id].destination
    ensures DestinationsApart(m.Values)
  {
    RecordsNameThemselves(r, g);
    hide RegistryOk, EngineSays;
    forall id | id in m
      ensures id in r.subscriptions && m[id].subscription == id && m[id].destination == r.subscriptions[id].destination
    {
      DeliveryGuards.LookupRowIsWhole(r, g, e, cap, id, m[id]);
    }
  }

  // ---- the job ----

  /** From the event of a job to its batches. The postings are read at state i of the registry, the records
      at j. A failure means one row is too large alone. */
  method ProcessMatchJob(g: Geometry, ghost rs: seq<Registry>, ghost steps: seq<Step>, ghost i: nat, ghost j: nat, index: Index, compiled: map<nat, Compiled>,
                         ledger: map<LedgerKey, Stored>, job: Job, e: Event, cap: real, createdAt: int, lastId: nat, size: Sizer)
    returns (batches: Option<seq<Batch>>, lastId': nat)
    requires RegistryRuns.Run(rs, g, steps) && i <= j < |rs| && index == rs[i].postings && compiled == rs[j].compiled
    requires LedgerNamesRows(ledger)
    ensures lastId <= lastId'
    ensures batches.Some? ==>
      && JobRows(rs[i], rs[j], g, ledger, job.incident, e, cap, Joined(batches.value))
      && (forall b :: b in batches.value ==> BatchFits(b, size))
      && Numbered(batches.value, job, e.category, createdAt, lastId, lastId')
    ensures batches.None? ==>
      exists rows :: JobRows(rs[i], rs[j], g, ledger, job.incident, e, cap, rows) && Oversized(job, e.category, createdAt, lastId, rows, size)
  {
    if e.category.Retired() {
      assert JobRows(rs[i], rs[j], g, ledger, job.incident, e, cap, []);
      return Some([]), lastId;
    }
    var rows: seq<Row>;
    if e.cancel {
      rows := CancellationRows(ledger, job.incident, e.category);
      assert JobRows(rs[i], rs[j], g, ledger, job.incident, e, cap, rows);
    } else {
      rows := LookupRows(g, rs, steps, i, j, index, compiled, e, cap);
      assert JobRows(rs[i], rs[j], g, ledger, job.incident, e, cap, rows);
    }
    hide JobRows, Ordered, RegistryRuns.Run, BatchFits, Numbered, Oversized;
    var sorted := SortRows(rows);
    SortedJobRows(rs[i], rs[j], g, ledger, job.incident, e, cap, rows, sorted);
    batches, lastId' := BuildDeliveryBatches(job, e.category, createdAt, lastId, sorted, size);
  }

  method LookupRows(g: Geometry, ghost rs: seq<Registry>, ghost steps: seq<Step>, ghost i: nat, ghost j: nat, index: Index, compiled: map<nat, Compiled>, e: Event, cap: real)
    returns (rows: seq<Row>)
    requires RegistryRuns.Run(rs, g, steps) && i <= j < |rs| && index == rs[i].postings && compiled == rs[j].compiled
    requires e.category.Earthquake()
    ensures DistinctDestinations(rows) && Announces(rs[i], rs[j], g, e, cap, rows)
  {
    hide *;
    RegistryRuns.RunKeepsOk(rs, g, steps, j);
    var m := LookupOverTime(g, rs, steps, i, j, index, compiled, e, cap);
    LookupNames(rs[i].compiled, rs[j], g, e, cap, m);
    rows := ListRows(m.Values);
    ListedLookup(rs[i], rs[j], g, e, cap, m, rows);
  }

  // ---- the commit ----

  lemma {:induction false} SuccessesName(m: map<LedgerKey, Stored>, b: Batch, xs: seq<Success>, now: int)
    requires LedgerNamesRows(m)
    ensures LedgerNamesRows(PutSuccesses(m, b, xs, now))
  {
    if xs != [] {
      SuccessesName(m, b, xs[..|xs| - 1], now);
    }
  }

  lemma LaneNames(s: DeliverySpec.Store, b: nat, lane: Lane, now: int)
    requires LaneAccepted(s, b, lane) && LedgerNamesRows(s.ledger)
    ensures LedgerNamesRows(LaneCommit(s, b, lane, now).ledger)
  {
    SuccessesName(s.ledger, s.pending[b], lane.successes, now);
    hide PutRetries, PutLetters, PutSuccesses, LedgerNamesRows;
  }

  lemma StepNames(y: DeliveryRuns.Sys, step: DeliveryRuns.Step)
    requires DeliveryRuns.Enabled(y, step) && LedgerNamesRows(y.store.ledger)
    ensures LedgerNamesRows(DeliveryRuns.Apply(y, step).store.ledger)
  {
    hide DeliveryRuns.CanCommitMatch, DeliveryRuns.CanStart, DeliveryRuns.CanLockLane, DeliveryRuns.CanEnd, DeliveryRuns.CanLockRetry, DeliveryRuns.CanCrash,
      LaneOutcome.Plan, LaneOutcome.LaneOf, LaneAccepted, LaneCommit, LaneTable, DeliveryRuns.Reattempt, SuccessAccepted;
    match step {
      case CommitMatch(batches) => DeliveryLedger.AddBatchesKeepsLedger(y.store, batches);
      case CommitLane(d, results, statuses, now) =>
        var h := y.holds[d];
        LaneOutcome.PlanNames(y.table.batches[h.batch], h.rows, h.head, results, statuses);
        var lane := LaneOutcome.LaneOf(y.table.batches[h.batch], h.rows, statuses);
        if LaneAccepted(y.store, h.batch, lane) {
          LaneNames(y.store, h.batch, lane, now);
        }
      case CommitRetry(d, result, next, letter, now) =>
      case _ =>
    }
  }

  lemma {:induction false} RunNames(ps: seq<Pipeline>, w: World, policy: Policy, actions: seq<Action>, n: nat)
    requires PipelineRun(ps, w, policy, actions) && n < |ps|
    ensures LedgerNamesRows(ps[n].delivery.store.ledger)
  {
    if n > 0 {
      RunNames(ps, w, policy, actions, n - 1);
      ActionNames(ps[n - 1], w, policy, actions[n - 1]);
    }
  }

  lemma ActionNames(p: Pipeline, w: World, policy: Policy, a: Action)
    requires CanAct(p, w, a) && LedgerNamesRows(p.delivery.store.ledger)
    ensures LedgerNamesRows(Act(p, w, policy, a).delivery.store.ledger)
  {
    hide CanAct, DeliveryRuns.Apply, Process, Prune;
    match a {
      case Match(job, batches) => DeliveryLedger.AddBatchesKeepsLedger(p.delivery.store, batches);
      case Deliver(step) => DeliverNames(p, w, step);
      case _ =>
    }
  }

  lemma DeliverNames(p: Pipeline, w: World, step: DeliveryRuns.Step)
    requires CanAct(p, w, Deliver(step)) && LedgerNamesRows(p.delivery.store.ledger)
    ensures LedgerNamesRows(DeliveryRuns.Apply(p.delivery, step).store.ledger)
  {
    hide DeliveryRuns.Enabled, DeliveryRuns.Apply;
    StepNames(p.delivery, step);
  }

  /** Committing the output ends the job and adds exactly its batches, every row unprogressed. */
  ghost predicate Committed(p: Pipeline, p': Pipeline, id: nat, batches: seq<Batch>) {
    && id !in p'.catalog.jobs
    && (forall b :: b in batches ==> b.id in p'.delivery.table.batches && p'.delivery.table.batches[b.id] == b)
    && (forall x :: x in p'.delivery.table.batches && x !in p.delivery.table.batches ==> p'.delivery.table.batches[x] in batches)
    && (forall x :: x in p.delivery.table.batches ==> x in p'.delivery.table.batches && p'.delivery.table.batches[x] == p.delivery.table.batches[x])
    && (forall b, i :: b in batches && 0 <= i < |b.rows| ==> Unprogressed(p'.delivery.store, RowId(b.id, i)))
  }

  lemma {:induction false} AddedToTable(t: Table, batches: seq<Batch>)
    requires Distinct(BatchIds(batches))
    ensures var t' := AddAllToTable(t, batches);
      && (forall b :: b in batches ==> b.id in t'.batches && t'.batches[b.id] == b)
      && (forall x :: x in t'.batches && x !in t.batches ==> t'.batches[x] in batches)
  {
    if batches != [] {
      var n := |batches| - 1;
      DistinctFront(batches);
      AddedToTable(t, batches[..n]);
      assert batches == batches[..n] + [batches[n]];
    }
  }

  lemma DistinctFront(batches: seq<Batch>)
    requires Distinct(BatchIds(batches)) && batches != []
    ensures var n := |batches| - 1; Distinct(BatchIds(batches[..n])) && forall b :: b in batches[..n] ==> b.id != batches[n].id
  {
    var n := |batches| - 1;
    forall i | 0 <= i < n
      ensures batches[..n][i].id != batches[n].id
    {
      assert BatchIds(batches)[i] != BatchIds(batches)[n];
    }
    forall i, j | 0 <= i < j < n
      ensures BatchIds(batches[..n])[i] != BatchIds(batches[..n])[j]
    {
      assert BatchIds(batches)[i] != BatchIds(batches)[j];
    }
  }

  /** The batches of a stored job, under ids above those in use, can be committed, and the commit goes through. */
  lemma OutputCommits(ps: seq<Pipeline>, w: World, policy: Policy, actions: seq<Action>, n: nat, id: nat, batches: seq<Batch>,
                      createdAt: int, first: nat, last: nat)
    requires PipelineRun(ps, w, policy, actions) && n < |ps| && id in ps[n].catalog.jobs && ps[n].catalog.jobs[id].revision in ps[n].catalog.events
    requires Numbered(batches, ps[n].catalog.jobs[id], ps[n].catalog.events[ps[n].catalog.jobs[id].revision].category, createdAt, first, last)
    requires forall b :: b in batches ==> b.rows != []
    requires forall x :: x in ps[n].delivery.table.batches ==> x <= first
    ensures CanAct(ps[n], w, Match(id, batches))
    ensures Committed(ps[n], MatchAction(ps[n], id, batches), id, batches)
  {
    RunKeepsPipeline(ps, w, policy, actions, n);
    hide *;
    OutputFits(ps[n], id, batches, createdAt, first, last);
    CommitsOutput(ps[n], id, batches);
    CanMatch(ps[n], w, id, batches);
  }

  lemma CanMatch(p: Pipeline, w: World, id: nat, batches: seq<Batch>)
    requires id in p.catalog.jobs && BatchesFit(p.catalog, p.catalog.jobs[id], batches) && DeliveryRuns.CanCommitMatch(p.delivery, batches)
    ensures CanAct(p, w, Match(id, batches))
  {
    hide BatchesFit, DeliveryRuns.CanCommitMatch;
  }

  lemma OutputFits(p: Pipeline, id: nat, batches: seq<Batch>, createdAt: int, first: nat, last: nat)
    requires id in p.catalog.jobs && p.catalog.jobs[id].revision in p.catalog.events
    requires Numbered(batches, p.catalog.jobs[id], p.catalog.events[p.catalog.jobs[id].revision].category, createdAt, first, last)
    requires forall b :: b in batches ==> b.rows != []
    requires forall x :: x in p.delivery.table.batches ==> x <= first
    ensures BatchesFit(p.catalog, p.catalog.jobs[id], batches) && DeliveryRuns.CanCommitMatch(p.delivery, batches)
  {
  }

  lemma CommitsOutput(p: Pipeline, id: nat, batches: seq<Batch>)
    requires PipelineOk(p) && id in p.catalog.jobs && BatchesFit(p.catalog, p.catalog.jobs[id], batches) && DeliveryRuns.CanCommitMatch(p.delivery, batches)
    ensures Committed(p, MatchAction(p, id, batches), id, batches)
  {
    hide PipelineOk, BatchesFit, MatchAccepted, BatchesAccepted, Unprogressed, CommitMatchJob, AddBatches, AddAllToTable, DeliveryInvariant.Extends, LedgerHas;
    MatchAlwaysAccepted(p, id, batches);
    assert DeliveryRuns.Inv(p.delivery) by { OkParts(p); }
    DeliveryInvariant.CommitMatchKeeps(p.delivery, batches);
    AddedToTable(p.delivery.table, batches);
    JobEnds(p.catalog, id, batches, LedgerHas(p.delivery.store.ledger, p.catalog.jobs[id].incident));
    AddedRowsWait(p.delivery, batches);
    TableGrows(p.delivery.table, AddAllToTable(p.delivery.table, batches));
  }

  lemma OkParts(p: Pipeline)
    requires PipelineOk(p)
    ensures DeliveryRuns.Inv(p.delivery)
  {
    hide CatalogOk, DeliveryRuns.Inv, Linked;
  }

  lemma TableGrows(t: Table, t': Table)
    requires DeliveryInvariant.Extends(t, t')
    ensures forall x :: x in t.batches ==> x in t'.batches && t'.batches[x] == t.batches[x]
  {
  }

  lemma JobEnds(c: Catalog, id: nat, batches: seq<Batch>, ledger: bool)
    requires MatchAccepted(c, id, batches, ledger)
    ensures id !in CommitMatchJob(c, id, batches, ledger).jobs
  {
    hide RemoveIndexes, IndexesMatch;
  }

  lemma AddedRowsWait(y: DeliveryRuns.Sys, batches: seq<Batch>)
    requires DeliveryRuns.Inv(y) && DeliveryRuns.CanCommitMatch(y, batches)
    ensures forall b, i :: b in batches && 0 <= i < |b.rows| ==> Unprogressed(DeliveryRuns.MatchStep(y, batches).store, RowId(b.id, i))
  {
    var y' := DeliveryRuns.MatchStep(y, batches);
    hide *;
    DeliveryInvariant.CommitMatchKeeps(y, batches);
    NewBatches(y, batches);
    forall b, i | b in batches && 0 <= i < |b.rows|
      ensures Unprogressed(y'.store, RowId(b.id, i))
    {
      NewRowIsFresh(y.table, y'.table, b, i);
      RowConservation(y', RowId(b.id, i));
    }
  }

  lemma NewBatches(y: DeliveryRuns.Sys, batches: seq<Batch>)
    requires DeliveryRuns.Inv(y) && DeliveryRuns.Inv(DeliveryRuns.MatchStep(y, batches)) && DeliveryRuns.CanCommitMatch(y, batches)
    ensures WellFormed(y.table) && WellFormed(DeliveryRuns.MatchStep(y, batches).table)
    ensures forall b :: b in batches ==>
      b.id !in y.table.batches && b.id in DeliveryRuns.MatchStep(y, batches).table.batches && DeliveryRuns.MatchStep(y, batches).table.batches[b.id] == b
  {
    hide WellFormed, Agrees, DeliveryRuns.Fifo, DeliveryRuns.Uniform, DeliveryRuns.LanesOk, DeliveryRuns.HoldsOk, DeliveryRuns.AttemptsOk, AddAllToTable, AddBatches;
    AddedToTable(y.table, batches);
    DeliveryInvariant.NewBatchIds(y.table, batches);
  }

  lemma NewRowIsFresh(t: Table, t': Table, b: Batch, i: nat)
    requires WellFormed(t) && WellFormed(t') && DeliveryInvariant.Extends(t, t')
    requires b.id !in t.batches && b.id in t'.batches && t'.batches[b.id] == b && i < |b.rows|
    ensures RowId(b.id, i) in t'.status && t'.status[RowId(b.id, i)].Fresh?
  {
    hide UniqueRetries, UniqueLetters, StatusFits, Live, Letters;
    assert IsRow(t', RowId(b.id, i)) && !IsRow(t, RowId(b.id, i));
  }

  // ---- what happens while a job is matched ----

  /** Processing an item leaves stored jobs and events alone; a new job comes with the next revision. */
  ghost predicate JobsGrow(c: Catalog, d: Catalog) {
    && (forall k :: k in c.jobs ==> k in d.jobs && d.jobs[k] == c.jobs[k])
    && (forall k :: k in c.events ==> k in d.events && d.events[k] == c.events[k])
    && (forall k :: k in d.jobs && k !in c.jobs ==> d.jobs[k].revision == c.lastRevision + 1 == d.lastRevision)
    && c.lastRevision <= d.lastRevision
  }

  lemma SameJobsGrow(c: Catalog, d: Catalog)
    requires d.jobs == c.jobs && d.events == c.events && d.lastRevision == c.lastRevision
    ensures JobsGrow(c, d)
  {
  }

  lemma ProcessGrows(c: Catalog, w: World, policy: Policy, item: nat, r: Resolution, now: int, ledger: IncidentId -> bool)
    requires CatalogOk(c) && item in c.inbox
    ensures JobsGrow(c, Process(c, w, policy, item, r, now, ledger))
  {
    hide CatalogOk, IncidentRecords.ReduceSpec, ShouldMatch, EventKeys.KeyOfEvent, Advance, JobsGrow;
    IdsAreFresh(c);
    SameJobsGrow(c, c);
    SameJobsGrow(c, c.(inbox := c.inbox - {item}));
    SameJobsGrow(c, Reject(c, item));
    var e := c.inbox[item];
    if !e.category.Retired() && r.Resolved? {
      var current := if r.id in c.incidents then Some(c.incidents[r.id]) else None;
      var t := IncidentRecords.ReduceSpec(current, e, EventKeys.KeyOfEvent(e), now, w.digest);
      if t.Reduced? && t.outcome.Applied? {
        AdvanceGrows(c, w, item, e, t.incident, if ShouldMatch(w, policy, current, e, now) then Some(r.id) else None, now, ledger(t.incident.id));
      }
    }
  }

  lemma IdsAreFresh(c: Catalog)
    requires CatalogOk(c)
    ensures c.lastJob + 1 !in c.jobs && c.lastRevision + 1 !in c.events
  {
    hide IncidentsOk, AliasesOk, CorrelationOk, CountsOk, InboxOk;
  }

  lemma CommitGrows(c: Catalog, w: World, r: Incident, e: Event, job: Option<Job>, ledger: bool, item: nat)
    ensures var d := CommitIncident(c, w, r, e, job, ledger, item);
      && d.lastRevision == c.lastRevision
      && (if job.Some? then d.jobs == c.jobs[job.value.id := job.value] && d.events == c.events[job.value.revision := e]
          else d.jobs == c.jobs && d.events == c.events)
  {
    hide PutAliases, PutCorrelation, RemoveIndexes, Merged, KeepUnmatched;
  }

  lemma AdvanceGrows(c: Catalog, w: World, item: nat, e: Event, next: Incident, matched: Option<IncidentId>, now: int, ledger: bool)
    requires c.lastJob + 1 !in c.jobs && c.lastRevision + 1 !in c.events
    ensures JobsGrow(c, Advance(c, w, item, e, next, matched, now, ledger))
  {
    hide CommitAccepted, CommitIncident;
    CommitGrows(c, w, next, e, None, ledger, item);
    if matched.Some? {
      CommitGrows(c.(lastJob := c.lastJob + 1, lastRevision := c.lastRevision + 1), w, next, e,
                  Some(Job(c.lastJob + 1, matched.value, c.lastRevision + 1, now)), ledger, item);
    }
  }

  /** The job, its event and the batches are as they were. */
  ghost predicate JobWaits(p: Pipeline, p': Pipeline, id: nat) {
    && p'.delivery.table.batches == p.delivery.table.batches
    && id in p.catalog.jobs && id in p'.catalog.jobs && p'.catalog.jobs[id] == p.catalog.jobs[id]
    && var k := p.catalog.jobs[id].revision;
    && k in p.catalog.events && k in p'.catalog.events && p'.catalog.events[k] == p.catalog.events[k]
  }

  lemma GrowthLetsWait(p: Pipeline, p': Pipeline, id: nat)
    requires JobsGrow(p.catalog, p'.catalog) && p'.delivery.table.batches == p.delivery.table.batches
    requires id in p.catalog.jobs && p.catalog.jobs[id].revision in p.catalog.events
    ensures JobWaits(p, p', id)
  {
  }

  lemma RetentionLetsWait(p: Pipeline, w: World, incidentCutoff: int, ledgerCutoff: int, eventCutoff: int, id: nat)
    requires id in p.catalog.jobs && p.catalog.jobs[id].revision in p.catalog.events
    ensures JobWaits(p, RetainAction(p, w, incidentCutoff, ledgerCutoff, eventCutoff), id)
  {
    hide RemoveIndexes, PrunedIncidents, LedgerOf, OldDeliveries;
    assert p.catalog.jobs[id].revision in ReferencesOf(p).revisions;
  }

  lemma DeliveryLetsWait(p: Pipeline, w: World, step: DeliveryRuns.Step, id: nat)
    requires CanAct(p, w, Deliver(step)) && id in p.catalog.jobs && p.catalog.jobs[id].revision in p.catalog.events
    ensures JobWaits(p, p.(delivery := DeliveryRuns.Apply(p.delivery, step)), id)
  {
    hide DeliveryRuns.Apply, DeliveryRuns.Enabled, JobsGrow, JobWaits;
    var p' := p.(delivery := DeliveryRuns.Apply(p.delivery, step));
    SameBatches(p.delivery, step);
    SameJobsGrow(p.catalog, p'.catalog);
    GrowthLetsWait(p, p', id);
  }

  lemma ItemLetsWait(p: Pipeline, w: World, policy: Policy, item: nat, r: Resolution, now: int, id: nat)
    requires CatalogOk(p.catalog) && item in p.catalog.inbox && id in p.catalog.jobs && p.catalog.jobs[id].revision in p.catalog.events
    ensures JobWaits(p, p.(catalog := Process(p.catalog, w, policy, item, r, now, LedgerOf(p))), id)
  {
    hide CatalogOk, Process, LedgerOf, JobsGrow, JobWaits;
    ProcessGrows(p.catalog, w, policy, item, r, now, LedgerOf(p));
    GrowthLetsWait(p, p.(catalog := Process(p.catalog, w, policy, item, r, now, LedgerOf(p))), id);
  }

  lemma ReceiptLetsWait(p: Pipeline, events: seq<Event>, id: nat)
    requires id in p.catalog.jobs && p.catalog.jobs[id].revision in p.catalog.events
    ensures JobWaits(p, p.(catalog := Ingest(p.catalog, events)), id)
  {
    hide Ingest, JobsGrow, JobWaits;
    IngestOnlyInbox(p.catalog, events);
    SameJobsGrow(p.catalog, Ingest(p.catalog, events));
    GrowthLetsWait(p, p.(catalog := Ingest(p.catalog, events)), id);
  }

  lemma ActionLetsWait(p: Pipeline, w: World, policy: Policy, a: Action, id: nat)
    requires PipelineOk(p) && CanAct(p, w, a) && !a.Match? && id in p.catalog.jobs && p.catalog.jobs[id].revision in p.catalog.events
    ensures JobWaits(p, Act(p, w, policy, a), id)
  {
    assert CatalogOk(p.catalog);
    hide PipelineOk, CatalogOk, DeliveryRuns.Apply, DeliveryRuns.Enabled, Process, IngestAccepted, Resolves, Ingest, LedgerOf, RetainAction, JobWaits, BatchesFit;
    match a {
      case Receive(_, events) => ReceiptLetsWait(p, events, id);
      case ProcessItem(item, resolution, now) => ItemLetsWait(p, w, policy, item, resolution, now, id);
      case Deliver(step) => DeliveryLetsWait(p, w, step, id);
      case Retain(incidents, ledger, events) => RetentionLetsWait(p, w, incidents, ledger, events, id);
    }
  }

  lemma {:induction false} JobStays(ps: seq<Pipeline>, w: World, policy: Policy, actions: seq<Action>, m1: nat, m2: nat, id: nat)
    requires PipelineRun(ps, w, policy, actions) && m1 <= m2 < |ps| && id in ps[m1].catalog.jobs && ps[m1].catalog.jobs[id].revision in ps[m1].catalog.events
    requires forall k :: m1 <= k < m2 ==> !actions[k].Match?
    ensures JobWaits(ps[m1], ps[m2], id)
  {
    hide PipelineOk, CanAct, Act;
    if m1 < m2 {
      JobStays(ps, w, policy, actions, m1, m2 - 1, id);
      RunKeepsPipeline(ps, w, policy, actions, m2 - 1);
      ActionLetsWait(ps[m2 - 1], w, policy, actions[m2 - 1], id);
    }
  }

  // ---- end to end ----

  /** The batches committed at state k are made of the rows of their job: the ledger was read at some state
      before, the postings and the records of the registry at some states of its own. */
  ghost predicate FromWorker(ps: seq<Pipeline>, k: nat, id: nat, batches: seq<Batch>, g: Geometry, rs: seq<Registry>, cap: real) {
    && k < |ps| && id in ps[k].catalog.jobs && ps[k].catalog.jobs[id].revision in ps[k].catalog.events
    && exists m: nat, i: nat, j: nat :: m <= k && i <= j < |rs|
         && JobRows(rs[i], rs[j], g, ps[m].delivery.store.ledger, ps[k].catalog.jobs[id].incident,
                    ps[k].catalog.events[ps[k].catalog.jobs[id].revision], cap, Joined(batches))
  }

  /** A job taken up at state m1 of the pipeline and committed at m2, with anything but another match commit
      in between, and matched against postings and records of a reachable registry: its output is accepted,
      ends the job and adds exactly the batches made of its rows, which are those the reference asks for. */
  method CompleteMatchJob(g: Geometry, ghost rs: seq<Registry>, ghost steps: seq<Step>, ghost i: nat, ghost j: nat, index: Index, compiled: map<nat, Compiled>,
                          ghost ps: seq<Pipeline>, ghost w: World, ghost policy: Policy, ghost actions: seq<Action>, ghost m1: nat, ghost m2: nat, ghost id: nat,
                          ledger: map<LedgerKey, Stored>, job: Job, e: Event, cap: real, createdAt: int, lastId: nat, size: Sizer)
    returns (batches: Option<seq<Batch>>, lastId': nat)
    requires RegistryRuns.Run(rs, g, steps) && i <= j < |rs| && index == rs[i].postings && compiled == rs[j].compiled
    requires PipelineRun(ps, w, policy, actions) && m1 <= m2 < |ps| && ledger == ps[m1].delivery.store.ledger
    requires forall k :: m1 <= k < m2 ==> !actions[k].Match?
    requires id in ps[m1].catalog.jobs && job == ps[m1].catalog.jobs[id] && job.revision in ps[m1].catalog.events && e == ps[m1].catalog.events[job.revision]
    requires forall x :: x in ps[m1].delivery.table.batches ==> x <= lastId
    ensures batches.Some? ==>
      && CanAct(ps[m2], w, Match(id, batches.value))
      && Committed(ps[m2], MatchAction(ps[m2], id, batches.value), id, batches.value)
      && JobRows(rs[i], rs[j], g, ledger, job.incident, e, cap, Joined(batches.value))
      && FromWorker(ps, m2, id, batches.value, g, rs, cap)
      && forall b :: b in batches.value ==> BatchFits(b, size)
    ensures batches.None? ==>
      exists rows :: JobRows(rs[i], rs[j], g, ledger, job.incident, e, cap, rows) && Oversized(job, e.category, createdAt, lastId, rows, size)
  {
    hide *;
    RunNames(ps, w, policy, actions, m1);
    batches, lastId' := ProcessMatchJob(g, rs, steps, i, j, index, compiled, ledger, job, e, cap, createdAt, lastId, size);
    if batches.Some? {
      FittingRows(batches.value, size);
      JobStays(ps, w, policy, actions, m1, m2, id);
      Waited(ps[m1], ps[m2], id);
      OutputCommits(ps, w, policy, actions, m2, id, batches.value, createdAt, lastId, lastId');
      IsFromWorker(ps, m1, m2, id, batches.value, g, rs, i, j, cap);
    }
  }

  lemma IsFromWorker(ps: seq<Pipeline>, m1: nat, m2: nat, id: nat, batches: seq<Batch>, g: Geometry, rs: seq<Registry>, i: nat, j: nat, cap: real)
    requires m1 <= m2 < |ps| && i <= j < |rs| && id in ps[m2].catalog.jobs && ps[m2].catalog.jobs[id].revision in ps[m2].catalog.events
    requires JobRows(rs[i], rs[j], g, ps[m1].delivery.store.ledger, ps[m2].catalog.jobs[id].incident,
                     ps[m2].catalog.events[ps[m2].catalog.jobs[id].revision], cap, Joined(batches))
    ensures FromWorker(ps, m2, id, batches, g, rs, cap)
  {
    hide JobRows, Joined;
  }

  lemma Waited(p: Pipeline, p': Pipeline, id: nat)
    requires JobWaits(p, p', id)
    ensures p'.delivery.table.batches == p.delivery.table.batches
    ensures id in p.catalog.jobs && id in p'.catalog.jobs && p'.catalog.jobs[id] == p.catalog.jobs[id]
    ensures var k := p.catalog.jobs[id].revision;
      k in p.catalog.events && k in p'.catalog.events && p'.catalog.events[k] == p.catalog.events[k]
  {
  }

  lemma FittingRows(batches: seq<Batch>, size: Sizer)
    requires forall b :: b in batches ==> BatchFits(b, size)
    ensures forall b :: b in batches ==> b.rows != []
  {
    forall b | b in batches
      ensures b.rows != []
    {
      assert BatchFits(b, size);
    }
  }
}
