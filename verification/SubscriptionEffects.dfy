/**
 What storing, deactivating and confirming leave of the registry, record by record: which record a
 destination gets and under which generation, and that nothing else is touched.
 */
module SubscriptionEffects {
  import opened Records
  import opened Incidents
  import opened Catalog
  import opened Subscriptions
  import opened Postings
  import opened Registry
  import opened RegistryTheorems

  // ---- what is a valid subscription ----

  predicate Covers(b: IntensityBand, value: nat) {
    b.min <= value <= b.max
  }

  /** Up to three ranges of intensities from 0 to 7: no intensity lies in two of them, no level is named
      twice, and a critical range reaches to 7. */
  lemma BandsAreRanges(bands: seq<IntensityBand>)
    ensures ValidBands(bands) <==>
      && 1 <= |bands| <= 3
      && (forall i :: 0 <= i < |bands| ==> Covers(bands[i], bands[i].min))
      && (forall i, value: nat :: 0 <= i < |bands| && Covers(bands[i], value) ==> value <= 7)
      && (forall i, j, value: nat :: 0 <= i < |bands| && 0 <= j < |bands| && Covers(bands[i], value) && Covers(bands[j], value) ==> i == j)
      && (forall i, j :: 0 <= i < |bands| && 0 <= j < |bands| && bands[i].level == bands[j].level ==> i == j)
      && (forall i :: 0 <= i < |bands| && bands[i].level.Critical? ==> Covers(bands[i], 7))
  {
    forall i, j | 0 <= i < j < |bands| && bands[i].min <= bands[i].max && bands[j].min <= bands[j].max
      ensures (bands[i].max < bands[j].min || bands[j].max < bands[i].min) <==> forall value: nat :: !(Covers(bands[i], value) && Covers(bands[j], value))
    {
      var highest := if bands[i].min < bands[j].min then bands[j].min else bands[i].min;
      assert (Covers(bands[i], highest) && Covers(bands[j], highest)) || bands[i].max < bands[j].min || bands[j].max < bands[i].min;
    }
    forall b | b in bands && b.min <= b.max
      ensures b.max <= 7 <==> forall value: nat :: Covers(b, value) ==> value <= 7
    {
      assert Covers(b, b.max);
    }
  }

  /** A rule may listen to every source, or to a list of sources of its category without repetition. */
  lemma SourcesMean(category: Category, sources: SourceSelection)
    ensures ValidSources(category, sources) <==>
      sources.All?
      || (sources.ids != [] && Distinct(sources.ids)
          && forall id :: id in sources.ids ==> exists k :: 0 <= k < |SOURCES| && SOURCES[k].id == id && SOURCES[k].category == category)
  {
    SourcesAreDistinct();
    if sources.Include? {
      forall id | id in sources.ids
        ensures SourceIndex(id).Some? && SOURCES[SourceIndex(id).value].category == category <==>
          exists k :: 0 <= k < |SOURCES| && SOURCES[k].id == id && SOURCES[k].category == category
      {
        NamedOnce(id, category);
      }
      hide SourceIndex;
    }
  }

  lemma NamedOnce(id: string, category: Category)
    requires forall i, j :: 0 <= i < j < |SOURCES| ==> SOURCES[i].id != SOURCES[j].id
    ensures SourceIndex(id).Some? && SOURCES[SourceIndex(id).value].category == category <==>
      exists k :: 0 <= k < |SOURCES| && SOURCES[k].id == id && SOURCES[k].category == category
  {
    var at := SourceIndex(id);
    hide SourceIndex;
    assert forall k :: 0 <= k < |SOURCES| && SOURCES[k].id == id ==> at.Some? && k == at.value;
  }

  /** A subscription has up to three targets and at most one rule of each category. */
  lemma ValidMeans(s: Subscription)
    ensures Valid(s) <==>
      && 1 <= |s.targets| <= 3 && 1 <= |s.alerts| <= 2
      && (|s.alerts| == 2 ==> s.alerts[0].WarningRule? != s.alerts[1].WarningRule?)
      && forall a :: a in s.alerts ==>
           (if a.WarningRule? then ValidSources(EarthquakeWarning, a.sources) && ValidBands(a.bands)
            else ValidSources(EarthquakeReport, a.sources) && 0.0 <= a.minMagnitude <= 10.0)
  {
    hide ValidSources, ValidBands;
  }

  // ---- storing ----

  /** The records of all other destinations are as they were. */
  ghost predicate OnlyAt(r: Registry, r': Registry, id: nat, d: DestinationId) {
    && (forall i :: i != id ==> (i in r'.subscriptions <==> i in r.subscriptions))
    && (forall i :: i != id && i in r.subscriptions ==> r'.subscriptions[i] == r.subscriptions[i])
    && (forall x :: x != d ==> (x in r'.byDestination <==> x in r.byDestination))
    && (forall x :: x != d && x in r.byDestination ==> r'.byDestination[x] == r.byDestination[x])
  }

  /** Storing a subscription: the record of its destination takes it over under the next generation and is
      active, or a new record is made with ids nobody had. */
  lemma StoreMeans(r: Registry, g: Geometry, s: Subscription)
    requires RegistryOk(r, g)
    ensures StoreAccepted(r, s) <==> Valid(s) && (s.destination in r.byDestination || (r.lastSubscription < U64_MAX && r.lastDestination < U64_MAX))
    ensures StoreAccepted(r, s) ==>
      var r' := Store(r, g, s, None);
      && s.destination in r'.byDestination && r'.byDestination[s.destination] in r'.subscriptions
      && var id := r'.byDestination[s.destination];
      && var x := r'.subscriptions[id];
      && x.active && x.subscription == s && x.id == id && id in r'.compiled
      && OnlyAt(r, r', id, s.destination)
      && r'.operations == r.operations && r'.operationOf == r.operationOf
      && if s.destination in r.byDestination then
           && id == r.byDestination[s.destination]
           && x.destination == r.subscriptions[id].destination
           && x.generation == (if r.subscriptions[id].generation < 0xFFFF_FFFF_FFFF_FFFF then r.subscriptions[id].generation + 1 else 0xFFFF_FFFF_FFFF_FFFF)
         else
           && id !in r.subscriptions && x.generation == 1
           && forall i :: i in r.subscriptions ==> r.subscriptions[i].destination != x.destination
  {
    hide Exact, ConfirmationsOk, LeasesOk, Valid, Store, OnlyAt;
    if StoreAccepted(r, s) {
      assert RecordsOk(r.subscriptions, r.byDestination, r.lastSubscription, r.lastDestination);
      StoredAs(r, g, s);
    }
  }

  lemma StoredAs(r: Registry, g: Geometry, s: Subscription)
    requires RecordsOk(r.subscriptions, r.byDestination, r.lastSubscription, r.lastDestination) && StoreAccepted(r, s)
    ensures var r', x := Store(r, g, s, None), StoredRecord(r, s);
      && s.destination in r'.byDestination && r'.byDestination[s.destination] == x.id
      && x.id in r'.subscriptions && r'.subscriptions[x.id] == x && x.id in r'.compiled
      && OnlyAt(r, r', x.id, s.destination) && r'.operations == r.operations && r'.operationOf == r.operationOf
  {
    hide Valid, Reindex, CompiledRecord;
  }

  /** Dropping the confirmation of a destination takes out exactly the one it has. */
  lemma DropTakes(r: Registry, d: DestinationId)
    requires ConfirmationsOk(r.operations, r.operationOf, r.begun)
    ensures var r' := DropConfirmation(r, d);
      && (forall i :: i in r'.operations <==> i in r.operations && r.operations[i].subscription.destination != d)
      && (forall i :: i in r'.operations ==> r'.operations[i] == r.operations[i])
      && r' == r.(operations := r'.operations, operationOf := r'.operationOf)
      && forall i :: i in r.operations ==> i in r.begun
  {
    hide OperationOk;
  }

  /** Deactivating a subscription: the record stays under the next generation, matches no more, and a
      pending confirmation of its destination is gone; nothing else changes. */
  lemma DeactivateMeans(r: Registry, g: Geometry, id: nat)
    requires RegistryOk(r, g) && id in r.subscriptions
    ensures var r', x := Deactivate(r, id), r.subscriptions[id];
      && id in r'.subscriptions && id !in r'.compiled && !r'.subscriptions[id].active
      && r'.subscriptions[id].generation == (if x.generation < 0xFFFF_FFFF_FFFF_FFFF then x.generation + 1 else 0xFFFF_FFFF_FFFF_FFFF)
      && r'.subscriptions[id].subscription == x.subscription && r'.subscriptions[id].destination == x.destination && r'.subscriptions[id].id == id
      && OnlyAt(r, r', id, x.subscription.destination) && r'.byDestination == r.byDestination
      && (forall i :: i in r'.operations <==> i in r.operations && r.operations[i].subscription.destination != x.subscription.destination)
      && (forall i :: i in r'.operations ==> r'.operations[i] == r.operations[i])
  {
    hide Deactivate, OnlyAt;
    NamesItself(r, g, id);
    DeactivatedRecords(r, id);
    DeactivatedConfirmations(r, id);
  }

  lemma NamesItself(r: Registry, g: Geometry, id: nat)
    requires RegistryOk(r, g) && id in r.subscriptions
    ensures r.subscriptions[id].id == id && ConfirmationsOk(r.operations, r.operationOf, r.begun)
  {
    hide Exact, ConfirmationsOk, LeasesOk, CompiledOk;
  }

  lemma DeactivatedRecords(r: Registry, id: nat)
    requires id in r.subscriptions && r.subscriptions[id].id == id
    ensures var r', x := Deactivate(r, id), r.subscriptions[id];
      && id in r'.subscriptions && id !in r'.compiled
      && r'.subscriptions[id] == x.(active := false, generation := if x.generation < 0xFFFF_FFFF_FFFF_FFFF then x.generation + 1 else 0xFFFF_FFFF_FFFF_FFFF)
      && OnlyAt(r, r', id, x.subscription.destination) && r'.byDestination == r.byDestination
  {
    hide Reindex;
  }

  lemma DeactivatedConfirmations(r: Registry, id: nat)
    requires id in r.subscriptions && ConfirmationsOk(r.operations, r.operationOf, r.begun)
    ensures var r', d := Deactivate(r, id), r.subscriptions[id].subscription.destination;
      && (forall i :: i in r'.operations <==> i in r.operations && r.operations[i].subscription.destination != d)
      && (forall i :: i in r'.operations ==> r'.operations[i] == r.operations[i])
  {
    hide Reindex, ConfirmationsOk, DropConfirmation;
    DropTakes(r, r.subscriptions[id].subscription.destination);
  }

  /** Beginning a confirmation: it replaces the one of its destination, is leased to its caller at once
      under the first token, and leaves subscriptions alone. */
  lemma BeginMeans(r: Registry, g: Geometry, id: nat, s: Subscription, now: int, leaseFor: int)
    requires RegistryOk(r, g) && id !in r.begun
    ensures var r' := Begin(r, id, s, now, leaseFor);
      && id in r'.operations
      && var o := r'.operations[id];
      && o.id == id && o.subscription == s && o.state.Leased? && o.attempts == 0 && o.createdAt == now && o.error.None?
      && o.leaseUntil == Some(now + (if leaseFor < 1_000 then 1_000 else leaseFor)) && o.token == Some(Token(id, 1))
      && (forall i :: i != id ==> (i in r'.operations <==> i in r.operations && r.operations[i].subscription.destination != s.destination))
      && (forall i :: i != id && i in r'.operations ==> r'.operations[i] == r.operations[i])
      && r'.subscriptions == r.subscriptions && r'.compiled == r.compiled && r'.postings == r.postings
  {
    DropTakes(r, s.destination);
    hide RegistryOk, DropConfirmation;
  }
}
