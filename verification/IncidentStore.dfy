/**
 The incident keyspaces as they are written: scans, staged batches and one commit each. Every method
 is proved against its transition in Catalog.
 */
module IncidentStore {
  import opened Records
  import opened Incidents
  import opened EventKeys
  import opened IncidentRecords
  import opened Catalog
  import opened BatchSplitter

  datatype Best = Nothing | Candidate(id: IncidentId, score: real)

  /** The best candidate among the correlation entries scanned so far. */
  ghost predicate BestOf(c: Catalog, w: World, e: Event, occurred: int, scanned: set<CorrelationKey>, best: Best) {
    && (best.Candidate? ==> exists k :: k in scanned && FirstOffer(c, w, e, occurred, scanned, k, best))
    && (forall k, score :: k in scanned && Offers(c, w, e, occurred, k, score) ==> best.Candidate? && best.score <= score)
  }

  /** The entry offers the score of the candidate, and none of the scanned that do comes before it. */
  ghost predicate FirstOffer(c: Catalog, w: World, e: Event, occurred: int, scanned: set<CorrelationKey>, k: CorrelationKey, best: Best)
    requires best.Candidate?
  {
    && Offers(c, w, e, occurred, k, best.score) && c.index.correlation[k] == best.id
    && forall j :: j in scanned && Offers(c, w, e, occurred, j, best.score) ==> w.rank(k) <= w.rank(j)
  }

  /** The best candidate when some reports of one more entry have been scored as well. */
  ghost predicate BestWithin(c: Catalog, w: World, e: Event, occurred: int, scanned: set<CorrelationKey>, k: CorrelationKey, reports: seq<Event>, best: Best)
    requires k in c.index.correlation
  {
    && (best.Candidate? ==>
          || (exists j :: j in scanned && FirstOffer(c, w, e, occurred, scanned, j, best))
          || (&& best.id == c.index.correlation[k]
              && (exists x :: x in reports && Score(w, x, e, Distance(k.epoch, occurred)) == Some(best.score))
              && (forall j :: j in scanned ==> !Offers(c, w, e, occurred, j, best.score))))
    && (forall j, score :: j in scanned && Offers(c, w, e, occurred, j, score) ==> best.Candidate? && best.score <= score)
    && (forall x, score :: x in reports && Score(w, x, e, Distance(k.epoch, occurred)) == Some(score) ==> best.Candidate? && best.score <= score)
  }

  method ScoreReports(c: Catalog, w: World, e: Event, occurred: int, ghost scanned: set<CorrelationKey>, k: CorrelationKey, before: Best)
    returns (best: Best)
    requires k in c.index.correlation && c.index.correlation[k] in c.incidents
    requires BestOf(c, w, e, occurred, scanned, before)
    ensures BestWithin(c, w, e, occurred, scanned, k, c.incidents[c.index.correlation[k]].latestBySource, best)
  {
    var id := c.index.correlation[k];
    var reports := c.incidents[id].latestBySource;
    best := before;
    var i := 0;
    ScoredNone(c, w, e, occurred, scanned, k, best);
    assert reports[..i] == [];
    hide BestWithin, BestOf, Score;
    while i < |reports|
      invariant 0 <= i <= |reports|
      invariant BestWithin(c, w, e, occurred, scanned, k, reports[..i], best)
    {
      var score := Score(w, reports[i], e, Distance(k.epoch, occurred));
      ScoredOne(c, w, e, occurred, scanned, k, reports, i, best);
      if score.Some? && (best.Nothing? || score.value < best.score) {
        best := Candidate(id, score.value);
      }
      i := i + 1;
    }
    assert reports[..i] == reports;
  }

  lemma ScoredNone(c: Catalog, w: World, e: Event, occurred: int, scanned: set<CorrelationKey>, k: CorrelationKey, best: Best)
    requires k in c.index.correlation && BestOf(c, w, e, occurred, scanned, best)
    ensures BestWithin(c, w, e, occurred, scanned, k, [], best)
  {
    hide Score, Offers;
  }

  lemma ScoredOne(c: Catalog, w: World, e: Event, occurred: int, scanned: set<CorrelationKey>, k: CorrelationKey, reports: seq<Event>, i: nat, best: Best)
    requires k in c.index.correlation && i < |reports| && BestWithin(c, w, e, occurred, scanned, k, reports[..i], best)
    ensures var score := Score(w, reports[i], e, Distance(k.epoch, occurred));
      BestWithin(c, w, e, occurred, scanned, k, reports[..i + 1],
                 if score.Some? && (best.Nothing? || score.value < best.score) then Candidate(c.index.correlation[k], score.value) else best)
  {
    hide Score, Offers;
    assert reports[..i + 1] == reports[..i] + [reports[i]];
    assert reports[i] in reports[..i + 1];
  }

  lemma ScannedOneMore(c: Catalog, w: World, e: Event, occurred: int, scanned: set<CorrelationKey>, k: CorrelationKey, best: Best)
    requires k in Window(c, occurred) && c.index.correlation[k] in c.incidents && !HasSource(c.incidents[c.index.correlation[k]], e.source)
    requires BestWithin(c, w, e, occurred, scanned, k, c.incidents[c.index.correlation[k]].latestBySource, best)
    requires forall j :: j in scanned ==> w.rank(j) <= w.rank(k)
    ensures BestOf(c, w, e, occurred, scanned + {k}, best)
  {
    hide Score, HasSource;
    assert k in scanned + {k};
  }

  lemma SkippedOne(c: Catalog, w: World, e: Event, occurred: int, scanned: set<CorrelationKey>, k: CorrelationKey, best: Best)
    requires BestOf(c, w, e, occurred, scanned, best)
    requires k in c.index.correlation && c.index.correlation[k] in c.incidents && HasSource(c.incidents[c.index.correlation[k]], e.source)
    ensures BestOf(c, w, e, occurred, scanned + {k}, best)
  {
    hide Score, HasSource;
  }

  datatype Scan = Found(best: Best) | Overflow | Missing

  /** The first of the keys in byte order. */
  lemma {:induction false} SomeKeyIsFirst(w: World, keys: set<CorrelationKey>) returns (k: CorrelationKey)
    requires keys != {}
    ensures k in keys && forall j :: j in keys ==> w.rank(k) <= w.rank(j)
  {
    k :| k in keys;
    if keys != {k} {
      var rest := SomeKeyIsFirst(w, keys - {k});
      if w.rank(rest) < w.rank(k) {
        k := rest;
      }
    }
  }

  /** Scans the window around the event, in byte order, for the incident that fits best. */
  method FindCorrelated(c: Catalog, w: World, e: Event, occurred: int) returns (r: Scan)
    ensures r.Found? ==> |Window(c, occurred)| <= MAX_CORRELATION_CANDIDATES && BestOf(c, w, e, occurred, Window(c, occurred), r.best)
    ensures r.Found? ==> forall k :: k in Window(c, occurred) ==> c.index.correlation[k] in c.incidents
    ensures r.Overflow? ==> |Window(c, occurred)| > MAX_CORRELATION_CANDIDATES
    ensures r.Missing? ==> exists k :: k in Window(c, occurred) && c.index.correlation[k] !in c.incidents
  {
    hide BestOf, BestWithin, HasSource, Window;
    var rest, candidates, best := Window(c, occurred), 0, Nothing;
    ghost var scanned: set<CorrelationKey> := {};
    BestOfNone(c, w, e, occurred);
    while rest != {}
      invariant scanned !! rest && scanned + rest == Window(c, occurred)
      invariant candidates == |scanned| <= MAX_CORRELATION_CANDIDATES
      invariant forall k :: k in scanned ==> k in c.index.correlation && c.index.correlation[k] in c.incidents
      invariant BestOf(c, w, e, occurred, scanned, best)
      invariant forall j, k :: j in scanned && k in rest ==> w.rank(j) <= w.rank(k)
      decreases |rest|
    {
      ghost var first := SomeKeyIsFirst(w, rest);
      var k :| k in rest && forall j :: j in rest ==> w.rank(k) <= w.rank(j);
      InWindow(c, occurred, k);
      if candidates >= MAX_CORRELATION_CANDIDATES {
        SubsetCardinality(scanned + {k}, Window(c, occurred));
        return Overflow;
      }
      if c.index.correlation[k] !in c.incidents {
        return Missing;
      }
      if HasSource(c.incidents[c.index.correlation[k]], e.source) {
        SkippedOne(c, w, e, occurred, scanned, k, best);
      } else {
        best := ScoreReports(c, w, e, occurred, scanned, k, best);
        ScannedOneMore(c, w, e, occurred, scanned, k, best);
      }
      rest, scanned := rest - {k}, scanned + {k};
      candidates := candidates + 1;
    }
    assert scanned == Window(c, occurred);
    r := Found(best);
  }

  lemma BestOfNone(c: Catalog, w: World, e: Event, occurred: int)
    ensures BestOf(c, w, e, occurred, {}, Nothing)
  {
  }

  lemma InWindow(c: Catalog, occurred: int, k: CorrelationKey)
    requires k in Window(c, occurred)
    ensures k in c.index.correlation
  {
  }

  /** The incident an event belongs to. */
  method ResolveIncident(c: Catalog, w: World, e: Event) returns (r: Resolution)
    ensures Resolves(c, w, e, r)
  {
    var key := KeyOfEvent(e);
    if key in c.index.aliases {
      return if c.index.aliases[key] in c.incidents then Resolved(c.index.aliases[key]) else Broken;
    }
    var found: Option<IncidentId> := None;
    if e.category.Earthquake() && w.epoch(e).Some? {
      var scan := FindCorrelated(c, w, e, w.epoch(e).value);
      if scan.Overflow? {
        return TooManyCandidates;
      }
      if scan.Missing? {
        return Broken;
      }
      found := if scan.best.Candidate? then Some(scan.best.id) else None;
      BestCorrelates(c, w, e, scan.best);
    }
    assert Correlates(c, w, e, found);
    r := Resolved(if found.Some? then found.value else IncidentId(key));
  }

  lemma BestCorrelates(c: Catalog, w: World, e: Event, best: Best)
    requires e.category.Earthquake() && w.epoch(e).Some? && BestOf(c, w, e, w.epoch(e).value, Window(c, w.epoch(e).value), best)
    ensures Correlates(c, w, e, if best.Candidate? then Some(best.id) else None)
  {
    forall k, score | Offers(c, w, e, w.epoch(e).value, k, score)
      ensures best.Candidate? && best.score <= score
    {
      assert k in Window(c, w.epoch(e).value);
    }
    hide Offers, Window, Score;
  }

  // ---- staged index updates ----

  /** Removes the index entries of one incident by way of its reverse entries; all reads see the state
      before the batch. */
  method RemoveIncidentIndexes(x: Indexes, id: IncidentId) returns (ok: bool, x': Indexes)
    ensures ok <==> IndexesMatch(x, {id})
    ensures ok ==> x' == RemoveIndexes(x, {id})
  {
    hide AliasEntries, CorrelationEntries;
    var fine, a := RemoveAliases(x, id);
    if !fine {
      return false, x;
    }
    var ok2, y := RemoveCorrelations(x, id);
    if !ok2 {
      return false, x;
    }
    return true, Indexes(a.aliases, a.aliasesOf, y.correlation, y.correlationOf);
  }

  function AliasesWithout(x: Indexes, done: set<AliasKey>): (map<KeyText, IncidentId>, map<AliasKey, KeyText>)
    requires done <= x.aliasesOf.Keys
  {
    (x.aliases - (set a | a in done :: x.aliasesOf[a]), x.aliasesOf - done)
  }

  lemma AliasesWithoutOneMore(x: Indexes, done: set<AliasKey>, a: AliasKey)
    requires done <= x.aliasesOf.Keys && a in x.aliasesOf
    ensures AliasesWithout(x, done + {a}) == (AliasesWithout(x, done).0 - {x.aliasesOf[a]}, AliasesWithout(x, done).1 - {a})
  {
    var less, more := set j | j in done :: x.aliasesOf[j], set j | j in done + {a} :: x.aliasesOf[j];
    assert more == less + {x.aliasesOf[a]};
    assert x.aliases - more == x.aliases - less - {x.aliasesOf[a]};
    assert x.aliasesOf - (done + {a}) == x.aliasesOf - done - {a};
  }

  lemma AliasesWithoutAll(x: Indexes, id: IncidentId)
    ensures AliasEntries(x, {id}) <= x.aliasesOf.Keys
    ensures forall a :: a in AliasEntries(x, {id}) <==> a in x.aliasesOf && a.incident == id
    ensures AliasesWithout(x, {}) == (x.aliases, x.aliasesOf)
    ensures AliasesWithout(x, AliasEntries(x, {id})) == (RemoveIndexes(x, {id}).aliases, RemoveIndexes(x, {id}).aliasesOf)
  {
    var nothing: set<AliasKey> := {};
    assert AliasesWithout(x, nothing).0 == x.aliases && AliasesWithout(x, nothing).1 == x.aliasesOf;
  }

  method RemoveAliases(x: Indexes, id: IncidentId) returns (ok: bool, x': Indexes)
    ensures ok <==> forall a :: a in x.aliasesOf && a.incident == id ==>
      x.aliasesOf[a] in x.aliases && x.aliases[x.aliasesOf[a]] == id
    ensures ok ==> x'.aliases == RemoveIndexes(x, {id}).aliases && x'.aliasesOf == RemoveIndexes(x, {id}).aliasesOf
  {
    hide RemoveIndexes, AliasEntries, CorrelationEntries, AliasesWithout;
    AliasesWithoutAll(x, id);
    var forward, reverse := x.aliases, x.aliasesOf;
    var rest := AliasEntries(x, {id});
    ghost var done: set<AliasKey> := {};
    while rest != {}
      invariant done !! rest && done + rest == AliasEntries(x, {id})
      invariant forall a :: a in done ==> x.aliasesOf[a] in x.aliases && x.aliases[x.aliasesOf[a]] == id
      invariant (forward, reverse) == AliasesWithout(x, done)
      decreases |rest|
    {
      var a :| a in rest;
      var alias := x.aliasesOf[a];
      if alias !in x.aliases || x.aliases[alias] != id {
        return false, x;
      }
      AliasesWithoutOneMore(x, done, a);
      forward, reverse := forward - {alias}, reverse - {a};
      rest, done := rest - {a}, done + {a};
    }
    assert done == AliasEntries(x, {id});
    return true, x.(aliases := forward, aliasesOf := reverse);
  }

  function CorrelationsWithout(x: Indexes, done: set<ReverseKey>): (map<CorrelationKey, IncidentId>, map<ReverseKey, CorrelationKey>)
    requires done <= x.correlationOf.Keys
  {
    (x.correlation - (set r | r in done :: x.correlationOf[r]), x.correlationOf - done)
  }

  lemma CorrelationsWithoutOneMore(x: Indexes, done: set<ReverseKey>, r: ReverseKey)
    requires done <= x.correlationOf.Keys && r in x.correlationOf
    ensures CorrelationsWithout(x, done + {r}) == (CorrelationsWithout(x, done).0 - {x.correlationOf[r]}, CorrelationsWithout(x, done).1 - {r})
  {
    var less, more := set j | j in done :: x.correlationOf[j], set j | j in done + {r} :: x.correlationOf[j];
    assert more == less + {x.correlationOf[r]};
    assert x.correlation - more == x.correlation - less - {x.correlationOf[r]};
    assert x.correlationOf - (done + {r}) == x.correlationOf - done - {r};
  }

  lemma CorrelationsWithoutAll(x: Indexes, id: IncidentId)
    ensures CorrelationEntries(x, {id}) <= x.correlationOf.Keys
    ensures forall r :: r in CorrelationEntries(x, {id}) <==> r in x.correlationOf && r.incident == id
    ensures CorrelationsWithout(x, {}) == (x.correlation, x.correlationOf)
    ensures CorrelationsWithout(x, CorrelationEntries(x, {id})) == (RemoveIndexes(x, {id}).correlation, RemoveIndexes(x, {id}).correlationOf)
  {
    var nothing: set<ReverseKey> := {};
    assert CorrelationsWithout(x, nothing).0 == x.correlation && CorrelationsWithout(x, nothing).1 == x.correlationOf;
  }

  method RemoveCorrelations(x: Indexes, id: IncidentId) returns (ok: bool, x': Indexes)
    ensures ok <==> forall r :: r in x.correlationOf && r.incident == id ==>
      x.correlationOf[r] in x.correlation && x.correlation[x.correlationOf[r]] == id
    ensures ok ==> x'.correlation == RemoveIndexes(x, {id}).correlation && x'.correlationOf == RemoveIndexes(x, {id}).correlationOf
  {
    hide RemoveIndexes, AliasEntries, CorrelationEntries, CorrelationsWithout;
    CorrelationsWithoutAll(x, id);
    var forward, reverse := x.correlation, x.correlationOf;
    var rest := CorrelationEntries(x, {id});
    ghost var done: set<ReverseKey> := {};
    while rest != {}
      invariant done !! rest && done + rest == CorrelationEntries(x, {id})
      invariant forall r :: r in done ==> x.correlationOf[r] in x.correlation && x.correlation[x.correlationOf[r]] == id
      invariant (forward, reverse) == CorrelationsWithout(x, done)
      decreases |rest|
    {
      var r :| r in rest;
      var key := x.correlationOf[r];
      if key !in x.correlation || x.correlation[key] != id {
        return false, x;
      }
      CorrelationsWithoutOneMore(x, done, r);
      forward, reverse := forward - {key}, reverse - {r};
      rest, done := rest - {r}, done + {r};
    }
    assert done == CorrelationEntries(x, {id});
    return true, x.(correlation := forward, correlationOf := reverse);
  }

  /** The aliases of the record's keys, unless one belongs to another incident. */
  method StageAliases(x: Indexes, id: IncidentId, keys: seq<KeyText>) returns (ok: bool, x': Indexes)
    ensures ok <==> forall k :: k in keys && k in x.aliases ==> x.aliases[k] == id
    ensures ok ==> x' == PutAliases(x, id, keys)
  {
    x' := x;
    var i := 0;
    while i < |keys|
      invariant 0 <= i <= |keys|
      invariant forall k :: k in keys[..i] && k in x.aliases ==> x.aliases[k] == id
      invariant x' == PutAliases(x, id, keys[..i])
    {
      assert keys[i] in keys && keys[..i + 1][..i] == keys[..i] && keys[..i + 1] == keys[..i] + [keys[i]];
      if keys[i] in x.aliases && x.aliases[keys[i]] != id {
        return false, x;
      }
      x' := x'.(aliases := x'.aliases[keys[i] := id], aliasesOf := x'.aliasesOf[AliasKey(id, keys[i]) := keys[i]]);
      i := i + 1;
    }
    assert keys[..i] == keys;
    ok := true;
  }

  lemma AcceptedWhen(c: Catalog, r: Incident, e: Event, job: Option<Job>, ledger: bool)
    ensures CommitAccepted(c, r, e, job, ledger) <==>
      if Discards(c, r, e, job, ledger) then r.id in c.incidents ==> IndexesMatch(c.index, {r.id})
      else forall k :: k in r.sourceEventKeys && k in c.index.aliases ==> c.index.aliases[k] == r.id
  {
    hide IndexesMatch, Discards;
  }

  class IncidentKeyspaces {
    var incidents: map<IncidentId, Incident>
    var index: Indexes
    var events: map<nat, Event>
    var jobs: map<nat, Job>
    var inbox: map<nat, Event>
    var rejected: map<nat, Event>
    var lastInbox: nat
    var lastJob: nat
    var lastRevision: nat
    var cursors: map<(Channel, string), string>

    function View(): Catalog
      reads this
    {
      Catalog(incidents, index, events, jobs, inbox, rejected, lastInbox, lastJob, lastRevision)
    }

    constructor ()
      ensures View() == Catalog(map[], Indexes(map[], map[], map[], map[]), map[], map[], map[], map[], 0, 0, 0) && cursors == map[]
    {
      cursors := map[];
      incidents, index, events, jobs := map[], Indexes(map[], map[], map[], map[]), map[], map[];
      inbox, rejected, lastInbox, lastJob, lastRevision := map[], map[], 0, 0, 0;
    }

    /** Stores a batch of events under fresh ids and the provider's cursor with them, or nothing when one of
        them is not acceptable. */
    method IngestEvents(provider: Channel, batch: seq<Event>, cursor: Option<Cursor>) returns (ok: bool)
      modifies this
      ensures ok <==> IngestAccepted(provider, batch) && CursorKnown(provider, cursor)
      ensures ok ==> View() == Ingest(old(View()), batch)
      ensures !ok ==> View() == old(View()).(lastInbox := lastInbox) && old(lastInbox) <= lastInbox
      ensures cursors == if ok && cursor.Some? then old(cursors)[(provider, cursor.value.stream) := cursor.value.value] else old(cursors)
    {
      if |batch| > 1_024 || !CursorKnown(provider, cursor) {
        return false;
      }
      var staged: map<nat, Event>, k := inbox, 0;
      ghost var c := View();
      while k < |batch|
        invariant 0 <= k <= |batch| && View() == c.(lastInbox := lastInbox) && old(lastInbox) <= lastInbox && cursors == old(cursors)
        invariant forall e :: e in batch[..k] ==> e.channel == provider && Registered(e)
        invariant c.(inbox := staged, lastInbox := lastInbox) == Ingest(c, batch[..k])
      {
        assert batch[k] in batch && batch[..k + 1][..k] == batch[..k] && batch[..k + 1] == batch[..k] + [batch[k]];
        if batch[k].channel != provider || !Registered(batch[k]) {
          return false;
        }
        lastInbox := lastInbox + 1;
        staged := staged[lastInbox := batch[k]];
        k := k + 1;
      }
      assert batch[..k] == batch;
      inbox := staged;
      if cursor.Some? {
        cursors := cursors[(provider, cursor.value.stream) := cursor.value.value];
      }
      ok := true;
    }

    method CommitIncidentTransition(w: World, r: Incident, e: Event, job: Option<Job>, ledger: bool, item: nat) returns (ok: bool)
      modifies this
      ensures cursors == old(cursors)
      ensures ok <==> CommitAccepted(old(View()), r, e, job, ledger)
      ensures View() == if ok then CommitIncident(old(View()), w, r, e, job, ledger, item) else old(View())
    {
      var c := View();
      AcceptedWhen(c, r, e, job, ledger);
      hide IndexesMatch, RemoveIndexes, PutAliases, PutCorrelation, KeepUnmatched, Merged, CommitAccepted;
      var merged := Merged(c, r, job.Some?);
      if job.None? && !KeepUnmatched(merged, e, r.id in incidents, ledger) {
        assert Discards(c, r, e, job, ledger);
        if r.id in incidents {
          var fine, x := RemoveIncidentIndexes(index, r.id);
          if !fine {
            return false;
          }
          Write(c.(inbox := inbox - {item}, incidents := incidents - {r.id}, index := x));
        } else {
          Write(c.(inbox := inbox - {item}));
        }
        return true;
      }
      assert !Discards(c, r, e, job, ledger);
      var fine, x := StageAliases(index, r.id, r.sourceEventKeys);
      if !fine {
        return false;
      }
      Write(PutJob(c, e, job).(inbox := inbox - {item}, incidents := incidents[r.id := merged], index := PutCorrelation(x, w, r.id, e)));
      ok := true;
    }

    method Write(c: Catalog)
      modifies this
      ensures cursors == old(cursors)
      ensures View() == c
    {
      incidents, index, events, jobs := c.incidents, c.index, c.events, c.jobs;
      inbox, rejected := c.inbox, c.rejected;
      lastInbox, lastJob, lastRevision := c.lastInbox, c.lastJob, c.lastRevision;
    }

    /** The coordinator: one inbox item resolved, reduced and committed, rejected, or dropped. */
    method ProcessItem(w: World, p: Policy, item: nat, now: int, ledger: IncidentId -> bool) returns (r: Resolution)
      requires item in inbox
      modifies this
      ensures cursors == old(cursors)
      ensures Resolves(old(View()), w, old(inbox)[item], r)
      ensures View() == Process(old(View()), w, p, item, r, now, ledger)
    {
      hide Resolves, ReduceSpec, ShouldMatch, Advance, KeyOfEvent;
      var c, e := View(), inbox[item];
      r := ResolveIncident(c, w, e);
      if e.category.Retired() {
        inbox := inbox - {item};
        return;
      }
      match r {
        case Broken =>
        case TooManyCandidates =>
          rejected, inbox := rejected[item := e], inbox - {item};
        case Resolved(id) =>
          var current := if id in incidents then Some(incidents[id]) else None;
          var t := Reduce(current, e, KeyOfEvent(e), now, w.digest);
          if t.Failed? {
            rejected, inbox := rejected[item := e], inbox - {item};
          } else if !t.outcome.Applied? {
            inbox := inbox - {item};
          } else {
            var matched := if ShouldMatch(w, p, current, e, now) then Some(id) else None;
            AdvanceIncident(w, item, e, t.incident, matched, now, ledger(t.incident.id));
          }
      }
    }

    method AdvanceIncident(w: World, item: nat, e: Event, next: Incident, matched: Option<IncidentId>, now: int, ledger: bool)
      modifies this
      ensures cursors == old(cursors)
      ensures View() == Advance(old(View()), w, item, e, next, matched, now, ledger)
    {
      hide CommitAccepted, CommitIncident;
      if matched.None? {
        var ok := CommitIncidentTransition(w, next, e, None, ledger, item);
      } else {
        lastJob := lastJob + 1;
        lastRevision := lastRevision + 1;
        assert View() == old(View()).(lastJob := lastJob, lastRevision := lastRevision);
        var ok := CommitIncidentTransition(w, next, e, Some(Job(lastJob, matched.value, lastRevision, now)), ledger, item);
      }
    }

    /** The catalog's part of committing match output; nothing changes when a check fails. */
    method CommitMatchOutput(id: nat, batches: seq<Batch>, ledger: bool, size: Sizer) returns (ok: bool)
      modifies this
      ensures cursors == old(cursors)
      ensures ok <==> MatchAccepted(old(View()), id, batches, ledger) && forall b :: b in batches ==> size(b) <= MAX_DELIVERY_BATCH_BYTES
      ensures View() == if ok then CommitMatchJob(old(View()), id, batches, ledger) else old(View())
    {
      hide IndexesMatch, RemoveIndexes;
      if id !in jobs || jobs[id].id != id || jobs[id].revision !in events {
        return false;
      }
      var c, job := View(), jobs[id];
      var k := 0;
      while k < |batches|
        invariant 0 <= k <= |batches| && forall b :: b in batches[..k] ==> Belongs(c, job, b, size)
      {
        assert batches[k] in batches;
        if batches[k].incident != job.incident || batches[k].revision != job.revision || batches[k].category != events[job.revision].category
           || size(batches[k]) > MAX_DELIVERY_BATCH_BYTES {
          assert !Belongs(c, job, batches[k], size);
          return false;
        }
        assert batches[..k + 1] == batches[..k] + [batches[k]];
        k := k + 1;
      }
      assert batches[..k] == batches && BatchesFit(c, job, batches);
      var next := c.(jobs := jobs - {id}, events := if batches == [] then events - {job.revision} else events);
      if job.incident in incidents {
        var r := incidents[job.incident];
        if r.pendingJobs == 0 {
          return false;
        }
        var less := r.(pendingJobs := r.pendingJobs - 1);
        if batches == [] && !KeepAfterEmptyMatch(less, ledger) {
          var fine, x := RemoveIncidentIndexes(index, r.id);
          if !fine {
            return false;
          }
          next := next.(incidents := incidents - {r.id}, index := x);
        } else {
          next := next.(incidents := incidents[r.id := less.(hasMatched := less.hasMatched || batches != [])]);
        }
      }
      Write(next);
      ok := true;
    }
  }

  predicate Belongs(c: Catalog, job: Job, b: Batch, size: Sizer) {
    && job.revision in c.events && b.incident == job.incident && b.revision == job.revision && b.category == c.events[job.revision].category
    && size(b) <= MAX_DELIVERY_BATCH_BYTES
  }
}
