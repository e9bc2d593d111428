/**
 The subscription keyspaces as they are written, and the manager that leases and settles confirmations
 by compare and swap. Each method is proved against its step in Registry.
 */
module SubscriptionStore {
  import opened Records
  import opened Incidents
  import opened Subscriptions
  import opened Postings
  import opened Registry
  import opened ConfirmationPass

  /** How removing a confirmation ends: gone, no longer the record that was read, or an error. */
  datatype Removal = Removed | Differs | Mismatch

  type Batch = map<PostingKey, Option<set<nat>>>

  function StagedFor(index: Index, keys: set<PostingKey>, offset: nat, insert: bool): Batch {
    map k | k in keys :: Staged(index, k, offset, insert)
  }

  lemma StagedOneMore(index: Index, batch: Batch, done: set<PostingKey>, k: PostingKey, offset: nat, insert: bool)
    ensures batch + StagedFor(index, done + {k}, offset, insert) == (batch + StagedFor(index, done, offset, insert))[k := Staged(index, k, offset, insert)]
    ensures batch + StagedFor(index, {}, offset, insert) == batch
  {
    hide Staged;
  }

  /** Adds the entries of one record to a write batch; every bitmap is read as it was before the batch. */
  method StagePostings(index: Index, batch: Batch, c: Compiled, insert: bool) returns (batch': Batch)
    ensures batch' == batch + StagedFor(index, PostingKeys(c), PostingOffset(c.id), insert)
  {
    hide PostingKeys, PostingOffset, Staged, StagedFor;
    batch' := batch;
    var keys, offset := PostingKeys(c), PostingOffset(c.id);
    var collected := ForSubscription(c);
    ghost var done: set<PostingKey> := {};
    StagedOneMore(index, batch, {}, PostingKey(EarthquakeReport, None, 0, 0, 0), offset, insert);
    while collected != {}
      invariant done !! collected && done + collected == keys
      invariant batch' == batch + StagedFor(index, done, offset, insert)
      decreases |collected|
    {
      var k :| k in collected;
      StagedOneMore(index, batch, done, k, offset, insert);
      batch' := batch'[k := Staged(index, k, offset, insert)];
      collected, done := collected - {k}, done + {k};
    }
    assert done == keys;
  }

  method ReindexPostings(index: Index, previous: Option<Compiled>, next: Option<Compiled>) returns (index': Index)
    ensures index' == Reindex(index, previous, next)
  {
    hide PostingKeys, PostingOffset, Staged, ApplyBatch, StagedFor;
    var batch: Batch := map[];
    if previous.Some? {
      batch := StagePostings(index, batch, previous.value, false);
    }
    if next.Some? {
      batch := StagePostings(index, batch, next.value, true);
    }
    index' := ApplyBatch(index, batch);
    BatchIs(index, previous, next, batch);
  }

  lemma BatchIs(index: Index, previous: Option<Compiled>, next: Option<Compiled>, batch: Batch)
    requires batch == (if previous.Some? then map[] + StagedFor(index, PostingKeys(previous.value), PostingOffset(previous.value.id), false) else map[])
                      + (if next.Some? then StagedFor(index, PostingKeys(next.value), PostingOffset(next.value.id), true) else map[])
    ensures ApplyBatch(index, batch) == Reindex(index, previous, next)
  {
    hide PostingKeys, PostingOffset, Staged, ApplyBatch;
    var cleared := if previous.Some? then PostingKeys(previous.value) else {};
    var inserted := if next.Some? then PostingKeys(next.value) else {};
    var first: Batch := map k | k in cleared :: Staged(index, k, PostingOffset(previous.value.id), false);
    var second: Batch := map k | k in inserted :: Staged(index, k, PostingOffset(next.value.id), true);
    assert batch.Keys == (first + second).Keys;
    assert batch == first + second;
  }

  lemma RecordIsOfSubscription(r: Registry, s: Subscription)
    ensures StoredRecord(r, s).subscription == s
  {
  }

  lemma KnownIsPrevious(r: Registry, d: DestinationId)
    ensures Previous(r, d).Some? <==> d in r.byDestination && r.byDestination[d] in r.subscriptions
  {
  }

  /** Storing, field by field. */
  lemma StoreIs(r: Registry, g: Geometry, s: Subscription, confirmation: Option<nat>, r': Registry)
    requires StoreAccepted(r, s)
    requires var record, known := StoredRecord(r, s), Previous(r, s.destination).Some?;
      var next := Compile(g, record.id, record.destination, record.generation, s);
      && next.Some?
      && r'.postings == Reindex(r.postings, if known && record.id in r.compiled then Some(r.compiled[record.id]) else None, next)
      && r'.subscriptions == r.subscriptions[record.id := record]
      && r'.byDestination == r.byDestination[s.destination := record.id]
      && r'.compiled == r.compiled[record.id := next.value]
      && r'.operations == (if confirmation.Some? then r.operations - {confirmation.value} else r.operations)
      && r'.operationOf == (if confirmation.Some? then r.operationOf - {s.destination} else r.operationOf)
      && r'.begun == r.begun && r'.leases == r.leases && r'.lastConfirmation == r.lastConfirmation
      && r'.lastSubscription == (if known then r.lastSubscription else r.lastSubscription + 1)
      && r'.lastDestination == (if known then r.lastDestination else r.lastDestination + 1)
    ensures r' == Store(r, g, s, confirmation)
  {
    hide Valid, Compile, Reindex, StoredRecord, Previous, StoreAccepted;
    RecordIsOfSubscription(r, s);
  }

  lemma RecordCompiles(g: Geometry, r: Registry, s: Subscription)
    requires StoreAccepted(r, s)
    ensures var record := StoredRecord(r, s); Compile(g, record.id, record.destination, record.generation, s).Some?
  {
    hide Valid, Compile;
    ValidCompiles(g, StoredRecord(r, s).id, StoredRecord(r, s).destination, StoredRecord(r, s).generation, s);
  }

  class SubscriptionKeyspaces {
    var subscriptions: map<nat, StoredSubscription>
    var byDestination: map<DestinationId, nat>
    var compiled: map<nat, Compiled>
    var postings: Index
    var operations: map<nat, Operation>
    var operationOf: map<DestinationId, nat>
    ghost var begun: set<nat>
    ghost var leases: map<Token, nat>
    var lastSubscription: nat
    var lastDestination: nat
    var lastConfirmation: nat

    ghost function View(): Registry
      reads this
    {
      Registry(subscriptions, byDestination, compiled, postings, operations, operationOf, begun, leases,
               lastSubscription, lastDestination, lastConfirmation)
    }

    constructor ()
      ensures View() == Empty
    {
      subscriptions, byDestination, compiled, postings := map[], map[], map[], map[];
      operations, operationOf, begun, leases := map[], map[], {}, map[];
      lastSubscription, lastDestination, lastConfirmation := 0, 0, 0;
    }

    /** The record to store: the destination's own with the next generation, or a first one under fresh ids. */
    method NextRecord(s: Subscription) returns (record: Option<StoredSubscription>)
      modifies this`lastSubscription, this`lastDestination
      ensures record == if StoreAccepted(old(View()), s) then Some(StoredRecord(old(View()), s)) else None
      ensures record.Some? ==>
        var known := Previous(old(View()), s.destination).Some?;
        && lastSubscription == (if known then old(lastSubscription) else old(lastSubscription) + 1)
        && lastDestination == (if known then old(lastDestination) else old(lastDestination) + 1)
      ensures record.None? ==> lastDestination == old(lastDestination)
    {
      hide Valid;
      if !Valid(s) {
        return None;
      }
      if s.destination in byDestination && byDestination[s.destination] in subscriptions {
        var previous := subscriptions[byDestination[s.destination]];
        return Some(StoredSubscription(previous.id, previous.destination, Saturating(previous.generation), true, s));
      }
      if lastSubscription >= U64_MAX {
        return None;
      }
      lastSubscription := lastSubscription + 1;
      if lastDestination >= U64_MAX {
        return None;
      }
      lastDestination := lastDestination + 1;
      record := Some(StoredSubscription(lastSubscription, lastDestination, 1, true, s));
    }

    /** One batch: postings, record, destination index, compiled record and, if given, the confirmation. */
    method CommitSubscriptionChange(record: StoredSubscription, next: Compiled, previous: Option<Compiled>, confirmation: Option<nat>)
      modifies this`postings, this`subscriptions, this`byDestination, this`compiled, this`operations, this`operationOf
      ensures postings == Reindex(old(postings), previous, Some(next))
      ensures subscriptions == old(subscriptions)[record.id := record]
      ensures byDestination == old(byDestination)[record.subscription.destination := record.id]
      ensures compiled == old(compiled)[record.id := next]
      ensures operations == if confirmation.Some? then old(operations) - {confirmation.value} else old(operations)
      ensures operationOf == if confirmation.Some? then old(operationOf) - {record.subscription.destination} else old(operationOf)
    {
      hide Reindex;
      postings := ReindexPostings(postings, previous, Some(next));
      subscriptions := subscriptions[record.id := record];
      byDestination := byDestination[record.subscription.destination := record.id];
      compiled := compiled[record.id := next];
      if confirmation.Some? {
        operations := operations - {confirmation.value};
        operationOf := operationOf - {record.subscription.destination};
      }
    }

    /** Stores or reactivates a subscription; `confirmation` names the operation that confirmed it. */
    method StoreSubscription(g: Geometry, s: Subscription, confirmation: Option<nat>) returns (ok: bool)
      modifies this
      ensures ok <==> StoreAccepted(old(View()), s)
      ensures ok ==> View() == Store(old(View()), g, s, confirmation)
      ensures !ok ==> View() == old(View()).(lastSubscription := lastSubscription)
    {
      ghost var r := View();
      RecordIsOfSubscription(r, s);
      hide Valid, Compile, Reindex, StoredRecord, Previous, StoreAccepted, Store;
      var known := s.destination in byDestination && byDestination[s.destination] in subscriptions;
      assert known == Previous(r, s.destination).Some? by { KnownIsPrevious(r, s.destination); }
      var next := NextRecord(s);
      if next.None? {
        return false;
      }
      var record := next.value;
      RecordCompiles(g, r, s);
      var compiledNext := Compile(g, record.id, record.destination, record.generation, s);
      var previous := if known && record.id in compiled then Some(compiled[record.id]) else None;
      CommitSubscriptionChange(record, compiledNext.value, previous, confirmation);
      StoreIs(r, g, s, confirmation, View());
      ok := true;
    }

    method DeactivateSubscription(id: nat) returns (ok: bool)
      modifies this
      ensures ok <==> id in old(View()).subscriptions
      ensures View() == Deactivate(old(View()), id)
    {
      hide Reindex;
      if id !in subscriptions {
        return false;
      }
      var record := subscriptions[id];
      if id in compiled {
        postings := ReindexPostings(postings, Some(compiled[id]), None);
      }
      subscriptions := subscriptions[record.id := record.(active := false, generation := Saturating(record.generation))];
      compiled := compiled - {record.id};
      var destination := record.subscription.destination;
      if destination in operationOf {
        operations := operations - {operationOf[destination]};
        operationOf := operationOf - {destination};
      }
      ok := true;
    }

    /** A fresh id, then one batch that takes the previous confirmation of the destination out. */
    method BeginConfirmation(s: Subscription, now: int, leaseFor: int) returns (id: Option<nat>)
      modifies this
      ensures id == if Valid(s) && old(lastConfirmation) < U64_MAX then Some(old(lastConfirmation) + 1) else None
      ensures View() == if id.Some? then Begin(old(View()).(lastConfirmation := id.value), id.value, s, now, leaseFor) else old(View())
    {
      hide Valid;
      if !Valid(s) || lastConfirmation >= U64_MAX {
        return None;
      }
      lastConfirmation := lastConfirmation + 1;
      var i := lastConfirmation;
      if s.destination in operationOf {
        operations := operations - {operationOf[s.destination]};
        operationOf := operationOf - {s.destination};
      }
      operations := operations[i := Operation(i, s, Leased, now, Some(now + LeaseTime(leaseFor)), Some(Token(i, 1)), 1, 0, now, None)];
      operationOf := operationOf[s.destination := i];
      begun, leases := begun + {i}, leases[Token(i, 1) := 0];
      id := Some(i);
    }

    /** Compare and swap: the record is replaced only if it is still the expected one. */
    method ReplaceConfirmation(expected: Operation, replacement: Operation) returns (ok: bool)
      requires replacement.id == expected.id
      modifies this`operations
      ensures ok <==> Unchanged(old(View()), expected)
      ensures View() == if ok then PutOperation(old(View()), replacement) else old(View())
    {
      if expected.id !in operations || operations[expected.id] != expected {
        return false;
      }
      operations := operations[expected.id := replacement];
      ok := true;
    }

    /** Compare and remove; an index that names another operation is an error and nothing changes. */
    method RemoveConfirmation(expected: Operation) returns (removal: Removal)
      modifies this`operations, this`operationOf
      ensures removal.Differs? <==> !Unchanged(old(View()), expected)
      ensures removal.Removed? <==> Unchanged(old(View()), expected) && RemovalAccepted(old(View()), expected)
      ensures View() == if removal.Removed? then TakeOut(old(View()), expected) else old(View())
    {
      if expected.id !in operations || operations[expected.id] != expected {
        return Differs;
      }
      var destination := expected.subscription.destination;
      if destination !in operationOf || operationOf[destination] != expected.id {
        return Mismatch;
      }
      operations := operations - {expected.id};
      operationOf := operationOf - {destination};
      removal := Removed;
    }

    method RemoveConfirmationForDestination(d: DestinationId) returns (ok: bool)
      modifies this`operations, this`operationOf
      ensures ok <==> d in old(View()).operationOf
      ensures View() == DropConfirmation(old(View()), d)
    {
      if d !in operationOf {
        return false;
      }
      operations := operations - {operationOf[d]};
      operationOf := operationOf - {d};
      ok := true;
    }

    // ---- the manager ----

    /** Reads the operation and renews its lease when the token is that of its current lease. */
    method RenewConfirmationLease(id: nat, token: Token, now: int, leaseFor: int) returns (ok: bool)
      modifies this`operations
      ensures ok <==> id in old(operations) && old(operations)[id].id == id && old(operations)[id].state.Leased? && old(operations)[id].token == Some(token)
      ensures View() == if ok then PutOperation(old(View()), RenewalOf(old(operations)[id], now, leaseFor)) else old(View())
    {
      if id !in operations || operations[id].id != id {
        return false;
      }
      var operation := operations[id];
      if operation.state != Leased || operation.token != Some(token) {
        return false;
      }
      ok := ReplaceConfirmation(operation, RenewalOf(operation, now, leaseFor));
    }

    method RescheduleConfirmation(id: nat, token: Token, attemptedAt: int, dueAt: int, error: string) returns (ok: bool)
      modifies this`operations
      ensures ok <==> id in old(operations) && old(operations)[id].id == id && old(operations)[id].token == Some(token)
      ensures View() == if ok then PutOperation(old(View()), RescheduleOf(old(operations)[id], attemptedAt, dueAt, error)) else old(View())
    {
      if id !in operations || operations[id].id != id || operations[id].token != Some(token) {
        return false;
      }
      ok := ReplaceConfirmation(operations[id], RescheduleOf(operations[id], attemptedAt, dueAt, error));
    }

    method AbandonConfirmation(id: nat, token: Token) returns (ok: bool)
      modifies this`operations, this`operationOf
      ensures ok <==> id in old(operations) && old(operations)[id].id == id && old(operations)[id].token == Some(token) && RemovalAccepted(old(View()), old(operations)[id])
      ensures View() == if ok then TakeOut(old(View()), old(operations)[id]) else old(View())
    {
      if id !in operations || operations[id].id != id || operations[id].token != Some(token) {
        return false;
      }
      var removal := RemoveConfirmation(operations[id]);
      ok := removal.Removed?;
    }

    /** Stores the subscription and takes its confirmation out in one batch. */
    method ActivateConfirmation(g: Geometry, id: nat, token: Token) returns (ok: bool)
      modifies this
      ensures ok <==>
        && id in old(operations) && old(operations)[id].id == id && old(operations)[id].token == Some(token)
        && RemovalAccepted(old(View()), old(operations)[id]) && StoreAccepted(old(View()), old(operations)[id].subscription)
      ensures ok ==> View() == Store(old(View()), g, old(operations)[id].subscription, Some(id))
      ensures !ok ==> View() == old(View()).(lastSubscription := lastSubscription)
    {
      hide Store, StoreAccepted;
      if id !in operations || operations[id].id != id || operations[id].token != Some(token) {
        return false;
      }
      var s := operations[id].subscription;
      if s.destination !in operationOf || operationOf[s.destination] != id {
        return false;
      }
      ok := StoreSubscription(g, s, Some(id));
    }

    /** Unsubscribes a destination: an active record is deactivated, otherwise a pending confirmation is
        taken back; with neither there is nothing to delete. */
    method DeleteSubscription(d: DestinationId) returns (ok: bool)
      modifies this
      ensures var r := old(View());
        var record := Previous(r, d);
        if record.Some? && record.value.active then
          ok == (record.value.id in r.subscriptions) && View() == Deactivate(r, record.value.id)
        else
          ok == (d in r.operationOf) && View() == DropConfirmation(r, d)
    {
      hide Deactivate, DropConfirmation;
      if d !in byDestination || byDestination[d] !in subscriptions || !subscriptions[byDestination[d]].active {
        ok := RemoveConfirmationForDestination(d);
        return;
      }
      ok := DeactivateSubscription(subscriptions[byDestination[d]].id);
    }

    /** Goes through the records that were read: expired ones are taken out, due ones leased anew until
        the limit is reached. Each commit compares with the record that was read; a mismatch of the index
        or the last lease generation ends the pass with an error. */
    method LeaseDueConfirmations(read: seq<Operation>, t: Terms) returns (leased: Option<seq<Operation>>)
      modifies this
      ensures var p := HandleAll(old(View()), read, t);
        View() == p.registry && leased == if p.progress.Aborted? then None else Some(p.leased)
    {
      var values: seq<Operation> := [];
      var k := 0;
      while k < |read|
        invariant 0 <= k <= |read|
        invariant Pass(View(), values, Running) == HandleAll(old(View()), read[..k], t)
      {
        hide HandleAll, Due, Expired, LeaseOf, RemovalAccepted;
        var o := read[k];
        OneMore(old(View()), read, k, t);
        if Expired(o, t.now, t.maxAge) {
          var removal := RemoveConfirmation(o);
          if removal.Mismatch? {
            StoppedForGood(old(View()), read, k + 1, t);
            return None;
          }
        } else if Due(o, t.now) {
          if |values| >= t.limit {
            StoppedForGood(old(View()), read, k + 1, t);
            return Some(values);
          }
          if o.leaseGeneration >= U64_MAX {
            StoppedForGood(old(View()), read, k + 1, t);
            return None;
          }
          var taken := ReplaceConfirmation(o, LeaseOf(o, t.now, t.leaseFor));
          if taken {
            leases := leases[Token(o.id, o.leaseGeneration + 1) := o.attempts];
            values := values + [LeaseOf(o, t.now, t.leaseFor)];
          }
        }
        k := k + 1;
      }
      assert read[..k] == read;
      leased := Some(values);
    }
  }
}
