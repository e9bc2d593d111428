/** What the retention pass keeps and what it removes, in the state of the whole pipeline. */
module Retention {
  import opened Records
  import opened Incidents
  import opened Catalog
  import opened DeliverySpec
  import opened DeliveryRuns
  import opened Pipeline
  import JobDecision

  /** A job or a delivery batch, pending or retained, still names the revision. */
  ghost predicate RevisionNamed(p: Pipeline, revision: nat) {
    || (exists j :: j in p.catalog.jobs && p.catalog.jobs[j].revision == revision)
    || (exists b :: b in p.delivery.store.pending && p.delivery.store.pending[b].revision == revision)
    || (exists b :: b in p.delivery.store.retained && p.delivery.store.retained[b].revision == revision)
  }

  ghost predicate IncidentNamed(p: Pipeline, id: IncidentId) {
    || (exists j :: j in p.catalog.jobs && p.catalog.jobs[j].incident == id)
    || (exists b :: b in p.delivery.store.pending && p.delivery.store.pending[b].incident == id)
    || (exists b :: b in p.delivery.store.retained && p.delivery.store.retained[b].incident == id)
    || (exists k :: k in p.delivery.store.ledger && k.incident == id)
  }

  /** When an event happened, in milliseconds; 1970 when its text cannot be read. */
  function HappenedAt(w: World, e: Event): int {
    if w.epoch(e).Some? then w.epoch(e).value * 1_000 else 0
  }

  lemma ReferencesMean(p: Pipeline)
    ensures forall r: nat :: r in ReferencesOf(p).revisions <==> RevisionNamed(p, r)
    ensures forall id :: id in ReferencesOf(p).incidents || LedgerHas(p.delivery.store.ledger, id) <==> IncidentNamed(p, id)
  {
  }

  /** Removed are the ledger entries up to their cutoff, the events up to theirs that no job and no batch
      names, and the incidents not updated since theirs that no job, batch or ledger entry names. Everything
      else stays as it is: retries, dead letters, batches, rows and jobs above all. */
  lemma RetentionMeans(p: Pipeline, w: World, incidentCutoff: int, ledgerCutoff: int, eventCutoff: int)
    ensures var q := RetainAction(p, w, incidentCutoff, ledgerCutoff, eventCutoff);
      var c, d, s, t := p.catalog, q.catalog, p.delivery.store, q.delivery.store;
      && q.delivery == p.delivery.(store := s.(ledger := t.ledger))
      && (forall k :: k in t.ledger <==> k in s.ledger && s.ledger[k].deliveredAt > ledgerCutoff)
      && (forall k :: k in t.ledger ==> t.ledger[k] == s.ledger[k])
      && d.jobs == c.jobs && d.inbox == c.inbox
      && (forall r :: r in d.events <==> r in c.events && (RevisionNamed(p, r) || HappenedAt(w, c.events[r]) > eventCutoff))
      && (forall r :: r in d.events ==> d.events[r] == c.events[r])
      && (forall i :: i in d.incidents <==> i in c.incidents && (IncidentNamed(p, i) || c.incidents[i].updatedAt > incidentCutoff))
      && (forall i :: i in d.incidents ==> d.incidents[i] == c.incidents[i])
  {
    hide Prune, ReferencesOf, LedgerHas, RevisionNamed, IncidentNamed;
    ReferencesMean(p);
    JobDecision.RetentionRemoves(p.catalog, w, ReferencesOf(p), incidentCutoff, eventCutoff, LedgerOf(p));
  }
}
