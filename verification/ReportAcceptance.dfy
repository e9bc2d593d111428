/**
 What becomes of the next report of a stream, told from the reports accepted so far: when it is applied,
 ignored as a replay, refused, or over the capacity, and what is seen of an applied one.
 */
module ReportAcceptance {
  import opened Records
  import opened Incidents
  import opened IncidentTheorems

  // ---- the accepted reports ----

  /** The newest of the accepted reports: none has a higher number, and none after it has the same. */
  ghost predicate Newest(all: seq<Event>, i: nat) {
    && i < |all|
    && (forall j :: 0 <= j < |all| ==> all[j].reportNum <= all[i].reportNum)
    && (forall j :: i < j < |all| ==> all[j].reportNum < all[i].reportNum)
  }

  /** The report ends the stream in a way that no accepted one did. */
  ghost predicate Ends(all: seq<Event>, e: Event) {
    (e.cancel && forall x :: x in all ==> !x.cancel) || (e.finalReport && forall x :: x in all ==> !x.finalReport)
  }

  /** The stream was ended, and the report does not go along with that. */
  ghost predicate Closed(all: seq<Event>, e: Event) {
    !e.cancel && ((exists x :: x in all && x.cancel) || (!e.finalReport && exists x :: x in all && x.finalReport))
  }

  /** Report i starts a new list of remembered updates: it is the first, has a new number, or is at the
      number of the newest with a higher level or a new ending. */
  ghost predicate Restart(all: seq<Event>, i: nat) {
    && i < |all|
    && (|| (forall j :: 0 <= j < i ==> all[j].reportNum < all[i].reportNum)
        || (exists k: nat :: Newest(all[..i], k) && all[k].reportNum == all[i].reportNum && (all[k].level < all[i].level || Ends(all[..i], all[i]))))
  }

  ghost predicate SinceRestart(all: seq<Event>, i: nat) {
    i < |all| && forall k :: i < k < |all| ==> !Restart(all, k)
  }

  /** The updates are those of reports since the last restart, all of them while fewer than 16. */
  ghost predicate Recent(all: seq<Event>, updates: seq<string>, digest: Digest) {
    && (forall d :: d in updates ==> exists i: nat :: SinceRestart(all, i) && digest(all[i]) == d)
    && (|updates| < 16 ==> forall i: nat :: SinceRestart(all, i) ==> digest(all[i]) in updates)
    && |updates| <= 16 && Distinct(updates)
  }

  // ---- what the watermark knows of them ----

  lemma NewestOneMore(all: seq<Event>, i: nat, e: Event)
    requires Newest(all, i)
    ensures e.reportNum >= all[i].reportNum ==> Newest(all + [e], |all|)
    ensures e.reportNum < all[i].reportNum ==> Newest(all + [e], i)
  {
  }

  /** Number and level of the watermark are those of the newest accepted report. */
  lemma {:induction false} NewestReport(first: Event, es: seq<Event>, digest: Digest) returns (i: nat)
    requires Accepts(Stream(first, digest), es, digest)
    ensures var all, w := [first] + es, After(Stream(first, digest), es, digest);
      Newest(all, i) && w.reportNum == all[i].reportNum && w.level == all[i].level
  {
    if es == [] {
      i := 0;
    } else {
      var n := |es| - 1;
      i := NewestReport(first, es[..n], digest);
      var front, w := [first] + es[..n], After(Stream(first, digest), es[..n], digest);
      assert [first] + es == front + [es[n]];
      CommitShowsNewest(w, es[n], digest);
      hide Newest, Commit;
      NewestOneMore(front, i, es[n]);
      if es[n].reportNum >= front[i].reportNum {
        i := n + 1;
      }
    }
  }

  lemma CommitShowsNewest(w: Watermark, e: Event, digest: Digest)
    ensures var w' := Commit(w, e, digest);
      if e.reportNum >= w.reportNum then w'.reportNum == e.reportNum && w'.level == e.level
      else w'.reportNum == w.reportNum && w'.level == w.level
  {
  }

  lemma NewestOnce(all: seq<Event>, i: nat, j: nat)
    requires Newest(all, i) && Newest(all, j)
    ensures i == j
  {
    assert all[i].reportNum <= all[j].reportNum && all[j].reportNum <= all[i].reportNum;
  }

  lemma RestartOfPrefix(all: seq<Event>, e: Event, i: nat)
    requires i < |all|
    ensures Restart(all + [e], i) <==> Restart(all, i)
  {
    assert (all + [e])[..i] == all[..i];
    assert forall j :: 0 <= j <= i ==> (all + [e])[j] == all[j];
    assert forall k: nat :: Newest(all[..i], k) ==> k < i;
    hide Newest, Ends;
  }

  lemma SinceOneMore(all: seq<Event>, e: Event, i: nat)
    ensures SinceRestart(all + [e], i) <==> i == |all| || (SinceRestart(all, i) && !Restart(all + [e], |all|))
  {
    forall k | 0 <= k < |all|
      ensures Restart(all + [e], k) <==> Restart(all, k)
    {
      RestartOfPrefix(all, e, k);
    }
    hide Restart;
  }

  /** An accepted report restarts the list exactly when the watermark drops what it remembers. */
  lemma RestartIsClear(first: Event, es: seq<Event>, e: Event, digest: Digest)
    requires Accepts(Stream(first, digest), es, digest)
    ensures var all, w := [first] + es, After(Stream(first, digest), es, digest);
      Restart(all + [e], |all|) <==> e.reportNum > w.reportNum || (e.reportNum == w.reportNum && SafetyTransition(w, e))
  {
    var all, w := [first] + es, After(Stream(first, digest), es, digest);
    var i := NewestReport(first, es, digest);
    WatermarkSummarises(first, es, digest);
    EndsIsTerminal(all, w, e);
    assert (all + [e])[..|all|] == all;
    hide After, Accepts, Ends, TerminalTransition;
    assert (forall j :: 0 <= j < |all| ==> (all + [e])[j].reportNum < e.reportNum) <==> all[i].reportNum < e.reportNum;
    forall k: nat | Newest(all, k)
      ensures k == i
    {
      NewestOnce(all, i, k);
    }
  }

  lemma EndsIsTerminal(all: seq<Event>, w: Watermark, e: Event)
    requires w.finalReport <==> exists x :: x in all && x.finalReport
    requires w.cancel <==> exists x :: x in all && x.cancel
    ensures Ends(all, e) <==> TerminalTransition(w, e)
    ensures Closed(all, e) <==> (w.cancel && !e.cancel) || (w.finalReport && !e.finalReport && !e.cancel)
  {
  }

  /** The watermark remembers the updates since the last restart. */
  lemma {:induction false} RemembersRecent(first: Event, es: seq<Event>, digest: Digest)
    requires Accepts(Stream(first, digest), es, digest)
    ensures Recent([first] + es, After(Stream(first, digest), es, digest).updates, digest)
  {
    hide Recent, Restart, SinceRestart, Commit, SafetyTransition;
    if es == [] {
      FirstIsRecent(first, digest);
      assert [first] + es == [first];
    } else {
      var n := |es| - 1;
      var front, e, w := [first] + es[..n], es[n], After(Stream(first, digest), es[..n], digest);
      RemembersRecent(first, es[..n], digest);
      RestartIsClear(first, es[..n], e, digest);
      assert [first] + es == front + [e];
      RecentOneMore(front, w, e, digest);
    }
  }

  lemma FirstIsRecent(first: Event, digest: Digest)
    ensures Recent([first], Stream(first, digest).updates, digest)
  {
    assert SinceRestart([first], 0) && [first][0] == first;
  }

  lemma RecentOneMore(front: seq<Event>, w: Watermark, e: Event, digest: Digest)
    requires Recent(front, w.updates, digest)
    requires Restart(front + [e], |front|) <==> e.reportNum > w.reportNum || (e.reportNum == w.reportNum && SafetyTransition(w, e))
    ensures Recent(front + [e], Commit(w, e, digest).updates, digest)
  {
    var all := front + [e];
    forall i: nat
      ensures SinceRestart(all, i) <==> i == |front| || (SinceRestart(front, i) && !Restart(all, |front|))
    {
      SinceOneMore(front, e, i);
    }
    hide Restart, SinceRestart, SafetyTransition;
    assert SinceRestart(all, |front|) && all[|front|] == e;
    assert forall i :: 0 <= i < |front| ==> all[i] == front[i];
    SinceIsIndex(front);
    var w' := Commit(w, e, digest);
    if Restart(all, |front|) {
      assert w'.updates == [digest(e)];
    } else {
      assert w'.updates == w.updates || (w'.updates == w.updates + [digest(e)] && digest(e) !in w.updates && |w.updates| < 16);
      forall d | d in w'.updates
        ensures exists i: nat :: SinceRestart(all, i) && digest(all[i]) == d
      {
        if d in w.updates {
          var i: nat :| SinceRestart(front, i) && digest(front[i]) == d;
          assert SinceRestart(all, i) && all[i] == front[i];
        }
      }
    }
  }

  lemma SinceIsIndex(all: seq<Event>)
    ensures forall i: nat :: SinceRestart(all, i) ==> i < |all|
  {
    hide Restart;
  }

  // ---- the next report ----

  /** The next report of a stream is applied exactly when the stream is not closed to it and it ends the
      stream in a new way, has a higher number than every accepted one, or, at the number of the newest,
      a higher level or the same level with an update that is not remembered while fewer than 16 are. */
  ghost predicate IsApplied(all: seq<Event>, newest: Event, updates: seq<string>, e: Event, digest: Digest) {
    && !Closed(all, e)
    && (|| Ends(all, e)
        || e.reportNum > newest.reportNum
        || (e.reportNum == newest.reportNum
            && (e.level > newest.level || (e.level == newest.level && digest(e) !in updates && |updates| < 16))))
  }

  /** It is a replay when it says nothing new: a remembered update of the newest number and level, or of an
      older number that ends the stream as was done before. */
  ghost predicate IsReplay(all: seq<Event>, newest: Event, updates: seq<string>, e: Event, digest: Digest) {
    && !Closed(all, e) && !Ends(all, e) && digest(e) in updates
    && ((e.reportNum == newest.reportNum && e.level == newest.level) || (e.reportNum < newest.reportNum && (e.cancel || e.finalReport)))
  }

  ghost predicate IsOverCapacity(all: seq<Event>, newest: Event, updates: seq<string>, e: Event, digest: Digest) {
    && !Closed(all, e) && !Ends(all, e) && digest(e) !in updates && |updates| >= 16
    && e.reportNum == newest.reportNum && e.level == newest.level
  }

  lemma NextReport(first: Event, es: seq<Event>, e: Event, digest: Digest) returns (i: nat)
    requires Accepts(Stream(first, digest), es, digest)
    ensures var all, w := [first] + es, After(Stream(first, digest), es, digest);
      && Newest(all, i) && Recent(all, w.updates, digest)
      && (Decide(w, e, digest) == Applied <==> IsApplied(all, all[i], w.updates, e, digest))
      && (Decide(w, e, digest) == Replay <==> IsReplay(all, all[i], w.updates, e, digest))
      && (Decide(w, e, digest) == CapacityExceeded(CurrentReportUpdates) <==> IsOverCapacity(all, all[i], w.updates, e, digest))
      && (Decide(w, e, digest) == Rejected <==>
            !IsApplied(all, all[i], w.updates, e, digest) && !IsReplay(all, all[i], w.updates, e, digest) && !IsOverCapacity(all, all[i], w.updates, e, digest))
  {
    var all, w := [first] + es, After(Stream(first, digest), es, digest);
    i := NewestReport(first, es, digest);
    RemembersRecent(first, es, digest);
    WatermarkSummarises(first, es, digest);
    hide Accepts, After, Recent, Newest;
    Decides(all, all[i], w, e, digest);
  }

  lemma Decides(all: seq<Event>, newest: Event, w: Watermark, e: Event, digest: Digest)
    requires w.finalReport <==> exists x :: x in all && x.finalReport
    requires w.cancel <==> exists x :: x in all && x.cancel
    requires w.reportNum == newest.reportNum && w.level == newest.level
    ensures Decide(w, e, digest) == Applied <==> IsApplied(all, newest, w.updates, e, digest)
    ensures Decide(w, e, digest) == Replay <==> IsReplay(all, newest, w.updates, e, digest)
    ensures Decide(w, e, digest) == CapacityExceeded(CurrentReportUpdates) <==> IsOverCapacity(all, newest, w.updates, e, digest)
    ensures Decide(w, e, digest) in {Applied, Replay, Rejected, CapacityExceeded(CurrentReportUpdates)}
  {
    EndsIsTerminal(all, w, e);
    hide Closed, Ends;
  }

  // ---- one incident ----

  /** A stored copy keeps every fact of the report; only long texts and lists are cut. */
  lemma CopyKeepsFacts(e: Event)
    ensures var b := Bounded(e);
      && b == e.(title := b.title, description := b.description, occurredAt := b.occurredAt, affectedRegions := b.affectedRegions)
      && b.title <= e.title && (b.title == e.title || |b.title| == 180 < |e.title|)
      && b.description <= e.description && (b.description == e.description || |b.description| == 4_000 < |e.description|)
      && b.occurredAt <= e.occurredAt && (b.occurredAt == e.occurredAt || |b.occurredAt| == 80 < |e.occurredAt|)
      && |b.affectedRegions| == (if |e.affectedRegions| > 20 then 20 else |e.affectedRegions|)
      && forall i :: 0 <= i < |b.affectedRegions| ==>
           b.affectedRegions[i] <= e.affectedRegions[i]
           && (b.affectedRegions[i] == e.affectedRegions[i] || |b.affectedRegions[i]| == 80 < |e.affectedRegions[i]|)
  {
  }

  predicate OfStream(w: Watermark, e: Event) {
    w.category == e.category && w.source == e.source && w.eventId == e.eventId
  }

  /** Which reports an incident takes: with room for one more version, the first of a stream while fewer
      than 32 are known, and otherwise what its stream takes. */
  lemma IncidentTakes(r: Incident, e: Event, digest: Digest)
    requires IncidentOk(r)
    ensures DecideIncident(r, e, digest).Applied? <==>
      && r.stateVersion != 0xFFFF_FFFF_FFFF_FFFF
      && (if exists w :: w in r.watermarks && OfStream(w, e)
          then forall w :: w in r.watermarks && OfStream(w, e) ==> Decide(w, Bounded(e), digest) == Applied
          else |r.watermarks| < 32)
  {
    CopyKeepsFacts(e);
    var at := Find(r.watermarks, Bounded(e));
    hide Decide, Bounded, StreamOk, Find;
    if at.Some? {
      var w := r.watermarks[at.value];
      assert w in r.watermarks && OfStream(w, e);
      forall x | x in r.watermarks && OfStream(x, e)
        ensures x == w
      {
        var i :| 0 <= i < |r.watermarks| && r.watermarks[i] == x;
        assert SameKey(x, w);
      }
    } else {
      forall x | x in r.watermarks
        ensures !OfStream(x, e)
      {
        var i :| 0 <= i < |r.watermarks| && r.watermarks[i] == x;
        assert !Matches(r.watermarks[i], Bounded(e));
      }
    }
  }

  /** An applied report is what the incident shows for its stream from then on; the reports of other
      streams stay, up to the eight that are kept. */
  lemma AppliedIsShown(r: Incident, e: Event, now: int, digest: Digest)
    requires DecideIncident(r, e, digest).Applied?
    ensures var r', b := ApplyIncident(r, e, now, digest), Bounded(e);
      && b in r'.latestBySource
      && (forall x :: x in r'.latestBySource && x != b ==> x in r.latestBySource)
      && (|r.latestBySource| < 8 ==> forall x :: x in r.latestBySource && !(x.source == e.source && x.category == e.category && x.eventId == e.eventId) ==> x in r'.latestBySource)
      && r'.timeline != [] && ShownIn(r'.timeline[|r'.timeline| - 1], b)
      && (r'.timeline == r.timeline || r'.timeline[|r'.timeline| - 1].observedAt == now)
      && (r'.timeline == r.timeline || (|r.timeline| < 16 && r'.timeline[..|r'.timeline| - 1] == r.timeline)
          || (|r.timeline| >= 16 && r'.timeline[..|r'.timeline| - 1] == r.timeline[1..]))
      && (r.updatedAt <= r'.updatedAt && now <= r'.updatedAt && (r'.updatedAt == now || r'.updatedAt == r.updatedAt))
      && r'.id == r.id && r'.firstSeenAt == r.firstSeenAt && r'.hasMatched == r.hasMatched && r'.pendingJobs == r.pendingJobs
      && r'.sourceEventKeys == r.sourceEventKeys
  {
    CopyKeepsFacts(e);
    hide Bounded, Decide, Commit;
    var es, b := r.latestBySource, Bounded(e);
    var at, es' := FindLatest(es, b), PutLatest(es, b);
    if at.Some? {
      assert es'[at.value] == b;
      forall x | x in es && !(x.source == e.source && x.category == e.category && x.eventId == e.eventId)
        ensures x in es'
      {
        var i :| 0 <= i < |es| && es[i] == x;
        assert es'[i] == x;
      }
    } else {
      assert es'[|es'| - 1] == b;
    }
  }

  /** The first report of an incident makes it what the report says, with one stream, one version, one key
      and one entry in its timeline, neither matched nor waiting for a match. */
  lemma FirstIsShown(id: IncidentId, e: Event, key: KeyText, now: int, digest: Digest)
    ensures var r, b := NewIncident(id, e, key, now, digest), Bounded(e);
      && r.id == id && r.category == e.category && r.firstSeenAt == now && r.updatedAt == now && r.stateVersion == 1
      && r.sourceEventKeys == [key] && r.latestBySource == [b] && !r.hasMatched && r.pendingJobs == 0
      && |r.watermarks| == 1 && OfStream(r.watermarks[0], e) && r.watermarks[0] == Stream(b, digest)
      && |r.timeline| == 1 && ShownIn(r.timeline[0], b) && r.timeline[0].observedAt == now
  {
    CopyKeepsFacts(e);
    hide Bounded;
  }

  /** The summary tells what the report says. */
  predicate ShownIn(x: Summary, e: Event) {
    && x.category == e.category && x.source == e.source && x.reportNum == e.reportNum && x.revision == e.revision
    && x.magnitude == e.magnitude && x.latitude == e.latitude && x.longitude == e.longitude && x.depthKm == e.depthKm
    && x.level == e.level && x.finalReport == e.finalReport && x.cancel == e.cancel
  }
}
