/**
 Stored subscriptions and the inverted index over their compiled records. A posting key names a
 category, a source, a place and a block of ids; its bitmap holds the offsets of the subscriptions
 that generate it. A write batch reads every bitmap as it was before the batch.
 */
module Postings {
  import opened Records
  import opened Incidents
  import opened Subscriptions

  const POSTING_ID_LIMIT: nat := 0x1_0000
  const MAX_BLOCK: nat := 0xFFFF_FFFF_FFFF

  datatype PostingKey = PostingKey(category: Category, source: Option<nat>, kind: nat, value: nat, block: nat)

  function PostingBlock(id: nat): nat { id / POSTING_ID_LIMIT }
  function PostingOffset(id: nat): nat { id % POSTING_ID_LIMIT }

  function FromPosting(block: nat, offset: nat): Option<nat> {
    if offset >= POSTING_ID_LIMIT || block > MAX_BLOCK then None else Some(block * POSTING_ID_LIMIT + offset)
  }

  /** An id is its block and offset, and nothing else is. */
  lemma PostingIdRoundTrip(id: nat, block: nat, offset: nat)
    requires id <= U64_MAX
    ensures FromPosting(block, offset) == Some(id) <==> block == PostingBlock(id) && offset == PostingOffset(id)
  {
    assert PostingBlock(id) <= MAX_BLOCK;
    assert id == PostingBlock(id) * POSTING_ID_LIMIT + PostingOffset(id);
    if offset < POSTING_ID_LIMIT && block * POSTING_ID_LIMIT + offset == id {
      assert block == PostingBlock(id);
    }
  }

  // ---- the keys of a compiled subscription ----

  function RuleSources(rule: CompiledRule): set<Option<nat>> {
    if rule.wildcard then {None} else set s | s in rule.sourceMask && HasBit(s) :: Some(s)
  }

  function TargetKeys(category: Category, source: Option<nat>, t: CompiledTarget, block: nat): set<PostingKey> {
    (set k | 0 <= k < |t.cells| :: PostingKey(category, source, 1 + k, t.cells[k], block))
    + (set r | r in t.regions :: PostingKey(category, source, 4, r, block))
  }

  function PostingKeys(c: Compiled): set<PostingKey> {
    (set i, s | 0 <= i < |c.rules| && s in RuleSources(c.rules[i]) ::
       PostingKey(c.rules[i].category, s, 0, 0, PostingBlock(c.id)))
    + (set i, s, t, k | 0 <= i < |c.rules| && s in RuleSources(c.rules[i]) && t in c.targets
         && k in TargetKeys(c.rules[i].category, s, t, PostingBlock(c.id)) :: k)
  }

  lemma KeysNameTheBlock(c: Compiled)
    ensures forall k :: k in PostingKeys(c) ==> k.block == PostingBlock(c.id)
  {
  }

  /** The keys as they are collected: rule by rule, source by source, target by target. */
  method ForSubscription(c: Compiled) returns (keys: set<PostingKey>)
    ensures keys == PostingKeys(c)
  {
    keys := {};
    var block := PostingBlock(c.id);
    var i := 0;
    while i < |c.rules|
      invariant 0 <= i <= |c.rules|
      invariant forall k :: k in keys <==> exists j, s :: 0 <= j < i && s in RuleSources(c.rules[j]) && GeneratedBy(c, j, s, k)
    {
      var sources := RuleSources(c.rules[i]);
      ghost var before := keys;
      ghost var done: set<Option<nat>> := {};
      while sources != {}
        invariant done !! sources && done + sources == RuleSources(c.rules[i])
        invariant forall k :: k in keys <==> k in before || exists s :: s in done && GeneratedBy(c, i, s, k)
        decreases |sources|
      {
        var s :| s in sources;
        var more := SourceKeys(c, i, s);
        keys := keys + more;
        sources, done := sources - {s}, done + {s};
      }
      i := i + 1;
    }
    KeysAreGenerated(c);
  }

  /** The key comes from one rule and one of its sources: the broad key or one of a target. */
  ghost predicate GeneratedBy(c: Compiled, i: nat, s: Option<nat>, k: PostingKey)
    requires i < |c.rules|
  {
    k == PostingKey(c.rules[i].category, s, 0, 0, PostingBlock(c.id))
    || exists t :: t in c.targets && k in TargetKeys(c.rules[i].category, s, t, PostingBlock(c.id))
  }

  lemma KeysAreGenerated(c: Compiled)
    ensures forall k :: k in PostingKeys(c) <==> exists j, s :: 0 <= j < |c.rules| && s in RuleSources(c.rules[j]) && GeneratedBy(c, j, s, k)
  {
    forall k, j, s | 0 <= j < |c.rules| && s in RuleSources(c.rules[j]) && GeneratedBy(c, j, s, k)
      ensures k in PostingKeys(c)
    {
    }
    forall k | k in PostingKeys(c)
      ensures exists j, s :: 0 <= j < |c.rules| && s in RuleSources(c.rules[j]) && GeneratedBy(c, j, s, k)
    {
      KeyHasSource(c, k);
    }
  }

  lemma KeyHasSource(c: Compiled, k: PostingKey)
    requires k in PostingKeys(c)
    ensures exists j, s :: 0 <= j < |c.rules| && s in RuleSources(c.rules[j]) && GeneratedBy(c, j, s, k)
  {
    hide RuleSources, TargetKeys;
    if j, s :| 0 <= j < |c.rules| && s in RuleSources(c.rules[j]) && k == PostingKey(c.rules[j].category, s, 0, 0, PostingBlock(c.id)) {
      assert GeneratedBy(c, j, s, k);
    } else {
      var j, s, t :| 0 <= j < |c.rules| && s in RuleSources(c.rules[j]) && t in c.targets
        && k in TargetKeys(c.rules[j].category, s, t, PostingBlock(c.id));
      assert GeneratedBy(c, j, s, k);
    }
  }

  method SourceKeys(c: Compiled, i: nat, s: Option<nat>) returns (keys: set<PostingKey>)
    requires i < |c.rules|
    ensures forall k :: k in keys <==> GeneratedBy(c, i, s, k)
  {
    var category, block := c.rules[i].category, PostingBlock(c.id);
    keys := {PostingKey(category, s, 0, 0, block)};
    var t := 0;
    while t < |c.targets|
      invariant 0 <= t <= |c.targets|
      invariant forall k :: k in keys <==> k == PostingKey(category, s, 0, 0, block)
                                           || exists x :: x in c.targets[..t] && k in TargetKeys(category, s, x, block)
    {
      assert c.targets[..t + 1] == c.targets[..t] + [c.targets[t]];
      keys := keys + TargetKeys(category, s, c.targets[t], block);
      t := t + 1;
    }
    assert c.targets[..t] == c.targets;
  }

  // ---- the index ----

  type Index = map<PostingKey, set<nat>>

  function BitmapAt(index: Index, k: PostingKey): set<nat> {
    if k in index then index[k] else {}
  }

  /** One entry of a write batch: the bitmap with the offset set or cleared; an empty one is removed. */
  function Staged(index: Index, k: PostingKey, offset: nat, insert: bool): Option<set<nat>> {
    var bitmap := if insert then BitmapAt(index, k) + {offset} else BitmapAt(index, k) - {offset};
    if bitmap == {} then None else Some(bitmap)
  }

  /** Applies a write batch: the last entry of a key wins. */
  function ApplyBatch(index: Index, batch: map<PostingKey, Option<set<nat>>>): Index {
    (map k | k in index && k !in batch :: index[k]) + (map k | k in batch && batch[k].Some? :: batch[k].value)
  }

  /** Clears the previous record's postings and sets the next record's, in that order, in one batch. */
  function Reindex(index: Index, previous: Option<Compiled>, next: Option<Compiled>): Index {
    var cleared := if previous.Some? then PostingKeys(previous.value) else {};
    var inserted := if next.Some? then PostingKeys(next.value) else {};
    ApplyBatch(index,
           (map k | k in cleared :: Staged(index, k, PostingOffset(previous.value.id), false))
           + (map k | k in inserted :: Staged(index, k, PostingOffset(next.value.id), true)))
  }

  /** The index holds exactly the postings of the compiled records, and no empty bitmap. */
  ghost predicate Exact(index: Index, compiled: map<nat, Compiled>) {
    && (forall k :: k in index ==> index[k] != {})
    && (forall k, offset :: offset in BitmapAt(index, k) <==> Posted(compiled, k, offset))
  }

  ghost predicate Posted(compiled: map<nat, Compiled>, k: PostingKey, offset: nat) {
    exists id :: id in compiled && offset == PostingOffset(id) && k in PostingKeys(compiled[id])
  }

  ghost predicate CompiledIds(compiled: map<nat, Compiled>) {
    forall id :: id in compiled ==> compiled[id].id == id && id <= U64_MAX
  }

  lemma ApplyBatchAt(index: Index, batch: map<PostingKey, Option<set<nat>>>, k: PostingKey)
    requires forall x :: x in batch && batch[x].Some? ==> batch[x].value != {}
    ensures BitmapAt(ApplyBatch(index, batch), k) ==
      if k in batch then (if batch[k].Some? then batch[k].value else {}) else BitmapAt(index, k)
    ensures (forall x :: x in index ==> index[x] != {}) ==> forall x :: x in ApplyBatch(index, batch) ==> ApplyBatch(index, batch)[x] != {}
  {
  }

  /** What one reindexing does to one bitmap. */
  lemma ReindexAt(index: Index, previous: Option<Compiled>, next: Option<Compiled>, k: PostingKey)
    requires forall x :: x in index ==> index[x] != {}
    ensures forall x :: x in Reindex(index, previous, next) ==> Reindex(index, previous, next)[x] != {}
    ensures BitmapAt(Reindex(index, previous, next), k) ==
      if next.Some? && k in PostingKeys(next.value) then BitmapAt(index, k) + {PostingOffset(next.value.id)}
      else if previous.Some? && k in PostingKeys(previous.value) then BitmapAt(index, k) - {PostingOffset(previous.value.id)}
      else BitmapAt(index, k)
  {
    hide PostingKeys, PostingOffset;
    var cleared := if previous.Some? then PostingKeys(previous.value) else {};
    var inserted := if next.Some? then PostingKeys(next.value) else {};
    var batch := (map x | x in cleared :: Staged(index, x, PostingOffset(previous.value.id), false))
                 + (map x | x in inserted :: Staged(index, x, PostingOffset(next.value.id), true));
    ApplyBatchAt(index, batch, k);
  }

  /** Subscriptions of one block have different offsets. */
  lemma OffsetsDiffer(compiled: map<nat, Compiled>, a: nat, b: nat, k: PostingKey)
    requires CompiledIds(compiled) && a in compiled && b in compiled && PostingOffset(a) == PostingOffset(b)
    requires k in PostingKeys(compiled[a]) && k in PostingKeys(compiled[b])
    ensures a == b
  {
    KeysNameTheBlock(compiled[a]);
    KeysNameTheBlock(compiled[b]);
    PostingIdRoundTrip(a, k.block, PostingOffset(a));
    PostingIdRoundTrip(b, k.block, PostingOffset(b));
  }

  /** The compiled records after one subscription changed. */
  function Recompiled(compiled: map<nat, Compiled>, id: nat, next: Option<Compiled>): map<nat, Compiled> {
    if next.Some? then compiled[id := next.value] else compiled - {id}
  }

  /** Storing, reactivating or deactivating a subscription keeps the index exact, although clearing and
      setting both start from the bitmaps before the batch. */
  lemma ReindexIsExact(index: Index, compiled: map<nat, Compiled>, id: nat, next: Option<Compiled>)
    requires Exact(index, compiled) && CompiledIds(compiled) && id <= U64_MAX
    requires next.Some? ==> next.value.id == id
    ensures CompiledIds(Recompiled(compiled, id, next))
    ensures Exact(Reindex(index, if id in compiled then Some(compiled[id]) else None, next), Recompiled(compiled, id, next))
  {
    hide Reindex, PostingKeys, PostingBlock, PostingOffset, Posted, Staged;
    var previous := if id in compiled then Some(compiled[id]) else None;
    var index', compiled' := Reindex(index, previous, next), Recompiled(compiled, id, next);
    forall k, offset
      ensures offset in BitmapAt(index', k) <==> Posted(compiled', k, offset)
    {
      BitmapFollows(index, compiled, id, next, k, offset);
    }
    ReindexHasNoEmpty(index, previous, next);
  }

  lemma ReindexHasNoEmpty(index: Index, previous: Option<Compiled>, next: Option<Compiled>)
    requires forall x :: x in index ==> index[x] != {}
    ensures forall x :: x in Reindex(index, previous, next) ==> Reindex(index, previous, next)[x] != {}
  {
    hide Reindex;
    forall x | x in Reindex(index, previous, next)
      ensures Reindex(index, previous, next)[x] != {}
    {
      ReindexAt(index, previous, next, x);
    }
  }

  lemma BitmapFollows(index: Index, compiled: map<nat, Compiled>, id: nat, next: Option<Compiled>, k: PostingKey, offset: nat)
    requires Exact(index, compiled) && CompiledIds(compiled) && id <= U64_MAX
    requires next.Some? ==> next.value.id == id
    ensures var previous := if id in compiled then Some(compiled[id]) else None;
      offset in BitmapAt(Reindex(index, previous, next), k) <==> Posted(Recompiled(compiled, id, next), k, offset)
  {
    hide Reindex, PostingKeys, PostingBlock, PostingOffset, Posted, Recompiled, BitmapAt;
    var previous := if id in compiled then Some(compiled[id]) else None;
    ReindexAt(index, previous, next, k);
    PostedChanges(compiled, id, next, k, offset);
    assert offset in BitmapAt(index, k) <==> Posted(compiled, k, offset);
  }

  lemma PostedChanges(compiled: map<nat, Compiled>, id: nat, next: Option<Compiled>, k: PostingKey, offset: nat)
    requires CompiledIds(compiled) && id <= U64_MAX && (next.Some? ==> next.value.id == id)
    ensures Posted(Recompiled(compiled, id, next), k, offset) <==>
      if next.Some? && k in PostingKeys(next.value) then Posted(compiled, k, offset) || offset == PostingOffset(id)
      else if id in compiled && k in PostingKeys(compiled[id]) then Posted(compiled, k, offset) && offset != PostingOffset(id)
      else Posted(compiled, k, offset)
  {
    var compiled' := Recompiled(compiled, id, next);
    if Posted(compiled, k, offset) {
      var x :| x in compiled && offset == PostingOffset(x) && k in PostingKeys(compiled[x]);
      if x != id {
        assert compiled'[x] == compiled[x];
        if offset == PostingOffset(id) && id in compiled && k in PostingKeys(compiled[id]) {
          OffsetsDiffer(compiled, x, id, k);
          assert false;
        }
      }
    }
    if next.Some? && k in PostingKeys(next.value) && offset == PostingOffset(id) {
      assert compiled'[id] == next.value;
    }
    if Posted(compiled', k, offset) {
      var x :| x in compiled' && offset == PostingOffset(x) && k in PostingKeys(compiled'[x]);
      if x != id {
        assert compiled[x] == compiled'[x];
        if offset == PostingOffset(id) && id in compiled && k in PostingKeys(compiled[id]) {
          OffsetsDiffer(compiled, x, id, k);
          assert false;
        }
      }
    }
  }
}
