/**
 Splitting match rows into delivery batches: each batch holds consecutive rows of one shard, at most
 512 of them, and is halved until its encoding fits.
 */
module BatchSplitter {
  import opened Records

  const DELIVERY_ROWS_PER_BATCH: nat := 512
  const DELIVERY_SHARDS: nat := 64
  const MAX_DELIVERY_BATCH_BYTES: nat := 262_144

  function Shard(destination: nat): nat {
    destination % DELIVERY_SHARDS
  }

  /** Destinations are dealt out over 64 shards in turn. */
  lemma ShardsTakeTurns(a: nat, b: nat)
    ensures Shard(a) < 64 && (Shard(a) == Shard(b) <==> (a - b) % 64 == 0)
    ensures a < 64 ==> Shard(a) == a
  {
  }

  /** A run of rows that share a shard ends where the shard changes. */
  function ShardEnd(rows: seq<Row>, start: nat): (end: nat)
    requires start < |rows|
    ensures start < end <= |rows|
    ensures forall i :: start <= i < end ==> Shard(rows[i].destination) == Shard(rows[start].destination)
    ensures end < |rows| ==> Shard(rows[end].destination) != Shard(rows[start].destination)
  {
    ShardEndFrom(rows, start, start + 1)
  }

  function ShardEndFrom(rows: seq<Row>, start: nat, from: nat): (end: nat)
    requires start < from <= |rows|
    requires forall i :: start <= i < from ==> Shard(rows[i].destination) == Shard(rows[start].destination)
    ensures from <= end <= |rows|
    ensures forall i :: start <= i < end ==> Shard(rows[i].destination) == Shard(rows[start].destination)
    ensures end < |rows| ==> Shard(rows[end].destination) != Shard(rows[start].destination)
    decreases |rows| - from
  {
    if from == |rows| || Shard(rows[from].destination) != Shard(rows[start].destination) then from
    else ShardEndFrom(rows, start, from + 1)
  }

  /** The encoded size of a batch is not defined here; ids, times and rows may all matter to it. */
  type Sizer = Batch -> nat

  ghost predicate BatchFits(b: Batch, size: Sizer) {
    && 1 <= |b.rows| <= DELIVERY_ROWS_PER_BATCH
    && size(b) <= MAX_DELIVERY_BATCH_BYTES
    && forall i :: 0 <= i < |b.rows| ==> Shard(b.rows[i].destination) == Shard(b.rows[0].destination)
  }

  function Joined(batches: seq<Batch>): seq<Row> {
    if batches == [] then [] else Joined(batches[..|batches| - 1]) + batches[|batches| - 1].rows
  }

  /** The batches carry the job's identity and fresh ids in increasing order. */
  ghost predicate Numbered(batches: seq<Batch>, job: Job, category: Category, createdAt: int, first: nat, last: nat) {
    && (forall b :: b in batches ==> b.incident == job.incident && b.revision == job.revision && b.category == category
                                     && b.createdAt == createdAt && first < b.id <= last)
    && (forall i, j :: 0 <= i < j < |batches| ==> batches[i].id < batches[j].id)
  }

  /** An order-preserving partition of the rows into batches that fit. */
  ghost predicate Partition(batches: seq<Batch>, rows: seq<Row>, size: Sizer) {
    Joined(batches) == rows && forall b :: b in batches ==> BatchFits(b, size)
  }

  function BatchOf(job: Job, category: Category, createdAt: int, id: nat, rows: seq<Row>): Batch {
    Batch(id, job.incident, job.revision, category, createdAt, rows)
  }

  /** A row that alone is over the limit under some fresh id. */
  ghost predicate Oversized(job: Job, category: Category, createdAt: int, lastId: nat, rows: seq<Row>, size: Sizer) {
    exists id: nat, i :: lastId < id && 0 <= i < |rows| && size(BatchOf(job, category, createdAt, id, [rows[i]])) > MAX_DELIVERY_BATCH_BYTES
  }

  lemma JoinOne(batches: seq<Batch>, b: Batch, rows: seq<Row>, start: nat, end: nat)
    requires start <= end <= |rows| && Joined(batches) == rows[..start] && b.rows == rows[start..end]
    ensures Joined(batches + [b]) == rows[..end]
  {
    var all := batches + [b];
    assert all[..|all| - 1] == batches;
    assert rows[..end] == rows[..start] + rows[start..end];
  }

  lemma NumberOne(batches: seq<Batch>, b: Batch, job: Job, category: Category, createdAt: int, first: nat, last: nat)
    requires Numbered(batches, job, category, createdAt, first, last) && first <= last && b == BatchOf(job, category, createdAt, last + 1, b.rows)
    ensures Numbered(batches + [b], job, category, createdAt, first, last + 1)
  {
    var all := batches + [b];
    forall i, j | 0 <= i < j < |all|
      ensures all[i].id < all[j].id
    {
      assert all[i] in batches;
    }
  }

  /** The piece ends with the shard or at 512 rows, or a piece of at most twice its length and one more row
      was too large. */
  ghost predicate NotShorter(job: Job, category: Category, createdAt: int, id: nat, rows: seq<Row>, start: nat, end: nat, shardEnd: nat, size: Sizer)
    requires start < shardEnd <= |rows|
  {
    || end == shardEnd || end == start + 512
    || exists longer :: end < longer <= shardEnd && longer - start <= 2 * (end - start) + 1 && longer - start <= 512
                        && size(BatchOf(job, category, createdAt, id, rows[start..longer])) > 262_144
  }

  /** One batch from `start`: the longest piece within the shard and the row limit, halved until it fits. */
  method NextBatch(job: Job, category: Category, createdAt: int, id: nat, rows: seq<Row>, start: nat, shardEnd: nat, size: Sizer)
    returns (batch: Option<Batch>, end: nat)
    requires start < shardEnd <= |rows|
    requires forall i :: start <= i < shardEnd ==> Shard(rows[i].destination) == Shard(rows[start].destination)
    ensures batch.Some? ==> start < end <= shardEnd && batch.value == BatchOf(job, category, createdAt, id, rows[start..end]) && BatchFits(batch.value, size)
    ensures batch.None? ==> size(BatchOf(job, category, createdAt, id, [rows[start]])) > MAX_DELIVERY_BATCH_BYTES
    ensures batch.Some? ==> NotShorter(job, category, createdAt, id, rows, start, end, shardEnd, size)
  {
    end := if start + DELIVERY_ROWS_PER_BATCH < shardEnd then start + DELIVERY_ROWS_PER_BATCH else shardEnd;
    while true
      invariant start < end <= shardEnd && end - start <= DELIVERY_ROWS_PER_BATCH
      invariant NotShorter(job, category, createdAt, id, rows, start, end, shardEnd, size)
      decreases end - start
    {
      var b := BatchOf(job, category, createdAt, id, rows[start..end]);
      if size(b) <= MAX_DELIVERY_BATCH_BYTES {
        return Some(b), end;
      }
      if end <= start + 1 {
        assert rows[start..end] == [rows[start]];
        return None, end;
      }
      end := start + (end - start) / 2;
    }
  }

  /** All batches of a match job, or nothing when a single row is over the limit. */
  method BuildDeliveryBatches(job: Job, category: Category, createdAt: int, lastId: nat, rows: seq<Row>, size: Sizer)
    returns (batches: Option<seq<Batch>>, lastId': nat)
    ensures batches.Some? ==> Partition(batches.value, rows, size) && Numbered(batches.value, job, category, createdAt, lastId, lastId')
    ensures batches.None? ==> Oversized(job, category, createdAt, lastId, rows, size)
    ensures lastId <= lastId'
  {
    var built: seq<Batch> := [];
    lastId' := lastId;
    assert Partition(built, rows[..0], size);
    var start := 0;
    while start < |rows|
      invariant 0 <= start <= |rows| && lastId <= lastId'
      invariant Partition(built, rows[..start], size) && Numbered(built, job, category, createdAt, lastId, lastId')
    {
      var shardEnd := ShardEnd(rows, start);
      while start < shardEnd
        invariant 0 <= start <= shardEnd <= |rows| && lastId <= lastId'
        invariant start < shardEnd ==> forall i :: start <= i < shardEnd ==> Shard(rows[i].destination) == Shard(rows[start].destination)
        invariant Partition(built, rows[..start], size) && Numbered(built, job, category, createdAt, lastId, lastId')
      {
        hide BatchFits, Numbered;
        lastId' := lastId' + 1;
        var batch, end := NextBatch(job, category, createdAt, lastId', rows, start, shardEnd, size);
        if batch.None? {
          assert Oversized(job, category, createdAt, lastId, rows, size);
          return None, lastId';
        }
        JoinOne(built, batch.value, rows, start, end);
        NumberOne(built, batch.value, job, category, createdAt, lastId, lastId' - 1);
        built := built + [batch.value];
        start := end;
      }
    }
    assert rows[..start] == rows;
    batches := Some(built);
  }

  // ---- when it succeeds ----

  /** Encoded sizes never shrink when rows are added around a row. */
  ghost predicate Monotone(job: Job, category: Category, createdAt: int, size: Sizer) {
    forall id: nat, rows: seq<Row>, i :: 0 <= i < |rows| ==>
      size(BatchOf(job, category, createdAt, id, [rows[i]])) <= size(BatchOf(job, category, createdAt, id, rows))
  }

  /** Splitting fails only on a row that is over the limit alone, under the id it would get; and when
      sizes never shrink as rows are added, success means every row is within the limit alone under the
      id of its batch. */
  lemma {:induction false} SplitRowsFitAlone(batches: seq<Batch>, rows: seq<Row>, size: Sizer, job: Job, category: Category, createdAt: int, first: nat, last: nat, i: nat)
    requires Joined(batches) == rows && (forall b :: b in batches ==> size(b) <= MAX_DELIVERY_BATCH_BYTES)
    requires Numbered(batches, job, category, createdAt, first, last) && Monotone(job, category, createdAt, size) && i < |rows|
    ensures exists id: nat :: first < id <= last && size(BatchOf(job, category, createdAt, id, [rows[i]])) <= MAX_DELIVERY_BATCH_BYTES
  {
    var n := |batches| - 1;
    var front, b := batches[..n], batches[n];
    var k := |Joined(front)|;
    if i < k {
      assert forall x :: x in front ==> x in batches;
      assert rows[i] == Joined(front)[i];
      SplitRowsFitAlone(front, Joined(front), size, job, category, createdAt, first, last, i);
    } else {
      assert b in batches && b == BatchOf(job, category, createdAt, b.id, b.rows);
      assert rows[i] == b.rows[i - k];
      assert size(BatchOf(job, category, createdAt, b.id, [b.rows[i - k]])) <= size(b);
    }
  }
}
