/**
 Keys as bytes. The keyspaces compare keys byte by byte; fixed-width big-endian fields make that the
 order of the fields, so the first key under a destination prefix is the least one there.
 */
module KeyCodec {
  import opened Records
  import opened DeliverySpec
  import opened Postings

  type Bytes = seq<nat>

  function Power(w: nat): nat {
    if w == 0 then 1 else 256 * Power(w - 1)
  }

  function BigEndian(n: nat, w: nat): (r: Bytes)
    ensures |r| == w
  {
    if w == 0 then [] else BigEndian(n / 256, w - 1) + [n % 256]
  }

  /** Lexicographic order of byte strings; a proper prefix comes first. */
  predicate BytesLess(a: Bytes, b: Bytes) {
    b != [] && (a == [] || a[0] < b[0] || (a[0] == b[0] && BytesLess(a[1..], b[1..])))
  }

  lemma {:induction false} LessOfFields(a: Bytes, b: Bytes, c: Bytes, d: Bytes)
    requires |a| == |c|
    ensures BytesLess(a + b, c + d) <==> BytesLess(a, c) || (a == c && BytesLess(b, d))
  {
    if a == [] {
      assert a + b == b && c + d == d;
    } else {
      assert (a + b)[1..] == a[1..] + b && (c + d)[1..] == c[1..] + d;
      LessOfFields(a[1..], b, c[1..], d);
      assert a == [a[0]] + a[1..] && c == [c[0]] + c[1..];
    }
  }

  /** Numbers of one width compare as their encodings do. */
  lemma {:induction false} BigEndianOrder(m: nat, n: nat, w: nat)
    requires m < Power(w) && n < Power(w)
    ensures BytesLess(BigEndian(m, w), BigEndian(n, w)) <==> m < n
    ensures BigEndian(m, w) == BigEndian(n, w) <==> m == n
  {
    if w > 0 {
      BigEndianOrder(m / 256, n / 256, w - 1);
      var a, c := BigEndian(m / 256, w - 1), BigEndian(n / 256, w - 1);
      LessOfFields(a, [m % 256], c, [n % 256]);
      assert BytesLess([m % 256], [n % 256]) <==> m % 256 < n % 256;
      assert BigEndian(m, w)[..w - 1] == a && BigEndian(n, w)[..w - 1] == c;
      assert BigEndian(m, w)[w - 1] == m % 256 && BigEndian(n, w)[w - 1] == n % 256;
    }
  }

  // ---- delivery keys ----

  predicate U64(n: nat) { n < Power(8) }
  predicate U32(n: nat) { n < Power(4) }

  function SlotBytes(e: Slot): Bytes {
    BigEndian(e.destination, 8) + (BigEndian(e.batch, 8) + BigEndian(e.row, 4))
  }

  function DestinationKeyBytes(k: DestinationKey): Bytes {
    BigEndian(k.destination, 8) + (BigEndian(k.batch, 8) + (BigEndian(k.row, 4) + BigEndian(k.id, 8)))
  }

  function RetryKeyBytes(k: RetryKey): Bytes {
    BigEndian(k.due, 8) + BigEndian(k.id, 8)
  }

  /** Under one destination the queue's byte order is that of batch and row. */
  lemma SlotOrder(a: Slot, b: Slot)
    requires U64(a.destination) && U64(a.batch) && U32(a.row) && U64(b.destination) && U64(b.batch) && U32(b.row)
    ensures a.destination == b.destination ==> (BytesLess(SlotBytes(a), SlotBytes(b)) <==> SlotLess(a, b))
    ensures SlotBytes(a)[..8] == BigEndian(b.destination, 8) <==> a.destination == b.destination
    ensures SlotBytes(a) == SlotBytes(b) <==> a == b
  {
    BigEndianOrder(a.destination, b.destination, 8);
    BigEndianOrder(a.batch, b.batch, 8);
    BigEndianOrder(a.row, b.row, 4);
    hide BigEndian, BytesLess, Power;
    LessOfFields(BigEndian(a.batch, 8), BigEndian(a.row, 4), BigEndian(b.batch, 8), BigEndian(b.row, 4));
    LessOfFields(BigEndian(a.destination, 8), BigEndian(a.batch, 8) + BigEndian(a.row, 4), BigEndian(b.destination, 8), BigEndian(b.batch, 8) + BigEndian(b.row, 4));
    NothingIsLessThanItself(BigEndian(a.destination, 8));
    SameFields(BigEndian(a.destination, 8), BigEndian(a.batch, 8) + BigEndian(a.row, 4), BigEndian(b.destination, 8), BigEndian(b.batch, 8) + BigEndian(b.row, 4));
    SameFields(BigEndian(a.batch, 8), BigEndian(a.row, 4), BigEndian(b.batch, 8), BigEndian(b.row, 4));
    assert SlotBytes(a)[..8] == BigEndian(a.destination, 8);
  }

  lemma {:induction false} NothingIsLessThanItself(a: Bytes)
    ensures !BytesLess(a, a)
  {
    if a != [] {
      NothingIsLessThanItself(a[1..]);
    }
  }

  lemma SameFields(a: Bytes, b: Bytes, c: Bytes, d: Bytes)
    requires |a| == |c|
    ensures a + b == c + d <==> a == c && b == d
  {
    assert (a + b)[..|a|] == a && (c + d)[..|a|] == c;
    assert (a + b)[|a|..] == b && (c + d)[|a|..] == d;
  }

  /** The retry destination index is scanned in the order of destination, batch, row and id. */
  lemma DestinationKeyOrder(a: DestinationKey, b: DestinationKey)
    requires U64(a.destination) && U64(a.batch) && U32(a.row) && U64(a.id)
    requires U64(b.destination) && U64(b.batch) && U32(b.row) && U64(b.id)
    ensures BytesLess(DestinationKeyBytes(a), DestinationKeyBytes(b)) <==> KeyLess(a, b)
    ensures DestinationKeyBytes(a) == DestinationKeyBytes(b) <==> a == b
    ensures DestinationKeyBytes(a)[..8] == BigEndian(b.destination, 8) <==> a.destination == b.destination
  {
    BigEndianOrder(a.destination, b.destination, 8);
    BigEndianOrder(a.batch, b.batch, 8);
    BigEndianOrder(a.row, b.row, 4);
    BigEndianOrder(a.id, b.id, 8);
    hide BigEndian, BytesLess, Power;
    var i, j := BigEndian(a.id, 8), BigEndian(b.id, 8);
    var r, s := BigEndian(a.row, 4), BigEndian(b.row, 4);
    var x, y := BigEndian(a.batch, 8), BigEndian(b.batch, 8);
    LessOfFields(r, i, s, j);
    LessOfFields(x, r + i, y, s + j);
    LessOfFields(BigEndian(a.destination, 8), x + (r + i), BigEndian(b.destination, 8), y + (s + j));
    SameFields(r, i, s, j);
    SameFields(x, r + i, y, s + j);
    SameFields(BigEndian(a.destination, 8), x + (r + i), BigEndian(b.destination, 8), y + (s + j));
    assert DestinationKeyBytes(a)[..8] == BigEndian(a.destination, 8);
  }

  /** Retry keys are injective, so a rescheduled retry never lands on another one. */
  lemma RetryKeyInjective(a: RetryKey, b: RetryKey)
    requires U64(a.due) && U64(a.id) && U64(b.due) && U64(b.id)
    ensures RetryKeyBytes(a) == RetryKeyBytes(b) <==> a == b
  {
    BigEndianOrder(a.due, b.due, 8);
    BigEndianOrder(a.id, b.id, 8);
    hide BigEndian, Power;
    SameFields(BigEndian(a.due, 8), BigEndian(a.id, 8), BigEndian(b.due, 8), BigEndian(b.id, 8));
  }

  // ---- posting keys ----

  function CategoryCode(c: Category): nat {
    match c
    case EarthquakeWarning => 1
    case EarthquakeReport => 2
    case WeatherWarning => 3
    case Tsunami => 4
    case Typhoon => 5
  }

  function SourceCode(s: Option<nat>): nat {
    if s.Some? then s.value else 0
  }

  predicate PostingInRange(k: PostingKey) {
    && k.kind < 256 && U64(k.value) && U64(k.block)
    && (k.source.Some? ==> 0 < k.source.value < 0x1_0000)
  }

  function PostingPrefix(k: PostingKey): (r: Bytes)
    ensures |r| == 12
  {
    [CategoryCode(k.category), k.kind] + (BigEndian(SourceCode(k.source), 2) + BigEndian(k.value, 8))
  }

  function PostingBytes(k: PostingKey): Bytes {
    PostingPrefix(k) + BigEndian(k.block, 8)
  }

  /** Two posting keys share the first 12 bytes exactly when they differ in their id block only, so a
      prefix scan with the wildcard or a source finds the blocks of that very key. */
  lemma PostingPrefixFinds(a: PostingKey, b: PostingKey)
    requires PostingInRange(a) && PostingInRange(b)
    ensures PostingPrefix(a) == PostingPrefix(b) <==> a.(block := 0) == b.(block := 0)
    ensures PostingBytes(a) == PostingBytes(b) <==> a == b
  {
    var s, t := SourceCode(a.source), SourceCode(b.source);
    assert Power(2) == 0x1_0000;
    BigEndianOrder(s, t, 2);
    BigEndianOrder(a.value, b.value, 8);
    BigEndianOrder(a.block, b.block, 8);
    hide BigEndian, Power;
    SameFields(BigEndian(s, 2), BigEndian(a.value, 8), BigEndian(t, 2), BigEndian(b.value, 8));
    SameFields([CategoryCode(a.category), a.kind], BigEndian(s, 2) + BigEndian(a.value, 8), [CategoryCode(b.category), b.kind], BigEndian(t, 2) + BigEndian(b.value, 8));
    SameFields(PostingPrefix(a), BigEndian(a.block, 8), PostingPrefix(b), BigEndian(b.block, 8));
    CategoryCodesDiffer(a.category, b.category);
    assert [CategoryCode(a.category), a.kind] == [CategoryCode(b.category), b.kind] <==> CategoryCode(a.category) == CategoryCode(b.category) && a.kind == b.kind by {
      PairsEqual(CategoryCode(a.category), a.kind, CategoryCode(b.category), b.kind);
    }
  }

  lemma CategoryCodesDiffer(a: Category, b: Category)
    ensures CategoryCode(a) == CategoryCode(b) <==> a == b
  {
  }

  lemma PairsEqual(a: nat, b: nat, c: nat, d: nat)
    ensures [a, b] == [c, d] <==> a == c && b == d
  {
    assert [a, b][0] == a && [c, d][0] == c && [a, b][1] == b && [c, d][1] == d;
  }
}
