/**
 The text of an event key: three fields, each prefixed with its length in bytes. Different streams
 always get different keys, so ids derived from keys do too.
 */
module EventKeys {
  import opened Records
  import opened Incidents

  function CategoryText(c: Category): string {
    match c
    case EarthquakeWarning => "earthquake_warning"
    case EarthquakeReport => "earthquake_report"
    case WeatherWarning => "weather_warning"
    case Tsunami => "tsunami"
    case Typhoon => "typhoon"
  }

  /** Bytes of a character in UTF-8 (section 3 of RFC 3629). */
  function Width(c: char): (n: nat)
    ensures 1 <= n <= 4
  {
    if c as int < 0x80 then 1 else if c as int < 0x800 then 2 else if c as int < 0x1_0000 then 3 else 4
  }

  function ByteLength(s: string): nat {
    if s == [] then 0 else ByteLength(s[..|s| - 1]) + Width(s[|s| - 1])
  }

  function Digit(d: nat): char
    requires d < 10
  {
    ('0' as int + d) as char
  }

  function Decimal(n: nat): (s: string)
    ensures s != [] && forall i :: 0 <= i < |s| ==> '0' <= s[i] <= '9'
  {
    if n < 10 then [Digit(n)] else Decimal(n / 10) + [Digit(n % 10)]
  }

  function Field(s: string): string {
    Decimal(ByteLength(s)) + ":" + s
  }

  function EventKey(c: Category, source: string, eventId: string): KeyText {
    Field(CategoryText(c)) + Field(source) + Field(eventId)
  }

  function KeyOfEvent(e: Event): KeyText {
    EventKey(e.category, e.source, e.eventId)
  }

  lemma {:induction false} DecimalInjective(m: nat, n: nat)
    requires Decimal(m) == Decimal(n)
    ensures m == n
  {
    var s := Decimal(m);
    if m >= 10 && n >= 10 {
      assert Decimal(m)[..|s| - 1] == Decimal(m / 10) && Decimal(n)[..|s| - 1] == Decimal(n / 10);
      assert Decimal(m)[|s| - 1] == Digit(m % 10) && Decimal(n)[|s| - 1] == Digit(n % 10);
      DecimalInjective(m / 10, n / 10);
    }
  }

  /** A number followed by a colon can be read back in only one way. */
  lemma LengthReadsBack(m: nat, n: nat, x: string, y: string)
    requires Decimal(m) + ":" + x == Decimal(n) + ":" + y
    ensures m == n && x == y
  {
    var a, b := Decimal(m), Decimal(n);
    var u, v := a + ":" + x, b + ":" + y;
    assert u[|a|] == ':' && v[|b|] == ':';
    assert |a| == |b|;
    assert a == u[..|a|] == v[..|a|] == b;
    assert x == u[|a| + 1..] && y == v[|a| + 1..];
    DecimalInjective(m, n);
  }

  lemma {:induction false} ByteLengthGrows(s: string, k: nat)
    requires k <= |s|
    ensures ByteLength(s[..k]) + (|s| - k) <= ByteLength(s)
  {
    if k < |s| {
      assert s[..|s| - 1][..k] == s[..k];
      ByteLengthGrows(s[..|s| - 1], k);
    } else {
      assert s[..k] == s;
    }
  }

  /** A prefix is determined by its length in bytes. */
  lemma PrefixReadsBack(s: string, t: string, x: string, y: string)
    requires s + x == t + y && ByteLength(s) == ByteLength(t)
    ensures s == t && x == y
  {
    var u := s + x;
    assert u[..|s|] == s && u[..|t|] == t;
    if |s| < |t| {
      assert t[..|s|] == s;
      ByteLengthGrows(t, |s|);
      assert false;
    } else if |t| < |s| {
      assert s[..|t|] == t;
      ByteLengthGrows(s, |t|);
      assert false;
    }
    assert x == u[|s|..] && y == (t + y)[|t|..];
  }

  lemma FieldReadsBack(s: string, t: string, x: string, y: string)
    requires Field(s) + x == Field(t) + y
    ensures s == t && x == y
  {
    assert Field(s) + x == Decimal(ByteLength(s)) + ":" + (s + x);
    assert Field(t) + y == Decimal(ByteLength(t)) + ":" + (t + y);
    LengthReadsBack(ByteLength(s), ByteLength(t), s + x, t + y);
    PrefixReadsBack(s, t, x, y);
  }

  lemma CategoryTextInjective(a: Category, b: Category)
    requires CategoryText(a) == CategoryText(b)
    ensures a == b
  {
    assert |CategoryText(a)| == |CategoryText(b)|;
  }

  /** Event keys are injective for every source and event id, whatever characters they hold. */
  lemma EventKeyInjective(a: Category, s: string, i: string, b: Category, t: string, j: string)
    requires EventKey(a, s, i) == EventKey(b, t, j)
    ensures a == b && s == t && i == j
  {
    hide Field, CategoryText;
    var c, d := Field(CategoryText(a)), Field(CategoryText(b));
    assert c + Field(s) + Field(i) == c + (Field(s) + Field(i));
    assert d + Field(t) + Field(j) == d + (Field(t) + Field(j));
    FieldReadsBack(CategoryText(a), CategoryText(b), Field(s) + Field(i), Field(t) + Field(j));
    CategoryTextInjective(a, b);
    FieldReadsBack(s, t, Field(i), Field(j));
    assert Field(i) + [] == Field(j) + [];
    FieldReadsBack(i, j, [], []);
  }

  lemma EventKeyNotEmpty(e: Event)
    ensures KeyOfEvent(e) != ""
  {
  }
}
