/**
 Fitting a push payload into its byte limit: texts are cut at character boundaries and end in an
 ellipsis, and a binary search finds the longest cut that fits.
 */
module Payloads {
  import opened Records
  import opened EventKeys

  const MAX_BARK_PAYLOAD_BYTES: nat := 3_800
  const ELLIPSIS: string := "\U{2026}"

  // ---- sizes ----

  /** Bytes of a character inside a JSON string (section 7 of RFC 8259), as serde_json escapes it. */
  function EscapedWidth(c: char): (n: nat)
    ensures n >= Width(c)
  {
    if c == '\"' || c == '\\' then 2
    else if c as int < 0x20 then (if c as int in {8, 9, 10, 12, 13} then 2 else 6)
    else Width(c)
  }

  function Escaped(s: string): nat {
    if s == [] then 0 else Escaped(s[..|s| - 1]) + EscapedWidth(s[|s| - 1])
  }

  /** Everything but the three texts takes `overhead` bytes; link and id are part of it. */
  datatype Payload = Payload(title: string, subtitle: string, body: string, url: Option<string>, id: Option<string>, overhead: nat)

  datatype Field = Title | Subtitle | Body

  function TextOf(p: Payload, f: Field): string {
    match f
    case Title => p.title
    case Subtitle => p.subtitle
    case Body => p.body
  }

  function With(p: Payload, f: Field, text: string): Payload {
    match f
    case Title => p.(title := text)
    case Subtitle => p.(subtitle := text)
    case Body => p.(body := text)
  }

  function Bytes(p: Payload): nat {
    p.overhead + Escaped(p.title) + Escaped(p.subtitle) + Escaped(p.body)
  }

  predicate Fits(p: Payload) {
    Bytes(p) <= MAX_BARK_PAYLOAD_BYTES
  }

  // ---- what is counted ----

  function HexDigit(d: nat): char
    requires d < 16
  {
    "0123456789abcdef"[d]
  }

  /** A character inside a JSON string: the quote, the backslash and control characters are escaped, with
      their short forms where they have one. */
  function JsonChar(c: char): string {
    match c
    case '\"' => "\\\""
    case '\\' => "\\\\"
    case '\n' => "\\n"
    case '\r' => "\\r"
    case '\t' => "\\t"
    case _ =>
      if c as int == 8 then "\\b" else if c as int == 12 then "\\f"
      else if c as int < 32 then "\\u00" + [HexDigit(c as int / 16), HexDigit(c as int % 16)]
      else [c]
  }

  function JsonText(s: string): string {
    if s == [] then "" else JsonText(s[..|s| - 1]) + JsonChar(s[|s| - 1])
  }

  lemma {:induction false} ByteLengthAdds(a: string, b: string)
    ensures ByteLength(a + b) == ByteLength(a) + ByteLength(b)
  {
    if b == [] {
      assert a + b == a;
    } else {
      var n := |b| - 1;
      assert (a + b)[..|a| + n] == a + b[..n];
      ByteLengthAdds(a, b[..n]);
    }
  }

  lemma {:induction false} AsciiLength(s: string)
    requires forall i :: 0 <= i < |s| ==> s[i] as int < 0x80
    ensures ByteLength(s) == |s|
  {
    if s != [] {
      AsciiLength(s[..|s| - 1]);
    }
  }

  lemma CharIsJson(c: char)
    ensures EscapedWidth(c) == ByteLength(JsonChar(c))
  {
    if c as int >= 32 && c != '\"' && c != '\\' {
      assert [c][..0] == [];
      assert JsonChar(c) == [c] && ByteLength([c]) == Width(c);
    } else {
      AsciiLength(JsonChar(c));
    }
  }

  /** The size that is counted is that of the text as it is written out. */
  lemma {:induction false} EscapedIsJson(s: string)
    ensures Escaped(s) == ByteLength(JsonText(s))
  {
    if s != [] {
      var n := |s| - 1;
      EscapedIsJson(s[..n]);
      CharIsJson(s[n]);
      ByteLengthAdds(JsonText(s[..n]), JsonChar(s[n]));
    }
  }

  /** A payload fits when its three texts, written out, and everything else take at most 3800 bytes. */
  lemma FitsMeans(p: Payload)
    ensures Fits(p) <==> p.overhead + ByteLength(JsonText(p.title)) + ByteLength(JsonText(p.subtitle)) + ByteLength(JsonText(p.body)) <= 3_800
  {
    EscapedIsJson(p.title);
    EscapedIsJson(p.subtitle);
    EscapedIsJson(p.body);
  }

  // ---- truncation ----

  /** The longest prefix of whole characters within n bytes. */
  function Prefix(s: string, n: nat): (r: string)
    ensures r <= s && ByteLength(r) <= n
  {
    if ByteLength(s) <= n then s else Prefix(s[..|s| - 1], n)
  }

  function Truncated(s: string, max: nat): string {
    if ByteLength(s) <= max then s
    else if max < 3 then ""
    else Prefix(s, max - 3) + ELLIPSIS
  }

  /** A text that is too long is cut to a prefix of whole characters and an ellipsis, and a longer prefix
      would be too long with it; below three bytes nothing is left. */
  lemma TruncatedIsLongest(s: string, max: nat)
    ensures ByteLength(s) <= max ==> Truncated(s, max) == s
    ensures ByteLength(s) > max && max < 3 ==> Truncated(s, max) == ""
    ensures ByteLength(s) > max >= 3 ==>
      exists p :: p <= s && Truncated(s, max) == p + "\U{2026}" && ByteLength(p) + 3 <= max
                  && forall q :: q <= s && p < q ==> ByteLength(q) + 3 > max
  {
    if ByteLength(s) > max >= 3 {
      var p := Prefix(s, max - 3);
      forall q | q <= s && p < q
        ensures ByteLength(q) + 3 > max
      {
        PrefixIsLongest(s, max - 3, q);
      }
      assert p <= s && Truncated(s, max) == p + "\U{2026}";
    }
  }

  lemma {:induction false} PrefixIsLongest(s: string, n: nat, q: string)
    requires q <= s && Prefix(s, n) < q
    ensures ByteLength(q) > n
  {
    if q != s {
      assert q <= s[..|s| - 1];
      PrefixIsLongest(s[..|s| - 1], n, q);
    }
  }

  ghost predicate Boundary(s: string, end: nat) {
    exists k :: 0 <= k <= |s| && ByteLength(s[..k]) == end
  }

  /** The prefix ends at the last character boundary that is not past n. */
  lemma {:induction false} PrefixAtBoundary(s: string, n: nat)
    ensures Boundary(s, ByteLength(Prefix(s, n)))
    ensures forall end: nat :: Boundary(s, end) && end <= n ==> end <= ByteLength(Prefix(s, n))
  {
    if ByteLength(s) <= n {
      assert s[..|s|] == s;
      forall end: nat | Boundary(s, end)
        ensures end <= ByteLength(s)
      {
        var k :| 0 <= k <= |s| && ByteLength(s[..k]) == end;
        ByteLengthGrows(s, k);
      }
    } else {
      var front := s[..|s| - 1];
      PrefixAtBoundary(front, n);
      var j :| 0 <= j <= |front| && ByteLength(front[..j]) == ByteLength(Prefix(front, n));
      assert front[..j] == s[..j];
      forall end: nat | Boundary(s, end) && end <= n
        ensures end <= ByteLength(Prefix(s, n))
      {
        var k :| 0 <= k <= |s| && ByteLength(s[..k]) == end;
        assert s[..|s|] == s && k < |s|;
        assert front[..k] == s[..k];
        assert Boundary(front, end);
      }
    }
  }

  function BoundaryIndex(s: string, end: nat, k: nat): (r: Option<nat>)
    requires k <= |s|
    ensures r.Some? ==> r.value <= k && ByteLength(s[..r.value]) == end
    ensures r.None? ==> forall j: nat :: j <= k ==> ByteLength(s[..j]) != end
  {
    if ByteLength(s[..k]) == end then Some(k)
    else if k == 0 then None else BoundaryIndex(s, end, k - 1)
  }

  function Lesser(a: nat, b: nat): nat {
    if a < b then a else b
  }

  /** Walks back from the byte limit to a character boundary, then appends the ellipsis. */
  method TruncateWithEllipsis(s: string, max: nat) returns (r: string)
    ensures r == Truncated(s, max)
  {
    if ByteLength(s) <= max {
      return s;
    }
    if max < 3 {
      return "";
    }
    var end: nat := Lesser(max - 3, ByteLength(s));
    PrefixAtBoundary(s, max - 3);
    var at := BoundaryIndex(s, end, |s|);
    while at.None?
      invariant at == BoundaryIndex(s, end, |s|)
      invariant ByteLength(Prefix(s, max - 3)) <= end <= max - 3
      decreases end
    {
      NotBoundary(s, end);
      ZeroIsBoundary(s);
      end := end - 1;
      at := BoundaryIndex(s, end, |s|);
    }
    BoundaryIs(s, max - 3, at.value);
    r := s[..at.value] + ELLIPSIS;
  }

  lemma ZeroIsBoundary(s: string)
    ensures BoundaryIndex(s, 0, |s|).Some?
  {
    assert ByteLength(s[..0]) == 0;
  }

  lemma NotBoundary(s: string, end: nat)
    requires BoundaryIndex(s, end, |s|).None?
    ensures !Boundary(s, end)
  {
  }

  /** A boundary that is not before the prefix and not past the limit is the end of the prefix. */
  lemma BoundaryIs(s: string, n: nat, k: nat)
    requires k <= |s| && ByteLength(Prefix(s, n)) <= ByteLength(s[..k]) <= n
    ensures s[..k] == Prefix(s, n)
  {
    PrefixAtBoundary(s, n);
    assert Boundary(s, ByteLength(s[..k]));
    var p := Prefix(s, n);
    assert p == s[..|p|];
    PrefixReadsBack(s[..k], p, s[k..], s[|p|..]);
  }

  // ---- monotone sizes ----

  lemma {:induction false} EscapedAtLeast(s: string, k: nat)
    requires k <= |s|
    ensures Escaped(s[..k]) + (ByteLength(s) - ByteLength(s[..k])) <= Escaped(s)
    ensures ByteLength(s[..k]) <= ByteLength(s)
  {
    if k < |s| {
      var front := s[..|s| - 1];
      assert front[..k] == s[..k];
      EscapedAtLeast(front, k);
    } else {
      assert s[..k] == s;
    }
  }

  lemma {:induction false} PrefixGrows(s: string, m: nat, n: nat)
    requires m <= n
    ensures Prefix(s, m) <= Prefix(s, n)
  {
    if ByteLength(s) > n {
      PrefixGrows(s[..|s| - 1], m, n);
    }
  }

  lemma AppendEllipsis(p: string)
    ensures Escaped(p + ELLIPSIS) == Escaped(p) + 3 && ByteLength(p + ELLIPSIS) == ByteLength(p) + 3
  {
    var s := p + ELLIPSIS;
    assert s[..|s| - 1] == p && s[|s| - 1] == '\U{2026}';
  }

  lemma PrefixSizes(a: string, b: string)
    requires a <= b
    ensures Escaped(a) <= Escaped(b) && ByteLength(a) <= ByteLength(b)
    ensures Escaped(a) + (ByteLength(b) - ByteLength(a)) <= Escaped(b)
  {
    assert a == b[..|a|];
    EscapedAtLeast(b, |a|);
  }

  /** A larger limit never gives a shorter text, nor one that takes fewer escaped bytes. */
  lemma TruncationGrows(s: string, m: nat, n: nat)
    requires m <= n
    ensures Escaped(Truncated(s, m)) <= Escaped(Truncated(s, n))
    ensures ByteLength(Truncated(s, m)) <= ByteLength(Truncated(s, n))
    ensures ByteLength(Truncated(s, m)) <= m
  {
    hide Escaped, ByteLength;
    if ByteLength(s) > m && m >= 3 {
      AppendEllipsis(Prefix(s, m - 3));
      if ByteLength(s) > n {
        PrefixGrows(s, m - 3, n - 3);
        PrefixSizes(Prefix(s, m - 3), Prefix(s, n - 3));
        AppendEllipsis(Prefix(s, n - 3));
      } else {
        PrefixSizes(Prefix(s, m - 3), s);
      }
    }
    EmptySizes();
  }

  lemma EmptySizes()
    ensures Escaped("") == 0 && ByteLength("") == 0
  {
  }

  // ---- the search ----

  predicate FitsAt(p: Payload, f: Field, value: string, m: nat) {
    Fits(With(p, f, Truncated(value, m)))
  }

  lemma FitsDown(p: Payload, f: Field, value: string, m: nat, n: nat)
    requires m <= n && FitsAt(p, f, value, n)
    ensures FitsAt(p, f, value, m)
  {
    TruncationGrows(value, m, n);
    hide Truncated, Escaped;
  }

  /** The text one field gets: the cut at the largest byte limit that fits, or nothing. */
  ghost predicate BestFit(p: Payload, f: Field, value: string, text: string) {
    if FitsAt(p, f, value, 0) then
      exists m: nat :: m <= ByteLength(value) && FitsAt(p, f, value, m) && text == Truncated(value, m)
                  && forall n: nat :: n <= ByteLength(value) && FitsAt(p, f, value, n) ==> n <= m
    else text == ""
  }

  method FitPayloadField(p: Payload, f: Field, value: string) returns (p': Payload)
    ensures exists text :: BestFit(p, f, value, text) && p' == With(p, f, text)
  {
    hide FitsAt, Truncated, ByteLength;
    var low: int, high: int, best: Option<string> := 0, ByteLength(value), None;
    ghost var found: nat := 0;
    while low <= high
      invariant 0 <= low && -1 <= high <= ByteLength(value) && low <= high + 1
      invariant best.Some? <==> low > 0
      invariant best.Some? ==> found == low - 1 <= ByteLength(value) && FitsAt(p, f, value, found) && best.value == Truncated(value, found)
      invariant forall n: nat :: high < n <= ByteLength(value) ==> !FitsAt(p, f, value, n)
      decreases high - low
    {
      var middle := low + (high - low) / 2;
      var text := TruncateWithEllipsis(value, middle);
      var fits := Fits(With(p, f, text));
      assert fits == FitsAt(p, f, value, middle) by { FitsAtIs(p, f, value, middle); }
      if fits {
        best, found := Some(text), middle;
        low := middle + 1;
      } else {
        NothingAbove(p, f, value, middle);
        if middle == 0 {
          break;
        }
        high := middle - 1;
      }
    }
    var text := if best.Some? then best.value else "";
    if best.Some? {
      assert FitsAt(p, f, value, 0) by { FitsDown(p, f, value, 0, found); }
    }
    assert BestFit(p, f, value, text);
    p' := With(p, f, text);
  }

  lemma FitsAtIs(p: Payload, f: Field, value: string, m: nat)
    ensures FitsAt(p, f, value, m) == Fits(With(p, f, Truncated(value, m)))
  {
  }

  lemma NothingAbove(p: Payload, f: Field, value: string, m: nat)
    requires !FitsAt(p, f, value, m)
    ensures forall n: nat :: m <= n ==> !FitsAt(p, f, value, n)
  {
    forall n: nat | m <= n
      ensures !FitsAt(p, f, value, n)
    {
      if FitsAt(p, f, value, n) {
        FitsDown(p, f, value, m, n);
      }
    }
  }

  /** No cut of the text that fits is longer than the chosen one. */
  lemma BestFitIsLongest(p: Payload, f: Field, value: string, text: string, n: nat)
    requires BestFit(p, f, value, text) && FitsAt(p, f, value, n)
    ensures ByteLength(Truncated(value, n)) <= ByteLength(text) && Fits(With(p, f, text))
  {
    hide Truncated, ByteLength, Escaped;
    FitsDown(p, f, value, 0, n);
    var m: nat :| m <= ByteLength(value) && FitsAt(p, f, value, m) && text == Truncated(value, m)
      && forall x: nat :: x <= ByteLength(value) && FitsAt(p, f, value, x) ==> x <= m;
    if n <= ByteLength(value) {
      TruncationGrows(value, n, m);
    } else {
      FitsDown(p, f, value, ByteLength(value), n);
      WholeText(value, n);
      TruncationGrows(value, ByteLength(value), m);
    }
  }

  lemma WholeText(value: string, n: nat)
    requires n >= ByteLength(value)
    ensures Truncated(value, n) == value && Truncated(value, ByteLength(value)) == value
  {
  }

  // ---- the whole payload ----

  /** A text that survived fitting: whole, or a whole-character prefix with an ellipsis, or nothing. */
  ghost predicate CutOf(text: string, value: string) {
    text == value || text == "" || exists k :: 0 <= k <= |value| && text == value[..k] + ELLIPSIS
  }

  lemma BestFitIsCut(p: Payload, f: Field, value: string, text: string)
    requires BestFit(p, f, value, text)
    ensures CutOf(text, value)
    ensures !Fits(With(p, f, text)) ==> text == "" && !Fits(With(p, f, ""))
  {
    if FitsAt(p, f, value, 0) {
      var m: nat :| m <= ByteLength(value) && FitsAt(p, f, value, m) && text == Truncated(value, m);
      if m >= 3 {
        var pre := Prefix(value, m - 3);
        assert pre == value[..|pre|];
      }
    }
  }

  function Emptied(p: Payload): Payload {
    p.(title := "", subtitle := "", body := "")
  }

  /** No cut of the original text that fits in its place is longer than the one there. */
  ghost predicate Longest(p: Payload, f: Field, value: string) {
    forall n: nat :: FitsAt(p, f, value, n) ==> ByteLength(Truncated(value, n)) <= ByteLength(TextOf(p, f))
  }

  /** What fitting promises: it succeeds exactly when the payload without its texts fits; the result fits,
      keeps link and id, and cuts a text only when the texts before it in the order body, subtitle,
      title had to go entirely. The last text that was cut is the longest cut that fits. */
  ghost predicate Fitted(p: Payload, r: Option<Payload>) {
    && (r.Some? <==> Fits(Emptied(p)))
    && (r.Some? ==>
          && Fits(r.value)
          && r.value.url == p.url && r.value.id == p.id && r.value.overhead == p.overhead
          && CutOf(r.value.body, p.body) && CutOf(r.value.subtitle, p.subtitle) && CutOf(r.value.title, p.title)
          && (Fits(p) ==> r.value == p)
          && (r.value.subtitle != p.subtitle ==> r.value.body == "")
          && (r.value.title != p.title ==> r.value.body == "" && r.value.subtitle == "")
          && Longest(r.value, Title, p.title)
          && (r.value.title == p.title ==> Longest(r.value, Subtitle, p.subtitle))
          && (r.value.title == p.title && r.value.subtitle == p.subtitle ==> Longest(r.value, Body, p.body)))
  }

  /** Tries the fields in order and stops as soon as the payload fits. */
  method FittedPayload(p: Payload) returns (r: Option<Payload>)
    ensures Fitted(p, r)
  {
    EmptiedIsLeast(p);
    hide Fits, BestFit, CutOf, Longest;
    if Fits(p) {
      WholeIsCut(p);
      WholeIsLongest(p, Title);
      WholeIsLongest(p, Subtitle);
      WholeIsLongest(p, Body);
      return Some(p);
    }
    WholeIsCut(p);
    var p1 := FitPayloadField(p, Body, p.body);
    FieldFitted(p, Body, p.body, p1);
    if Fits(p1) {
      WholeIsLongest(p1, Title);
      WholeIsLongest(p1, Subtitle);
      return Some(p1);
    }
    var p2 := FitPayloadField(p1, Subtitle, p1.subtitle);
    FieldFitted(p1, Subtitle, p1.subtitle, p2);
    if Fits(p2) {
      WholeIsLongest(p2, Title);
      return Some(p2);
    }
    var p3 := FitPayloadField(p2, Title, p2.title);
    FieldFitted(p2, Title, p2.title, p3);
    if Fits(p3) {
      return Some(p3);
    }
    r := None;
  }

  lemma EmptiedIsLeast(p: Payload)
    ensures Fits(p) ==> Fits(Emptied(p))
    ensures Fits(p.(body := "")) ==> Fits(Emptied(p))
    ensures forall text :: Fits(p.(body := text)) ==> Fits(Emptied(p))
    ensures forall text :: Fits(p.(body := "", subtitle := text)) ==> Fits(Emptied(p))
    ensures forall text :: Fits(p.(body := "", subtitle := "", title := text)) ==> Fits(Emptied(p))
  {
    assert Escaped("") == 0;
  }

  lemma WholeIsCut(p: Payload)
    ensures CutOf(p.body, p.body) && CutOf(p.subtitle, p.subtitle) && CutOf(p.title, p.title)
  {
  }

  lemma FieldFitted(p: Payload, f: Field, value: string, p': Payload)
    requires exists text :: BestFit(p, f, value, text) && p' == With(p, f, text)
    ensures exists text :: p' == With(p, f, text) && CutOf(text, value)
    ensures !Fits(p') ==> p' == With(p, f, "")
    ensures CutOf(TextOf(p', f), value)
    ensures Longest(p', f, value)
  {
    hide FitsAt, Truncated, ByteLength;
    var text :| BestFit(p, f, value, text) && p' == With(p, f, text);
    BestFitIsCut(p, f, value, text);
    forall n: nat | FitsAt(p', f, value, n)
      ensures ByteLength(Truncated(value, n)) <= ByteLength(text)
    {
      FitsInPlace(p, f, value, text, n);
      BestFitIsLongest(p, f, value, text, n);
    }
    hide CutOf, BestFit, Fits;
  }

  lemma FitsInPlace(p: Payload, f: Field, value: string, text: string, n: nat)
    requires FitsAt(With(p, f, text), f, value, n)
    ensures FitsAt(p, f, value, n)
  {
    hide Fits, Truncated;
  }

  lemma WholeIsLongest(p: Payload, f: Field)
    ensures Longest(p, f, TextOf(p, f))
  {
    var value := TextOf(p, f);
    forall n: nat
      ensures ByteLength(Truncated(value, n)) <= ByteLength(value)
    {
      if n <= ByteLength(value) {
        TruncationGrows(value, n, ByteLength(value));
        WholeText(value, ByteLength(value));
      } else {
        WholeText(value, n);
      }
    }
    hide Truncated, ByteLength, Fits;
  }
}
