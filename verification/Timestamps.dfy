/**
 Timestamps in the form of section 5.6 of RFC 3339: the printer used for simulated reports and the
 parser used for every event, as the program has them, and the exact range on which they round-trip.
 */
module Timestamps {
  import opened Records
  import opened EventKeys
  import opened Calendar

  // ---- texts ----

  /** Characters with the Unicode White_Space property. */
  predicate IsWhitespace(c: char) {
    var x := c as int;
    9 <= x <= 13 || x in {0x20, 0x85, 0xA0, 0x1680, 0x2028, 0x2029, 0x202F, 0x205F, 0x3000} || 0x2000 <= x <= 0x200A
  }

  function TrimStart(s: string): string {
    if s != [] && IsWhitespace(s[0]) then TrimStart(s[1..]) else s
  }

  function TrimEnd(s: string): string {
    if s != [] && IsWhitespace(s[|s| - 1]) then TrimEnd(s[..|s| - 1]) else s
  }

  function Trim(s: string): string {
    TrimEnd(TrimStart(s))
  }

  /** The parts before and after the first separator. */
  function SplitOnce(s: string, separators: set<char>): Option<(string, string)> {
    if s == [] then None
    else if s[0] in separators then Some(([], s[1..]))
    else
      match SplitOnce(s[1..], separators)
      case None => None
      case Some((a, b)) => Some(([s[0]] + a, b))
  }

  /** All parts between separators; never empty. */
  function Split(s: string, separators: set<char>): (parts: seq<string>)
    ensures parts != []
  {
    if s == [] then [[]]
    else
      var rest := Split(s[1..], separators);
      if s[0] in separators then [[]] + rest else [[s[0]] + rest[0]] + rest[1..]
  }

  predicate IsDigit(c: char) {
    '0' <= c <= '9'
  }

  predicate AllDigits(s: string) {
    forall i | 0 <= i < |s| :: IsDigit(s[i])
  }

  function DigitsValue(s: string): nat
    requires AllDigits(s)
  {
    if s == [] then 0
    else
      assert IsDigit(s[|s| - 1]);
      DigitsValue(s[..|s| - 1]) * 10 + (s[|s| - 1] as int - '0' as int)
  }

  /** An optional sign and at least one digit. A value beyond 64 bits is refused by the program; here it
      is kept, and every use refuses it by its range. */
  function ParseInt(s: string): Option<int> {
    if s == [] then None
    else if s[0] == '-' || s[0] == '+' then
      if s[1..] == [] || !AllDigits(s[1..]) then None
      else
        var value: int := DigitsValue(s[1..]);
        Some(if s[0] == '-' then -value else value)
    else if AllDigits(s) then Some(DigitsValue(s)) else None
  }

  // ---- the parser ----

  /** The time of day and its explicit offset in seconds, if it has one; a malformed offset is an error. */
  function ParseTimeOffset(value: string): Option<(string, Option<int>)> {
    if value != [] && value[|value| - 1] == 'Z' then Some((value[..|value| - 1], Some(0)))
    else
      match FindSign(value, 1)
      case None => Some((value, None))
      case Some(at) =>
        var body := value[at + 1..];
        if |body| != 5 || body[2] != ':' || !IsDigit(body[0]) || !IsDigit(body[1]) || !IsDigit(body[3]) || !IsDigit(body[4]) then None
        else
          var hours, minutes := DigitsValue(body[..2]), DigitsValue(body[3..]);
          if hours > 23 || minutes > 59 then None
          else Some((value[..at], Some((if value[at] == '-' then -1 else 1) * (hours * 3_600 + minutes * 60))))
  }

  function FindSign(s: string, from: nat): (r: Option<nat>)
    ensures r.Some? ==> from <= r.value < |s|
    decreases |s| - from
  {
    if from >= |s| then None else if s[from] == '+' || s[from] == '-' then Some(from) else FindSign(s, from + 1)
  }

  function ParseSeconds(item: string): Option<int> {
    match SplitOnce(item, {'.'})
    case None => ParseInt(item)
    case Some((seconds, fraction)) => if fraction == [] || !AllDigits(fraction) then None else ParseInt(seconds)
  }

  function ParseDate(date: string): Option<Date> {
    var parts := Split(date, {'-', '/'});
    if |parts| != 3 then None
    else
      var year, month, day := ParseInt(parts[0]), ParseInt(parts[1]), ParseInt(parts[2]);
      if year.None? || month.None? || day.None? then None else Some(Date(year.value, month.value, day.value))
  }

  /** Seconds since midnight of a time of day in range. */
  function ParseTime(time: string): Option<int> {
    var parts := Split(time, {':'});
    if |parts| < 2 || |parts| > 3 then None
    else
      var hour, minute := ParseInt(parts[0]), ParseInt(parts[1]);
      var second := if |parts| == 3 then ParseSeconds(parts[2]) else Some(0);
      if hour.None? || minute.None? || second.None? then None
      else if !(0 <= hour.value <= 23 && 0 <= minute.value <= 59 && 0 <= second.value <= 59) then None
      else Some(hour.value * 3_600 + minute.value * 60 + second.value)
  }

  predicate AcceptedDate(d: Date) {
    1970 <= d.year <= 9999 && ValidDate(d)
  }

  function ParseEpoch(value: string, defaultOffset: Option<int>): Option<int> {
    match SplitOnce(Trim(value), {' ', 'T'})
    case None => None
    case Some((date, rawTime)) =>
      var d, time := ParseDate(date), ParseTimeOffset(rawTime);
      if d.None? || time.None? then None
      else
        var clock := ParseTime(time.value.0);
        var offset := if time.value.1.Some? then time.value.1 else defaultOffset;
        if clock.None? || !AcceptedDate(d.value) || offset.None? then None
        else Some(DaysFromCivil(d.value) * 86_400 + clock.value - offset.value)
  }

  // ---- the printer ----

  function Zeros(n: int): string {
    if n <= 0 then "" else "0" + Zeros(n - 1)
  }

  /** A number padded with zeros to a width; a minus sign counts. */
  function Pad(n: int, width: nat): string {
    if n >= 0 then Zeros(width - |Decimal(n)|) + Decimal(n) else "-" + Zeros(width - 1 - |Decimal(-n)|) + Decimal(-n)
  }

  datatype UtcTimestamp = UtcTimestamp(date: Date, hour: nat, minute: nat, second: nat)

  function FromUnixSeconds(t: int): UtcTimestamp {
    UtcTimestamp(CivilFromUnixDays(t / 86_400), t % 86_400 / 3_600, t % 86_400 % 3_600 / 60, t % 86_400 % 60)
  }

  function DateText(d: Date): string {
    Pad(d.year, 4) + "-" + Pad(d.month, 2) + "-" + Pad(d.day, 2)
  }

  function TimeText(t: UtcTimestamp): string {
    Pad(t.hour, 2) + ":" + Pad(t.minute, 2) + ":" + Pad(t.second, 2)
  }

  function Rfc3339Z(t: UtcTimestamp): string {
    DateText(t.date) + "T" + TimeText(t) + "Z"
  }

  // ---- numbers read back ----

  lemma {:induction false} DecimalReadsBack(n: nat)
    ensures AllDigits(Decimal(n)) && DigitsValue(Decimal(n)) == n
  {
    if n >= 10 {
      DecimalReadsBack(n / 10);
      var s := Decimal(n);
      assert s[..|s| - 1] == Decimal(n / 10);
    } else {
      assert DigitsValue(Decimal(n)[..0]) == 0;
    }
  }

  lemma {:induction false} ZerosReadBack(k: int, s: string)
    requires AllDigits(s)
    ensures AllDigits(Zeros(k) + s) && DigitsValue(Zeros(k) + s) == DigitsValue(s)
    decreases |s|, if k < 0 then 0 else k
  {
    if s == [] {
      if k > 0 {
        ZerosReadBack(k - 1, s);
        ZerosSnoc(k);
        var z := Zeros(k) + s;
        assert z == Zeros(k - 1) + "0";
        assert z[..|z| - 1] == Zeros(k - 1) + s;
      } else {
        assert Zeros(k) + s == s;
      }
    } else {
      var n := |s| - 1;
      ZerosReadBack(k, s[..n]);
      var z := Zeros(k) + s;
      assert z[..|z| - 1] == Zeros(k) + s[..n];
      assert forall i :: 0 <= i < |z| - 1 ==> z[i] == z[..|z| - 1][i];
    }
  }

  lemma {:induction false} ZerosSnoc(k: int)
    requires k > 0
    ensures Zeros(k) == Zeros(k - 1) + "0"
  {
    if k > 1 {
      ZerosSnoc(k - 1);
    }
  }

  lemma PadReadsBack(n: nat, width: nat)
    ensures Pad(n, width) != "" && AllDigits(Pad(n, width)) && ParseInt(Pad(n, width)) == Some(n)
  {
    var zeros, digits := Zeros(width - |Decimal(n)|), Decimal(n);
    DecimalReadsBack(n);
    ZerosReadBack(width - |Decimal(n)|, digits);
    assert Pad(n, width) == zeros + digits;
    hide Pad, Decimal, Zeros, DigitsValue;
    DigitsParse(zeros + digits);
  }

  lemma DigitsParse(s: string)
    requires s != "" && AllDigits(s)
    ensures ParseInt(s) == Some(DigitsValue(s))
  {
    assert IsDigit(s[0]);
  }

  // ---- texts split back ----

  lemma {:induction false} SplitOnceAt(a: string, c: char, b: string, separators: set<char>)
    requires c in separators && forall i :: 0 <= i < |a| ==> a[i] !in separators
    ensures SplitOnce(a + [c] + b, separators) == Some((a, b))
  {
    var s := a + [c] + b;
    if a == [] {
      assert s[0] == c && s[1..] == b;
    } else {
      assert s[0] == a[0] && s[1..] == a[1..] + [c] + b;
      assert [a[0]] + a[1..] == a;
      SplitOnceAt(a[1..], c, b, separators);
    }
  }

  lemma {:induction false} SplitOnceNever(a: string, separators: set<char>)
    requires forall i :: 0 <= i < |a| ==> a[i] !in separators
    ensures SplitOnce(a, separators) == None
  {
    if a != [] {
      SplitOnceNever(a[1..], separators);
    }
  }

  lemma {:induction false} SplitAt(a: string, c: char, b: string, separators: set<char>)
    requires c in separators && forall i :: 0 <= i < |a| ==> a[i] !in separators
    ensures Split(a + [c] + b, separators) == [a] + Split(b, separators)
  {
    var s := a + [c] + b;
    if a == [] {
      assert s[0] == c && s[1..] == b;
    } else {
      assert s[0] == a[0] && s[1..] == a[1..] + [c] + b;
      assert [a[0]] + a[1..] == a;
      SplitAt(a[1..], c, b, separators);
    }
  }

  lemma {:induction false} SplitNever(a: string, separators: set<char>)
    requires forall i :: 0 <= i < |a| ==> a[i] !in separators
    ensures Split(a, separators) == [a]
  {
    if a != [] {
      SplitNever(a[1..], separators);
      assert [a[0]] + a[1..] == a;
    }
  }

  lemma DigitsAreNoSeparators(s: string)
    requires AllDigits(s)
    ensures Free(s, {'-', '/'}) && Free(s, {':'}) && Free(s, {'.'}) && Free(s, {' ', 'T'})
  {
    forall i | 0 <= i < |s|
      ensures s[i] !in {'-', '/'} && s[i] !in {':'} && s[i] !in {'.'} && s[i] !in {' ', 'T'}
    {
      assert IsDigit(s[i]);
    }
  }

  predicate Free(s: string, separators: set<char>) {
    forall i | 0 <= i < |s| :: s[i] !in separators
  }

  lemma ThreeParts(a: string, b: string, c: string, separator: char, separators: set<char>)
    requires separator in separators && Free(a, separators) && Free(b, separators) && Free(c, separators)
    ensures Split(a + [separator] + b + [separator] + c, separators) == [a, b, c]
  {
    var rest := b + [separator] + c;
    assert a + [separator] + b + [separator] + c == a + [separator] + rest;
    SplitAt(a, separator, rest, separators);
    SplitAt(b, separator, c, separators);
    SplitNever(c, separators);
    hide Split;
  }

  /** A date with one of the two separators between its parts. */
  function DateWith(d: Date, separator: char): string {
    Pad(d.year, 4) + [separator] + Pad(d.month, 2) + [separator] + Pad(d.day, 2)
  }

  lemma DateReadsBack(d: Date, separator: char)
    requires d.year >= 0 && d.month >= 0 && d.day >= 0 && separator in {'-', '/'}
    ensures ParseDate(DateWith(d, separator)) == Some(d)
    ensures Free(DateWith(d, separator), {' ', 'T'})
    ensures DateWith(d, separator) != "" && !IsWhitespace(DateWith(d, separator)[0])
    ensures DateText(d) == DateWith(d, '-')
  {
    hide Pad, ParseInt, Split;
    var y, m, a := Pad(d.year, 4), Pad(d.month, 2), Pad(d.day, 2);
    PadReadsBack(d.year, 4);
    PadReadsBack(d.month, 2);
    PadReadsBack(d.day, 2);
    DigitsAreNoSeparators(y);
    DigitsAreNoSeparators(m);
    DigitsAreNoSeparators(a);
    ThreeParts(y, m, a, separator, {'-', '/'});
    assert DateText(d) == y + ['-'] + m + ['-'] + a;
    NoneJoined(y, m, a, separator, {' ', 'T'});
    assert IsDigit(y[0]);
  }

  lemma NoneJoined(a: string, b: string, c: string, separator: char, separators: set<char>)
    requires separator !in separators && Free(a, separators) && Free(b, separators) && Free(c, separators)
    ensures Free(a + [separator] + b + [separator] + c, separators)
  {
  }

  /** The time of day, to a fraction of a second that is read and dropped. */
  function ClockWith(t: UtcTimestamp, fraction: string): string {
    TimeText(t) + if fraction == "" then "" else "." + fraction
  }

  lemma TimeReadsBack(t: UtcTimestamp, fraction: string)
    requires t.hour <= 23 && t.minute <= 59 && t.second <= 59 && AllDigits(fraction)
    ensures ParseTime(ClockWith(t, fraction)) == Some(t.hour * 3_600 + t.minute * 60 + t.second)
  {
    hide Pad, ParseInt, Split;
    var h, m, s := Pad(t.hour, 2), Pad(t.minute, 2), Pad(t.second, 2);
    PadReadsBack(t.hour, 2);
    PadReadsBack(t.minute, 2);
    PadReadsBack(t.second, 2);
    DigitsAreNoSeparators(h);
    DigitsAreNoSeparators(m);
    DigitsAreNoSeparators(s);
    DigitsAreNoSeparators(fraction);
    var seconds := s + if fraction == "" then "" else "." + fraction;
    SecondsReadBack(s, fraction);
    ThreeParts(h, m, seconds, ':', {':'});
    assert ClockWith(t, fraction) == h + [':'] + m + [':'] + seconds;
    hide SplitOnce, ParseSeconds;
  }

  lemma SecondsReadBack(s: string, fraction: string)
    requires AllDigits(s) && AllDigits(fraction) && Free(s, {'.'})
    ensures ParseSeconds(s + if fraction == "" then "" else "." + fraction) == ParseInt(s)
  {
    if fraction == "" {
      assert s + "" == s;
      SplitOnceNever(s, {'.'});
    } else {
      assert s + ("." + fraction) == s + ['.'] + fraction;
      SplitOnceAt(s, '.', fraction, {'.'});
    }
    hide SplitOnce, ParseInt;
  }

  /** Without seconds the time is that of the full minute. */
  lemma MinutesReadBack(hour: nat, minute: nat)
    requires hour <= 23 && minute <= 59
    ensures ParseTime(Pad(hour, 2) + ":" + Pad(minute, 2)) == Some(hour * 3_600 + minute * 60)
  {
    hide Pad, ParseInt, Split;
    var h, m := Pad(hour, 2), Pad(minute, 2);
    PadReadsBack(hour, 2);
    PadReadsBack(minute, 2);
    DigitsAreNoSeparators(h);
    DigitsAreNoSeparators(m);
    assert h + ":" + m == h + [':'] + m;
    SplitAt(h, ':', m, {':'});
    SplitNever(m, {':'});
  }

  lemma NothingToTrim(s: string)
    requires s != "" && !IsWhitespace(s[0]) && !IsWhitespace(s[|s| - 1])
    ensures Trim(s) == s
  {
  }

  // ---- the range of years ----

  /** The printed year is one the parser accepts exactly for the days from 1970 to 9999. */
  lemma YearsInRange(days: int)
    ensures 1970 <= CivilFromUnixDays(days).year <= 9999 <==> 0 <= days <= 2_932_896
  {
    var z := days + 719_468;
    var era, doe := z / 146_097, z % 146_097;
    YearOfEraIs(doe);
    var y := YearOfEra(doe);
    var doy := doe - YearStart(y);
    MonthOfIs(doy);
    var mp := MonthOf(doy);
    DaysRoundTrip(days);
    hide YearOfEra;
    CivilParts(days, era, y, mp, doy - MonthStart(mp) + 1);
    FirstYear(era, doe, y, doy, mp);
    LastYear(era, doe, y, doy, mp);
  }

  lemma FirstYear(era: int, doe: int, y: int, doy: int, mp: int)
    requires 0 <= y <= 399 && 0 <= doe < 146_097 && doe == YearStart(y) + doy && 0 <= doy < YearLength(y) && mp == MonthOf(doy) && 0 <= mp <= 11
    ensures y + era * 400 + (if mp < 10 then 0 else 1) >= 1970 <==> era * 146_097 + doe >= 719_468
  {
    if era == 4 {
      assert YearStart(369) == 134_774;
      if y < 369 {
        YearsAscend(y, 369);
      } else if y > 369 {
        YearsAscend(369, y);
        assert YearLength(369) == 365;
      } else {
        assert doy >= 306 <==> mp >= 10;
      }
    }
  }

  lemma LastYear(era: int, doe: int, y: int, doy: int, mp: int)
    requires 0 <= y <= 399 && 0 <= doe < 146_097 && doe == YearStart(y) + doy && 0 <= doy < YearLength(y) && mp == MonthOf(doy) && 0 <= mp <= 11
    ensures y + era * 400 + (if mp < 10 then 0 else 1) <= 9999 <==> era * 146_097 + doe <= 3_652_364
  {
    if y < 399 {
      YearsAscend(y, 399);
    }
  }

  // ---- the round trip ----

  lemma ClockIsWhole(t: int)
    ensures var u := FromUnixSeconds(t);
      u.hour <= 23 && u.minute <= 59 && u.second <= 59 && t / 86_400 * 86_400 + u.hour * 3_600 + u.minute * 60 + u.second == t
  {
    var tod := t % 86_400;
    assert tod % 60 == tod % 3_600 % 60;
  }

  /** Printing and parsing give the time back for every second from 1970 to 9999, whatever default
      offset the parser is given, and the parser refuses every other printed time. */
  lemma TimestampRoundTrip(t: int, defaultOffset: Option<int>)
    ensures ParseEpoch(Rfc3339Z(FromUnixSeconds(t)), defaultOffset) == if 0 <= t <= 253_402_300_799 then Some(t) else None
  {
    hide *;
    var u := FromUnixSeconds(t);
    var date, clock := DateText(u.date), TimeText(u);
    ClockIsWhole(t);
    DaysRoundTrip(t / 86_400);
    YearsInRange(t / 86_400);
    PrintedIs(t);
    DaysOfRange(t);
    DatesArePositive(u.date);
    AcceptedWhen(u.date);
    if u.date.year >= 0 {
      DateReadsBack(u.date, '-');
      PlainClock(u);
      TimeReadsBack(u, "");
      PrintedReadsBack(date, clock, defaultOffset);
    } else {
      NegativeYear(u.date, clock, defaultOffset);
    }
  }

  lemma PlainClock(t: UtcTimestamp)
    ensures AllDigits("") && ClockWith(t, "") == TimeText(t)
  {
  }

  lemma PrintedIs(t: int)
    ensures var u := FromUnixSeconds(t); Rfc3339Z(u) == DateText(u.date) + "T" + TimeText(u) + "Z" && u.date == CivilFromUnixDays(t / 86_400)
  {
    hide CivilFromUnixDays, DateText, TimeText;
  }

  lemma DaysOfRange(t: int)
    ensures 0 <= t / 86_400 <= 2_932_896 <==> 0 <= t <= 253_402_300_799
  {
  }

  lemma DatesArePositive(d: Date)
    ensures ValidDate(d) ==> d.month >= 0 && d.day >= 0
  {
  }

  lemma AcceptedWhen(d: Date)
    ensures AcceptedDate(d) <==> 1970 <= d.year <= 9999 && ValidDate(d)
  {
  }

  /** A printed timestamp is read in its two halves. */
  lemma PrintedReadsBack(date: string, clock: string, defaultOffset: Option<int>)
    requires date != "" && !IsWhitespace(date[0]) && Free(date, {' ', 'T'})
    ensures var d, c := ParseDate(date), ParseTime(clock);
      ParseEpoch(date + "T" + clock + "Z", defaultOffset) ==
        if d.None? || c.None? || !AcceptedDate(d.value) then None else Some(DaysFromCivil(d.value) * 86_400 + c.value)
  {
    var s, rest := date + "T" + clock + "Z", clock + "Z";
    NothingToTrim(s);
    assert s == date + ['T'] + rest;
    SplitOnceAt(date, 'T', rest, {' ', 'T'});
    assert rest[..|rest| - 1] == clock;
    hide ParseDate, ParseTime, DaysFromCivil, AcceptedDate, Trim, SplitOnce;
  }

  /** A negative year prints a leading minus sign, so its first part is empty and is refused. */
  lemma NegativeYear(d: Date, clock: string, defaultOffset: Option<int>)
    requires d.year < 0 && d.month >= 0 && d.day >= 0
    ensures ParseEpoch(DateText(d) + "T" + clock + "Z", defaultOffset) == None
  {
    var rest := DateText(d)[1..];
    assert DateText(d) == [] + ['-'] + rest by { assert DateText(d)[0] == '-'; }
    SplitAt([], '-', rest, {'-', '/'});
    assert ParseDate(DateText(d)) == None;
    MinusDateHasNoT(d);
    hide ParseDate, DateText, ParseTime;
    PrintedReadsBack(DateText(d), clock, defaultOffset);
  }

  lemma MinusDateHasNoT(d: Date)
    requires d.year < 0 && d.month >= 0 && d.day >= 0
    ensures DateText(d) != "" && DateText(d)[0] == '-' && Free(DateText(d), {' ', 'T'})
  {
    hide Decimal, Zeros, Pad;
    var zeros, digits := Zeros(4 - 1 - |Decimal(-d.year)|), Decimal(-d.year);
    DecimalReadsBack(-d.year);
    ZerosReadBack(4 - 1 - |Decimal(-d.year)|, digits);
    PadReadsBack(d.month, 2);
    PadReadsBack(d.day, 2);
    DigitsAreNoSeparators(zeros + digits);
    DigitsAreNoSeparators(Pad(d.month, 2));
    DigitsAreNoSeparators(Pad(d.day, 2));
    MinusPad(d.year);
    NoneMinus(zeros + digits, {' ', 'T'});
    NoneJoined("-" + (zeros + digits), Pad(d.month, 2), Pad(d.day, 2), '-', {' ', 'T'});
    hide Free, AllDigits;
    assert DateText(d) == ("-" + (zeros + digits)) + ['-'] + Pad(d.month, 2) + ['-'] + Pad(d.day, 2);
  }

  lemma MinusPad(n: int)
    requires n < 0
    ensures Pad(n, 4) == "-" + (Zeros(4 - 1 - |Decimal(-n)|) + Decimal(-n))
  {
    hide Decimal, Zeros;
  }

  lemma NoneMinus(s: string, separators: set<char>)
    requires Free(s, separators) && '-' !in separators
    ensures Free("-" + s, separators)
  {
  }

  // ---- offsets ----

  lemma {:induction false} NoSign(s: string, from: nat)
    requires forall i :: from <= i < |s| ==> s[i] != '+' && s[i] != '-'
    ensures FindSign(s, from) == None
    decreases |s| - from
  {
    if from < |s| {
      NoSign(s, from + 1);
    }
  }

  lemma {:induction false} SignAt(a: string, sign: char, b: string, from: nat)
    requires sign in {'+', '-'} && from <= |a| && forall i :: from <= i < |a| ==> a[i] != '+' && a[i] != '-'
    ensures FindSign(a + [sign] + b, from) == Some(|a|)
    decreases |a| - from
  {
    var s := a + [sign] + b;
    if from < |a| {
      assert s[from] == a[from];
      SignAt(a, sign, b, from + 1);
    } else {
      assert s[|a|] == sign;
    }
  }

  lemma {:induction false} DigitsOf(n: nat)
    ensures |Decimal(n)| == 1 <==> n < 10
    ensures |Decimal(n)| == 2 <==> 10 <= n < 100
  {
    if n >= 10 {
      DigitsOf(n / 10);
    }
  }

  /** Two digits make a number below 100. */
  lemma PairOf(n: nat)
    requires n < 100
    ensures |Pad(n, 2)| == 2 && AllDigits(Pad(n, 2)) && DigitsValue(Pad(n, 2)) == n
  {
    DigitsOf(n);
    DecimalReadsBack(n);
    ZerosReadBack(2 - |Decimal(n)|, Decimal(n));
    assert Zeros(1) == "0" && Zeros(0) == "";
  }

  predicate ClockText(s: string) {
    |s| == 8 && forall i | 0 <= i < |s| :: IsDigit(s[i]) || s[i] == ':'
  }

  lemma TimeIsClock(t: UtcTimestamp)
    requires t.hour <= 23 && t.minute <= 59 && t.second <= 59
    ensures ClockText(TimeText(t))
  {
    PairOf(t.hour);
    PairOf(t.minute);
    PairOf(t.second);
    hide Pad, DigitsValue;
  }

  /** An explicit offset in hours and minutes, its sign first. */
  function OffsetText(sign: char, hours: nat, minutes: nat): string {
    [sign] + Pad(hours, 2) + ":" + Pad(minutes, 2)
  }

  lemma OffsetReadsBack(clock: string, sign: char, hours: nat, minutes: nat)
    requires ClockText(clock) && sign in {'+', '-'} && hours <= 23 && minutes <= 59
    ensures ParseTimeOffset(clock + OffsetText(sign, hours, minutes)) ==
      Some((clock, Some(if sign == '-' then -(hours * 3_600 + minutes * 60) else hours * 3_600 + minutes * 60)))
    ensures ParseTimeOffset(clock) == Some((clock, None))
  {
    hide *;
    var h, m := Pad(hours, 2), Pad(minutes, 2);
    PairOf(hours);
    PairOf(minutes);
    OffsetIs(clock, sign, hours, minutes);
    ClockHasNoSign(clock);
    SignAt(clock, sign, h + ":" + m, 1);
    NoSign(clock, 1);
    BodyParts(h, m);
    ValueParts(clock, sign, h + ":" + m);
    OffsetParses(clock + [sign] + (h + ":" + m), |clock|, h, m, sign);
    NoOffsetParses(clock);
  }

  lemma OffsetIs(clock: string, sign: char, hours: nat, minutes: nat)
    ensures clock + OffsetText(sign, hours, minutes) == clock + [sign] + (Pad(hours, 2) + ":" + Pad(minutes, 2))
  {
    hide Pad;
  }

  lemma ClockHasNoSign(clock: string)
    requires ClockText(clock)
    ensures |clock| == 8 && forall i :: 1 <= i < |clock| ==> clock[i] != '+' && clock[i] != '-'
    ensures clock[7] != 'Z'
  {
  }

  lemma BodyParts(h: string, m: string)
    requires |h| == 2 && |m| == 2 && AllDigits(h) && AllDigits(m)
    ensures var body := h + ":" + m; |body| == 5 && body[2] == ':' && body[..2] == h && body[3..] == m
    ensures var body := h + ":" + m; IsDigit(body[0]) && IsDigit(body[1]) && IsDigit(body[3]) && IsDigit(body[4]) && body[4] != 'Z'
  {
    var body := h + ":" + m;
    assert body[0] == h[0] && body[1] == h[1] && body[3] == m[0] && body[4] == m[1];
    assert IsDigit(m[1]);
  }

  lemma ValueParts(clock: string, sign: char, body: string)
    requires body != ""
    ensures var value := clock + [sign] + body;
      |value| > |clock| && value[|clock| + 1..] == body && value[..|clock|] == clock && value[|clock|] == sign && value[|value| - 1] == body[|body| - 1]
  {
  }

  lemma OffsetParses(value: string, at: nat, h: string, m: string, sign: char)
    requires at < |value| && value[|value| - 1] != 'Z' && FindSign(value, 1) == Some(at) && value[at] == sign
    requires var body := value[at + 1..]; |body| == 5 && body[2] == ':' && body[..2] == h && body[3..] == m
    requires var body := value[at + 1..]; IsDigit(body[0]) && IsDigit(body[1]) && IsDigit(body[3]) && IsDigit(body[4])
    requires AllDigits(h) && AllDigits(m) && DigitsValue(h) <= 23 && DigitsValue(m) <= 59
    ensures ParseTimeOffset(value)
            == Some((value[..at], Some(if sign == '-' then -(DigitsValue(h) * 3_600 + DigitsValue(m) * 60) else DigitsValue(h) * 3_600 + DigitsValue(m) * 60)))
  {
    hide FindSign, DigitsValue, IsDigit;
  }

  lemma NoOffsetParses(value: string)
    requires value != "" && value[|value| - 1] != 'Z' && FindSign(value, 1) == None
    ensures ParseTimeOffset(value) == Some((value, None))
  {
    hide FindSign;
  }

  /** A local time with an explicit offset is that much before or after the same reading in UTC; without
      one the source's default counts, and without either there is no time. */
  lemma OffsetsShift(t: int, sign: char, hours: nat, minutes: nat, defaultOffset: Option<int>)
    requires 0 <= t <= 253_402_300_799 && sign in {'+', '-'} && hours <= 23 && minutes <= 59
    ensures var u := FromUnixSeconds(t);
      && ParseEpoch(DateText(u.date) + "T" + TimeText(u) + OffsetText(sign, hours, minutes), defaultOffset)
         == Some(if sign == '-' then t + (hours * 3_600 + minutes * 60) else t - (hours * 3_600 + minutes * 60))
      && ParseEpoch(DateText(u.date) + "T" + TimeText(u), defaultOffset)
         == if defaultOffset.Some? then Some(t - defaultOffset.value) else None
  {
    hide *;
    var u := FromUnixSeconds(t);
    var date, clock, offset := DateText(u.date), TimeText(u), OffsetText(sign, hours, minutes);
    ClockIsWhole(t);
    DaysRoundTrip(t / 86_400);
    YearsInRange(t / 86_400);
    PrintedIs(t);
    DaysOfRange(t);
    DatesArePositive(u.date);
    AcceptedWhen(u.date);
    DateReadsBack(u.date, '-');
    PlainClock(u);
    TimeReadsBack(u, "");
    TimeIsClock(u);
    OffsetReadsBack(clock, sign, hours, minutes);
    EndsOfText(clock, sign, hours, minutes);
    LocalReadsBack(date, 'T', clock + offset, clock, defaultOffset);
    assert date + ['T'] + (clock + offset) == date + "T" + clock + offset;
    LocalReadsBack(date, 'T', clock, clock, defaultOffset);
  }

  lemma EndsOfText(clock: string, sign: char, hours: nat, minutes: nat)
    requires ClockText(clock) && hours <= 23 && minutes <= 59
    ensures clock != "" && !IsWhitespace(clock[|clock| - 1])
    ensures var s := clock + OffsetText(sign, hours, minutes); s != "" && !IsWhitespace(s[|s| - 1])
  {
    PairOf(minutes);
    var m := Pad(minutes, 2);
    hide Pad, DigitsValue;
    var s := clock + OffsetText(sign, hours, minutes);
    assert s[|s| - 1] == m[1] && IsDigit(m[1]);
    assert IsDigit(clock[|clock| - 1]) || clock[|clock| - 1] == ':';
  }

  lemma LocalReadsBack(date: string, separator: char, rest: string, clock: string, defaultOffset: Option<int>)
    requires date != "" && !IsWhitespace(date[0]) && Free(date, {' ', 'T'}) && rest != "" && !IsWhitespace(rest[|rest| - 1])
    requires separator in {' ', 'T'} && ParseTimeOffset(rest).Some? && ParseTimeOffset(rest).value.0 == clock
    ensures var d, c, explicit := ParseDate(date), ParseTime(clock), ParseTimeOffset(rest).value.1;
      var offset := if explicit.Some? then explicit else defaultOffset;
      ParseEpoch(date + [separator] + rest, defaultOffset) ==
        if d.None? || c.None? || !AcceptedDate(d.value) || offset.None? then None else Some(DaysFromCivil(d.value) * 86_400 + c.value - offset.value)
  {
    var s := date + [separator] + rest;
    assert s[0] == date[0] && s[|s| - 1] == rest[|rest| - 1];
    NothingToTrim(s);
    SplitOnceAt(date, separator, rest, {' ', 'T'});
    hide ParseDate, ParseTime, DaysFromCivil, AcceptedDate, Trim, SplitOnce, ParseTimeOffset;
  }

  // ---- other spellings ----

  lemma ZuluReadsBack(clock: string)
    ensures ParseTimeOffset(clock + "Z") == Some((clock, Some(0)))
  {
    assert (clock + "Z")[..|clock|] == clock;
  }

  /** A slash may stand between the parts of the date, a blank before the time, and a fraction of a second
      after it: all spellings of a second are read as that second. */
  lemma SpellingsReadBack(t: int, slash: char, blank: char, fraction: string, defaultOffset: Option<int>)
    requires 0 <= t <= 253_402_300_799 && slash in {'-', '/'} && blank in {' ', 'T'} && AllDigits(fraction)
    ensures var u := FromUnixSeconds(t);
      ParseEpoch(DateWith(u.date, slash) + [blank] + (ClockWith(u, fraction) + "Z"), defaultOffset) == Some(t)
  {
    hide *;
    var u := FromUnixSeconds(t);
    var date, clock := DateWith(u.date, slash), ClockWith(u, fraction);
    ClockIsWhole(t);
    DaysRoundTrip(t / 86_400);
    YearsInRange(t / 86_400);
    PrintedIs(t);
    DaysOfRange(t);
    DatesArePositive(u.date);
    AcceptedWhen(u.date);
    DateReadsBack(u.date, slash);
    TimeReadsBack(u, fraction);
    ZuluReadsBack(clock);
    ZIsNoSpace(clock);
    LocalReadsBack(date, blank, clock + "Z", clock, defaultOffset);
  }

  lemma ZIsNoSpace(clock: string)
    ensures var s := clock + "Z"; s != "" && !IsWhitespace(s[|s| - 1])
  {
  }

  predicate Blank(s: string) {
    forall i | 0 <= i < |s| :: IsWhitespace(s[i])
  }

  lemma {:induction false} BlankStarts(a: string, s: string)
    requires Blank(a)
    ensures TrimStart(a + s) == TrimStart(s)
  {
    if a == "" {
      assert a + s == s;
    } else {
      assert (a + s)[1..] == a[1..] + s;
      BlankStarts(a[1..], s);
    }
  }

  lemma {:induction false} BlankEnds(s: string, b: string)
    requires Blank(b)
    ensures TrimEnd(s + b) == TrimEnd(s)
  {
    if b == "" {
      assert s + b == s;
    } else {
      var n := |b| - 1;
      assert (s + b)[..|s| + n] == s + b[..n];
      BlankEnds(s, b[..n]);
    }
  }

  lemma {:induction false} StartsThenBlank(s: string, b: string)
    requires Blank(b)
    ensures TrimStart(s + b) == TrimStart(s) + b || (TrimStart(s) == "" && TrimStart(s + b) == TrimStart(b))
  {
    if s == "" {
      assert s + b == b;
    } else if IsWhitespace(s[0]) {
      assert (s + b)[1..] == s[1..] + b;
      StartsThenBlank(s[1..], b);
    }
  }

  /** White space around a time does not matter. */
  lemma SpaceAround(a: string, s: string, b: string, defaultOffset: Option<int>)
    requires Blank(a) && Blank(b)
    ensures ParseEpoch(a + s + b, defaultOffset) == ParseEpoch(s, defaultOffset)
  {
    TrimAround(a, s, b);
    hide Trim, SplitOnce, ParseDate, ParseTime, ParseTimeOffset, AcceptedDate, DaysFromCivil;
  }

  lemma TrimAround(a: string, s: string, b: string)
    requires Blank(a) && Blank(b)
    ensures Trim(a + s + b) == Trim(s)
  {
    BlankStarts(a, s + b);
    StartsThenBlank(s, b);
    BlankEnds(TrimStart(s), b);
    BlankStarts(b, "");
    assert TrimStart("") == "";
    hide TrimStart, TrimEnd, Blank;
    assert a + s + b == a + (s + b);
    assert b + "" == b;
  }
}
