/** `iso_to_ms`: an ISO 8601 date-time string, in the layout of section 5.6
    of RFC 3339 as `datetime.fromisoformat` reads it, to integer milliseconds
    since the Unix epoch, with 0 standing for every failure.

    The calendar arithmetic is the one Python's `datetime` module uses: a
    proleptic Gregorian day ordinal in which 0001-01-01 is day 1. */
module Timestamp {
  import opened Wrappers
  import opened Json
  import opened Digits

  /** A parsed date-time. `offset` is in minutes east of UTC; `None` when the
      text carries no offset (Python then builds a naive `datetime`). */
  datatype Stamp = Stamp(
    year: int, month: int, day: int,
    hour: int, minute: int, second: int, micro: int,
    offset: Option<int>)

  // ---------------------------------------------------------------------
  // Calendar

  predicate IsLeap(y: int) {
    y % 4 == 0 && (y % 100 != 0 || y % 400 == 0)
  }

  function DaysInMonth(y: int, m: int): int
    requires 1 <= m <= 12
  {
    if m == 2 then (if IsLeap(y) then 29 else 28)
    else if m == 4 || m == 6 || m == 9 || m == 11 then 30
    else 31
  }

  function DaysInYear(y: int): int {
    if IsLeap(y) then 366 else 365
  }

  /** The field ranges `datetime` accepts: years 1 to 9999, no leap second,
      and an offset of less than a day. */
  predicate ValidStamp(t: Stamp) {
    && 1 <= t.year <= 9999
    && 1 <= t.month <= 12
    && 1 <= t.day <= DaysInMonth(t.year, t.month)
    && 0 <= t.hour < 24
    && 0 <= t.minute < 60
    && 0 <= t.second < 60
    && 0 <= t.micro < 1000000
    && (t.offset.Some? ==> -1440 < t.offset.value < 1440)
  }

  /** Days in the years before `y`, in closed form. */
  function DaysBeforeYear(y: int): int
    requires y >= 1
  {
    var p := y - 1;
    p * 365 + p / 4 - p / 100 + p / 400
  }

  /** Days in the months of year `y` before month `m`. */
  function DaysBeforeMonth(y: int, m: int): int
    requires 1 <= m <= 12
  {
    var table := [0, 0, 31, 59, 90, 120, 151, 181, 212, 243, 273, 304, 334];
    table[m] + (if m > 2 && IsLeap(y) then 1 else 0)
  }

  /** Day number of a date; 0001-01-01 is day 1. */
  function Ordinal(y: int, m: int, d: int): int
    requires y >= 1 && 1 <= m <= 12
  {
    DaysBeforeYear(y) + DaysBeforeMonth(y, m) + d
  }

  /** Day number of 1970-01-01. */
  const UnixEpochOrdinal: int := 719163

  /** Reference definition: the days of the years before `y`, counted one
      year at a time. */
  function CountedDaysBeforeYear(y: int): int
    requires y >= 1
    decreases y
  {
    if y == 1 then 0 else CountedDaysBeforeYear(y - 1) + DaysInYear(y - 1)
  }

  // Stepping `p - 1` to `p` adds one to `p / k` exactly when `k` divides `p`.

  lemma DivStep4(p: int)
    requires p >= 1
    ensures p / 4 - (p - 1) / 4 == (if p % 4 == 0 then 1 else 0)
  {
  }

  lemma DivStep100(p: int)
    requires p >= 1
    ensures p / 100 - (p - 1) / 100 == (if p % 100 == 0 then 1 else 0)
  {
  }

  lemma DivStep400(p: int)
    requires p >= 1
    ensures p / 400 - (p - 1) / 400 == (if p % 400 == 0 then 1 else 0)
  {
  }

  lemma YearStep(p: int)
    requires p >= 1
    ensures DaysBeforeYear(p + 1) == DaysBeforeYear(p) + DaysInYear(p)
  {
    DivStep4(p);
    DivStep100(p);
    DivStep400(p);
    CenturyLeap(p);
    var q := p - 1;
    assert DaysBeforeYear(p + 1) == p * 365 + p / 4 - p / 100 + p / 400;
    assert DaysBeforeYear(p) == q * 365 + q / 4 - q / 100 + q / 400;
  }

  lemma CenturyLeap(p: int)
    ensures p % 100 == 0 ==> p % 4 == 0
    ensures p % 400 == 0 ==> p % 100 == 0
  {
    if p % 100 == 0 {
      var c := p / 100;
      assert p == 4 * (25 * c);
    }
    if p % 400 == 0 {
      var c := p / 400;
      assert p == 100 * (4 * c);
    }
  }

  /** The closed form agrees with counting the years one by one. */
  lemma {:induction false} DaysBeforeYearCounts(y: int)
    requires y >= 1
    ensures DaysBeforeYear(y) == CountedDaysBeforeYear(y)
  {
    if y > 1 {
      DaysBeforeYearCounts(y - 1);
      YearStep(y - 1);
    }
  }

  predicate ValidDate(y: int, m: int, d: int) {
    y >= 1 && 1 <= m <= 12 && 1 <= d <= DaysInMonth(y, m)
  }

  /** The calendar day after a valid date. */
  function NextDate(y: int, m: int, d: int): (r: (int, int, int))
    requires ValidDate(y, m, d)
    ensures ValidDate(r.0, r.1, r.2)
  {
    if d < DaysInMonth(y, m) then (y, m, d + 1)
    else if m < 12 then (y, m + 1, 1)
    else (y + 1, 1, 1)
  }

  /** Consecutive calendar days have consecutive day numbers, across month
      and year ends, leap years included. */
  lemma NextDateIsNextOrdinal(y: int, m: int, d: int)
    requires ValidDate(y, m, d)
    ensures var n := NextDate(y, m, d); Ordinal(n.0, n.1, n.2) == Ordinal(y, m, d) + 1
  {
    if d == DaysInMonth(y, m) && m == 12 {
      YearStep(y);
    }
  }

  lemma EpochOrdinal()
    ensures Ordinal(1970, 1, 1) == UnixEpochOrdinal
    ensures Ordinal(1, 1, 1) == 1
  {
  }

  // ---------------------------------------------------------------------
  // Epoch arithmetic

  /** The offset that applies: the written one, else the host's local one
      (a naive `datetime` is read in local time by `timestamp()`). */
  function EffectiveOffset(t: Stamp, hostOffset: int): int {
    if t.offset.Some? then t.offset.value else hostOffset
  }

  /** Exact microseconds from the epoch to the instant `t` denotes. */
  function MicrosSinceEpoch(t: Stamp, hostOffset: int): int
    requires ValidStamp(t)
  {
    var days := Ordinal(t.year, t.month, t.day) - UnixEpochOrdinal;
    var seconds := days * 86400 + t.hour * 3600 + t.minute * 60 + t.second
                   - EffectiveOffset(t, hostOffset) * 60;
    seconds * 1000000 + t.micro
  }

  /** `int(x)` on the millisecond count: truncation toward zero, which
      differs from Dafny's `/` for instants before the epoch. */
  function TruncMillis(us: int): (ms: int)
    ensures us >= 0 ==> 0 <= us - 1000 * ms < 1000
    ensures us < 0 ==> -1000 < us - 1000 * ms <= 0
  {
    if us >= 0 then us / 1000 else -((-us) / 1000)
  }

  /** The milliseconds `iso_to_ms` gives for a parsed stamp: 0 exactly for
      an instant less than a millisecond from the epoch, and otherwise of
      the instant's sign. */
  function EpochMillis(t: Stamp, hostOffset: int): (ms: int)
    requires ValidStamp(t)
    ensures ms == 0 <==> -1000 < MicrosSinceEpoch(t, hostOffset) < 1000
    ensures ms > 0 <==> MicrosSinceEpoch(t, hostOffset) >= 1000
  {
    TruncMillis(MicrosSinceEpoch(t, hostOffset))
  }

  /** An offset of `o` minutes places the instant `o` minutes before the
      same wall-clock reading in UTC. */
  lemma OffsetShiftsInstant(t: Stamp, o: int, hostOffset: int)
    requires ValidStamp(t) && -1440 < o < 1440
    ensures MicrosSinceEpoch(t.(offset := Some(o)), hostOffset)
            == MicrosSinceEpoch(t.(offset := Some(0)), hostOffset) - o * 60000000
  {
  }

  // ---------------------------------------------------------------------
  // Parsing `YYYY-MM-DD?HH:MM:SS[.digits][±HH:MM]` as `fromisoformat` does

  /** Two digits at `s[i]` and `s[i + 1]`. */
  predicate TwoAt(s: string, i: nat) {
    i + 2 <= |s| && IsDigit(s[i]) && IsDigit(s[i + 1])
  }

  /** The number the two digits at `s[i]` write. */
  function Two(s: string, i: nat): (n: nat)
    requires TwoAt(s, i)
    ensures n < 100
  {
    DigitValue(s[i]) * 10 + DigitValue(s[i + 1])
  }

  /** The fixed layout `YYYY-MM-DD?HH:MM:SS` of the first 19 characters:
      after a `YYYY-MM-DD` date `fromisoformat` takes any one character as
      the separator. */
  predicate Layout(s: string) {
    && |s| >= 19
    && TwoAt(s, 0) && TwoAt(s, 2) && s[4] == '-'
    && TwoAt(s, 5) && s[7] == '-'
    && TwoAt(s, 8)
    && TwoAt(s, 11) && s[13] == ':'
    && TwoAt(s, 14) && s[16] == ':'
    && TwoAt(s, 17)
  }

  /** Length of the run of digits that starts `s`. */
  function DigitRun(s: string): (n: nat)
    ensures n <= |s| && AllDigits(s[..n])
    ensures n < |s| ==> !IsDigit(s[n])
  {
    if s != [] && IsDigit(s[0]) then
      var n := 1 + DigitRun(s[1..]);
      assert s[..n] == [s[0]] + s[1..][..n - 1];
      n
    else 0
  }

  function Zeros(k: nat): (z: string)
    ensures |z| == k && AllDigits(z)
  {
    if k == 0 then [] else Zeros(k - 1) + ['0']
  }

  /** A digit appended on the right is the new last digit. */
  lemma ValueOfSnoc(p: string, c: char)
    requires AllDigits(p) && IsDigit(c)
    ensures AllDigits(p + [c]) && ValueOf(p + [c]) == ValueOf(p) * 10 + DigitValue(c)
  {
    var q := p + [c];
    assert q[..|q| - 1] == p;
  }

  lemma Scale(v: nat, x: nat)
    ensures v * x * 10 == v * (10 * x)
  {
  }

  /** Zeros on the right multiply the value by a power of ten. */
  lemma {:induction false} ZerosValue(p: string, j: nat)
    requires AllDigits(p)
    ensures AllDigits(p + Zeros(j)) && ValueOf(p + Zeros(j)) == ValueOf(p) * Pow10(j)
  {
    if j > 0 {
      ZerosValue(p, j - 1);
      var r := p + Zeros(j - 1);
      var q := p + Zeros(j);
      assert q == r + ['0'];
      ValueOfSnoc(r, '0');
      var v, x := ValueOf(p), Pow10(j - 1);
      assert ValueOf(q) == ValueOf(r) * 10;
      assert Pow10(j) == 10 * x;
      Scale(v, x);
    } else {
      assert p + Zeros(0) == p;
    }
  }

  /** Fraction digits as microseconds: the first six digits count, padded on
      the right; later digits are dropped. */
  function Micros(ds: string): (us: nat)
    requires AllDigits(ds)
    ensures us < 1000000
    ensures var k := if |ds| < 6 then |ds| else 6; us == ValueOf(ds[..k]) * Pow10(6 - k)
  {
    var k := if |ds| < 6 then |ds| else 6;
    var six := ds[..k] + Zeros(6 - k);
    ZerosValue(ds[..k], 6 - k);
    assert Pow10(6) == 1000000;
    ValueOf(six)
  }

  /** The optional `.digits` after the seconds: the microseconds and what
      follows them, or `None` for a dot without digits. */
  function Fraction(r: string): Option<(nat, string)> {
    if r != [] && r[0] == '.' then
      var n := DigitRun(r[1..]);
      if n == 0 then None else Some((Micros(r[1..][..n]), r[1..][n..]))
    else Some((0, r))
  }

  /** The rest after the time: nothing (naive), or `+HH:MM` / `-HH:MM` with
      hours below 24 and minutes below 60. `None` rejects the text. */
  function Offset(r: string): Option<Option<int>> {
    if r == [] then Some(None)
    else if |r| == 6 && (r[0] == '+' || r[0] == '-') && TwoAt(r, 1) && r[3] == ':' && TwoAt(r, 4) then
      var hh, mm := Two(r, 1), Two(r, 4);
      if hh < 24 && mm < 60 then
        Some(Some(if r[0] == '-' then -(hh * 60 + mm) else hh * 60 + mm))
      else None
    else None
  }

  /** `datetime.fromisoformat` on the layout `YYYY-MM-DD?HH:MM:SS[.digits]`
      followed by nothing or `±HH:MM`: `None` wherever it would raise
      `ValueError`. Unlike RFC 3339 it accepts a text without an offset, and
      a lowercase `z` is no offset at all. */
  function Parse(s: string): (r: Option<Stamp>)
    ensures r.Some? ==> ValidStamp(r.value)
  {
    if !Layout(s) then None
    else
      match Fraction(s[19..])
      case None => None
      case Some(fr) =>
        match Offset(fr.1)
        case None => None
        case Some(off) =>
          var t := Stamp(Two(s, 0) * 100 + Two(s, 2), Two(s, 5), Two(s, 8),
                         Two(s, 11), Two(s, 14), Two(s, 17), fr.0, off);
          if ValidStamp(t) then Some(t) else None
  }

  /** `ts.replace("Z", "+00:00")`: EVERY `Z`, not only a trailing one. */
  function ReplaceZ(s: string): string {
    if s == [] then []
    else (if s[0] == 'Z' then "+00:00" else [s[0]]) + ReplaceZ(s[1..])
  }

  /** The rewritten text has no `Z` left, and a text without `Z` is left
      as it is. */
  lemma {:induction false} ReplaceZFacts(s: string)
    ensures 'Z' !in ReplaceZ(s)
    ensures 'Z' !in s ==> ReplaceZ(s) == s
  {
    if s != [] {
      ReplaceZFacts(s[1..]);
      var h := if s[0] == 'Z' then "+00:00" else [s[0]];
      assert ReplaceZ(s) == h + ReplaceZ(s[1..]);
      assert 'Z' !in h;
      if 'Z' !in s {
        assert 'Z' !in s[1..];
        assert s == [s[0]] + s[1..];
      }
    }
  }

  lemma {:induction false} ReplaceZAppend(a: string, b: string)
    ensures ReplaceZ(a + b) == ReplaceZ(a) + ReplaceZ(b)
  {
    if a != [] {
      var h := if a[0] == 'Z' then "+00:00" else [a[0]];
      assert (a + b)[0] == a[0];
      assert (a + b)[1..] == a[1..] + b;
      assert ReplaceZ(a + b) == h + ReplaceZ(a[1..] + b);
      ReplaceZAppend(a[1..], b);
      assert ReplaceZ(a) == h + ReplaceZ(a[1..]);
    } else {
      assert a + b == b;
    }
  }

  /** `iso_to_ms(ts)`: a text ending in `Z` has every `Z` rewritten to
      `+00:00` first; any failure, including a `ts` that is not a string,
      gives 0 instead of raising. */
  function IsoToMs(ts: JSON, hostOffset: int): int {
    if !ts.Str? then 0
    else
      var s := ts.s;
      var text := if s != [] && s[|s| - 1] == 'Z' then ReplaceZ(s) else s;
      match Parse(text)
      case None => 0
      case Some(t) => EpochMillis(t, hostOffset)
  }

  // ---------------------------------------------------------------------
  // Writing a stamp back (`datetime.isoformat()`) and the round trip

  /** `YYYY-MM-DDTHH:MM:SS` for any fields that fit their widths, in range
      or not. */
  function ClockText(y: nat, mo: nat, d: nat, h: nat, mi: nat, sec: nat): (r: string)
    requires y < 10000 && mo < 100 && d < 100 && h < 100 && mi < 100 && sec < 100
    ensures |r| == 19
  {
    var hi, lo := y / 100, y % 100;
    [DigitChar(hi / 10), DigitChar(hi % 10), DigitChar(lo / 10), DigitChar(lo % 10),
     '-', DigitChar(mo / 10), DigitChar(mo % 10),
     '-', DigitChar(d / 10), DigitChar(d % 10),
     'T', DigitChar(h / 10), DigitChar(h % 10),
     ':', DigitChar(mi / 10), DigitChar(mi % 10),
     ':', DigitChar(sec / 10), DigitChar(sec % 10)]
  }

  /** The digits `isoformat()` writes for `us` microseconds: none for 0,
      otherwise six. */
  function FractionDigits(us: int): (ds: string)
    requires 0 <= us < 1000000
    ensures AllDigits(ds) && Micros(ds) == us
  {
    if us == 0 then ""
    else
      PaddedValue(us, 6);
      assert Padded(us, 6)[..6] == Padded(us, 6);
      Padded(us, 6)
  }

  /** `.digits` after the seconds, or nothing for no digits. */
  function FractionPart(ds: string): string {
    if ds == [] then "" else "." + ds
  }

  function FractionText(us: int): string
    requires 0 <= us < 1000000
  {
    FractionPart(FractionDigits(us))
  }

  /** `YYYY-MM-DD?HH:MM:SS[.digits]`: the fields, with `sep` between the
      date and the time and `ds` as the fraction digits. */
  function StampText(y: nat, mo: nat, d: nat, h: nat, mi: nat, sec: nat, sep: char, ds: string): string
    requires y < 10000 && mo < 100 && d < 100 && h < 100 && mi < 100 && sec < 100
  {
    ClockText(y, mo, d, h, mi, sec)[10 := sep] + FractionPart(ds)
  }

  function OffsetText(off: Option<int>): string
    requires off.Some? ==> -1440 < off.value < 1440
  {
    match off
    case None => ""
    case Some(o) =>
      var a := if o < 0 then -o else o;
      var hh, mm := a / 60, a % 60;
      [if o < 0 then '-' else '+', DigitChar(hh / 10), DigitChar(hh % 10),
       ':', DigitChar(mm / 10), DigitChar(mm % 10)]
  }

  /** The canonical text of a stamp. */
  function Format(t: Stamp): string
    requires ValidStamp(t)
  {
    ClockText(t.year, t.month, t.day, t.hour, t.minute, t.second)
    + FractionText(t.micro) + OffsetText(t.offset)
  }

  /** The two digits written for `n` read back as `n`. */
  lemma PairValue(s: string, i: nat, n: nat)
    requires n < 100 && i + 2 <= |s|
    requires s[i] == DigitChar(n / 10) && s[i + 1] == DigitChar(n % 10)
    ensures TwoAt(s, i) && Two(s, i) == n
  {
  }

  lemma OffsetRoundTrip(off: Option<int>)
    requires off.Some? ==> -1440 < off.value < 1440
    ensures Offset(OffsetText(off)) == Some(off)
  {
    if off.Some? {
      var o := off.value;
      var a := if o < 0 then -o else o;
      var r := OffsetText(off);
      PairValue(r, 1, a / 60);
      PairValue(r, 4, a % 60);
      assert a / 60 * 60 + a % 60 == a;
    }
  }

  lemma {:induction false} DigitRunConcat(p: string, rest: string)
    requires AllDigits(p)
    requires rest == [] || !IsDigit(rest[0])
    ensures DigitRun(p + rest) == |p|
  {
    if p != [] {
      assert (p + rest)[1..] == p[1..] + rest;
      DigitRunConcat(p[1..], rest);
    } else {
      assert p + rest == rest;
    }
  }

  /** Any fraction digits read back as `Micros` of them. */
  lemma FractionRoundTrip(ds: string, rest: string)
    requires AllDigits(ds)
    requires rest == [] || rest[0] == '+' || rest[0] == '-'
    ensures Fraction(FractionPart(ds) + rest) == Some((Micros(ds), rest))
  {
    if ds != [] {
      var r := FractionPart(ds) + rest;
      assert r[1..] == ds + rest;
      DigitRunConcat(ds, rest);
      assert (ds + rest)[..|ds|] == ds;
      assert (ds + rest)[|ds|..] == rest;
    } else {
      assert FractionPart(ds) + rest == rest;
    }
  }

  /** `isoformat()` writes `T` and six fraction digits (none for 0): the
      canonical text is one of the texts `StampText` describes. */
  lemma CanonicalText(y: nat, mo: nat, d: nat, h: nat, mi: nat, sec: nat, us: int)
    requires y < 10000 && mo < 100 && d < 100 && h < 100 && mi < 100 && sec < 100
    requires 0 <= us < 1000000
    ensures ClockText(y, mo, d, h, mi, sec) + FractionText(us)
            == StampText(y, mo, d, h, mi, sec, 'T', FractionDigits(us))
  {
    SeparatorT(y, mo, d, h, mi, sec);
  }

  lemma SeparatorT(y: nat, mo: nat, d: nat, h: nat, mi: nat, sec: nat)
    requires y < 10000 && mo < 100 && d < 100 && h < 100 && mi < 100 && sec < 100
    ensures ClockText(y, mo, d, h, mi, sec)[10 := 'T'] == ClockText(y, mo, d, h, mi, sec)
  {
  }

  /** A text whose first 19 characters are the clock text of some fields,
      with any separator, has the fixed layout, and its fields read back as
      those fields. */
  lemma ClockTextFields(s: string, y: nat, mo: nat, d: nat, h: nat, mi: nat, sec: nat)
    requires y < 10000 && mo < 100 && d < 100 && h < 100 && mi < 100 && sec < 100
    requires |s| >= 19
    requires forall k :: 0 <= k < 19 && k != 10 ==> s[k] == ClockText(y, mo, d, h, mi, sec)[k]
    ensures Layout(s)
    ensures Two(s, 0) * 100 + Two(s, 2) == y
    ensures Two(s, 5) == mo && Two(s, 8) == d && Two(s, 11) == h
    ensures Two(s, 14) == mi && Two(s, 17) == sec
  {
    PairValue(s, 0, y / 100);
    PairValue(s, 2, y % 100);
    PairValue(s, 5, mo);
    PairValue(s, 8, d);
    PairValue(s, 11, h);
    PairValue(s, 14, mi);
    PairValue(s, 17, sec);
  }

  /** Reading fields written with any separator, any number
      of fraction digits and an optional offset gives back the fields, the
      first six fraction digits as microseconds, and the stamp exactly when
      the fields are in range. */
  lemma ParseClockText(y: nat, mo: nat, d: nat, h: nat, mi: nat, sec: nat,
                       sep: char, ds: string, off: Option<int>)
    requires y < 10000 && mo < 100 && d < 100 && h < 100 && mi < 100 && sec < 100
    requires AllDigits(ds) && (off.Some? ==> -1440 < off.value < 1440)
    ensures var t := Stamp(y, mo, d, h, mi, sec, Micros(ds), off);
      Parse(StampText(y, mo, d, h, mi, sec, sep, ds) + OffsetText(off))
      == if ValidStamp(t) then Some(t) else None
  {
    var c := ClockText(y, mo, d, h, mi, sec)[10 := sep];
    var tail := FractionPart(ds) + OffsetText(off);
    var s := StampText(y, mo, d, h, mi, sec, sep, ds) + OffsetText(off);
    assert s == c + tail;
    assert s[..19] == c && s[19..] == tail;
    ClockTextFields(s, y, mo, d, h, mi, sec);
    FractionRoundTrip(ds, OffsetText(off));
    OffsetRoundTrip(off);
    ParseParts(s, Stamp(y, mo, d, h, mi, sec, Micros(ds), off), OffsetText(off));
  }

  /** `Parse` from its parts: the layout and fields of the first 19
      characters, the fraction after them and the offset after that. */
  lemma ParseParts(s: string, t: Stamp, rest: string)
    requires Layout(s)
    requires Two(s, 0) * 100 + Two(s, 2) == t.year
    requires Two(s, 5) == t.month && Two(s, 8) == t.day && Two(s, 11) == t.hour
    requires Two(s, 14) == t.minute && Two(s, 17) == t.second
    requires Fraction(s[19..]) == Some((t.micro, rest))
    requires Offset(rest) == Some(t.offset)
    ensures Parse(s) == if ValidStamp(t) then Some(t) else None
  {
  }

  /** Parsing the canonical text of any valid stamp gives the stamp back. */
  lemma ParseFormat(t: Stamp)
    requires ValidStamp(t)
    ensures Parse(Format(t)) == Some(t)
  {
    CanonicalText(t.year, t.month, t.day, t.hour, t.minute, t.second, t.micro);
    ParseClockText(t.year, t.month, t.day, t.hour, t.minute, t.second,
                   'T', FractionDigits(t.micro), t.offset);
  }

  // ---------------------------------------------------------------------
  // What `iso_to_ms` promises

  lemma DigitsHaveNoZ(s: string)
    requires AllDigits(s)
    ensures 'Z' !in s
  {
  }

  lemma StampTextHasNoZ(y: nat, mo: nat, d: nat, h: nat, mi: nat, sec: nat, sep: char, ds: string)
    requires y < 10000 && mo < 100 && d < 100 && h < 100 && mi < 100 && sec < 100
    requires sep != 'Z' && AllDigits(ds)
    ensures 'Z' !in StampText(y, mo, d, h, mi, sec, sep, ds)
  {
    var c := ClockText(y, mo, d, h, mi, sec)[10 := sep];
    assert forall k :: 0 <= k < |c| ==> c[k] != 'Z';
    DigitsHaveNoZ(ds);
    assert StampText(y, mo, d, h, mi, sec, sep, ds) == c + FractionPart(ds);
  }

  /** A trailing `Z` means exactly what `+00:00` means, for any text that
      has no other `Z` in it. */
  lemma ZSuffixMeansUtc(s: string, hostOffset: int)
    requires 'Z' !in s
    ensures IsoToMs(Str(s + "Z"), hostOffset) == IsoToMs(Str(s + "+00:00"), hostOffset)
  {
    ReplaceZAppend(s, "Z");
    ReplaceZFacts(s);
    assert ReplaceZ("Z") == "+00:00";
  }

  /** A text carrying an offset gives the exact, truncated milliseconds of
      the instant it names, whatever the host's zone. */
  lemma OffsetTextIsExact(t: Stamp, hostOffset: int)
    requires ValidStamp(t) && t.offset.Some?
    ensures IsoToMs(Str(Format(t)), hostOffset) == EpochMillis(t, 0)
  {
    CanonicalText(t.year, t.month, t.day, t.hour, t.minute, t.second, t.micro);
    OffsetClockText(t.year, t.month, t.day, t.hour, t.minute, t.second,
                    'T', FractionDigits(t.micro), t.offset.value, hostOffset);
  }

  /** The text `YYYY-MM-DD?HH:MM:SS[.digits]±HH:MM` of any fields, with any
      separator and any number of fraction digits, reads as their exact
      instant when they are in range, and as 0 when one is not. */
  lemma OffsetClockText(y: nat, mo: nat, d: nat, h: nat, mi: nat, sec: nat,
                        sep: char, ds: string, o: int, hostOffset: int)
    requires y < 10000 && mo < 100 && d < 100 && h < 100 && mi < 100 && sec < 100
    requires AllDigits(ds) && -1440 < o < 1440
    ensures var t := Stamp(y, mo, d, h, mi, sec, Micros(ds), Some(o));
      IsoToMs(Str(StampText(y, mo, d, h, mi, sec, sep, ds) + OffsetText(Some(o))), hostOffset)
      == if ValidStamp(t) then EpochMillis(t, 0) else 0
  {
    var s := StampText(y, mo, d, h, mi, sec, sep, ds) + OffsetText(Some(o));
    ParseClockText(y, mo, d, h, mi, sec, sep, ds, Some(o));
    assert s[|s| - 1] != 'Z';
  }

  /** A UTC text `YYYY-MM-DD?HH:MM:SS[.digits]Z`, with any separator but
      `Z` (which the rewrite would replace too) and any
      number of fraction digits, gives the exact epoch milliseconds,
      truncated, when its fields are in range, and 0 when one is not (month
      13, February 29 of a common year, second 60, ...). */
  lemma UtcText(y: nat, mo: nat, d: nat, h: nat, mi: nat, sec: nat,
                sep: char, ds: string, hostOffset: int)
    requires y < 10000 && mo < 100 && d < 100 && h < 100 && mi < 100 && sec < 100
    requires sep != 'Z' && AllDigits(ds)
    ensures var t := Stamp(y, mo, d, h, mi, sec, Micros(ds), Some(0));
      IsoToMs(Str(StampText(y, mo, d, h, mi, sec, sep, ds) + "Z"), hostOffset)
      == if ValidStamp(t) then EpochMillis(t, 0) else 0
  {
    ZAsOffset(y, mo, d, h, mi, sec, sep, ds, hostOffset);
    OffsetClockText(y, mo, d, h, mi, sec, sep, ds, 0, hostOffset);
  }

  /** On the stamp text, a final `Z` reads as the zero offset. */
  lemma ZAsOffset(y: nat, mo: nat, d: nat, h: nat, mi: nat, sec: nat,
                  sep: char, ds: string, hostOffset: int)
    requires y < 10000 && mo < 100 && d < 100 && h < 100 && mi < 100 && sec < 100
    requires sep != 'Z' && AllDigits(ds)
    ensures IsoToMs(Str(StampText(y, mo, d, h, mi, sec, sep, ds) + "Z"), hostOffset)
            == IsoToMs(Str(StampText(y, mo, d, h, mi, sec, sep, ds) + OffsetText(Some(0))), hostOffset)
  {
    StampTextHasNoZ(y, mo, d, h, mi, sec, sep, ds);
    ZSuffixMeansUtc(StampText(y, mo, d, h, mi, sec, sep, ds), hostOffset);
    OffsetTextUtc();
  }

  lemma OffsetTextUtc()
    ensures OffsetText(Some(0)) == "+00:00"
  {
    assert Padded(0, 0) == [];
    assert Padded(0, 1) == "0";
    assert Padded(0, 2) == "00";
  }

  // Worked examples. Each text is first read as `ClockText` of its fields
  // (the `...Clock` lemmas), the fields being passed as variables that the
  // precondition fixes; the `...Fields` lemmas compute on those, and the
  // examples proper restate the result on the literal text.

  lemma NotTextGivesZero(ts: JSON, hostOffset: int)
    requires !ts.Str?
    ensures IsoToMs(ts, hostOffset) == 0
  {
  }

  /** `not-a-date` is too short for the layout and gives 0. */
  lemma NotADate(hostOffset: int)
    ensures IsoToMs(Str("not-a-date"), hostOffset) == 0
  {
    assert !Layout("not-a-date");
  }

  lemma DigitChars()
    ensures DigitChar(0) == '0' && DigitChar(1) == '1' && DigitChar(2) == '2'
    ensures DigitChar(3) == '3' && DigitChar(4) == '4' && DigitChar(5) == '5'
    ensures DigitChar(6) == '6' && DigitChar(7) == '7' && DigitChar(8) == '8'
    ensures DigitChar(9) == '9'
  {
  }

  lemma GrafanaClock()
    ensures ClockText(2025, 8, 9, 7, 0, 0) == "2025-08-09T07:00:00"
  {
    DigitChars();
  }

  lemma Month13Clock()
    ensures ClockText(2025, 13, 1, 0, 0, 0) == "2025-13-01T00:00:00"
  {
    DigitChars();
  }

  lemma Feb29Clock()
    ensures ClockText(2025, 2, 29, 0, 0, 0) == "2025-02-29T00:00:00"
  {
    DigitChars();
  }

  lemma Second60Clock()
    ensures ClockText(2025, 8, 9, 7, 0, 60) == "2025-08-09T07:00:60"
  {
    DigitChars();
  }

  lemma EpochClock()
    ensures ClockText(1970, 1, 1, 0, 0, 0) == "1970-01-01T00:00:00"
  {
    DigitChars();
  }

  lemma YearOneClock()
    ensures ClockText(1, 1, 1, 0, 0, 0) == "0001-01-01T00:00:00"
  {
    DigitChars();
  }

  lemma JustBeforeClock()
    ensures ClockText(1969, 12, 31, 23, 59, 59) == "1969-12-31T23:59:59"
  {
    DigitChars();
  }

  lemma GrafanaArith(zero: nat)
    requires zero == 0
    ensures ValidStamp(Stamp(2025, 8, 9, 7, zero, zero, zero, Some(0)))
    ensures EpochMillis(Stamp(2025, 8, 9, 7, zero, zero, zero, Some(0)), 0) == 1754722800000
  {
  }

  lemma GrafanaFields(zero: nat, hostOffset: int)
    requires zero == 0
    ensures IsoToMs(Str(ClockText(2025, 8, 9, 7, zero, zero) + "Z"), hostOffset) == 1754722800000
  {
    var c := ClockText(2025, 8, 9, 7, zero, zero);
    assert c + FractionText(zero) == c;
    GrafanaArith(zero);
    CanonicalText(2025, 8, 9, 7, zero, zero, zero);
    UtcText(2025, 8, 9, 7, zero, zero, 'T', FractionDigits(zero), hostOffset);
  }

  lemma GrafanaOffsetFields(zero: nat, hostOffset: int)
    requires zero == 0
    ensures IsoToMs(Str(ClockText(2025, 8, 9, 7, zero, zero) + "+00:00"), hostOffset)
            == 1754722800000
  {
    var c := ClockText(2025, 8, 9, 7, zero, zero);
    assert c + FractionText(zero) == c;
    GrafanaArith(zero);
    OffsetTextUtc();
    CanonicalText(2025, 8, 9, 7, zero, zero, zero);
    OffsetClockText(2025, 8, 9, 7, zero, zero, 'T', FractionDigits(zero), 0, hostOffset);
  }

  /** `2025-08-09T07:00:00Z`, the shape the service receives, and the same
      instant written `2025-08-09T07:00:00+00:00`. */
  lemma GrafanaExample(hostOffset: int)
    ensures IsoToMs(Str("2025-08-09T07:00:00Z"), hostOffset) == 1754722800000
    ensures IsoToMs(Str("2025-08-09T07:00:00+00:00"), hostOffset) == 1754722800000
  {
    GrafanaUtcZ(hostOffset);
    GrafanaUtcOffset(hostOffset);
  }

  lemma GrafanaUtcZ(hostOffset: int)
    ensures IsoToMs(Str("2025-08-09T07:00:00Z"), hostOffset) == 1754722800000
  {
    GrafanaClock();
    GrafanaFields(0, hostOffset);
    assert ClockText(2025, 8, 9, 7, 0, 0) + "Z" == "2025-08-09T07:00:00Z";
  }

  lemma GrafanaUtcOffset(hostOffset: int)
    ensures IsoToMs(Str("2025-08-09T07:00:00+00:00"), hostOffset) == 1754722800000
  {
    GrafanaClock();
    GrafanaOffsetFields(0, hostOffset);
    assert ClockText(2025, 8, 9, 7, 0, 0) + "+00:00" == "2025-08-09T07:00:00+00:00";
  }

  lemma GrafanaMicros(zero: nat, us: nat)
    requires zero == 0 && us < 1000000
    ensures ValidStamp(Stamp(2025, 8, 9, 7, zero, zero, us, Some(0)))
    ensures MicrosSinceEpoch(Stamp(2025, 8, 9, 7, zero, zero, us, Some(0)), 0)
            == 1754722800000000 + us
  {
  }

  /** Fraction digits beyond six are dropped, fewer are padded. */
  lemma MicrosExamples()
    ensures Micros("123456789") == 123456
    ensures Micros("123") == 123000
  {
    assert "123456789"[..6] == "123456";
    assert "123456"[..5] == "12345" && "12345"[..4] == "1234";
    assert "1234"[..3] == "123" && "123"[..2] == "12" && "12"[..1] == "1";
    assert ValueOf("123") == 123;
    assert ValueOf("123456") == 123456;
    assert "123"[..3] == "123";
  }

  lemma GrafanaFractionFields(zero: nat, ds: string, hostOffset: int)
    requires zero == 0 && AllDigits(ds) && 123000 <= Micros(ds) < 124000
    ensures IsoToMs(Str(StampText(2025, 8, 9, 7, zero, zero, 'T', ds) + "Z"), hostOffset)
            == 1754722800123
  {
    GrafanaMicros(zero, Micros(ds));
    UtcText(2025, 8, 9, 7, zero, zero, 'T', ds, hostOffset);
  }

  /** `2025-08-09T07:00:00.123456789Z`, nanoseconds as Alertmanager writes
      them: the digits after the sixth are dropped. */
  lemma NineDigitFraction(hostOffset: int)
    ensures IsoToMs(Str("2025-08-09T07:00:00.123456789Z"), hostOffset) == 1754722800123
  {
    NineDigitFields(hostOffset);
    assert FractionPart("123456789") == ".123456789";
    assert "2025-08-09T07:00:00" + ".123456789" + "Z" == "2025-08-09T07:00:00.123456789Z";
  }

  lemma NineDigitFields(hostOffset: int)
    ensures IsoToMs(Str("2025-08-09T07:00:00" + FractionPart("123456789") + "Z"), hostOffset)
            == 1754722800123
  {
    MicrosExamples();
    GrafanaFractionFields(0, "123456789", hostOffset);
    GrafanaFractionText("123456789");
  }

  lemma GrafanaFractionText(ds: string)
    ensures StampText(2025, 8, 9, 7, 0, 0, 'T', ds) == "2025-08-09T07:00:00" + FractionPart(ds)
  {
    GrafanaClock();
    SeparatorT(2025, 8, 9, 7, 0, 0);
  }

  /** `2025-08-09T07:00:00.123Z`, milliseconds only. */
  lemma MillisecondFraction(hostOffset: int)
    ensures IsoToMs(Str("2025-08-09T07:00:00.123Z"), hostOffset) == 1754722800123
  {
    MillisecondFields(hostOffset);
    assert FractionPart("123") == ".123";
    assert "2025-08-09T07:00:00" + ".123" + "Z" == "2025-08-09T07:00:00.123Z";
  }

  lemma MillisecondFields(hostOffset: int)
    ensures IsoToMs(Str("2025-08-09T07:00:00" + FractionPart("123") + "Z"), hostOffset)
            == 1754722800123
  {
    MicrosExamples();
    GrafanaFractionFields(0, "123", hostOffset);
    GrafanaFractionText("123");
  }

  lemma SpaceFields(zero: nat, hostOffset: int)
    requires zero == 0
    ensures IsoToMs(Str(StampText(2025, 8, 9, 7, zero, zero, ' ', "") + "Z"), hostOffset)
            == 1754722800000
  {
    GrafanaMicros(zero, zero);
    UtcText(2025, 8, 9, 7, zero, zero, ' ', "", hostOffset);
  }

  /** `2025-08-09 07:00:00Z`: a space in place of the `T`. */
  lemma SpaceSeparator(hostOffset: int)
    ensures IsoToMs(Str("2025-08-09 07:00:00Z"), hostOffset) == 1754722800000
  {
    GrafanaClock();
    SpaceFields(0, hostOffset);
    assert StampText(2025, 8, 9, 7, 0, 0, ' ', "") + "Z" == "2025-08-09 07:00:00Z";
  }

  lemma Month13Fields(zero: nat, hostOffset: int)
    requires zero == 0
    ensures IsoToMs(Str(ClockText(2025, 13, 1, zero, zero, zero) + "Z"), hostOffset) == 0
  {
    var c := ClockText(2025, 13, 1, zero, zero, zero);
    assert c + FractionText(zero) == c;
    CanonicalText(2025, 13, 1, zero, zero, zero, zero);
    UtcText(2025, 13, 1, zero, zero, zero, 'T', FractionDigits(zero), hostOffset);
  }

  /** `2025-13-01T00:00:00Z`: month 13. */
  lemma Month13(hostOffset: int)
    ensures IsoToMs(Str("2025-13-01T00:00:00Z"), hostOffset) == 0
  {
    Month13Clock();
    Month13Fields(0, hostOffset);
    assert ClockText(2025, 13, 1, 0, 0, 0) + "Z" == "2025-13-01T00:00:00Z";
  }

  lemma Feb29Fields(zero: nat, hostOffset: int)
    requires zero == 0
    ensures IsoToMs(Str(ClockText(2025, 2, 29, zero, zero, zero) + "Z"), hostOffset) == 0
  {
    var c := ClockText(2025, 2, 29, zero, zero, zero);
    assert c + FractionText(zero) == c;
    assert !IsLeap(2025);
    CanonicalText(2025, 2, 29, zero, zero, zero, zero);
    UtcText(2025, 2, 29, zero, zero, zero, 'T', FractionDigits(zero), hostOffset);
  }

  /** `2025-02-29T00:00:00Z`: February 29 of a common year. */
  lemma Feb29(hostOffset: int)
    ensures IsoToMs(Str("2025-02-29T00:00:00Z"), hostOffset) == 0
  {
    Feb29Clock();
    Feb29Fields(0, hostOffset);
    assert ClockText(2025, 2, 29, 0, 0, 0) + "Z" == "2025-02-29T00:00:00Z";
  }

  lemma Second60Fields(zero: nat, hostOffset: int)
    requires zero == 0
    ensures IsoToMs(Str(ClockText(2025, 8, 9, 7, zero, 60) + "Z"), hostOffset) == 0
  {
    var c := ClockText(2025, 8, 9, 7, zero, 60);
    assert c + FractionText(zero) == c;
    CanonicalText(2025, 8, 9, 7, zero, 60, zero);
    UtcText(2025, 8, 9, 7, zero, 60, 'T', FractionDigits(zero), hostOffset);
  }

  /** `2025-08-09T07:00:60Z`: a leap second, which `datetime` rejects. */
  lemma Second60(hostOffset: int)
    ensures IsoToMs(Str("2025-08-09T07:00:60Z"), hostOffset) == 0
  {
    Second60Clock();
    Second60Fields(0, hostOffset);
    assert ClockText(2025, 8, 9, 7, 0, 60) + "Z" == "2025-08-09T07:00:60Z";
  }

  lemma EpochArith(zero: nat)
    requires zero == 0
    ensures ValidStamp(Stamp(1970, 1, 1, zero, zero, zero, zero, Some(0)))
    ensures EpochMillis(Stamp(1970, 1, 1, zero, zero, zero, zero, Some(0)), 0) == 0
  {
  }

  lemma EpochFields(zero: nat, hostOffset: int)
    requires zero == 0
    ensures IsoToMs(Str(ClockText(1970, 1, 1, zero, zero, zero) + "Z"), hostOffset) == 0
  {
    var c := ClockText(1970, 1, 1, zero, zero, zero);
    assert c + FractionText(zero) == c;
    EpochArith(zero);
    CanonicalText(1970, 1, 1, zero, zero, zero, zero);
    UtcText(1970, 1, 1, zero, zero, zero, 'T', FractionDigits(zero), hostOffset);
  }

  /** `1970-01-01T00:00:00Z` gives 0, the same value as a failure. */
  lemma EpochExample(hostOffset: int)
    ensures IsoToMs(Str("1970-01-01T00:00:00Z"), hostOffset) == 0
  {
    EpochClock();
    EpochFields(0, hostOffset);
    assert ClockText(1970, 1, 1, 0, 0, 0) + "Z" == "1970-01-01T00:00:00Z";
  }

  lemma YearOneArith(zero: nat)
    requires zero == 0
    ensures ValidStamp(Stamp(1, 1, 1, zero, zero, zero, zero, Some(0)))
    ensures EpochMillis(Stamp(1, 1, 1, zero, zero, zero, zero, Some(0)), 0) == -62135596800000
  {
  }

  lemma YearOneFields(zero: nat, hostOffset: int)
    requires zero == 0
    ensures IsoToMs(Str(ClockText(1, 1, 1, zero, zero, zero) + "Z"), hostOffset) == -62135596800000
  {
    var c := ClockText(1, 1, 1, zero, zero, zero);
    assert c + FractionText(zero) == c;
    YearOneArith(zero);
    CanonicalText(1, 1, 1, zero, zero, zero, zero);
    UtcText(1, 1, 1, zero, zero, zero, 'T', FractionDigits(zero), hostOffset);
  }

  /** `0001-01-01T00:00:00Z`, Grafana's `endsAt` of an alert that has not
      ended, gives a large negative count, not 0. */
  lemma YearOneExample(hostOffset: int)
    ensures IsoToMs(Str("0001-01-01T00:00:00Z"), hostOffset) == -62135596800000
  {
    YearOneClock();
    YearOneFields(0, hostOffset);
    assert ClockText(1, 1, 1, 0, 0, 0) + "Z" == "0001-01-01T00:00:00Z";
  }

  lemma LastDayBeforeEpoch()
    ensures Ordinal(1969, 12, 31) - UnixEpochOrdinal == -1
  {
  }

  lemma JustBeforeEpochFields(y: nat, mo: nat, d: nat, h: nat, mi: nat, sec: nat, us: int,
                              hostOffset: int)
    requires y == 1969 && mo == 12 && d == 31 && h == 23 && mi == 59 && sec == 59
    requires 999000 < us < 1000000
    ensures IsoToMs(Str(ClockText(y, mo, d, h, mi, sec) + FractionText(us) + "Z"), hostOffset) == 0
  {
    var t := Stamp(y, mo, d, h, mi, sec, us, Some(0));
    LastDayBeforeEpoch();
    assert Ordinal(y, mo, d) == Ordinal(1969, 12, 31);
    assert ValidStamp(t);
    assert MicrosSinceEpoch(t, 0) == us - 1000000;
    CanonicalText(y, mo, d, h, mi, sec, us);
    UtcText(y, mo, d, h, mi, sec, 'T', FractionDigits(us), hostOffset);
  }

  /** Every instant less than a millisecond before the epoch, such as
      `1969-12-31T23:59:59.999500Z`, gives 0: the count is truncated toward
      zero, so a valid time reads like a failure. */
  lemma JustBeforeEpoch(us: int, hostOffset: int)
    requires 999000 < us < 1000000
    ensures IsoToMs(Str("1969-12-31T23:59:59" + FractionText(us) + "Z"), hostOffset) == 0
  {
    JustBeforeClock();
    JustBeforeEpochFields(1969, 12, 31, 23, 59, 59, us, hostOffset);
  }
}
