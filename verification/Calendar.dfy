/**
 UTC calendar arithmetic for the fixed counter windows: the Gregorian month table, the bucket an
 instant falls in, the bucket's label as time.Format writes it, and the lifetimes of counter keys.

 An instant is a number of nanoseconds since 1970-01-01T00:00:00Z and may be negative. A day is
 numbered from that date and a month is numbered `12 * year + (month - 1)`.
 */
module Calendar {
  import opened Decimal
  import opened DivMod

  const SECOND: int := 1_000_000_000
  const MINUTE: int := 60 * SECOND
  const HOUR: int := 60 * MINUTE
  const DAY: int := 24 * HOUR

  datatype Window = Min | Hour | Day | Month

  function WindowName(w: Window): string {
    match w
    case Min => "min"
    case Hour => "hour"
    case Day => "day"
    case Month => "month"
  }

  // ---------------------------------------------------------------- the Gregorian calendar

  predicate IsLeap(y: int) { y % 4 == 0 && (y % 100 != 0 || y % 400 == 0) }

  function MonthLength(m: int): (n: int)
    ensures 28 <= n <= 31
  {
    match m % 12
    case 1 => if IsLeap(m / 12) then 29 else 28
    case 3 => 30
    case 5 => 30
    case 8 => 30
    case 10 => 30
    case _ => 31
  }

  const EPOCH_MONTH: int := 12 * 1970

  /** The day number of the first of month `m`, counted from January 1970 in either direction. */
  function MonthStart(m: int): int
    decreases if m < EPOCH_MONTH then EPOCH_MONTH - m else m - EPOCH_MONTH
  {
    if m == EPOCH_MONTH then 0
    else if m > EPOCH_MONTH then MonthStart(m - 1) + MonthLength(m - 1)
    else MonthStart(m + 1) - MonthLength(m)
  }

  lemma MonthStep(m: int)
    ensures MonthStart(m + 1) == MonthStart(m) + MonthLength(m)
  {
  }

  lemma {:induction false} MonthSpan(a: int, b: int)
    requires a <= b
    ensures MonthStart(a) + 28 * (b - a) <= MonthStart(b) <= MonthStart(a) + 31 * (b - a)
    decreases b - a
  {
    if a < b {
      MonthStep(a);
      MonthSpan(a + 1, b);
    }
  }

  function YearLength(y: int): int { if IsLeap(y) then 366 else 365 }

  lemma MonthFields(y: int, mo: int)
    requires 0 <= mo < 12
    ensures (12 * y + mo) / 12 == y && (12 * y + mo) % 12 == mo
  {
  }

  lemma {:induction false} JanuaryToJanuary(y: int)
    ensures MonthStart(12 * y + 12) - MonthStart(12 * y) == YearLength(y)
  {
    var m := 12 * y;
    QuarterLength(y, 0);
    QuarterLength(y, 3);
    QuarterLength(y, 6);
    QuarterLength(y, 9);
    assert m + 12 == 12 * y + 9 + 3;
  }

  lemma QuarterLength(y: int, mo: int)
    requires mo == 0 || mo == 3 || mo == 6 || mo == 9
    ensures MonthStart(12 * y + mo + 3) - MonthStart(12 * y + mo) ==
            if mo == 0 then YearLength(y) - 275 else if mo == 3 then 91 else 92
  {
    var m := 12 * y + mo;
    assert MonthStart(m + 3) == MonthStart(m) + MonthLength(m) + MonthLength(m + 1) + MonthLength(m + 2) by {
      MonthStep(m);
      MonthStep(m + 1);
      MonthStep(m + 2);
    }
    LengthInYear(y, mo);
    LengthInYear(y, mo + 1);
    LengthInYear(y, mo + 2);
  }

  lemma LengthInYear(y: int, mo: int)
    requires 0 <= mo < 12
    ensures MonthLength(12 * y + mo) ==
            if mo == 1 then YearLength(y) - 337 else if mo == 3 || mo == 5 || mo == 8 || mo == 10 then 30 else 31
  {
    MonthFields(y, mo);
  }

  /** Twelve months from any month are a year: of this year's length before March, of the next year's after. */
  lemma {:induction false} TwelveMonths(y: int, mo: nat)
    requires mo < 12
    ensures MonthStart(12 * y + mo + 12) - MonthStart(12 * y + mo) ==
            if mo < 2 then YearLength(y) else YearLength(y + 1)
  {
    var m := 12 * y + mo;
    if mo == 0 {
      JanuaryToJanuary(y);
    } else {
      TwelveMonths(y, mo - 1);
      MonthsSlide(m);
      LengthInYear(y, mo - 1);
      LengthInYear(y + 1, mo - 1);
    }
  }

  lemma MonthsSlide(m: int)
    ensures MonthStart(m + 12) - MonthStart(m) == MonthStart(m + 11) - MonthStart(m - 1) + MonthLength(m + 11) - MonthLength(m - 1)
  {
    MonthStep(m - 1);
    MonthStep(m + 11);
  }

  // ---------------------------------------------------------------- the anchor

  /** Days in `c` years. */
  function YearDays(c: int): int { 365 * c + c / 4 - c / 100 + c / 400 }

  /** Days from the first of March to the first of the month. */
  function FromMarch(mo: int): int { (153 * ((mo + 10) % 12) + 2) / 5 }

  /**
   The day number of the first of a month by the usual closed form for the proleptic Gregorian
   calendar, whose years begin in March; 1970-01-01 is day 0.
   */
  function CivilStart(y: int, mo: int): int { YearDays(if mo < 2 then y - 1 else y) + FromMarch(mo) - 719468 }

  lemma LeapDays(y: int)
    ensures y / 4 - (y - 1) / 4 == if y % 4 == 0 then 1 else 0
    ensures y / 100 - (y - 1) / 100 == if y % 100 == 0 then 1 else 0
    ensures y / 400 - (y - 1) / 400 == if y % 400 == 0 then 1 else 0
  {
  }

  lemma Multiples(y: int)
    ensures y % 400 == 0 ==> y % 100 == 0
    ensures y % 100 == 0 ==> y % 4 == 0
  {
  }

  lemma YearDaysStep(y: int)
    ensures YearDays(y) - YearDays(y - 1) == YearLength(y)
  {
    LeapDays(y);
    Multiples(y);
  }

  lemma FromMarchStep(mo: int)
    requires 0 <= mo < 12 && mo != 1
    ensures FromMarch((mo + 1) % 12) - FromMarch(mo) == if mo == 3 || mo == 5 || mo == 8 || mo == 10 then 30 else 31
    ensures FromMarch(1) == 337 && FromMarch(2) == 0
  {
  }

  /** The closed form grows by the length of each month. */
  lemma CivilStep(y: int, mo: int)
    requires 0 <= mo < 12
    ensures (if mo == 11 then CivilStart(y + 1, 0) else CivilStart(y, mo + 1)) - CivilStart(y, mo) == MonthLength(12 * y + mo)
  {
    LengthInYear(y, mo);
    if mo == 1 {
      YearDaysStep(y);
      FromMarchStep(0);
    } else {
      FromMarchStep(mo);
    }
  }

  function CivilAt(m: int): int { CivilStart(m / 12, m % 12) }

  lemma CivilAtStep(m: int)
    ensures CivilAt(m + 1) - CivilAt(m) == MonthLength(m)
  {
    var y, mo := m / 12, m % 12;
    assert m == 12 * y + mo;
    CivilStep(y, mo);
    NextMonth(y, mo);
  }

  lemma NextMonth(y: int, mo: int)
    requires 0 <= mo < 12
    ensures CivilAt(12 * y + mo + 1) == if mo == 11 then CivilStart(y + 1, 0) else CivilStart(y, mo + 1)
  {
    if mo == 11 { MonthFields(y + 1, 0); } else { MonthFields(y, mo + 1); }
  }

  /** Anything that is 0 in January 1970 and grows by the length of each month is the running sum. */
  lemma {:induction false} MonthStartUnique(f: int -> int, m: int)
    requires f(EPOCH_MONTH) == 0 && forall k :: f(k + 1) - f(k) == MonthLength(k)
    ensures MonthStart(m) == f(m)
    decreases if m < EPOCH_MONTH then EPOCH_MONTH - m else m - EPOCH_MONTH
  {
    if m > EPOCH_MONTH {
      MonthStartUnique(f, m - 1);
      assert f(m - 1 + 1) - f(m - 1) == MonthLength(m - 1);
    } else if m < EPOCH_MONTH {
      MonthStartUnique(f, m + 1);
      assert f(m + 1) - f(m) == MonthLength(m);
    }
  }

  function ClosedForm(): int -> int { (m: int) => CivilAt(m) }

  lemma {:induction false} MonthStartAt(m: int)
    ensures MonthStart(m) == CivilAt(m)
  {
    forall k ensures ClosedForm()(k + 1) - ClosedForm()(k) == MonthLength(k) { CivilAtStep(k); }
    MonthStartUnique(ClosedForm(), m);
  }

  /** Months are where the Gregorian calendar has them: the running sum is the closed form, for every year. */
  lemma {:induction false} MonthStartIsCivil(y: int, mo: int)
    requires 0 <= mo < 12
    ensures var c := if mo < 2 then y - 1 else y;
            MonthStart(12 * y + mo) == 365 * c + c / 4 - c / 100 + c / 400 + (153 * ((mo + 10) % 12) + 2) / 5 - 719468
  {
    MonthStartAt(12 * y + mo);
    MonthFields(y, mo);
  }

  // ---------------------------------------------------------------- the month of a day

  function MonthForward(m: int, d: int): (r: int)
    requires MonthStart(m) <= d
    ensures MonthStart(r) <= d < MonthStart(r + 1)
    decreases d - MonthStart(m)
  {
    MonthStep(m);
    if d < MonthStart(m + 1) then m else MonthForward(m + 1, d)
  }

  function MonthBackward(m: int, d: int): (r: int)
    requires d < MonthStart(m + 1)
    ensures MonthStart(r) <= d < MonthStart(r + 1)
    decreases MonthStart(m + 1) - d
  {
    MonthStep(m);
    if MonthStart(m) <= d then m else MonthBackward(m - 1, d)
  }

  /** The month containing day `d`. */
  function MonthOf(d: int): (m: int)
    ensures MonthStart(m) <= d < MonthStart(m + 1)
  {
    if d >= MonthStart(EPOCH_MONTH) then MonthForward(EPOCH_MONTH, d)
    else MonthBackward(EPOCH_MONTH - 1, d)
  }

  lemma MonthOfUnique(d: int, m: int)
    requires MonthStart(m) <= d < MonthStart(m + 1)
    ensures MonthOf(d) == m
  {
    var r := MonthOf(d);
    if r < m { MonthSpan(r + 1, m); }
    if m < r { MonthSpan(m + 1, r); }
  }

  // ---------------------------------------------------------------- buckets

  function DayOf(t: int): int { t / DAY }

  /** The bucket of `t` at a window's granularity. */
  function Bucket(t: int, w: Window): int {
    match w
    case Min => t / MINUTE
    case Hour => t / HOUR
    case Day => DayOf(t)
    case Month => MonthOf(DayOf(t))
  }

  /** The first instant of a bucket; `BucketStart(w, b + 1)` is windowEnd. */
  function BucketStart(w: Window, b: int): int {
    match w
    case Min => b * MINUTE
    case Hour => b * HOUR
    case Day => b * DAY
    case Month => MonthStart(b) * DAY
  }

  lemma MonthBucketIff(t: int, b: int)
    ensures Bucket(t, Month) == b <==> MonthStart(b) * DAY <= t < MonthStart(b + 1) * DAY
  {
    var d := t / DAY;
    FloorLe(t, DAY, MonthStart(b));
    FloorLe(t, DAY, MonthStart(b + 1));
    if MonthStart(b) <= d < MonthStart(b + 1) { MonthOfUnique(d, b); }
  }

  /** A bucket is exactly the instants from its start up to the next bucket's start. */
  lemma BucketIff(t: int, w: Window, b: int)
    ensures Bucket(t, w) == b <==> BucketStart(w, b) <= t < BucketStart(w, b + 1)
  {
    match w
    case Min => FloorIff(t, MINUTE, b);
    case Hour => FloorIff(t, HOUR, b);
    case Day => FloorIff(t, DAY, b);
    case Month => MonthBucketIff(t, b);
  }

  lemma BucketStartMonotone(w: Window, a: int, b: int)
    requires a <= b
    ensures BucketStart(w, a) <= BucketStart(w, b)
    ensures a < b ==> BucketStart(w, a) < BucketStart(w, b)
  {
    match w
    case Min => MulStrict(a, b, MINUTE);
    case Hour => MulStrict(a, b, HOUR);
    case Day => MulStrict(a, b, DAY);
    case Month =>
      MonthSpan(a, b);
      MulStrict(MonthStart(a), MonthStart(b), DAY);
  }

  lemma BucketMonotone(s: int, t: int, w: Window)
    requires s <= t
    ensures Bucket(s, w) <= Bucket(t, w)
  {
    var a, b := Bucket(s, w), Bucket(t, w);
    BucketIff(s, w, a);
    BucketIff(t, w, b);
    if b < a { BucketStartMonotone(w, b + 1, a); }
  }

  /** retryAfterSeconds: whole seconds to the end of the bucket, rounded up. */
  function RetryAfter(t: int, w: Window): int {
    (BucketStart(w, Bucket(t, w) + 1) - t + SECOND - 1) / SECOND
  }

  /**
   A client that waits the advertised number of seconds is in a later bucket, and one that waits a
   second less is still in the same bucket.
   */
  lemma RetryAfterExact(t: int, w: Window)
    ensures RetryAfter(t, w) >= 1
    ensures Bucket(t + RetryAfter(t, w) * SECOND, w) > Bucket(t, w)
    ensures Bucket(t + (RetryAfter(t, w) - 1) * SECOND, w) == Bucket(t, w)
  {
    var b, n := Bucket(t, w), RetryAfter(t, w);
    BucketIff(t, w, b);
    var gap := BucketStart(w, b + 1) - t;
    assert n * SECOND <= gap + SECOND - 1 < (n + 1) * SECOND;
    BucketIff(t + (n - 1) * SECOND, w, b);
    var later := t + n * SECOND;
    BucketMonotone(t, later, w);
    BucketIff(later, w, b);
  }

  // ---------------------------------------------------------------- lifetimes

  /** minWindowTTL, hourWindowTTL, dayWindowTTL, monthWindowTTL. */
  function WindowTTL(w: Window): int {
    match w
    case Min => 2 * MINUTE
    case Hour => 48 * HOUR
    case Day => 35 * DAY
    case Month => 400 * DAY
  }

  /** The floor the in-process store never cuts a lifetime below. */
  function EnforceTTL(w: Window): int {
    match w
    case Min => 2 * MINUTE
    case Hour => 2 * HOUR
    case Day => 25 * HOUR
    case Month => 32 * DAY
  }

  /** How long a key outlives its bucket even at the floor. */
  function Slack(w: Window): int {
    match w
    case Min => MINUTE
    case Hour => HOUR
    case Day => HOUR
    case Month => DAY
  }

  /** The floor exceeds the bucket length, with `Slack` to spare, for every bucket of every window. */
  lemma EnforceTTLCoversBucket(w: Window, b: int)
    ensures BucketStart(w, b) + EnforceTTL(w) >= BucketStart(w, b + 1) + Slack(w)
    ensures w != Month ==> BucketStart(w, b) + EnforceTTL(w) == BucketStart(w, b + 1) + Slack(w)
    ensures w == Month && MonthLength(b) == 31 ==> BucketStart(w, b) + EnforceTTL(w) == BucketStart(w, b + 1) + Slack(w)
    ensures EnforceTTL(w) <= WindowTTL(w)
  {
    if w == Month { MonthStep(b); }
  }

  // ---------------------------------------------------------------- labels

  function YearText(y: int): (s: string)
    ensures forall i :: 0 <= i < |s| ==> s[i] != ':'
  {
    if y < 0 then "-" + Padded(-y, 4) else Padded(y, 4)
  }

  lemma YearSign(y: int)
    ensures y < 0 <==> YearText(y)[0] == '-'
  {
    if y >= 0 { assert IsDigit(Padded(y, 4)[0]); }
  }

  lemma YearTextInjective(a: int, b: int)
    requires YearText(a) == YearText(b)
    ensures a == b
  {
    YearSign(a);
    YearSign(b);
    if a < 0 {
      assert YearText(a)[1..] == Padded(-a, 4) && YearText(b)[1..] == Padded(-b, 4);
      PaddedInjective(-a, -b, 4);
    } else {
      PaddedInjective(a, b, 4);
    }
  }

  /** bucketFor: "200601", "20060102", "2006010215" or "200601021504". */
  function Label(w: Window, b: int): (s: string)
    ensures forall i :: 0 <= i < |s| ==> s[i] != ':'
    decreases match w case Month => 0 case Day => 1 case Hour => 2 case Min => 3
  {
    match w
    case Month => YearText(b / 12) + Padded(b % 12 + 1, 2)
    case Day => Label(Month, MonthOf(b)) + Padded(b - MonthStart(MonthOf(b)) + 1, 2)
    case Hour => Label(Day, b / 24) + Padded(b % 24, 2)
    case Min => Label(Hour, b / 60) + Padded(b % 60, 2)
  }

  /** A civil date and time of day; months and days count from 0, `rest` is what is left below a minute. */
  datatype Civil = Civil(year: int, month: int, day: int, hour: int, minute: int, rest: int)

  predicate IsCivil(c: Civil) {
    0 <= c.month < 12 && 0 <= c.day < MonthLength(12 * c.year + c.month) && 0 <= c.hour < 24 && 0 <= c.minute < 60 && 0 <= c.rest < MINUTE
  }

  /** The instant of a civil date and time, from the closed form. */
  function Instant(c: Civil): int {
    (CivilStart(c.year, c.month) + c.day) * 86_400_000_000_000 + c.hour * 3_600_000_000_000 + c.minute * 60_000_000_000 + c.rest
  }

  lemma DayQuotients(d: int, h: int, mi: int, rest: int)
    requires 0 <= h < 24 && 0 <= mi < 60 && 0 <= rest < MINUTE
    ensures var t := d * DAY + h * HOUR + mi * MINUTE + rest;
            t / DAY == d && t / HOUR == 24 * d + h && t / MINUTE == 60 * (24 * d + h) + mi
  {
    var t := d * DAY + h * HOUR + mi * MINUTE + rest;
    QuotientUnique(t, DAY, d, h * HOUR + mi * MINUTE + rest);
    QuotientUnique(t, HOUR, 24 * d + h, mi * MINUTE + rest);
    QuotientUnique(t, MINUTE, 60 * (24 * d + h) + mi, rest);
  }

  /** The day of a civil date is in its month, that many days after its first. */
  lemma {:induction false} CivilMonth(c: Civil)
    requires IsCivil(c)
    ensures var m, d := 12 * c.year + c.month, CivilStart(c.year, c.month) + c.day;
            MonthOf(d) == m && MonthStart(m) == d - c.day
  {
    var m := 12 * c.year + c.month;
    MonthStartAt(m);
    MonthFields(c.year, c.month);
    MonthStep(m);
    MonthOfUnique(MonthStart(m) + c.day, m);
  }

  function CivilDay(c: Civil): int { CivilStart(c.year, c.month) + c.day }

  /** The number of the minute, hour, day or month of a civil date and time. */
  function CivilBucket(c: Civil, w: Window): int {
    match w
    case Min => 60 * (24 * CivilDay(c) + c.hour) + c.minute
    case Hour => 24 * CivilDay(c) + c.hour
    case Day => CivilDay(c)
    case Month => 12 * c.year + c.month
  }

  /** An instant is in the minute, hour, day and month of its civil date and time. */
  lemma {:induction false} CivilBuckets(c: Civil, w: Window)
    requires IsCivil(c)
    ensures Bucket(Instant(c), w) == CivilBucket(c, w)
  {
    InstantQuotients(Instant(c), CivilDay(c), c.hour, c.minute, c.rest);
    if w == Month { CivilMonth(c); }
  }

  lemma InstantQuotients(t: int, d: int, h: int, mi: int, rest: int)
    requires 0 <= h < 24 && 0 <= mi < 60 && 0 <= rest < MINUTE
    requires t == d * 86_400_000_000_000 + h * 3_600_000_000_000 + mi * 60_000_000_000 + rest
    ensures t / DAY == d && t / HOUR == 24 * d + h && t / MINUTE == 60 * (24 * d + h) + mi
  {
    DayQuotients(d, h, mi, rest);
  }

  /** Labels are the UTC date and time: four digits of year and two of month, */
  lemma {:induction false} MonthLabel(m: int, y: int, mo: int)
    requires 0 <= mo < 12 && m == 12 * y + mo
    ensures Label(Month, m) == YearText(y) + Padded(mo + 1, 2)
  {
    MonthFields(y, mo);
  }

  /** then two of day, */
  lemma {:induction false} DayLabel(d: int, m: int, day: nat)
    requires MonthOf(d) == m && MonthStart(m) == d - day
    ensures Label(Day, d) == Label(Month, m) + Padded(day + 1, 2)
  {
  }

  /** then two of hour, */
  lemma {:induction false} HourLabel(d: int, h: int)
    requires 0 <= h < 24
    ensures Label(Hour, 24 * d + h) == Label(Day, d) + Padded(h, 2)
  {
    QuotientUnique(24 * d + h, 24, d, h);
  }

  /** then two of minute. */
  lemma {:induction false} MinuteLabel(hour: int, mi: int)
    requires 0 <= mi < 60
    ensures Label(Min, 60 * hour + mi) == Label(Hour, hour) + Padded(mi, 2)
  {
    QuotientUnique(60 * hour + mi, 60, hour, mi);
  }

  lemma SplitTwo(x: string, m: nat, y: string, n: nat)
    requires m < 100 && n < 100
    requires x + Padded(m, 2) == y + Padded(n, 2)
    ensures x == y && m == n
  {
    PaddedTwo(m);
    PaddedTwo(n);
    var p, q := Padded(m, 2), Padded(n, 2);
    assert |x| == |y|;
    assert x == (x + p)[..|x|] == (y + q)[..|y|] == y;
    assert p == (x + p)[|x|..] == (y + q)[|y|..] == q;
    PaddedInjective(m, n, 2);
  }

  lemma {:induction false} MonthLabelInjective(a: int, b: int)
    requires Label(Month, a) == Label(Month, b)
    ensures a == b
  {
    SplitTwo(YearText(a / 12), a % 12 + 1, YearText(b / 12), b % 12 + 1);
    YearTextInjective(a / 12, b / 12);
  }

  lemma {:induction false} DayLabelInjective(a: int, b: int)
    requires Label(Day, a) == Label(Day, b)
    ensures a == b
  {
    var m, n := MonthOf(a), MonthOf(b);
    MonthStep(m);
    MonthStep(n);
    SplitTwo(Label(Month, m), a - MonthStart(m) + 1, Label(Month, n), b - MonthStart(n) + 1);
    MonthLabelInjective(m, n);
  }

  lemma {:induction false} HourLabelInjective(a: int, b: int)
    requires Label(Hour, a) == Label(Hour, b)
    ensures a == b
  {
    SplitTwo(Label(Day, a / 24), a % 24, Label(Day, b / 24), b % 24);
    DayLabelInjective(a / 24, b / 24);
  }

  lemma {:induction false} MinLabelInjective(a: int, b: int)
    requires Label(Min, a) == Label(Min, b)
    ensures a == b
  {
    SplitTwo(Label(Hour, a / 60), a % 60, Label(Hour, b / 60), b % 60);
    HourLabelInjective(a / 60, b / 60);
  }

  /** Two buckets of one window carry the same label only when they are the same bucket. */
  lemma {:induction false} LabelInjective(w: Window, a: int, b: int)
    requires Label(w, a) == Label(w, b)
    ensures a == b
  {
    match w
    case Month => MonthLabelInjective(a, b);
    case Day => DayLabelInjective(a, b);
    case Hour => HourLabelInjective(a, b);
    case Min => MinLabelInjective(a, b);
  }
}
