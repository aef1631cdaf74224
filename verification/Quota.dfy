/**
 Billing arithmetic: 64-bit saturating operations, the billed size of a sample,
 and the monthly periods that usage is booked to.
 */
module Quota {
  import opened Words

  // ---- 64-bit arithmetic ----------------------------------------------

  /** Division truncating toward zero, wrapping in the one case that overflows. */
  function Quo(a: int64, b: int64): int64
    requires b != 0
  {
    Wrap(Truncated(a, b))
  }

  function Truncated(a: int, b: int): int
    requires b != 0
  {
    if a >= 0 then a / b else -((-a) / b)
  }

  function Clamp64(x: int): int64 {
    if x < MIN_INT64 then MIN_INT64 else if x > MAX_INT64 then MAX_INT64 else x
  }

  function SaturatingMul(a: int64, b: int64): int64 {
    if a == 0 || b == 0 then 0
    else
      var c := Wrap(a * b);
      if Quo(c, b) != a || (a == MIN_INT64 && b == -1) then
        if (a > 0) == (b > 0) then MAX_INT64 else MIN_INT64
      else c
  }

  function SaturatingAdd(a: int64, b: int64): int64 {
    if b > 0 && a > Wrap(MAX_INT64 - b) then MAX_INT64
    else if b < 0 && a < Wrap(MIN_INT64 - b) then MIN_INT64
    else Wrap(a + b)
  }

  lemma WrapInRange(x: int)
    ensures MIN_INT64 <= x <= MAX_INT64 ==> Wrap(x) == x
    ensures exists k :: Wrap(x) == x - k * TWO_64
  {
    assert Wrap(x) == x - ((x - MIN_INT64) / TWO_64) * TWO_64;
  }

  lemma TruncatedRemainder(a: int, b: int) returns (r: int)
    requires b != 0
    ensures a == Truncated(a, b) * b + r
    ensures if b > 0 then -b < r < b else b < r < -b
  {
    r := if a >= 0 then a % b else -((-a) % b);
  }

  lemma QuotientBound(m: int, b: int)
    requires m >= 0 && b != 0
    ensures -m <= m / b <= m
  {
    if b > 0 { PositiveQuotient(m, b); } else {
      PositiveQuotient(m, -b);
      assert m / b == -(m / -b);
    }
  }

  lemma PositiveQuotient(m: int, b: int)
    requires m >= 0 && b > 0
    ensures 0 <= m / b <= m
  {
    var q := m / b;
    assert m == q * b + m % b;
    if q > m { ProductAtLeast(q, b); }
  }

  lemma ProductAtLeast(x: int, y: int)
    requires x >= 0 && y >= 1
    ensures x * y >= x && (x >= 1 ==> x * y >= y)
    ensures x * -y == -(x * y) && -x * y == -(x * y) && -x * -y == x * y
  {}

  lemma TruncatedBound(a: int, b: int)
    requires b != 0
    ensures a >= 0 ==> -a <= Truncated(a, b) <= a
    ensures a <= 0 ==> a <= Truncated(a, b) <= -a
  {
    QuotientBound(if a >= 0 then a else -a, b);
  }

  lemma ExactQuotient(a: int, b: int)
    requires b != 0
    ensures Truncated(a * b, b) == a
  {
    var q := Truncated(a * b, b);
    var r := TruncatedRemainder(a * b, b);
    var d := if a >= q then a - q else q - a;
    assert (a - q) * b == r;
    if d >= 1 {
      ProductAtLeast(d, if b > 0 then b else -b);
    }
  }

  lemma SignOfProduct(a: int, b: int)
    requires a != 0 && b != 0
    ensures a * b != 0 && (a * b > 0 <==> (a > 0) == (b > 0))
  {}

  /** The wrapped product passes the division test exactly when nothing overflowed. */
  lemma DivisionDetectsOverflow(a: int64, b: int64)
    requires a != 0 && b != 0 && !(a == MIN_INT64 && b == -1)
    ensures Quo(Wrap(a * b), b) == a <==> MIN_INT64 <= a * b <= MAX_INT64
  {
    var p := a * b;
    var c := Wrap(p);
    WrapInRange(p);
    if MIN_INT64 <= p <= MAX_INT64 {
      ExactQuotient(a, b);
      WrapInRange(a);
    } else {
      var k :| c == p - k * TWO_64;
      if Quo(c, b) == a {
        var t := Truncated(c, b);
        var r := TruncatedRemainder(c, b);
        TruncatedBound(c, b);
        WrapInRange(t);
        if t != a {
          assert t == MAX_INT64 + 1 && a == MIN_INT64 && c == MIN_INT64;
          OnlyMinusOne(b, r);
        }
        assert false;
      }
    }
  }

  lemma OnlyMinusOne(b: int, r: int)
    requires b != 0 && MIN_INT64 == (MAX_INT64 + 1) * b + r
    requires if b > 0 then -b < r < b else b < r < -b
    ensures b == -1
  {}

  /** Saturating multiplication is the exact product brought into range, for every operand. */
  lemma SaturatingMulExact(a: int64, b: int64)
    ensures SaturatingMul(a, b) == Clamp64(a * b)
  {
    if a != 0 && b != 0 {
      SignOfProduct(a, b);
      WrapInRange(a * b);
      if !(a == MIN_INT64 && b == -1) {
        DivisionDetectsOverflow(a, b);
      }
    }
  }

  /** Saturating addition likewise. */
  lemma SaturatingAddExact(a: int64, b: int64)
    ensures SaturatingAdd(a, b) == Clamp64(a + b)
  {
    WrapInRange(a + b);
    WrapInRange(MAX_INT64 - b);
    WrapInRange(MIN_INT64 - b);
  }

  // ---- billed size -----------------------------------------------------

  const MAX_OVERHEAD_PER_PACKET: int := 65535
  const MAX_CALIBRATION: real := 1000.0
  const MIN_CALIBRATION: real := 10.0

  datatype Plan = Plan(overheadPerPacket: int64, calibration: real, resetDay: int, zoneOffset: int)

  function Between(x: int, lo: int, hi: int): int
    requires lo <= hi
  {
    if x < lo then lo else if x > hi then hi else x
  }

  /** A calibration nobody could have meant counts as neutral, not as the nearest bound. */
  function EffectiveCalibration(c: real): real {
    if c < MIN_CALIBRATION || c > MAX_CALIBRATION then 100.0 else c
  }

  /** What passes through the tunnel and around it, before calibration. */
  function Carried(bytes: int64, packets: int64, q: Plan): (total: int64)
    ensures total >= 0
  {
    var overhead := Between(q.overheadPerPacket, 0, MAX_OVERHEAD_PER_PACKET);
    var b := if bytes < 0 then 0 else bytes;
    var p := if packets < 0 then 0 else packets;
    CarriedExact(b, p, overhead);
    SaturatingAdd(b, SaturatingMul(p, overhead))
  }

  lemma CarriedExact(b: int64, p: int64, overhead: int64)
    requires b >= 0 && p >= 0 && overhead >= 0
    ensures p * overhead >= 0
    ensures SaturatingAdd(b, SaturatingMul(p, overhead)) == Clamp64(b + p * overhead)
  {
    hide SaturatingMul, SaturatingAdd;
    SaturatingMulExact(p, overhead);
    SaturatingAddExact(b, SaturatingMul(p, overhead));
  }

  /** Bytes the carrier bills: payload plus per-packet overhead, calibrated, saturating. */
  function Metered(bytes: int64, packets: int64, q: Plan): (billed: int64)
    ensures billed >= 0
  {
    var scaled := Scaled(Carried(bytes, packets, q), EffectiveCalibration(q.calibration));
    if scaled >= MAX_INT64 as real then MAX_INT64 else scaled.Floor
  }

  function Scaled(total: int, calibration: real): (r: real)
    ensures total >= 0 && calibration >= 0.0 ==> r >= 0.0
  {
    total as real * calibration / 100.0
  }

  lemma ScaledMonotone(t1: int, t2: int, c: real)
    requires t1 <= t2 && 0.0 <= c
    ensures Scaled(t1, c) <= Scaled(t2, c)
  {
    hide Scaled;
    var x, y := t1 as real, t2 as real;
    ScaledIs(t1, c, x * c);
    ScaledIs(t2, c, y * c);
    RealProduct(x, y, c);
    Hundredths(x * c, y * c);
  }

  lemma RealProduct(x: real, y: real, c: real)
    requires x <= y && 0.0 <= c
    ensures x * c <= y * c
  {
    assert (y - x) * c >= 0.0;
    assert y * c - x * c == (y - x) * c;
  }

  lemma Hundredths(a: real, b: real)
    requires a <= b
    ensures a / 100.0 <= b / 100.0
  {}

  /** Within the bounds a delta is held to, nothing saturates: the figure is the exact product. */
  lemma MeteredExact(bytes: int64, packets: int64, q: Plan)
    requires 0 <= bytes <= 0x1000_0000_0000 && 0 <= packets <= 0x100_0000_0000
    ensures var overhead := Max(0, Min(q.overheadPerPacket, 65535));
            var percent := if 10.0 <= q.calibration <= 1000.0 then q.calibration else 100.0;
            Metered(bytes, packets, q) == ((bytes + packets * overhead) as real * percent / 100.0).Floor
  {
    hide SaturatingMul, SaturatingAdd, Scaled;
    var overhead := Between(q.overheadPerPacket, 0, MAX_OVERHEAD_PER_PACKET);
    ProductBound(packets, 0x100_0000_0000, overhead, 65535);
    CarriedExact(bytes, packets, overhead);
    var c := EffectiveCalibration(q.calibration);
    ScaledSmall(bytes + packets * overhead, c);
    ScaledIs(bytes + packets * overhead, c, (bytes + packets * overhead) as real * c);
  }

  lemma ScaledIs(total: int, c: real, product: real)
    requires product == total as real * c
    ensures Scaled(total, c) == product / 100.0
  {}

  lemma ScaledSmall(total: nat, c: real)
    requires total <= 0x200_0000_0000_0000 && 0.0 <= c <= 1000.0
    ensures Scaled(total, c) < MAX_INT64 as real
  {
    assert total as real * c <= total as real * 1000.0;
    assert total as real <= 0x200_0000_0000_0000 as real;
  }

  lemma ProductBound(x: nat, xMax: nat, y: nat, yMax: nat)
    requires x <= xMax && y <= yMax
    ensures x * y <= xMax * yMax
  {
    assert x * y <= xMax * y;
    assert xMax * y <= xMax * yMax;
  }

  /** More traffic is never billed less. */
  lemma MeteredMonotone(b1: int64, p1: int64, b2: int64, p2: int64, q: Plan)
    requires b1 <= b2 && p1 <= p2
    ensures Metered(b1, p1, q) <= Metered(b2, p2, q)
  {
    hide SaturatingMul, SaturatingAdd, Scaled;
    var overhead := Between(q.overheadPerPacket, 0, MAX_OVERHEAD_PER_PACKET);
    var y1, y2 := if p1 < 0 then 0 else p1, if p2 < 0 then 0 else p2;
    ProductBound(y1, y2, overhead, overhead);
    CarriedExact(if b1 < 0 then 0 else b1, y1, overhead);
    CarriedExact(if b2 < 0 then 0 else b2, y2, overhead);
    ScaledMonotone(Carried(b1, p1, q), Carried(b2, p2, q), EffectiveCalibration(q.calibration));
  }

  // ---- calendar --------------------------------------------------------

  predicate IsLeap(y: int) {
    y % 4 == 0 && (y % 100 != 0 || y % 400 == 0)
  }

  /** Months are counted from January of year zero. */
  function MonthIndex(year: int, month: int): int {
    12 * year + month - 1
  }

  function Length(m: int): (d: int)
    ensures 28 <= d <= 31
  {
    var month := m % 12 + 1;
    if month == 2 then if IsLeap(m / 12) then 29 else 28
    else if month in {4, 6, 9, 11} then 30
    else 31
  }

  /** The day on which a month begins, counted from 1 January 1970, as the instants of the clock are. */
  function MonthStart(m: int): int
    decreases if m < 0 then -m else m
  {
    if m == 0 then -719_528
    else if m > 0 then MonthStart(m - 1) + Length(m - 1)
    else MonthStart(m + 1) - Length(m)
  }

  lemma NextMonth(m: int)
    ensures MonthStart(m + 1) == MonthStart(m) + Length(m)
  {}

  lemma {:induction false} MonthsAhead(m: int, n: int)
    requires m <= n
    ensures MonthStart(n) >= MonthStart(m) + 28 * (n - m)
    decreases n - m
  {
    if m < n {
      NextMonth(n - 1);
      MonthsAhead(m, n - 1);
    }
  }

  function MonthUp(day: int, m: int): (r: int)
    requires MonthStart(m) <= day
    ensures MonthStart(r) <= day < MonthStart(r + 1)
    decreases day - MonthStart(m)
  {
    NextMonth(m);
    if day < MonthStart(m + 1) then m else MonthUp(day, m + 1)
  }

  function MonthDown(day: int, m: int): (r: int)
    requires day < MonthStart(m)
    ensures MonthStart(r) <= day < MonthStart(r + 1)
    decreases MonthStart(m) - day
  {
    NextMonth(m - 1);
    if MonthStart(m - 1) <= day then m - 1 else MonthDown(day, m - 1)
  }

  /** The month a day falls in. */
  function MonthOf(day: int): (m: int)
    ensures MonthStart(m) <= day < MonthStart(m + 1)
  {
    if MonthStart(0) <= day then MonthUp(day, 0) else MonthDown(day, 0)
  }

  lemma MonthOfUnique(day: int, m: int)
    requires MonthStart(m) <= day < MonthStart(m + 1)
    ensures MonthOf(day) == m
  {
    var r := MonthOf(day);
    if r < m { MonthsAhead(r + 1, m); }
    if m < r { MonthsAhead(m + 1, r); }
  }

  /** The last day of a month, read back as the day before the next one begins. */
  function DaysIn(m: int): int {
    var last := MonthStart(m + 1) - 1;
    last - MonthStart(MonthOf(last)) + 1
  }

  lemma DaysInIsLength(m: int)
    ensures DaysIn(m) == Length(m)
  {
    NextMonth(m);
    MonthOfUnique(MonthStart(m + 1) - 1, m);
  }

  lemma YearLength(y: int)
    ensures MonthStart(12 * (y + 1)) == MonthStart(12 * y) + if IsLeap(y) then 366 else 365
  {
    hide MonthStart, Length, IsLeap;
    var k := 12 * y;
    YearQuarter(k); YearQuarter(k + 3); YearQuarter(k + 6); YearQuarter(k + 9);
    YearMonths(y);
  }

  lemma YearMonths(y: int)
    ensures var k := 12 * y;
            Length(k) + Length(k + 1) + Length(k + 2) + Length(k + 3) + Length(k + 4) + Length(k + 5)
            + Length(k + 6) + Length(k + 7) + Length(k + 8) + Length(k + 9) + Length(k + 10) + Length(k + 11)
            == if IsLeap(y) then 366 else 365
  {
    hide Length;
    LengthIn(y, 0); LengthIn(y, 1); LengthIn(y, 2); LengthIn(y, 3); LengthIn(y, 4); LengthIn(y, 5);
    LengthIn(y, 6); LengthIn(y, 7); LengthIn(y, 8); LengthIn(y, 9); LengthIn(y, 10); LengthIn(y, 11);
  }

  lemma LengthIn(y: int, j: nat)
    requires j < 12
    ensures Length(12 * y + j) ==
            if j == 1 then if IsLeap(y) then 29 else 28 else if j in {3, 5, 8, 10} then 30 else 31
  {
    hide IsLeap;
    assert (12 * y + j) / 12 == y && (12 * y + j) % 12 == j;
  }

  lemma LeapRule(y: int)
    ensures IsLeap(y) <==> (y % 400 == 0 || (y % 4 == 0 && y % 100 != 0))
  {
    FourYears(y);
    HundredYears(y);
  }

  /** Thirty days have April, June, September and November; February has 28, or 29 in a leap year;
      the others have 31. */
  lemma MonthLengths(y: int, j: nat)
    requires j < 12
    ensures var m := 12 * y + j;
            MonthStart(m + 1) - MonthStart(m) ==
            if j == 1 then if y % 400 == 0 || (y % 4 == 0 && y % 100 != 0) then 29 else 28
            else if j in {3, 5, 8, 10} then 30 else 31
  {
    hide Length, IsLeap;
    NextMonth(12 * y + j);
    LengthIn(y, j);
    LeapRule(y);
  }

  lemma YearQuarter(k: int)
    ensures MonthStart(k + 3) == MonthStart(k) + Length(k) + Length(k + 1) + Length(k + 2)
  {
    hide Length;
    NextMonth(k); NextMonth(k + 1); NextMonth(k + 2);
  }

  function LeapYearsBefore(y: int): int {
    (y + 3) / 4 - (y + 99) / 100 + (y + 399) / 400
  }

  lemma FourYears(y: int)
    ensures (y + 4) / 4 == (y + 3) / 4 + if y % 4 == 0 then 1 else 0
    ensures y % 4 == (y % 100) % 4
  {}

  lemma HundredYears(y: int)
    ensures (y + 100) / 100 == (y + 99) / 100 + if y % 100 == 0 then 1 else 0
    ensures y % 100 == (y % 400) % 100
  {}

  lemma FourHundredYears(y: int)
    ensures (y + 400) / 400 == (y + 399) / 400 + if y % 400 == 0 then 1 else 0
  {}

  lemma LeapCount(y: int)
    ensures LeapYearsBefore(y + 1) == LeapYearsBefore(y) + if IsLeap(y) then 1 else 0
  {
    FourYears(y);
    HundredYears(y);
    FourHundredYears(y);
  }

  /** The calendar is the Gregorian one: a year starts after 365 days for each year before it,
      plus one for each leap year among them; and 1970 starts on day zero. */
  lemma {:induction false} YearStart(y: int)
    ensures MonthStart(12 * y) == 365 * y + (y + 3) / 4 - (y + 99) / 100 + (y + 399) / 400 - 719_528
    ensures y == 1970 ==> MonthStart(12 * y) == 0
    decreases if y < 0 then -y else y
  {
    hide MonthStart, IsLeap;
    if y > 0 {
      YearStart(y - 1);
      YearLength(y - 1);
      LeapCount(y - 1);
    } else if y < 0 {
      YearStart(y + 1);
      YearLength(y);
      LeapCount(y);
    } else {
      YearZero();
    }
  }

  lemma YearZero()
    ensures MonthStart(0) == -719_528 && LeapYearsBefore(0) == 0
  {}

  // ---- billing periods -------------------------------------------------

  const DAY_SECONDS: int := 86400

  /** Local midnight of the reset day in month m, as an instant; `day` is clamped to the month. */
  function Boundary(day: int, offset: int, m: int): int {
    var d := Between(day, 1, 31);
    var last := DaysIn(m);
    (MonthStart(m) + (if d > last then last else d) - 1) * DAY_SECONDS - offset
  }

  lemma BoundaryInMonth(day: int, offset: int, m: int)
    ensures MonthStart(m) * DAY_SECONDS - offset <= Boundary(day, offset, m)
    ensures Boundary(day, offset, m) + DAY_SECONDS <= MonthStart(m + 1) * DAY_SECONDS - offset
  {
    DaysInIsLength(m);
    NextMonth(m);
  }

  lemma BoundaryMonth(day: int, offset: int, m: int)
    ensures MonthOf(LocalDay(offset, Boundary(day, offset, m))) == m
  {
    BoundaryInMonth(day, offset, m);
    MonthOfUnique(LocalDay(offset, Boundary(day, offset, m)), m);
  }

  lemma BoundariesAhead(day: int, offset: int, m: int, n: int)
    requires m < n
    ensures Boundary(day, offset, m) < Boundary(day, offset, n)
  {
    BoundaryInMonth(day, offset, m);
    BoundaryInMonth(day, offset, n);
    MonthsAhead(m + 1, n);
  }

  function LocalDay(offset: int, now: int): int {
    (now + offset) / DAY_SECONDS
  }

  /** The month whose boundary opens the period containing an instant. */
  function PeriodMonth(day: int, offset: int, now: int): int {
    var m := MonthOf(LocalDay(offset, now));
    if now < Boundary(day, offset, m) then m - 1 else m
  }

  function PeriodStart(day: int, offset: int, now: int): int {
    Boundary(day, offset, PeriodMonth(day, offset, now))
  }

  function PeriodEnd(day: int, offset: int, now: int): int {
    Boundary(day, offset, PeriodMonth(day, offset, now) + 1)
  }

  lemma LocalDayBounds(offset: int, now: int)
    ensures LocalDay(offset, now) * DAY_SECONDS <= now + offset < (LocalDay(offset, now) + 1) * DAY_SECONDS
  {}

  lemma PeriodContains(day: int, offset: int, now: int)
    ensures PeriodStart(day, offset, now) <= now < PeriodEnd(day, offset, now)
  {
    hide Boundary, LocalDay, MonthStart;
    var local := LocalDay(offset, now);
    var m := MonthOf(local);
    LocalDayBounds(offset, now);
    BoundaryInMonth(day, offset, m - 1);
    BoundaryInMonth(day, offset, m + 1);
  }

  /** Being between two consecutive boundaries pins the period. */
  lemma PeriodUnique(day: int, offset: int, now: int, m: int)
    requires Boundary(day, offset, m) <= now < Boundary(day, offset, m + 1)
    ensures PeriodMonth(day, offset, now) == m
  {
    hide Boundary;
    PeriodContains(day, offset, now);
    var r := PeriodMonth(day, offset, now);
    if r + 1 < m { BoundariesAhead(day, offset, r + 1, m); }
    if m + 1 < r { BoundariesAhead(day, offset, m + 1, r); }
  }

  /** Periods tile time: every instant of a period names the same period, and the
      period of its end begins exactly there. */
  lemma PeriodsTile(day: int, offset: int, now: int, t: int)
    ensures var start, end := PeriodStart(day, offset, now), PeriodEnd(day, offset, now);
            && start <= now < end
            && (start <= t < end ==> PeriodStart(day, offset, t) == start && PeriodEnd(day, offset, t) == end)
            && (!(start <= t < end) ==> PeriodStart(day, offset, t) != start)
            && PeriodStart(day, offset, end) == end
  {
    hide Boundary, PeriodMonth;
    PeriodContains(day, offset, now);
    PeriodContains(day, offset, t);
    var m := PeriodMonth(day, offset, now);
    var end := PeriodEnd(day, offset, now);
    var u := PeriodMonth(day, offset, t);
    if PeriodStart(day, offset, now) <= t < end {
      PeriodUnique(day, offset, t, m);
    } else if u < m {
      BoundariesAhead(day, offset, u, m);
    } else if u > m {
      BoundariesAhead(day, offset, m, u);
    }
    BoundariesAhead(day, offset, m + 1, m + 2);
    PeriodUnique(day, offset, end, m + 1);
  }

  /** A boundary is a local midnight, on the reset day of its month or on its last. */
  lemma BoundaryOnResetDay(day: int, offset: int, m: int)
    ensures var at := Boundary(day, offset, m) + offset;
            && at % 86400 == 0 && MonthOf(at / 86400) == m
            && at / 86400 - MonthStart(m) + 1 == Min(Length(m), Max(1, Min(31, day)))
  {
    hide MonthStart, MonthOf, Length, DaysIn;
    DaysInIsLength(m);
    BoundaryMonth(day, offset, m);
    var at := Boundary(day, offset, m) + offset;
    assert at == (at / 86400) * 86400;
  }

  /** A period runs from one local midnight to another, from the reset day of a month, or that
      month's last day if it is too short, to that day of the next month. */
  lemma PeriodOnResetDay(day: int, offset: int, now: int)
    ensures var from, to := PeriodStart(day, offset, now) + offset, PeriodEnd(day, offset, now) + offset;
            var m := MonthOf(from / 86400);
            && from % 86400 == 0 && to % 86400 == 0 && MonthOf(to / 86400) == m + 1
            && from / 86400 - MonthStart(m) + 1 == Min(Length(m), Max(1, Min(31, day)))
            && to / 86400 - MonthStart(m + 1) + 1 == Min(Length(m + 1), Max(1, Min(31, day)))
  {
    hide Boundary, MonthOf, MonthStart, Length, PeriodMonth;
    var m := PeriodMonth(day, offset, now);
    BoundaryOnResetDay(day, offset, m);
    BoundaryOnResetDay(day, offset, m + 1);
  }

  /** Finds the two boundaries around an instant by stepping year and month. */
  method PeriodBoundsIn(day: int, offset: int, now: int) returns (start: int, end: int)
    ensures start == PeriodStart(day, offset, now) && end == PeriodEnd(day, offset, now)
    ensures start <= now < end
    ensures var m := MonthOf((start + offset) / 86400);
            && (start + offset) % 86400 == 0 && (end + offset) % 86400 == 0
            && MonthOf((end + offset) / 86400) == m + 1
            && (start + offset) / 86400 - MonthStart(m) + 1 == Min(Length(m), Max(1, Min(31, day)))
            && (end + offset) / 86400 - MonthStart(m + 1) + 1 == Min(Length(m + 1), Max(1, Min(31, day)))
  {
    hide Boundary, LocalDay, MonthOf, MonthStart, Length;
    PeriodContains(day, offset, now);
    PeriodOnResetDay(day, offset, now);
    var local := MonthOf(LocalDay(offset, now));
    var y, m := local / 12, local % 12 + 1;
    start := Boundary(day, offset, MonthIndex(y, m));
    if now < start {
      if m == 1 {
        y, m := y - 1, 12;
      } else {
        m := m - 1;
      }
      start := Boundary(day, offset, MonthIndex(y, m));
    }
    var first := MonthOf(LocalDay(offset, start));
    BoundaryMonth(day, offset, MonthIndex(y, m));
    y, m := first / 12, first % 12 + 1;
    if m == 12 {
      y, m := y + 1, 1;
    } else {
      m := m + 1;
    }
    end := Boundary(day, offset, MonthIndex(y, m));
  }
}
