/**
 Times of orders and of popular-menu reads, and the Redis scores made from them.

 A UTC `LocalDateTime` is an epoch second and a nanosecond of that second, before the epoch as well.
 Scores pass through a Java `long` (which wraps) and then through a `double` (which rounds).
 */
module Micros {

  datatype Stamp = Stamp(second: int, nano: int)

  type DateTime = d: Stamp | 0 <= d.nano < 1_000_000_000 witness Stamp(0, 0)

  const MICROS_PER_SECOND: int := 1_000_000
  const LONG_MAX: int := 0x7FFF_FFFF_FFFF_FFFF
  const LONG_MIN: int := -0x8000_0000_0000_0000
  const TWO_53: int := 0x20_0000_0000_0000

  // The years 1000 to 9999, the range of a MySQL DATETIME(6) column.
  const FIRST_SECOND: int := -30_610_224_000
  const LAST_SECOND: int := 253_402_300_799

  predicate Earlier(a: DateTime, b: DateTime) {
    a.second < b.second || (a.second == b.second && a.nano < b.nano)
  }

  predicate InWindow(t: DateTime, from: DateTime, to: DateTime) {
    !Earlier(t, from) && Earlier(t, to)
  }

  predicate Aligned(d: DateTime) {
    d.nano % 1_000 == 0
  }

  predicate Storable(d: DateTime) {
    FIRST_SECOND <= d.second <= LAST_SECOND
  }

  // Days from the first day of year 1 to the first day of `year`, in the Gregorian calendar.
  function DaysBefore(year: nat): int
    requires year >= 1
  {
    365 * (year - 1) + (year - 1) / 4 - (year - 1) / 100 + (year - 1) / 400
  }

  // A time can be stored exactly from the first second of the year 1000 to the last second of the year 9999.
  lemma StorableYears(d: DateTime)
    ensures Storable(d) <==> DaysBefore(1000) <= DaysBefore(1970) + d.second / 86_400 < DaysBefore(10_000)
  {
  }

  // `truncatedTo(ChronoUnit.MICROS)`
  function Truncate(d: DateTime): (r: DateTime)
    ensures Aligned(r)
    ensures !Earlier(d, r)
    ensures forall e: DateTime :: Aligned(e) && !Earlier(d, e) ==> !Earlier(r, e)
  {
    Stamp(d.second, d.nano - d.nano % 1_000)
  }

  lemma SevenDaysBack(d: DateTime)
    ensures ExactMicros(MinusDays(d, 7)) == ExactMicros(d) - 7 * 24 * 3_600 * MICROS_PER_SECOND
    ensures Aligned(d) ==> Aligned(MinusDays(d, 7))
  {
  }

  function MinusDays(d: DateTime, days: int): DateTime {
    Stamp(d.second - days * 86_400, d.nano)
  }

  // ----- `long` arithmetic

  // Two's complement: the `long` congruent to `x` modulo 2^64.
  function Wrap64(x: int): (r: int)
    ensures LONG_MIN <= r <= LONG_MAX
    ensures LONG_MIN <= x <= LONG_MAX ==> r == x
    ensures (r - x) % 0x1_0000_0000_0000_0000 == 0
  {
    (x - LONG_MIN) % 0x1_0000_0000_0000_0000 + LONG_MIN
  }

  function ExactMicros(d: DateTime): int {
    d.second * MICROS_PER_SECOND + d.nano / 1_000
  }

  function ToEpochMicros(d: DateTime): int {
    Wrap64(Wrap64(d.second * MICROS_PER_SECOND) + d.nano / 1_000)
  }

  predicate FitsLong(d: DateTime) {
    LONG_MIN <= d.second * MICROS_PER_SECOND && ExactMicros(d) <= LONG_MAX
  }

  // The whole microseconds since the epoch, from the second and nanosecond of the time.
  lemma EpochMicrosAre(d: DateTime)
    ensures ExactMicros(d) == 1_000_000 * d.second + d.nano / 1_000
    ensures FitsLong(d) ==> ToEpochMicros(d) == 1_000_000 * d.second + d.nano / 1_000
  {
  }

  lemma StorableFits(d: DateTime)
    requires Storable(d)
    ensures FitsLong(d) && ToEpochMicros(d) == ExactMicros(d)
  {
  }

  // Strict monotonicity, in both directions, on times cut to microseconds.
  lemma EpochMicrosMonotone(a: DateTime, b: DateTime)
    requires Aligned(a) && Aligned(b) && FitsLong(a) && FitsLong(b)
    ensures Earlier(a, b) <==> ToEpochMicros(a) < ToEpochMicros(b)
    ensures a == b <==> ToEpochMicros(a) == ToEpochMicros(b)
  {
    ExactMicrosOrder(a, b);
    ExactMicrosOrder(b, a);
    assert ToEpochMicros(a) == ExactMicros(a) && ToEpochMicros(b) == ExactMicros(b);
  }

  lemma ExactMicrosOrder(a: DateTime, b: DateTime)
    requires Aligned(a) && Aligned(b)
    ensures Earlier(a, b) ==> ExactMicros(a) < ExactMicros(b)
    ensures a == b || Earlier(a, b) || Earlier(b, a)
  {
    assert a.nano == a.nano / 1_000 * 1_000 && b.nano == b.nano / 1_000 * 1_000;
    if a.second < b.second {
      assert (b.second - a.second) * MICROS_PER_SECOND >= MICROS_PER_SECOND;
    }
  }

  // Without the cut to microseconds the score cannot tell two different times apart.
  lemma UnalignedTimesCollide()
    ensures exists a: DateTime, b: DateTime ::
              Earlier(a, b) && FitsLong(a) && FitsLong(b) && ToEpochMicros(a) == ToEpochMicros(b)
  {
    var a: DateTime, b: DateTime := Stamp(-1, 0), Stamp(-1, 999);
    assert Earlier(a, b) && FitsLong(a) && FitsLong(b) && ToEpochMicros(a) == ToEpochMicros(b);
  }

  // ----- widening a `long` to a `double`: round to 53 significant bits, ties to even

  // The multiple of `u` nearest to `x`; halfway, the even multiple.
  function Nearest(x: int, u: nat): int
    requires u > 0
  {
    var q, r := x / u, x % u;
    if 2 * r < u || (2 * r == u && q % 2 == 0) then q * u else (q + 1) * u
  }

  function Magnitude(x: int): nat {
    if x < 0 then -x else x
  }

  predicate IsSpacing(u: nat) {
    || u == 1 || u == 2 || u == 4 || u == 8 || u == 16 || u == 32
    || u == 64 || u == 128 || u == 256 || u == 512 || u == 1024
  }

  // Doubles of magnitude up to 2^(53+k) are 2^k apart; a `long` needs k up to 10.
  function Spacing(x: int): (u: nat)
    ensures IsSpacing(u)
    ensures u == 1024 || Magnitude(x) <= u * TWO_53
    ensures u == 1 || Magnitude(x) > u / 2 * TWO_53
  {
    var m := Magnitude(x);
    if m <= TWO_53 then 1
    else if m <= 2 * TWO_53 then 2
    else if m <= 4 * TWO_53 then 4
    else if m <= 8 * TWO_53 then 8
    else if m <= 16 * TWO_53 then 16
    else if m <= 32 * TWO_53 then 32
    else if m <= 64 * TWO_53 then 64
    else if m <= 128 * TWO_53 then 128
    else if m <= 256 * TWO_53 then 256
    else if m <= 512 * TWO_53 then 512
    else 1024
  }

  // Exact up to 2^53.
  function Widen(x: int): int {
    if Magnitude(x) <= TWO_53 then x else Nearest(x, Spacing(x))
  }

  lemma WidenIsNearest(x: int)
    ensures Widen(x) == Nearest(x, Spacing(x))
  {
  }

  lemma WidenExact(x: int)
    requires -TWO_53 <= x <= TWO_53
    ensures Widen(x) == x
  {
  }

  lemma MulOrder(a: int, b: int, u: nat)
    requires a <= b
    ensures a * u <= b * u
  {
    assert (b - a) * u >= 0;
  }

  lemma NearestBounds(x: int, u: nat)
    requires u > 0
    ensures x / u * u <= Nearest(x, u) <= (x / u + 1) * u
  {
    MulOrder(x / u, x / u + 1, u);
  }

  lemma QuotientMonotone(x: int, y: int, u: nat)
    requires u > 0 && x <= y
    ensures x / u < y / u || (x / u == y / u && x % u <= y % u)
  {
    if x / u > y / u {
      MulOrder(y / u + 1, x / u, u);
    }
  }

  lemma NearestMonotone(x: int, y: int, u: nat)
    requires u > 0 && x <= y
    ensures Nearest(x, u) <= Nearest(y, u)
  {
    NearestBounds(x, u);
    NearestBounds(y, u);
    QuotientMonotone(x, y, u);
    if x / u != y / u {
      MulOrder(x / u + 1, y / u, u);
    }
  }

  // Rounding never crosses a multiple of the unit.
  lemma NearestSide(x: int, b: int, u: nat)
    requires u > 0 && b % u == 0
    ensures Nearest(b, u) == b
    ensures x <= b ==> Nearest(x, u) <= b
    ensures b <= x ==> b <= Nearest(x, u)
  {
    if x <= b { NearestMonotone(x, b, u); } else { NearestMonotone(b, x, u); }
  }

  // Every power-of-two boundary between two spacings is a multiple of the largest spacing.
  lemma SpacingDivides(b: int, u: nat)
    requires b % 1024 == 0 && IsSpacing(u)
    ensures b % u == 0
  {
    var q, k := b / 1024, 1024 / u;
    assert u * k == 1024;
    assert b == q * (k * u) == (q * k) * u;
    QuotientUnique(b, u, q * k, 0);
  }

  // Two values with different spacings have a boundary between them.
  lemma BoundaryBetween(x: int, y: int) returns (b: int)
    requires x <= y && Spacing(x) != Spacing(y)
    ensures b % 1024 == 0
    ensures x <= b <= y
  {
    hide Spacing;
    var u, v := Spacing(x), Spacing(y);
    if x < 0 <= y {
      b := 0;
    } else if 0 <= x {
      SpacingOrder(x, y);
      b := u * TWO_53;
      QuotientUnique(b, 1024, u * (TWO_53 / 1024), 0);
    } else {
      SpacingOrder(-y, -x);
      b := -v * TWO_53;
      QuotientUnique(b, 1024, -v * (TWO_53 / 1024), 0);
    }
  }

  lemma SpacingOrder(m: int, n: int)
    requires 0 <= m <= n
    ensures Spacing(m) == Spacing(n) || 2 * Spacing(m) <= Spacing(n)
    ensures Spacing(-m) == Spacing(m) && Spacing(-n) == Spacing(n)
  {
  }

  lemma WidenMonotone(x: int, y: int)
    requires x <= y
    ensures Widen(x) <= Widen(y)
  {
    hide Widen, Nearest, Spacing;
    var u, v := Spacing(x), Spacing(y);
    WidenIsNearest(x);
    WidenIsNearest(y);
    if u == v {
      NearestMonotone(x, y, u);
    } else {
      var b := BoundaryBetween(x, y);
      SpacingDivides(b, u);
      SpacingDivides(b, v);
      NearestSide(x, b, u);
      NearestSide(y, b, v);
    }
  }

  function Distance(a: int, b: int): nat {
    if a < b then b - a else a - b
  }

  // What a `double` can hold of the integers a `long` can: k * 2^e with |k| up to 2^53.
  predicate IsDouble(y: int, k: int, u: nat) {
    IsSpacing(u) && Magnitude(k) <= TWO_53 && y == k * u
  }

  // Among the multiples of `u`, rounding gives the nearest; the even one if two are equally near.
  lemma NearestIsNearest(x: int, u: nat, q: int)
    requires u > 0
    ensures Nearest(x, u) == Nearest(x, u) / u * u
    ensures Distance(Nearest(x, u), x) <= Distance(q * u, x)
    ensures Distance(Nearest(x, u), x) == Distance(q * u, x) && q * u != Nearest(x, u) ==> Nearest(x, u) / u % 2 == 0
  {
    var n := x / u;
    QuotientUnique(n * u, u, n, 0);
    QuotientUnique((n + 1) * u, u, n + 1, 0);
    MultiplesAround(x, u, q, n, x % u);
    if 2 * (x % u) < u || (2 * (x % u) == u && n % 2 == 0) {
      assert Nearest(x, u) == n * u;
    } else {
      assert Nearest(x, u) == (n + 1) * u;
    }
  }

  lemma MultiplesAround(x: int, u: nat, q: int, n: int, r: int)
    requires u > 0 && x == n * u + r && 0 <= r < u
    ensures (n + 1) * u == n * u + u
    ensures q * u <= n * u || q * u >= n * u + u
    ensures q * u == n * u || q * u == n * u + u || q * u <= n * u - u || q * u >= n * u + 2 * u
  {
    assert (n + 2) * u == n * u + 2 * u && (n - 1) * u == n * u - u;
    if q < n {
      MulOrder(q, n - 1, u);
    } else if q > n + 1 {
      MulOrder(n + 2, q, u);
    }
  }

  // Doubles finer than the spacing at `x` lie on the near side of a multiple of the spacing.
  lemma FinerIsFarther(x: int, y: int, k: int, v: nat) returns (q: int)
    requires IsDouble(y, k, v) && LONG_MIN <= x <= LONG_MAX
    ensures Distance(q * Spacing(x), x) <= Distance(y, x)
    ensures Distance(q * Spacing(x), x) == Distance(y, x) ==> y == q * Spacing(x)
  {
    hide Spacing, IsSpacing;
    var u := Spacing(x);
    SpacingPositive(x);
    if v >= u {
      q := CoarserMultiple(k, v, u);
    } else {
      FinerSmaller(k, v, u);
      q := if x >= 0 then TWO_53 / 2 else -(TWO_53 / 2);
      assert q * u == if x >= 0 then u / 2 * TWO_53 else -(u / 2 * TWO_53);
    }
  }

  lemma SpacingPositive(x: int)
    ensures Spacing(x) > 0
  {
  }

  lemma CoarserMultiple(k: int, v: nat, u: nat) returns (q: int)
    requires u > 0 && IsSpacing(u) && IsSpacing(v) && v >= u
    ensures k * v == q * u
  {
    hide IsSpacing;
    q := k * (v / u);
    SpacingMultiple(v, u);
    assert k * v == k * (v / u * u) == q * u;
  }

  lemma SpacingMultiple(v: nat, u: nat)
    requires IsSpacing(u) && IsSpacing(v) && v >= u
    ensures v == v / u * u
  {
  }

  lemma FinerSmaller(k: int, v: nat, u: nat)
    requires IsSpacing(u) && IsSpacing(v) && v < u && Magnitude(k) <= TWO_53
    ensures u == 2 * (u / 2) && -(u / 2 * TWO_53) <= k * v <= u / 2 * TWO_53
  {
    assert v <= u / 2;
    MulOrder(k, TWO_53, v);
    MulOrder(-TWO_53, k, v);
    MulOrder(v, u / 2, TWO_53);
  }

  // Widening a `long` gives a double, no double is nearer, and of two equally near ones it takes the one whose
  // multiple of the spacing is even.
  lemma WidenRounds(x: int, y: int, k: int, v: nat)
    requires LONG_MIN <= x <= LONG_MAX && IsDouble(y, k, v)
    ensures IsDouble(Widen(x), Widen(x) / Spacing(x), Spacing(x))
    ensures Distance(Widen(x), x) <= Distance(y, x)
    ensures Distance(Widen(x), x) == Distance(y, x) && y != Widen(x) ==> Widen(x) / Spacing(x) % 2 == 0
  {
    hide Widen, Nearest, Spacing;
    var u := Spacing(x);
    WidenIsNearest(x);
    var q := FinerIsFarther(x, y, k, v);
    NearestIsNearest(x, u, q);
    WidenFits(x);
  }

  lemma WidenFits(x: int)
    requires LONG_MIN <= x <= LONG_MAX
    ensures Magnitude(Widen(x) / Spacing(x)) <= TWO_53
  {
    hide Widen, Nearest, Spacing;
    var u := Spacing(x);
    WidenIsNearest(x);
    NearestIsNearest(x, u, 0);
    QuotientUnique(u * TWO_53, u, TWO_53, 0);
    QuotientUnique(-u * TWO_53, u, -TWO_53, 0);
    NearestSide(x, u * TWO_53, u);
    NearestSide(x, -u * TWO_53, u);
    QuotientMonotone(Nearest(x, u), u * TWO_53, u);
    QuotientMonotone(-u * TWO_53, Nearest(x, u), u);
  }

  lemma QuotientUnique(x: int, u: nat, q: int, r: int)
    requires 0 <= r < u && x == q * u + r
    ensures x / u == q && x % u == r
  {
    var q', r' := x / u, x % u;
    assert (q - q') * u == r' - r;
    if q > q' { MulOrder(1, q - q', u); } else if q < q' { MulOrder(q - q', -1, u); }
  }

  // ----- the score window of `countByMenuIds`

  function Score(t: DateTime): int {
    Widen(ToEpochMicros(t))
  }

  function HighScore(to: DateTime): int {
    Widen(ToEpochMicros(to) - 1)
  }

  predicate Selected(t: DateTime, from: DateTime, to: DateTime) {
    Score(from) <= Score(t) <= HighScore(to)
  }

  // Up to 2^53 microseconds from the epoch a score is the number of microseconds itself.
  lemma ScoreIsMicros(t: DateTime)
    requires -TWO_53 < 1_000_000 * t.second + t.nano / 1_000 <= TWO_53
    ensures Score(t) == 1_000_000 * t.second + t.nano / 1_000
    ensures HighScore(t) == 1_000_000 * t.second + t.nano / 1_000 - 1
  {
    hide Widen;
    WidenExact(ToEpochMicros(t));
    WidenExact(ToEpochMicros(t) - 1);
  }

  // What a caller can check of a window before the call: the doubles next to each end differ.
  predicate Separated(x: int) {
    Widen(x - 1) < Widen(x)
  }

  predicate SafeWindow(from: DateTime, to: DateTime) {
    && Aligned(from) && Aligned(to)
    && FitsLong(from) && FitsLong(to) && ExactMicros(to) > LONG_MIN
    && Separated(ToEpochMicros(from)) && Separated(ToEpochMicros(to))
  }

  lemma SeparatedSelects(x: int, lo: int, hi: int)
    requires Separated(lo) && Separated(hi)
    ensures Widen(lo) <= Widen(x) <= Widen(hi - 1) <==> lo <= x < hi
  {
    hide Widen;
    if x < lo { WidenMonotone(x, lo - 1); } else { WidenMonotone(lo, x); }
    if x < hi { WidenMonotone(x, hi - 1); } else { WidenMonotone(hi, x); }
  }

  lemma SafeWindowSelects(t: DateTime, from: DateTime, to: DateTime)
    requires SafeWindow(from, to) && Aligned(t) && FitsLong(t)
    ensures Selected(t, from, to) <==> InWindow(t, from, to)
  {
    hide Widen;
    SeparatedSelects(ToEpochMicros(t), ToEpochMicros(from), ToEpochMicros(to));
    EpochMicrosMonotone(t, from);
    EpochMicrosMonotone(t, to);
  }

  // The seven-day window is safe while its ends stay within 2^53 microseconds of the epoch.
  lemma SmallWindowSafe(from: DateTime, to: DateTime)
    requires Aligned(from) && Aligned(to)
    requires -TWO_53 < ExactMicros(from) <= TWO_53 && -TWO_53 < ExactMicros(to) <= TWO_53
    ensures SafeWindow(from, to)
  {
    forall x | x in {ExactMicros(from), ExactMicros(from) - 1, ExactMicros(to), ExactMicros(to) - 1}
      ensures Widen(x) == x
    {
      WidenExact(x);
    }
  }

  function At(x: int): (d: DateTime)
    ensures Aligned(d) && ExactMicros(d) == x
  {
    Stamp(x / MICROS_PER_SECOND, x % MICROS_PER_SECOND * 1_000)
  }

  // An end whose neighbouring doubles coincide lets in the microsecond just outside the window.
  lemma BlurredStart(lo: int, hi: int)
    requires lo < hi && !Separated(lo)
    ensures Widen(lo) <= Widen(lo - 1) <= Widen(hi - 1)
  {
    hide Widen;
    WidenMonotone(lo - 1, hi - 1);
  }

  lemma BlurredEnd(lo: int, hi: int)
    requires lo < hi && !Separated(hi)
    ensures Widen(lo) <= Widen(hi) <= Widen(hi - 1)
  {
    hide Widen;
    WidenMonotone(lo, hi);
  }

  lemma AtFits(x: int)
    requires LONG_MIN + MICROS_PER_SECOND <= x <= LONG_MAX
    ensures FitsLong(At(x)) && ToEpochMicros(At(x)) == x
  {
  }

  ghost predicate ExactWindow(from: DateTime, to: DateTime) {
    forall t: DateTime :: Aligned(t) && FitsLong(t) ==> (Selected(t, from, to) <==> InWindow(t, from, to))
  }

  lemma BlurredWindow(from: DateTime, to: DateTime, x: int)
    requires Aligned(from) && Aligned(to) && FitsLong(from) && FitsLong(to)
    requires x == ToEpochMicros(from) - 1 || x == ToEpochMicros(to)
    requires LONG_MIN + MICROS_PER_SECOND <= x
    requires Widen(ToEpochMicros(from)) <= Widen(x) <= Widen(ToEpochMicros(to) - 1)
    ensures !ExactWindow(from, to)
  {
    hide Widen;
    var t := At(x);
    AtFits(x);
    EpochMicrosMonotone(t, from);
    EpochMicrosMonotone(t, to);
    assert Selected(t, from, to) && !InWindow(t, from, to);
  }

  // Exactness: for a non-empty window the selection is right for every time
  // if and only if the doubles next to both ends differ.
  lemma WindowExactIff(from: DateTime, to: DateTime)
    requires Aligned(from) && Aligned(to) && Earlier(from, to)
    requires FitsLong(from) && FitsLong(to) && LONG_MIN + MICROS_PER_SECOND < ExactMicros(from)
    ensures ExactWindow(from, to) <==> Separated(ToEpochMicros(from)) && Separated(ToEpochMicros(to))
  {
    hide Widen;
    var lo, hi := ToEpochMicros(from), ToEpochMicros(to);
    EpochMicrosMonotone(from, to);
    if Separated(lo) && Separated(hi) {
      forall t: DateTime | Aligned(t) && FitsLong(t)
        ensures Selected(t, from, to) <==> InWindow(t, from, to)
      {
        SafeWindowSelects(t, from, to);
      }
    } else if !Separated(lo) {
      BlurredStart(lo, hi);
      BlurredWindow(from, to, lo - 1);
    } else {
      BlurredEnd(lo, hi);
      BlurredWindow(from, to, hi);
    }
  }

  // Beyond 2^53 microseconds (June 2255) the failing family is not empty: an order placed one microsecond
  // before a seven-day window is counted in it.
  lemma LateWindowMiscounts() returns (t: DateTime, from: DateTime, to: DateTime)
    ensures from == MinusDays(to, 7) && Storable(from) && Storable(to) && Aligned(to)
    ensures Storable(t) && Aligned(t) && ExactMicros(t) == ExactMicros(from) - 1 == TWO_53
    ensures Selected(t, from, to) && !InWindow(t, from, to)
    ensures !SafeWindow(from, to) && !ExactWindow(from, to)
  {
    t, to := At(TWO_53), At(TWO_53 + 1 + 604_800_000_000);
    from := MinusDays(to, 7);
    AtFits(TWO_53);
    AtFits(TWO_53 + 1 + 604_800_000_000);
    SevenDaysBack(to);
    StorableFits(from);
    assert Widen(TWO_53 + 1) == TWO_53 == Widen(TWO_53);
    BlurredStart(TWO_53 + 1, TWO_53 + 1 + 604_800_000_000);
    EpochMicrosMonotone(t, from);
  }
}
