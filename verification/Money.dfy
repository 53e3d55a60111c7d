/** How a booking's total is split, and what rounding can cost. */
module Money {
  import opened Wrappers
  import opened Market

  lemma RoundNear(x: real)
    ensures -0.5 <= Round(x) as real - x <= 0.5
  {
  }

  lemma RoundMonotone(x: real, y: real)
    requires x <= y
    ensures Round(x) <= Round(y)
  {
  }

  lemma RoundWhole(n: int)
    ensures Round(n as real) == n
  {
  }

  lemma MulWhole(x: int, y: int)
    ensures x as real * y as real == (x * y) as real
  {
  }

  lemma MulDistributes(x: real, y: real, z: real)
    ensures x * (y + z) == x * y + x * z
  {
  }

  lemma MulMonotone(x: real, y: real, z: real)
    requires x <= y && 0.0 <= z
    ensures z * x <= z * y
  {
  }

  lemma Fraction(x: real, rate: real)
    requires 0.0 <= x && 0.0 <= rate <= 1.0
    ensures 0.0 <= x * rate <= x
  {
    MulMonotone(0.0, rate, x);
    MulMonotone(rate, 1.0, x);
  }

  lemma RoundWithin(x: real, n: int)
    requires 0.0 <= x <= n as real
    ensures 0 <= Round(x) <= n
  {
    RoundMonotone(0.0, x);
    RoundMonotone(x, n as real);
    RoundWhole(0);
    RoundWhole(n);
  }

  lemma FeeWithinTotal(total: int, rate: real)
    requires 0 <= total && 0.0 <= rate <= 1.0
    ensures 0 <= NightlyFee(total, rate) <= total
  {
    Fraction(total as real, rate);
    RoundWithin(total as real * rate, total);
  }

  /** A commission rate between 0 and 1 splits a stay's total into two shares of at least nothing. */
  lemma StaySplit(listingId: Id, tenantId: Id, t: Terms, start: int, end: Option<int>, rate: real)
    requires 0.0 <= rate <= 1.0
    requires 0.0 <= t.price && 0 <= Nights(start, end)
    ensures var b := NewStay(listingId, tenantId, t, start, end, rate);
            b.platformFee + b.landlordAmount == b.totalAmount && 0 <= b.platformFee && 0 <= b.landlordAmount
  {
    var nights := Nights(start, end);
    MulMonotone(0.0, nights as real, NightRate(t));
    RoundWhole(0);
    RoundMonotone(0.0, NightRate(t) * nights as real);
    FeeWithinTotal(StayTotal(t, nights), rate);
  }

  lemma DepositInFrancs(t: Terms, rent: int)
    requires t.price == rent as real
    ensures Deposit(t) == rent * t.depositMonths.GetOr(0)
  {
    MulWhole(rent, t.depositMonths.GetOr(0));
    RoundWhole(rent * t.depositMonths.GetOr(0));
  }

  /** For a rent in whole francs, the split of a lease is exact if and only if the commission exceeds
      the rent and deposit collected by less than half a franc. */
  lemma LeaseSplitExactly(listingId: Id, tenantId: Id, t: Terms, moveIn: int, months: real, rent: int)
    requires t.price == rent as real
    ensures var b := NewLease(listingId, tenantId, t, moveIn, months);
            b.platformFee + b.landlordAmount == b.totalAmount
            <==> t.price * months < (rent + rent * t.depositMonths.GetOr(0)) as real + 0.5
  {
    var deposit := t.depositMonths.GetOr(0);
    DepositInFrancs(t, rent);
    RoundWhole(rent + rent * deposit);
  }

  /** In particular when the commission months do not exceed one plus the deposit months. */
  lemma LeaseSplitUsually(listingId: Id, tenantId: Id, t: Terms, moveIn: int, months: real, rent: int)
    requires t.price == rent as real && 0 <= rent
    requires months <= 1.0 + t.depositMonths.GetOr(0) as real
    ensures var b := NewLease(listingId, tenantId, t, moveIn, months);
            b.platformFee + b.landlordAmount == b.totalAmount
  {
    var deposit := t.depositMonths.GetOr(0);
    MulMonotone(months, 1.0 + deposit as real, t.price);
    MulDistributes(t.price, 1.0, deposit as real);
    MulWhole(rent, deposit);
    LeaseSplitExactly(listingId, tenantId, t, moveIn, months, rent);
  }

  // ----- one stay or several -----

  /** What stays of so many nights cost together, each rounded on its own. */
  function SumOfTotals(t: Terms, nights: seq<int>): int {
    if nights == [] then 0 else SumOfTotals(t, nights[..|nights| - 1]) + StayTotal(t, nights[|nights| - 1])
  }

  function RoundedSum(rate: real, nights: seq<int>): int {
    if nights == [] then 0 else RoundedSum(rate, nights[..|nights| - 1]) + Round(rate * nights[|nights| - 1] as real)
  }

  function Sum(nights: seq<int>): int {
    if nights == [] then 0 else Sum(nights[..|nights| - 1]) + nights[|nights| - 1]
  }

  /** The nights of the consecutive stays between these instants. */
  function NightsEach(times: seq<int>): seq<int>
    requires times != []
  {
    seq(|times| - 1, i requires 0 <= i < |times| - 1 => Nights(times[i], Some(times[i + 1])))
  }

  function TotalOfStays(t: Terms, times: seq<int>): int
    requires times != []
  {
    SumOfTotals(t, NightsEach(times))
  }

  function NightsOf(times: seq<int>): int
    requires times != []
  {
    Sum(NightsEach(times))
  }

  /** Half a franc for every rounding. */
  predicate Near(total: int, exact: real, roundings: int) {
    -(roundings as real) <= 2.0 * (total as real - exact) <= roundings as real
  }

  lemma OneMoreStay(rate: real, total: int, a: int, b: int, roundings: int)
    requires Near(total, rate * a as real, roundings)
    ensures Near(total + Round(rate * b as real), rate * (a + b) as real, roundings + 1)
  {
    RoundNear(rate * b as real);
    MulDistributes(rate, a as real, b as real);
  }

  lemma {:induction false} SumNear(rate: real, nights: seq<int>)
    ensures Near(RoundedSum(rate, nights), rate * Sum(nights) as real, |nights|)
  {
    if nights == [] {
      NoNights(rate);
    } else {
      var front, last := nights[..|nights| - 1], nights[|nights| - 1];
      SumNear(rate, front);
      OneMoreStay(rate, RoundedSum(rate, front), Sum(front), last, |front|);
    }
  }

  lemma {:induction false} TotalsRounded(t: Terms, rate: real, nights: seq<int>)
    requires rate == NightRate(t)
    ensures SumOfTotals(t, nights) == RoundedSum(rate, nights)
  {
    if nights == [] {
    } else {
      TotalsRounded(t, rate, nights[..|nights| - 1]);
    }
  }

  lemma NoNights(rate: real)
    ensures rate * 0 as real == 0.0
  {
  }

  lemma Difference(total: int, whole: int, rate: real, several: int, one: int, k: int)
    requires Near(total, rate * several as real, k) && whole == Round(rate * one as real)
    ensures -((k + 1) as real)
            <= 2.0 * (total - whole) as real - 2.0 * (rate * (several - one) as real)
            <= (k + 1) as real
  {
    RoundNear(rate * one as real);
    MulDistributes(rate, (several - one) as real, one as real);
  }

  lemma TotalNear(t: Terms, nights: seq<int>, rate: real, total: int, several: int)
    requires rate == NightRate(t) && total == SumOfTotals(t, nights) && several == Sum(nights)
    ensures Near(total, rate * several as real, |nights|)
  {
    TotalsRounded(t, rate, nights);
    SumNear(rate, nights);
  }

  lemma WholeRounded(t: Terms, nights: int, rate: real, whole: int)
    requires rate == NightRate(t) && whole == StayTotal(t, nights)
    ensures whole == Round(rate * nights as real)
  {
  }

  /** Splitting a stay into k consecutive ones, at any instants, moves the amount charged by the price
      of the nights that are counted more or less, and by (k + 1) / 2 francs at most besides. */
  lemma SplittingCosts(t: Terms, times: seq<int>, k: int, rate: real, total: int, whole: int, several: int, one: int)
    requires k == |times| - 1 > 0 && rate == NightRate(t)
    requires several == NightsOf(times) && one == Nights(times[0], Some(times[k]))
    requires total == TotalOfStays(t, times) && whole == StayTotal(t, one)
    ensures -((k + 1) as real)
            <= 2.0 * (total - whole) as real - 2.0 * (rate * (several - one) as real)
            <= (k + 1) as real
  {
    TotalNear(t, NightsEach(times), rate, total, several);
    WholeRounded(t, one, rate, whole);
    Difference(total, whole, rate, several, one, k);
  }

  /** Where the nights add up, only the roundings are left. */
  lemma SplittingCostsLittle(t: Terms, times: seq<int>, k: int, total: int, whole: int)
    requires k == |times| - 1 > 0 && NightsOf(times) == Nights(times[0], Some(times[k]))
    requires total == TotalOfStays(t, times) && whole == StayTotal(t, Nights(times[0], Some(times[k])))
    ensures -(k + 1) <= 2 * (total - whole) <= k + 1
  {
    var rate, several := NightRate(t), NightsOf(times);
    SplittingCosts(t, times, k, rate, total, whole, several, several);
    NoNights(rate);
  }

  lemma NightsBetweenDays(a: int, b: int)
    ensures Nights(a * DAY, Some(b * DAY)) == b - a
  {
    assert (b * DAY - a * DAY) as real == (b - a) as real * DAY as real;
    RoundWhole(b - a);
  }

  predicate AtMidnight(times: seq<int>, days: seq<int>) {
    |times| == |days| && forall i | 0 <= i < |days| :: times[i] == days[i] * DAY
  }

  lemma FrontNights(times: seq<int>)
    requires |times| > 1
    ensures var n := |times| - 1;
            NightsEach(times) == NightsEach(times[..n]) + [Nights(times[n - 1], Some(times[n]))]
  {
  }

  /** They add up between whole days. */
  lemma {:induction false} WholeDaysAddUp(times: seq<int>, days: seq<int>)
    requires times != [] && AtMidnight(times, days)
    ensures NightsOf(times) == Nights(times[0], Some(times[|times| - 1])) == days[|days| - 1] - days[0]
  {
    var n := |times| - 1;
    NightsBetweenDays(days[0], days[n]);
    if n == 0 {
    } else {
      WholeDaysAddUp(times[..n], days[..n]);
      NightsBetweenDays(days[n - 1], days[n]);
      FrontNights(times);
      var front, last := NightsEach(times[..n]), Nights(times[n - 1], Some(times[n]));
      assert (front + [last])[..|front|] == front;
    }
  }

  /** And not in general: two stays of a day and a half are four nights, one of three days three. */
  lemma DayAndAHalfTwice(t: Terms)
    requires t.pricePerNight == Some(10_000.0)
    ensures TotalOfStays(t, [0, 36 * HOUR, 72 * HOUR]) == 40_000 && StayTotal(t, Nights(0, Some(72 * HOUR))) == 30_000
  {
    assert NightsEach([0, 36 * HOUR, 72 * HOUR]) == [2, 2];
    assert [2, 2][..1] == [2] && [2][..0] == [];
    assert SumOfTotals(t, [2]) == SumOfTotals(t, []) + StayTotal(t, 2);
    assert SumOfTotals(t, [2, 2]) == SumOfTotals(t, [2]) + StayTotal(t, 2);
  }
}
