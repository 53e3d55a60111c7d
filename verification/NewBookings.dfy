/**
 What is booked and at what price: exactly when a stay or a lease is taken in, and its row, in
 francs and milliseconds.
 */
module NewBookings {
  import opened DoubleBooking
  import opened Market
  import opened Wrappers

  const ONE_DAY := 86_400_000

  /** The whole number nearest to a number, the upper one of two as near. */
  predicate Nearest(n: int, x: real) {
    x - 0.5 < n as real <= x + 0.5
  }

  lemma RoundIsNearest(x: real, n: int)
    ensures Nearest(n, x) <==> n == Round(x)
  {
  }

  // ----- nights -----

  /** A stay without an end is one night; otherwise its length in days, rounded. */
  predicate NightsOf(start: int, end: Option<int>, nights: int) {
    if end.None? then nights == 1
    else 2 * (end.value - start) - ONE_DAY < 2 * nights * ONE_DAY <= 2 * (end.value - start) + ONE_DAY
  }

  lemma NightsExact(start: int, end: Option<int>, nights: int)
    ensures NightsOf(start, end, nights) <==> nights == Nights(start, end)
  {
    if end.Some? {
      var x := (end.value - start) as real / DAY as real;
      RoundIsNearest(x, nights);
      assert x * 86_400_000.0 == (end.value - start) as real;
      var y := nights as real;
      assert x - 0.5 < y <==> (x - 0.5) * 86_400_000.0 < y * 86_400_000.0;
      assert y <= x + 0.5 <==> y * 86_400_000.0 <= (x + 0.5) * 86_400_000.0;
    }
  }

  /** The limits on the length of a stay: a minimum, for stays only a maximum, and where leases are
      offered as well, less than a lease; zero is no limit. */
  predicate FitsLimits(t: Terms, nights: int) {
    var months := if t.minLeaseMonths.Some? then t.minLeaseMonths.value else 1;
    && (t.minimumNights.Some? && t.minimumNights.value != 0 ==> nights >= t.minimumNights.value)
    && (t.rentalMode == NightlyOnly && t.maximumNights.Some? && t.maximumNights.value != 0
        ==> nights <= t.maximumNights.value)
    && (t.rentalMode == Mixed ==> nights < 30 * months)
  }

  // ----- what stands in the way -----

  /** A stay that is PENDING or CONFIRMED. */
  predicate HeldOrAsked(b: Booking) {
    b.status == Pending || b.status == Confirmed
  }

  /** The last day of the year 9999, until which a stay without an end lasts. */
  const END_OF_TIME := 253_402_214_400_000

  /** A held booking of the listing meets [start, end]; one without an end meets all that comes later. */
  predicate Meets(b: Booking, listingId: Id, start: int, end: Option<int>) {
    && b.listingId == listingId && HeldOrAsked(b)
    && b.start <= (if end.Some? then end.value else END_OF_TIME)
    && (b.end.Some? ==> start <= b.end.value)
  }

  /** The reasons for which a stay is not taken in. */
  ghost predicate StayRefused(s: State, id: Id, tenantId: Id, listingId: Id, start: int, end: Option<int>) {
    || id in s.bookings
    || listingId !in s.listings
    || var l := s.listings[listingId];
       || l.ownerId == tenantId
       || l.status == Rented
       || l.terms.rentalMode == MonthlyOnly
       || (exists k :: k in s.bookings && Meets(s.bookings[k], listingId, start, end))
       || (exists n :: NightsOf(start, end, n) && !FitsLimits(l.terms, n))
  }

  /** A stay is taken in if and only if there is no reason against it. */
  lemma StayExact(s: State, now: int, id: Id, tenantId: Id, listingId: Id, start: int, end: Option<int>, rate: real)
    requires Linked(s)
    ensures Step(s, now, Book(id, tenantId, listingId, start, end, rate)).outcome == Accepted
       <==> !StayRefused(s, id, tenantId, listingId, start, end)
  {
    var nights := Nights(start, end);
    NightsExact(start, end, nights);
    forall n | NightsOf(start, end, n) ensures n == nights {
      NightsExact(start, end, n);
    }
    forall k | k in s.bookings
      ensures InTheWay(s.bookings[k], listingId, start, end) <==> Meets(s.bookings[k], listingId, start, end)
    {
    }
  }

  /** To meet is to share an instant, for stays that do not end before they begin. */
  lemma MeetsIsSharing(b: Booking, c: Booking)
    requires b.listingId == c.listingId && HeldOrAsked(b)
    requires b.end.Some? ==> b.start <= b.end.value
    requires c.end.Some? ==> c.start <= c.end.value
    requires b.start <= END_OF_TIME && c.start <= END_OF_TIME
    ensures Meets(b, c.listingId, c.start, c.end) <==> Clash(b, c)
  {
    ClashIsOverlap(b, c);
  }

  // ----- the row of a stay -----

  /** What thirty nights cost: at the listed price of a night if that is above zero, and otherwise the
      monthly price. */
  function ThirtyNights(t: Terms): real {
    if t.pricePerNight.Some? && t.pricePerNight.value > 0.0 then 30.0 * t.pricePerNight.value else t.price
  }

  lemma RateTimesThirty(t: Terms)
    ensures 30.0 * NightRate(t) == ThirtyNights(t)
  {
  }

  lemma ScaledThirty(x: real, y: real, n: real)
    requires 30.0 * x == y
    ensures 30.0 * (x * n) == y * n
  {
  }

  lemma TotalOfNights(t: Terms, nights: int)
    ensures var whole, total := ThirtyNights(t) * nights as real, StayTotal(t, nights);
            whole - 15.0 < 30.0 * total as real <= whole + 15.0
  {
    var x, n := NightRate(t), nights as real;
    RateTimesThirty(t);
    ScaledThirty(x, ThirtyNights(t), n);
    NearestTimesThirty(x * n, StayTotal(t, nights));
  }

  lemma NearestTimesThirty(x: real, n: int)
    requires n == Round(x)
    ensures 30.0 * x - 15.0 < 30.0 * n as real <= 30.0 * x + 15.0
  {
    RoundIsNearest(x, n);
  }

  lemma FeeOfTotal(total: int, rate: real)
    ensures Nearest(NightlyFee(total, rate), total as real * rate)
  {
    RoundIsNearest(total as real * rate, NightlyFee(total, rate));
  }

  /** The columns of a stay, for so many nights. */
  ghost predicate IsStay(b: Booking, listingId: Id, tenantId: Id, t: Terms, start: int, end: Option<int>, rate: real,
                         nights: int) {
    var whole := ThirtyNights(t) * nights as real;
    && b == Booking(listingId, tenantId, Nightly, Pending, AwaitingPayment, start, end,
                    b.totalAmount, b.platformFee, b.totalAmount - b.platformFee, None, None)
    && whole - 15.0 < 30.0 * b.totalAmount as real <= whole + 15.0
    && Nearest(b.platformFee, b.totalAmount as real * rate)
  }

  lemma NewStayIsStay(listingId: Id, tenantId: Id, t: Terms, start: int, end: Option<int>, rate: real)
    ensures IsStay(NewStay(listingId, tenantId, t, start, end, rate), listingId, tenantId, t, start, end, rate,
                   Nights(start, end))
  {
    TotalOfNights(t, Nights(start, end));
    FeeOfTotal(StayTotal(t, Nights(start, end)), rate);
  }

  lemma StayStored(s: State, now: int, id: Id, tenantId: Id, listingId: Id, start: int, end: Option<int>, rate: real)
    requires Linked(s)
    requires Step(s, now, Book(id, tenantId, listingId, start, end, rate)).outcome == Accepted
    ensures listingId in s.listings
    ensures var b := NewStay(listingId, tenantId, s.listings[listingId].terms, start, end, rate);
            Step(s, now, Book(id, tenantId, listingId, start, end, rate)).state == s.(bookings := s.bookings[id := b])
  {
  }

  /** An accepted stay is PENDING and unpaid. Thirty times its total is, to fifteen francs, the price of
      thirty nights times the nights; the platform's share is the rate's part of the total, and the rest
      is the landlord's. */
  lemma StayRow(s: State, now: int, id: Id, tenantId: Id, listingId: Id, start: int, end: Option<int>, rate: real,
                nights: int)
    requires Linked(s) && NightsOf(start, end, nights)
    requires Step(s, now, Book(id, tenantId, listingId, start, end, rate)).outcome == Accepted
    ensures listingId in s.listings
    ensures var t := Step(s, now, Book(id, tenantId, listingId, start, end, rate)).state;
            && id in t.bookings && t == s.(bookings := s.bookings[id := t.bookings[id]])
            && IsStay(t.bookings[id], listingId, tenantId, s.listings[listingId].terms, start, end, rate, nights)
  {
    NightsExact(start, end, nights);
    StayStored(s, now, id, tenantId, listingId, start, end, rate);
    NewStayIsStay(listingId, tenantId, s.listings[listingId].terms, start, end, rate);
  }

  /** In particular, for a price in whole francs and no price of a night. */
  lemma MonthlyPriceByTheDay(s: State, now: int, id: Id, tenantId: Id, listingId: Id, start: int, end: Option<int>,
                             rate: real, nights: int, price: int)
    requires Linked(s) && NightsOf(start, end, nights)
    requires Step(s, now, Book(id, tenantId, listingId, start, end, rate)).outcome == Accepted
    requires listingId in s.listings && s.listings[listingId].terms.price == price as real
    requires s.listings[listingId].terms.pricePerNight.GetOr(0.0) <= 0.0
    ensures var t := Step(s, now, Book(id, tenantId, listingId, start, end, rate)).state;
            id in t.bookings && -30 <= 2 * (30 * t.bookings[id].totalAmount - price * nights) <= 30
  {
    StayRow(s, now, id, tenantId, listingId, start, end, rate, nights);
    Whole(price, nights);
  }

  /** And for a listed price of a night. */
  lemma ListedPriceByNight(s: State, now: int, id: Id, tenantId: Id, listingId: Id, start: int, end: Option<int>,
                           rate: real, nights: int, price: real)
    requires Linked(s) && NightsOf(start, end, nights)
    requires Step(s, now, Book(id, tenantId, listingId, start, end, rate)).outcome == Accepted
    requires listingId in s.listings && s.listings[listingId].terms.pricePerNight == Some(price) && price > 0.0
    ensures var t := Step(s, now, Book(id, tenantId, listingId, start, end, rate)).state;
            id in t.bookings && Nearest(t.bookings[id].totalAmount, price * nights as real)
  {
    StayRow(s, now, id, tenantId, listingId, start, end, rate, nights);
    ThirtyTimes(price, nights as real);
  }

  lemma ThirtyTimes(price: real, n: real)
    ensures 30.0 * price * n == 30.0 * (price * n)
  {
  }

  lemma Whole(price: int, nights: int)
    ensures price as real * nights as real == (price * nights) as real
  {
  }

  /** Who asks for a stay or a lease in vain, and what they hear. */
  lemma RefusalExact(s: State, now: int, q: Request)
    requires Linked(s) && (q.Book? || q.AskLease?)
    ensures var r := Step(s, now, q);
            && (r.outcome == NotFound <==> q.listingId !in s.listings)
            && (r.outcome == Forbidden <==> q.listingId in s.listings && s.listings[q.listingId].ownerId == q.tenantId)
            && (r.outcome != Accepted ==> r.state == s)
  {
  }

  // ----- leases -----

  /** A lease that is asked for, agreed or running. */
  predicate InForce(b: Booking) {
    b.bookingType == Monthly && (b.status == Requested || b.status == Approved || b.status == BookingStatus.Active)
  }

  /** A held stay with an end is there on the day the tenant would move in. */
  predicate StaysAt(b: Booking, listingId: Id, moveIn: int) {
    b.listingId == listingId && b.bookingType == Nightly && HeldOrAsked(b) && b.end.Some? && Occupies(b, moveIn)
  }

  ghost predicate LeaseRefused(s: State, id: Id, tenantId: Id, listingId: Id, moveIn: int) {
    || id in s.bookings
    || listingId !in s.listings
    || var l := s.listings[listingId];
       || l.ownerId == tenantId
       || l.status != ListingStatus.Active
       || l.terms.rentalMode == NightlyOnly
       || (exists k :: k in s.bookings && s.bookings[k].listingId == listingId && InForce(s.bookings[k]))
       || (exists k :: k in s.bookings && StaysAt(s.bookings[k], listingId, moveIn))
  }

  /** A lease request is taken in if and only if there is no reason against it. */
  lemma LeaseExact(s: State, now: int, id: Id, tenantId: Id, listingId: Id, moveIn: int, months: real)
    requires Linked(s)
    ensures Step(s, now, AskLease(id, tenantId, listingId, moveIn, months)).outcome == Accepted
       <==> !LeaseRefused(s, id, tenantId, listingId, moveIn)
  {
    forall k | k in s.bookings
      ensures MoveInTaken(s.bookings[k], listingId, moveIn) <==> StaysAt(s.bookings[k], listingId, moveIn)
    {
    }
  }

  /** After a lease request was taken in, no held stay with an end occupies the instant of moving in. */
  lemma NobodyAtMoveIn(s: State, now: int, id: Id, tenantId: Id, listingId: Id, moveIn: int, months: real, k: Id)
    requires Linked(s)
    requires Step(s, now, AskLease(id, tenantId, listingId, moveIn, months)).outcome == Accepted
    ensures var t := Step(s, now, AskLease(id, tenantId, listingId, moveIn, months)).state;
            k in t.bookings && t.bookings[k].listingId == listingId && t.bookings[k].bookingType == Nightly
            && HoldsDates(t.bookings[k]) && t.bookings[k].end.Some?
            ==> !Occupies(t.bookings[k], moveIn)
  {
    LeaseExact(s, now, id, tenantId, listingId, moveIn, months);
    if k in s.bookings {
      assert !StaysAt(s.bookings[k], listingId, moveIn);
    }
  }

  lemma LeaseAmounts(t: Terms, months: real)
    ensures Nearest(Deposit(t), t.price * (if t.depositMonths.Some? then t.depositMonths.value else 0) as real)
    ensures Nearest(LeaseTotal(t), t.price + Deposit(t) as real) && Nearest(LeaseFee(t, months), t.price * months)
  {
    RoundIsNearest(t.price * t.depositMonths.GetOr(0) as real, Deposit(t));
    RoundIsNearest(t.price + Deposit(t) as real, LeaseTotal(t));
    RoundIsNearest(t.price * months, LeaseFee(t, months));
  }

  /** A lease that was taken in is REQUESTED and unpaid, without an end. The deposit is so many monthly
      prices, the total one more, each rounded; the platform takes its months' price of the total, and
      the landlord what is left, if anything. */
  lemma LeaseRow(s: State, now: int, id: Id, tenantId: Id, listingId: Id, moveIn: int, months: real)
    requires Linked(s)
    requires Step(s, now, AskLease(id, tenantId, listingId, moveIn, months)).outcome == Accepted
    ensures listingId in s.listings
    ensures var t := Step(s, now, AskLease(id, tenantId, listingId, moveIn, months)).state;
            && id in t.bookings && t == s.(bookings := s.bookings[id := t.bookings[id]])
            && var b, terms := t.bookings[id], s.listings[listingId].terms;
            && b.depositAmount.Some?
            && b == Booking(listingId, tenantId, Monthly, Requested, AwaitingPayment, moveIn, None, b.totalAmount,
                            b.platformFee, b.landlordAmount, b.depositAmount, None)
            && Nearest(b.depositAmount.value,
                       terms.price * (if terms.depositMonths.Some? then terms.depositMonths.value else 0) as real)
            && Nearest(b.totalAmount, terms.price + b.depositAmount.value as real)
            && Nearest(b.platformFee, terms.price * months)
            && b.landlordAmount == if b.platformFee <= b.totalAmount then b.totalAmount - b.platformFee else 0
  {
    LeaseAmounts(s.listings[listingId].terms, months);
  }
}
