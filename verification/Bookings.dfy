/**
 The booking service: new stays and leases, and what tenants, owners and administrators do with
 them. Each method is proved to do what the rules of `Market` say.
 */
module Bookings {
  import opened Wrappers
  import opened Market
  import opened Tables

  class BookingsService {
    const db: Database

    constructor (db: Database)
      ensures this.db == db
    {
      this.db := db;
    }

    /** The number of nights times the price of a night, or the monthly price by the day. */
    method PriceStay(terms: Terms, days: int) returns (totalAmount: int)
      ensures totalAmount == StayTotal(terms, days)
    {
      var nightlyPrice := terms.pricePerNight.GetOr(0.0);
      var hasNightly := nightlyPrice > 0.0;
      totalAmount :=
        if hasNightly then Round(nightlyPrice * days as real)
        else Round(terms.price / DAYS_PER_MONTH as real * days as real);
    }

    /** The nights of a stay, and whether the listing lets for so many. */
    method CountNights(terms: Terms, startDate: int, endDate: Option<int>) returns (days: int, allowed: bool)
      ensures days == Nights(startDate, endDate) && allowed == NightsAllowed(terms, days)
    {
      days, allowed := 1, false;
      if endDate.Some? {
        days := Round((endDate.value - startDate) as real / DAY as real);
      }
      if terms.minimumNights.Some? && terms.minimumNights.value != 0 && days < terms.minimumNights.value {
        return;
      }
      if terms.rentalMode == NightlyOnly
         && terms.maximumNights.Some? && terms.maximumNights.value != 0 && days > terms.maximumNights.value {
        return;
      }
      if terms.rentalMode == Mixed {
        var minLeaseDays := terms.minLeaseMonths.GetOr(DEFAULT_MIN_LEASE_MONTHS) * DAYS_PER_MONTH;
        if days >= minLeaseDays {
          return;
        }
      }
      allowed := true;
    }

    /** `id` is drawn by the database; `nightlyCommissionRate` comes from the platform's prices. */
    method Create(now: int, id: Id, tenantId: Id, listingId: Id, startDate: int, endDate: Option<int>,
                  nightlyCommissionRate: real)
      returns (outcome: Outcome)
      requires Linked(db.Snapshot())
      modifies db
      ensures Reply(outcome, db.Snapshot())
           == Step(old(db.Snapshot()), now, Book(id, tenantId, listingId, startDate, endDate, nightlyCommissionRate))
    {
      if listingId !in db.listings {
        return NotFound;
      }
      var listing := db.listings[listingId];
      var terms := listing.terms;
      if listing.ownerId == tenantId {
        return Forbidden;
      }
      if listing.status == Rented {
        return BadRequest;
      }
      if terms.rentalMode == MonthlyOnly {
        return BadRequest;
      }
      var overlap := exists k | k in db.bookings :: InTheWay(db.bookings[k], listingId, startDate, endDate);
      if overlap {
        return BadRequest;
      }
      var days, allowed := CountNights(terms, startDate, endDate);
      if !allowed {
        return BadRequest;
      }
      if id in db.bookings {
        return BadRequest;
      }
      var totalAmount := PriceStay(terms, days);
      var platformFee := Round(totalAmount as real * nightlyCommissionRate);
      var landlordAmount := totalAmount - platformFee;
      db.bookings := db.bookings[id :=
        Booking(listingId, tenantId, Nightly, Pending, AwaitingPayment, startDate, endDate,
                totalAmount, platformFee, landlordAmount, None, None)];
      assert db.bookings[id] == NewStay(listingId, tenantId, terms, startDate, endDate, nightlyCommissionRate);
      return Accepted;
    }

    method CreateMonthlyRequest(now: int, id: Id, tenantId: Id, listingId: Id, moveInDate: int,
                                monthlyCommissionMonths: real)
      returns (outcome: Outcome)
      requires Linked(db.Snapshot())
      modifies db
      ensures Reply(outcome, db.Snapshot())
           == Step(old(db.Snapshot()), now, AskLease(id, tenantId, listingId, moveInDate, monthlyCommissionMonths))
    {
      if listingId !in db.listings {
        return NotFound;
      }
      var listing := db.listings[listingId];
      if listing.ownerId == tenantId {
        return Forbidden;
      }
      if listing.terms.rentalMode != MonthlyOnly && listing.terms.rentalMode != Mixed {
        return BadRequest;
      }
      if listing.status != ListingStatus.Active {
        return BadRequest;
      }
      var existingMonthly :=
        exists k | k in db.bookings :: db.bookings[k].listingId == listingId && OpenLease(db.bookings[k]);
      if existingMonthly {
        return BadRequest;
      }
      var nightlyOverlap := exists k | k in db.bookings :: MoveInTaken(db.bookings[k], listingId, moveInDate);
      if nightlyOverlap || id in db.bookings {
        return BadRequest;
      }
      var monthlyPrice := listing.terms.price;
      var depositAmount := Round(monthlyPrice * listing.terms.depositMonths.GetOr(0) as real);
      var totalAmount := Round(monthlyPrice + depositAmount as real);
      var platformFee := Round(monthlyPrice * monthlyCommissionMonths);
      var landlordAmount := Max(0, totalAmount - platformFee);
      db.bookings := db.bookings[id :=
        Booking(listingId, tenantId, Monthly, Requested, AwaitingPayment, moveInDate, None,
                totalAmount, platformFee, landlordAmount, Some(depositAmount), None)];
      assert depositAmount == Deposit(listing.terms) && totalAmount == LeaseTotal(listing.terms);
      assert db.bookings[id] == NewLease(listingId, tenantId, listing.terms, moveInDate, monthlyCommissionMonths);
      return Accepted;
    }

    method ApproveMonthlyRequest(now: int, id: Id, who: Actor) returns (outcome: Outcome)
      requires Linked(db.Snapshot())
      modifies db
      ensures Reply(outcome, db.Snapshot()) == Step(old(db.Snapshot()), now, ForBooking(id, who, Approve))
    {
      if id !in db.bookings {
        return NotFound;
      }
      var booking := db.bookings[id];
      if db.listings[booking.listingId].ownerId != who.id {
        return Forbidden;
      }
      if booking.bookingType != Monthly || booking.status != Requested {
        return BadRequest;
      }
      db.bookings := db.bookings[id := booking.(status := Approved)];
      return Accepted;
    }

    method RejectMonthlyRequest(now: int, id: Id, who: Actor) returns (outcome: Outcome)
      requires Linked(db.Snapshot())
      modifies db
      ensures Reply(outcome, db.Snapshot()) == Step(old(db.Snapshot()), now, ForBooking(id, who, Reject))
    {
      if id !in db.bookings {
        return NotFound;
      }
      var booking := db.bookings[id];
      if db.listings[booking.listingId].ownerId != who.id {
        return Forbidden;
      }
      if booking.bookingType != Monthly || booking.status != Requested {
        return BadRequest;
      }
      db.bookings := db.bookings[id := booking.(status := Rejected)];
      return Accepted;
    }

    method TerminateLease(now: int, id: Id, who: Actor) returns (outcome: Outcome)
      requires Linked(db.Snapshot())
      modifies db
      ensures Reply(outcome, db.Snapshot()) == Step(old(db.Snapshot()), now, ForBooking(id, who, Terminate))
    {
      if id !in db.bookings {
        return NotFound;
      }
      var booking := db.bookings[id];
      var isOwner := db.listings[booking.listingId].ownerId == who.id;
      var isTenant := booking.tenantId == who.id;
      if !isOwner && !isTenant && !who.isAdmin {
        return Forbidden;
      }
      if booking.bookingType != Monthly || booking.status != BookingStatus.Active {
        return BadRequest;
      }
      db.bookings := db.bookings[id := booking.(status := Terminated)];
      db.SetListingStatus(booking.listingId, ListingStatus.Active);
      return Accepted;
    }

    method Confirm(now: int, id: Id, who: Actor) returns (outcome: Outcome)
      requires Linked(db.Snapshot())
      modifies db
      ensures Reply(outcome, db.Snapshot()) == Step(old(db.Snapshot()), now, ForBooking(id, who, RowEvent.Confirm))
    {
      if id !in db.bookings {
        return NotFound;
      }
      var booking := db.bookings[id];
      if db.listings[booking.listingId].ownerId != who.id {
        return Forbidden;
      }
      if booking.status != Pending {
        return BadRequest;
      }
      db.bookings := db.bookings[id := booking.(status := Confirmed)];
      return Accepted;
    }

    /** The lookup lets only the owner and the tenant through, so an administrator who is neither
        never reaches the guards below. */
    method Cancel(now: int, id: Id, who: Actor) returns (outcome: Outcome)
      requires Linked(db.Snapshot())
      modifies db
      ensures Reply(outcome, db.Snapshot()) == Step(old(db.Snapshot()), now, ForBooking(id, who, RowEvent.Cancel))
    {
      if id !in db.bookings {
        return NotFound;
      }
      var booking := db.bookings[id];
      if db.listings[booking.listingId].ownerId != who.id && booking.tenantId != who.id {
        return Forbidden;
      }
      if booking.status == Cancelled || booking.status == Completed {
        return BadRequest;
      }
      if booking.status == Confirmed {
        var untilStart := booking.start - now;
        if untilStart < 0 {
          return BadRequest;
        }
      }
      var isTenantCancelling := who.id == booking.tenantId;
      var newEscrowStatus := booking.escrow;
      if booking.escrow == Held {
        var untilStart := booking.start - now;
        newEscrowStatus := if isTenantCancelling && untilStart <= 7 * 24 * HOUR then Released else Refunded;
      }
      db.bookings := db.bookings[id := booking.(status := Cancelled, escrow := newEscrowStatus)];
      return Accepted;
    }

    method Complete(now: int, id: Id, who: Actor) returns (outcome: Outcome)
      requires Linked(db.Snapshot())
      modifies db
      ensures Reply(outcome, db.Snapshot()) == Step(old(db.Snapshot()), now, ForBooking(id, who, RowEvent.Complete))
    {
      if id !in db.bookings {
        return NotFound;
      }
      var booking := db.bookings[id];
      if db.listings[booking.listingId].ownerId != who.id && !who.isAdmin {
        return Forbidden;
      }
      if booking.status != Confirmed {
        return BadRequest;
      }
      if booking.escrow == Disputed {
        return BadRequest;
      }
      var stayEnd := if booking.end.Some? then booking.end.value else booking.start;
      if now < stayEnd {
        return BadRequest;
      }
      db.bookings := db.bookings[id := booking.(status := Completed, escrow := Released)];
      return Accepted;
    }

    method ReportDispute(now: int, id: Id, who: Actor) returns (outcome: Outcome)
      requires Linked(db.Snapshot())
      modifies db
      ensures Reply(outcome, db.Snapshot())
           == Step(old(db.Snapshot()), now, ForBooking(id, who, RowEvent.ReportDispute))
    {
      if id !in db.bookings {
        return NotFound;
      }
      var booking := db.bookings[id];
      if booking.tenantId != who.id {
        return Forbidden;
      }
      if booking.status != Confirmed {
        return BadRequest;
      }
      if booking.escrow != Held {
        return BadRequest;
      }
      var sinceStart := now - booking.start;
      if sinceStart < 0 {
        return BadRequest;
      }
      if sinceStart > DISPUTE_WINDOW_HOURS * HOUR {
        return BadRequest;
      }
      db.bookings := db.bookings[id := booking.(escrow := Disputed)];
      return Accepted;
    }

    method ResolveDispute(now: int, id: Id, who: Actor, release: bool) returns (outcome: Outcome)
      requires Linked(db.Snapshot())
      modifies db
      ensures Reply(outcome, db.Snapshot())
           == Step(old(db.Snapshot()), now, ForBooking(id, who, RowEvent.ResolveDispute(release)))
    {
      if !who.isAdmin {
        return Forbidden;
      }
      if id !in db.bookings {
        return NotFound;
      }
      var booking := db.bookings[id];
      if booking.escrow != Disputed {
        return BadRequest;
      }
      db.bookings := db.bookings[id :=
        booking.(status := if release then Completed else Cancelled, escrow := if release then Released else Refunded)];
      return Accepted;
    }
  }
}
