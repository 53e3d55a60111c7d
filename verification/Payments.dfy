/**
 The payment service. Each method reads and writes the tables step by step and is proved to do
 what the rules of `Market` say: the same outcome, and the whole new state.
 */
module Payments {
  import opened Invoices
  import opened Wrappers
  import opened Market
  import opened Tables

  /** Paying again with an invoice at hand is an active check, with its own answer when the payment
      turns out to be settled. */
  lemma ReuseVerifies(s: State, now: int, id: Id, who: Actor, answer: Verdict, invoice: Option<string>)
    requires Linked(s) && id in s.bookings && who.id == s.bookings[id].tenantId
    requires s.bookings[id].status == Payable(s.bookings[id]) && HasInvoice(s.bookings[id])
    ensures var verified := Step(s, now, ForBooking(id, who, Verify(answer)));
            Step(s, now, ForBooking(id, who, RowEvent.Initiate(answer, invoice)))
            == if verified.state.bookings[id].status == s.bookings[id].status then verified
               else verified.(outcome := BadRequest)
  {
  }

  /** Otherwise the gateway is asked for an invoice. */
  lemma FreshInvoice(s: State, now: int, id: Id, who: Actor, answer: Verdict, invoice: Option<string>)
    requires Linked(s) && id in s.bookings && who.id == s.bookings[id].tenantId
    requires s.bookings[id].bookingType == Monthly ==> s.bookings[id].status == Approved
    requires !(s.bookings[id].status == Payable(s.bookings[id]) && HasInvoice(s.bookings[id]))
    ensures Step(s, now, ForBooking(id, who, RowEvent.Initiate(answer, invoice)))
         == if invoice.None? then Reply(BadRequest, s)
            else
              var b := s.bookings[id].(paymentRef := Some(Ref(invoice.value)));
              Reply(Accepted, s.(bookings := s.bookings[id := b]))
  {
  }

  class PaymentsService {
    const db: Database

    constructor (db: Database)
      ensures this.db == db
    {
      this.db := db;
    }

    method GenerateContract(bookingId: Id)
      modifies db`contracts
      ensures db.contracts == WithContract(old(db.contracts), bookingId)
    {
      if bookingId in db.contracts {
        return;
      }
      db.contracts := db.contracts + [bookingId];
    }

    method MarkBookingPaid(bookingId: Id, paymentRef: Option<string>)
      requires Linked(db.Snapshot()) && bookingId in db.bookings
      modifies db
      ensures db.Snapshot() == Store(old(db.Snapshot()), bookingId,
                                     RowReply(Accepted, MarkPaid(old(db.bookings)[bookingId], paymentRef), Payment))
    {
      var current := db.bookings[bookingId];
      var isMonthly := current.bookingType == Monthly;
      var updated := current.(status := if isMonthly then BookingStatus.Active else Confirmed, escrow := Held);
      if paymentRef.Some? {
        updated := updated.(paymentRef := paymentRef);
      }
      db.bookings := db.bookings[bookingId := updated];
      if isMonthly {
        db.SetListingStatus(updated.listingId, Rented);
        GenerateContract(bookingId);
      }
    }

    /** The invoice at hand is asked about first: the payment may have gone through unnoticed. */
    method ReuseInvoice(now: int, bookingId: Id, who: Actor, answer: Verdict, invoice: Option<string>)
      returns (outcome: Outcome)
      requires Linked(db.Snapshot()) && bookingId in db.bookings && who.id == db.bookings[bookingId].tenantId
      requires db.bookings[bookingId].status == Payable(db.bookings[bookingId]) && HasInvoice(db.bookings[bookingId])
      modifies db
      ensures Reply(outcome, db.Snapshot())
           == Step(old(db.Snapshot()), now, ForBooking(bookingId, who, RowEvent.Initiate(answer, invoice)))
    {
      var reusableStatus := db.bookings[bookingId].status;
      ReuseVerifies(db.Snapshot(), now, bookingId, who, answer, invoice);
      outcome := VerifyBooking(now, bookingId, who, answer);
      if outcome == Accepted && db.bookings[bookingId].status != reusableStatus {
        outcome := BadRequest;
      }
    }

    method Initiate(now: int, bookingId: Id, who: Actor, answer: Verdict, invoice: Option<string>)
      returns (outcome: Outcome)
      requires Linked(db.Snapshot())
      modifies db
      ensures Reply(outcome, db.Snapshot())
           == Step(old(db.Snapshot()), now, ForBooking(bookingId, who, RowEvent.Initiate(answer, invoice)))
    {
      if bookingId !in db.bookings {
        return NotFound;
      }
      var booking := db.bookings[bookingId];
      if booking.tenantId != who.id {
        return BadRequest;
      }
      if booking.bookingType == Monthly && booking.status != Approved {
        return BadRequest;
      }
      var reusableStatus := if booking.bookingType == Monthly then Approved else Pending;
      if booking.status == reusableStatus && HasInvoice(booking) {
        outcome := ReuseInvoice(now, bookingId, who, answer, invoice);
        return;
      }
      FreshInvoice(db.Snapshot(), now, bookingId, who, answer, invoice);
      if invoice.None? {
        return BadRequest;
      }
      db.bookings := db.bookings[bookingId := booking.(paymentRef := Some(Ref(invoice.value)))];
      return Accepted;
    }

    method HandlePaydunyaWebhook(now: int, bookingId: Id, sender: Actor, token: string, answer: Verdict)
      returns (outcome: Outcome)
      requires Linked(db.Snapshot())
      modifies db
      ensures Reply(outcome, db.Snapshot())
           == Step(old(db.Snapshot()), now, ForBooking(bookingId, sender, Webhook(token, answer)))
    {
      if bookingId !in db.bookings {
        return Accepted;
      }
      var booking := db.bookings[bookingId];
      if booking.status in {Confirmed, Completed, BookingStatus.Active, Terminated} {
        return Accepted;
      }
      match answer {
        case Unreachable => return BadRequest;
        case Waiting => return Accepted;
        case Declined =>
          db.bookings := db.bookings[bookingId := booking.(status := Cancelled, escrow := Refunded)];
          return Accepted;
        case Paid(amount) =>
          var difference := amount - booking.totalAmount as real;
          if difference > 1.0 || difference < -1.0 {
            return BadRequest;
          }
          MarkBookingPaid(bookingId, Some(Ref(token)));
          return Accepted;
      }
    }

    method VerifyBooking(now: int, bookingId: Id, who: Actor, answer: Verdict) returns (outcome: Outcome)
      requires Linked(db.Snapshot())
      modifies db
      ensures Reply(outcome, db.Snapshot())
           == Step(old(db.Snapshot()), now, ForBooking(bookingId, who, Verify(answer)))
    {
      if bookingId !in db.bookings {
        return NotFound;
      }
      var booking := db.bookings[bookingId];
      if booking.tenantId != who.id {
        return BadRequest;
      }
      if booking.status == Confirmed || booking.status == BookingStatus.Active || !HasInvoice(booking) {
        return Accepted;
      }
      match answer {
        case Unreachable => return Accepted;
        case Waiting => return Accepted;
        case Declined =>
          if booking.status == Cancelled {
            return Accepted;
          }
          db.bookings := db.bookings[bookingId := booking.(status := Cancelled, escrow := Refunded)];
          return Accepted;
        case Paid(amount) =>
          var difference := amount - booking.totalAmount as real;
          if difference > 1.0 || difference < -1.0 {
            return BadRequest;
          }
          MarkBookingPaid(bookingId, None);
          return Accepted;
      }
    }

    method Release(now: int, bookingId: Id, who: Actor) returns (outcome: Outcome)
      requires Linked(db.Snapshot())
      modifies db
      ensures Reply(outcome, db.Snapshot())
           == Step(old(db.Snapshot()), now, ForBooking(bookingId, who, RowEvent.Release))
    {
      if bookingId !in db.bookings {
        return NotFound;
      }
      if db.bookings[bookingId].escrow != Held {
        return BadRequest;
      }
      db.bookings := db.bookings[bookingId := db.bookings[bookingId].(escrow := Released)];
      return Accepted;
    }

    method Refund(now: int, bookingId: Id, who: Actor) returns (outcome: Outcome)
      requires Linked(db.Snapshot())
      modifies db
      ensures Reply(outcome, db.Snapshot())
           == Step(old(db.Snapshot()), now, ForBooking(bookingId, who, RowEvent.Refund))
    {
      if bookingId !in db.bookings {
        return NotFound;
      }
      if db.bookings[bookingId].escrow != Held {
        return BadRequest;
      }
      db.bookings := db.bookings[bookingId := db.bookings[bookingId].(escrow := Refunded)];
      return Accepted;
    }
  }
}
