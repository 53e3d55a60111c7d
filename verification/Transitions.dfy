/**
 Every cause of every change of a booking, told from the tables and the request alone: what brings a
 booking into each status and each state of its escrow, and who is turned away.
 */
module Transitions {
  import opened Market
  import opened Wrappers

  const ONE_DAY := 86_400_000

  /** To within one franc. */
  predicate InFull(b: Booking, amount: real) {
    b.totalAmount as real - 1.0 <= amount <= b.totalAmount as real + 1.0
  }

  predicate Invoiced(b: Booking) {
    b.paymentRef.Some? && |b.paymentRef.value| >= 3 && b.paymentRef.value[..3] == "PD-"
  }

  /** A stay waits for its payment while PENDING, a lease once it is APPROVED. */
  predicate Unpaid(b: Booking) {
    (b.bookingType == Nightly && b.status == Pending) || (b.bookingType == Monthly && b.status == Approved)
  }

  /** What the gateway says, when it is asked at all. */
  function Answer(e: RowEvent): Option<Verdict> {
    match e
    case Webhook(_, answer) => Some(answer)
    case Verify(answer) => Some(answer)
    case Initiate(answer, _) => Some(answer)
    case _ => None
  }

  /** The gateway's answer counts in a callback, in the tenant's check, and in the check that comes with
      the tenant's next attempt to pay; each for bookings in other statuses. */
  predicate Counts(b: Booking, who: Actor, e: RowEvent) {
    || (e.Webhook? && b.status != Confirmed && b.status != Completed && b.status != BookingStatus.Active
        && b.status != Terminated)
    || (e.Verify? && who.id == b.tenantId && b.status != Confirmed && b.status != BookingStatus.Active && Invoiced(b))
    || (e.Initiate? && who.id == b.tenantId && Unpaid(b) && Invoiced(b))
  }

  predicate Settling(b: Booking, who: Actor, e: RowEvent) {
    Counts(b, who, e) && Answer(e).value.Paid? && InFull(b, Answer(e).value.amount)
  }

  /** The gateway refuses; the tenant's own check leaves a cancelled booking as it is. */
  predicate Declining(b: Booking, who: Actor, e: RowEvent) {
    Counts(b, who, e) && Answer(e) == Some(Declined) && !(e.Verify? && b.status == Cancelled)
  }

  /** A cancellation by one of the two parties, of a booking that is neither over nor a confirmed stay
      that has begun. */
  predicate Cancelling(b: Booking, owner: Id, now: int, who: Actor, e: RowEvent) {
    && e == RowEvent.Cancel
    && (who.id == owner || who.id == b.tenantId)
    && b.status != Cancelled && b.status != Completed
    && (b.status == Confirmed ==> now <= b.start)
  }

  /** A confirmed stay whose end has come, and that is not in dispute. */
  predicate Completing(b: Booking, owner: Id, now: int, who: Actor, e: RowEvent) {
    && e == RowEvent.Complete
    && (who.id == owner || who.isAdmin)
    && b.status == Confirmed && b.escrow != Disputed
    && now >= (if b.end.Some? then b.end.value else b.start)
  }

  predicate Resolving(b: Booking, who: Actor, e: RowEvent, release: bool) {
    e == ResolveDispute(release) && who.isAdmin && b.escrow == Disputed
  }

  predicate Reporting(b: Booking, now: int, who: Actor, e: RowEvent) {
    && e == RowEvent.ReportDispute && who.id == b.tenantId
    && b.status == Confirmed && b.escrow == Held
    && b.start <= now <= b.start + ONE_DAY
  }

  /** The causes of each status. None leads to PENDING or REQUESTED. */
  predicate LeadsTo(b: Booking, owner: Id, now: int, who: Actor, e: RowEvent, status: BookingStatus) {
    match status
    case Pending => false
    case Requested => false
    case Confirmed =>
      || (e == RowEvent.Confirm && who.id == owner && b.status == Pending)
      || (Settling(b, who, e) && b.bookingType == Nightly)
    case Active => Settling(b, who, e) && b.bookingType == Monthly
    case Cancelled => Cancelling(b, owner, now, who, e) || Resolving(b, who, e, false) || Declining(b, who, e)
    case Completed => Completing(b, owner, now, who, e) || Resolving(b, who, e, true)
    case Approved => e == Approve && who.id == owner && b.bookingType == Monthly && b.status == Requested
    case Rejected => e == Reject && who.id == owner && b.bookingType == Monthly && b.status == Requested
    case Terminated =>
      && e == Terminate && (who.id == owner || who.id == b.tenantId || who.isAdmin)
      && b.bookingType == Monthly && b.status == BookingStatus.Active
  }

  /** The causes of each state of the escrow. */
  predicate MovesFunds(b: Booking, owner: Id, now: int, who: Actor, e: RowEvent, escrow: EscrowStatus) {
    var lateTenant := who.id == b.tenantId && b.start - now <= 7 * ONE_DAY;
    match escrow
    case AwaitingPayment => false
    case Held => Settling(b, who, e)
    case Disputed => Reporting(b, now, who, e)
    case Released =>
      || Completing(b, owner, now, who, e) || Resolving(b, who, e, true)
      || (Cancelling(b, owner, now, who, e) && b.escrow == Held && lateTenant)
      || (e == RowEvent.Release && b.escrow == Held)
    case Refunded =>
      || Declining(b, who, e) || Resolving(b, who, e, false)
      || (Cancelling(b, owner, now, who, e) && b.escrow == Held && !lateTenant)
      || (e == RowEvent.Refund && b.escrow == Held)
  }

  // ----- one row -----

  function RowAfter(b: Booking, owner: Id, now: int, who: Actor, e: RowEvent): Booking {
    if Permission(b, owner, who, e) == Accepted then RowStep(b, now, who.id == b.tenantId, e).row else b
  }

  lemma PrefixOf(s: string)
    ensures "PD-" <= s <==> |s| >= 3 && s[..3] == "PD-"
  {
  }

  lemma InvoicedIff(b: Booking)
    ensures HasInvoice(b) <==> Invoiced(b)
  {
    if b.paymentRef.Some? {
      PrefixOf(b.paymentRef.value);
    }
  }

  lemma RowStatusByPeople(b: Booking, owner: Id, now: int, who: Actor, e: RowEvent, status: BookingStatus)
    requires Answer(e).None? && b.status != status
    ensures RowAfter(b, owner, now, who, e).status == status <==> LeadsTo(b, owner, now, who, e, status)
  {
  }

  lemma RowStatusByGateway(b: Booking, owner: Id, now: int, who: Actor, e: RowEvent, status: BookingStatus)
    requires Answer(e).Some? && b.status != status
    ensures RowAfter(b, owner, now, who, e).status == status <==> LeadsTo(b, owner, now, who, e, status)
  {
    InvoicedIff(b);
  }

  lemma RowEscrowByPeople(b: Booking, owner: Id, now: int, who: Actor, e: RowEvent, escrow: EscrowStatus)
    requires Answer(e).None? && b.escrow != escrow
    ensures RowAfter(b, owner, now, who, e).escrow == escrow <==> MovesFunds(b, owner, now, who, e, escrow)
  {
  }

  lemma RowEscrowByGateway(b: Booking, owner: Id, now: int, who: Actor, e: RowEvent, escrow: EscrowStatus)
    requires Answer(e).Some? && b.escrow != escrow
    ensures RowAfter(b, owner, now, who, e).escrow == escrow <==> MovesFunds(b, owner, now, who, e, escrow)
  {
    InvoicedIff(b);
  }

  /** The reference a request writes: of the invoice a callback reports as paid, or of a new invoice
      for a booking that has none to reuse. */
  function NewReference(b: Booking, who: Actor, e: RowEvent): Option<string> {
    match e
    case Webhook(token, _) => if Settling(b, who, e) then Some("PD-" + token) else None
    case Initiate(_, Some(token)) =>
      if who.id != b.tenantId || (b.bookingType == Monthly && b.status != Approved) then None
      else if Unpaid(b) && Invoiced(b) then None
      else Some("PD-" + token)
    case _ => None
  }

  lemma RowReference(b: Booking, owner: Id, now: int, who: Actor, e: RowEvent)
    ensures RowAfter(b, owner, now, who, e).paymentRef
         == if NewReference(b, who, e).Some? then NewReference(b, who, e) else b.paymentRef
  {
    InvoicedIff(b);
  }

  // ----- the tables -----

  predicate RemovesBooking(s: State, q: Request, id: Id)
    requires Linked(s) && id in s.bookings
  {
    var l := s.bookings[id].listingId;
    q.Remove? && q.id == l && (q.who.id == s.listings[l].ownerId || q.who.isAdmin)
  }

  /** A booking is there after a request unless its listing was removed; only a request about this very
      booking changes it. */
  lemma BookingAfter(s: State, now: int, q: Request, id: Id)
    requires Linked(s) && id in s.bookings
    ensures var b, t := s.bookings[id], Step(s, now, q).state;
            && (id in t.bookings <==> !RemovesBooking(s, q, id))
            && (id in t.bookings ==>
                  t.bookings[id] == if q.ForBooking? && q.id == id
                                    then RowAfter(b, s.listings[b.listingId].ownerId, now, q.who, q.event) else b)
  {
  }

  /** One request brings a booking into another status if and only if it is one of the causes of that
      status. */
  lemma StatusExact(s: State, now: int, q: Request, id: Id, status: BookingStatus)
    requires Linked(s) && id in s.bookings && id in Step(s, now, q).state.bookings && s.bookings[id].status != status
    ensures var b := s.bookings[id];
            Step(s, now, q).state.bookings[id].status == status
            <==> q.ForBooking? && q.id == id
                 && LeadsTo(b, s.listings[b.listingId].ownerId, now, q.who, q.event, status)
  {
    BookingAfter(s, now, q, id);
    if q.ForBooking? && q.id == id {
      var b := s.bookings[id];
      var owner := s.listings[b.listingId].ownerId;
      if Answer(q.event).Some? {
        RowStatusByGateway(b, owner, now, q.who, q.event, status);
      } else {
        RowStatusByPeople(b, owner, now, q.who, q.event, status);
      }
    }
  }

  /** One request moves the funds of a booking into another state if and only if it is one of the causes
      of that state. */
  lemma EscrowExact(s: State, now: int, q: Request, id: Id, escrow: EscrowStatus)
    requires Linked(s) && id in s.bookings && id in Step(s, now, q).state.bookings && s.bookings[id].escrow != escrow
    ensures var b := s.bookings[id];
            Step(s, now, q).state.bookings[id].escrow == escrow
            <==> q.ForBooking? && q.id == id
                 && MovesFunds(b, s.listings[b.listingId].ownerId, now, q.who, q.event, escrow)
  {
    BookingAfter(s, now, q, id);
    if q.ForBooking? && q.id == id {
      var b := s.bookings[id];
      var owner := s.listings[b.listingId].ownerId;
      if Answer(q.event).Some? {
        RowEscrowByGateway(b, owner, now, q.who, q.event, escrow);
      } else {
        RowEscrowByPeople(b, owner, now, q.who, q.event, escrow);
      }
    }
  }

  /** The reference of a booking is the last one written. */
  lemma ReferenceExact(s: State, now: int, q: Request, id: Id)
    requires Linked(s) && id in s.bookings && id in Step(s, now, q).state.bookings
    ensures var b, c := s.bookings[id], Step(s, now, q).state.bookings[id];
            c.paymentRef == if q.ForBooking? && q.id == id && NewReference(b, q.who, q.event).Some?
                            then NewReference(b, q.who, q.event) else b.paymentRef
  {
    BookingAfter(s, now, q, id);
    if q.ForBooking? && q.id == id {
      RowReference(s.bookings[id], s.listings[s.bookings[id].listingId].ownerId, now, q.who, q.event);
    }
  }

  // ----- stays that have begun -----

  /** A confirmed stay that has begun is cancelled only by an administrator who decides its dispute for
      the tenant, whatever has become of its funds. */
  lemma BegunStayCancelled(s: State, now: int, q: Request, id: Id)
    requires Linked(s) && id in s.bookings && id in Step(s, now, q).state.bookings
    requires s.bookings[id].status == Confirmed && s.bookings[id].start < now
    ensures Step(s, now, q).state.bookings[id].status == Cancelled
       <==> q.ForBooking? && q.id == id && q.event == ResolveDispute(false) && q.who.isAdmin
            && s.bookings[id].escrow == Disputed
  {
    StatusExact(s, now, q, id, Cancelled);
  }

  /** Cancelling one of the two parties' own booking: accepted, or refused with nothing changed, and
      refused exactly when it is over or a confirmed stay that has begun. */
  lemma CancelExact(s: State, now: int, id: Id, who: Actor)
    requires Linked(s) && id in s.bookings
    requires who.id == s.bookings[id].tenantId || who.id == s.listings[s.bookings[id].listingId].ownerId
    ensures var b, r := s.bookings[id], Step(s, now, ForBooking(id, who, RowEvent.Cancel));
            var refused := b.status == Cancelled || b.status == Completed || (b.status == Confirmed && b.start < now);
            && r.outcome == (if refused then BadRequest else Accepted)
            && (if refused then r.state == s else r.state.bookings[id].status == Cancelled)
  {
    assert s.bookings[id := s.bookings[id]] == s.bookings;
  }

  // ----- answers -----

  /** Who may send which request; callbacks and the two internal calls come without a name. */
  predicate MaySend(b: Booking, owner: Id, who: Actor, e: RowEvent) {
    match e
    case Approve => who.id == owner
    case Reject => who.id == owner
    case Confirm => who.id == owner
    case Terminate => who.id == owner || who.id == b.tenantId || who.isAdmin
    case Cancel => who.id == owner || who.id == b.tenantId
    case Complete => who.id == owner || who.isAdmin
    case ReportDispute => who.id == b.tenantId
    case ResolveDispute(_) => who.isAdmin
    case _ => true
  }

  /** The gateway cannot be reached by a callback, or took another amount. */
  predicate GatewayRefuses(b: Booking, who: Actor, e: RowEvent) {
    Counts(b, who, e)
    && ((e.Webhook? && Answer(e) == Some(Unreachable)) || (Answer(e).value.Paid? && !InFull(b, Answer(e).value.amount)))
  }

  /** Starting a payment: with an invoice at hand it goes on while nothing is decided; otherwise it needs
      a new invoice, and a lease needs its approval. */
  predicate Starts(b: Booking, who: Actor, e: RowEvent)
    requires e.Initiate?
  {
    && who.id == b.tenantId
    && if Unpaid(b) && Invoiced(b) then e.answer.Waiting? || e.answer.Unreachable?
       else (b.bookingType == Monthly ==> b.status == Approved) && e.invoice.Some?
  }

  lemma RowAnswer(b: Booking, owner: Id, now: int, who: Actor, e: RowEvent)
    ensures var permission := Permission(b, owner, who, e);
            var reply := RowStep(b, now, who.id == b.tenantId, e);
            var outcome := if permission != Accepted then permission else reply.outcome;
            && outcome != NotFound
            && (outcome == Forbidden <==> !MaySend(b, owner, who, e))
            && (outcome == Accepted <==>
                  match e
                  case Webhook(_, _) => !GatewayRefuses(b, who, e)
                  case Verify(_) => who.id == b.tenantId && !GatewayRefuses(b, who, e)
                  case Initiate(_, _) => Starts(b, who, e)
                  case _ => RowAfter(b, owner, now, who, e) != b)
  {
    InvoicedIff(b);
  }

  /** Apart from the gateway's requests, what is accepted is what changes the booking, and whoever may
      not send a request is told so. */
  lemma AnswerExact(s: State, now: int, id: Id, who: Actor, e: RowEvent)
    requires Linked(s) && id in s.bookings
    ensures var b, r := s.bookings[id], Step(s, now, ForBooking(id, who, e));
            && (r.outcome == Forbidden <==> !MaySend(b, s.listings[b.listingId].ownerId, who, e))
            && (r.outcome == Accepted <==>
                  match e
                  case Webhook(_, _) => !GatewayRefuses(b, who, e)
                  case Verify(_) => who.id == b.tenantId && !GatewayRefuses(b, who, e)
                  case Initiate(_, _) => Starts(b, who, e)
                  case _ => r.state.bookings[id] != b)
  {
    RowAnswer(s.bookings[id], s.listings[s.bookings[id].listingId].ownerId, now, who, e);
  }

  /** Nothing happens to a booking that is not there; a callback is told that all is well. */
  lemma UnknownBooking(s: State, now: int, id: Id, who: Actor, e: RowEvent)
    requires Linked(s) && id !in s.bookings
    ensures Step(s, now, ForBooking(id, who, e))
         == Reply(if e.Webhook? then Accepted else if e.ResolveDispute? && !who.isAdmin then Forbidden else NotFound, s)
  {
  }
}
