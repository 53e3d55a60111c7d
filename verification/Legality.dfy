/**
 The combinations of type, status and escrow a booking can be in: exactly those of the table
 below. Every run stays inside it, and every entry is reached by some run.
 */
module Legality {
  import opened Invoices
  import opened Wrappers
  import opened Market

  function LegalEscrows(ty: BookingType, st: BookingStatus): set<EscrowStatus> {
    match (ty, st)
    case (Nightly, Pending) => {AwaitingPayment}
    case (Nightly, Confirmed) => {AwaitingPayment, Held, Disputed, Released, Refunded}
    case (Nightly, Cancelled) => {AwaitingPayment, Disputed, Released, Refunded}
    case (Nightly, Completed) => {Released}
    case (Monthly, Requested) => {AwaitingPayment}
    case (Monthly, Approved) => {AwaitingPayment}
    case (Monthly, Rejected) => {AwaitingPayment}
    case (Monthly, Active) => {Held, Released, Refunded}
    case (Monthly, Terminated) => {Held, Released, Refunded}
    case (Monthly, Cancelled) => {AwaitingPayment, Released, Refunded}
    case _ => {}
  }

  predicate Legal(b: Booking) {
    b.escrow in LegalEscrows(b.bookingType, b.status)
  }

  ghost predicate AllLegal(s: State) {
    forall id | id in s.bookings :: Legal(s.bookings[id])
  }

  lemma RowKeepsLegal(b: Booking, now: int, byTenant: bool, e: RowEvent)
    requires Legal(b)
    ensures Legal(RowStep(b, now, byTenant, e).row)
  {
  }

  lemma StepKeepsLegal(s: State, now: int, q: Request)
    requires Linked(s) && AllLegal(s)
    ensures AllLegal(Step(s, now, q).state)
  {
    match q
    case ForBooking(id, who, e) =>
      if id in s.bookings {
        RowKeepsLegal(s.bookings[id], now, who.id == s.bookings[id].tenantId, e);
      }
    case _ =>
  }

  lemma {:induction false} RunKeepsLegal(s: State, tr: seq<Entry>)
    requires Linked(s) && AllLegal(s)
    ensures AllLegal(Run(s, tr))
  {
    if tr == [] {
    } else {
      RunKeepsLegal(s, tr[..|tr| - 1]);
      StepKeepsLegal(Run(s, tr[..|tr| - 1]), tr[|tr| - 1].now, tr[|tr| - 1].request);
    }
  }

  // ----- every entry of the table is reached -----

  const OWNER := Actor("owner", false, false)
  const TENANT := Actor("tenant", true, false)
  /** 15 000 FCFA a night or 300 000 a month with a deposit of two months, for leases from a month on. */
  const OFFER := Terms(Mixed, 300_000.0, Some(15_000.0), Some(1), None, Some(1), Some(2))
  const RATE := 0.1
  const MONTHS := 1.0
  const ARRIVAL := 8 * DAY
  const DEPARTURE := 9 * DAY

  predicate Holds(s: State, id: Id, ty: BookingType, st: BookingStatus, es: EscrowStatus) {
    id in s.bookings
    && s.bookings[id].bookingType == ty && s.bookings[id].status == st && s.bookings[id].escrow == es
  }

  ghost predicate Reachable(ty: BookingType, st: BookingStatus, es: EscrowStatus) {
    exists tr, id :: Chronological(tr) && Holds(Run(EMPTY, tr), id, ty, st, es)
  }

  /** A run of the empty marketplace, over by `now`, ends with booking "b" in row `b`. */
  ghost predicate Shows(tr: seq<Entry>, now: int, b: Booking) {
    && Chronological(tr)
    && (forall i | 0 <= i < |tr| :: tr[i].now <= now)
    && Ends(Run(EMPTY, tr), b)
  }

  predicate Ends(s: State, b: Booking) {
    && "b" in s.bookings && s.bookings["b"] == b
    && b.tenantId == TENANT.id
    && b.listingId in s.listings && s.listings[b.listingId].ownerId == OWNER.id
  }

  ghost predicate Shown(now: int, b: Booking) {
    exists tr :: Shows(tr, now, b)
  }

  const STAY := NewStay("l", TENANT.id, OFFER, ARRIVAL, Some(DEPARTURE), RATE)
  const LEASE := NewLease("l", TENANT.id, OFFER, ARRIVAL, MONTHS)

  /** What the stories cost. */
  lemma Prices()
    ensures STAY.totalAmount == 15_000 && STAY.platformFee == 1_500 && STAY.landlordAmount == 13_500
    ensures LEASE.totalAmount == 900_000 && LEASE.platformFee == 300_000 && LEASE.landlordAmount == 600_000
  {
    assert Nights(ARRIVAL, Some(DEPARTURE)) == 1;
    assert Deposit(OFFER) == 600_000;
  }

  /** The gateway reports that a booking's price was paid. */
  function PaysFor(b: Booking): RowEvent {
    Webhook("t", Paid(b.totalAmount as real))
  }

  const PUBLISH := Entry(0, NewListing("l", OWNER.id, OFFER, true, Accepted))

  lemma Published(booked: Entry) returns (tr: seq<Entry>)
    ensures tr == [PUBLISH, booked] && Run(EMPTY, tr) == After(After(EMPTY, PUBLISH), booked)
  {
    tr := [PUBLISH, booked];
    assert tr[..1] == [PUBLISH];
    assert Run(EMPTY, [PUBLISH]) == After(EMPTY, PUBLISH) by {
      assert [PUBLISH][..0] == [];
    }
  }

  const HOME := Listing(OWNER.id, ListingStatus.Active, OFFER)

  lemma StayBooked() returns (tr: seq<Entry>)
    ensures tr == [PUBLISH, Entry(0, Book("b", TENANT.id, "l", ARRIVAL, Some(DEPARTURE), RATE))]
    ensures Run(EMPTY, tr) == State(map["b" := STAY], map["l" := HOME], [])
  {
    assert OWNER.id[0] == 'o' && TENANT.id[0] == 't';
    assert Nights(ARRIVAL, Some(DEPARTURE)) == 1;
    tr := Published(Entry(0, Book("b", TENANT.id, "l", ARRIVAL, Some(DEPARTURE), RATE)));
    assert After(EMPTY, PUBLISH) == State(map[], map["l" := HOME], []);
  }

  lemma StayOpened()
    ensures Shown(0, STAY)
  {
    var tr := StayBooked();
    assert Shows(tr, 0, STAY);
  }

  lemma LeaseOpened()
    ensures Shown(0, LEASE)
  {
    assert OWNER.id[0] == 'o' && TENANT.id[0] == 't';
    var tr := Published(Entry(0, AskLease("b", TENANT.id, "l", ARRIVAL, MONTHS)));
    assert Shows(tr, 0, LEASE);
  }

  lemma StepEnds(s: State, b: Booking, later: int, who: Actor, e: RowEvent)
    requires Linked(s) && Ends(s, b) && Permission(b, OWNER.id, who, e) == Accepted
    ensures Ends(Step(s, later, ForBooking("b", who, e)).state, RowStep(b, later, who.id == TENANT.id, e).row)
  {
  }

  /** One more permitted request. */
  lemma Extended(now: int, b: Booking, later: int, who: Actor, e: RowEvent) returns (c: Booking)
    requires Shown(now, b) && now <= later
    requires Permission(b, OWNER.id, who, e) == Accepted
    ensures c == RowStep(b, later, who.id == TENANT.id, e).row
    ensures Shown(later, c)
    ensures Reachable(c.bookingType, c.status, c.escrow)
  {
    var tr :| Shows(tr, now, b);
    var longer := tr + [Entry(later, ForBooking("b", who, e))];
    c := RowStep(b, later, who.id == TENANT.id, e).row;
    assert longer[..|longer| - 1] == tr;
    StepEnds(Run(EMPTY, tr), b, later, who, e);
    assert Shows(longer, later, c);
    assert Holds(Run(EMPTY, longer), "b", c.bookingType, c.status, c.escrow);
  }

  // ----- a short story for each entry -----

  datatype Story = End | Then(now: int, who: Actor, event: RowEvent, rest: Story)

  ghost predicate Permitted(b: Booking, from: int, story: Story)
    decreases story
  {
    match story
    case End => true
    case Then(now, who, e, rest) =>
      && from <= now
      && Permission(b, OWNER.id, who, e) == Accepted
      && Permitted(RowStep(b, now, who.id == TENANT.id, e).row, now, rest)
  }

  ghost function Told(b: Booking, story: Story): Booking
    decreases story
  {
    match story
    case End => b
    case Then(now, who, e, rest) => Told(RowStep(b, now, who.id == TENANT.id, e).row, rest)
  }

  lemma {:induction false} StoryShown(b: Booking, from: int, story: Story)
    requires Permitted(b, from, story) && Shown(from, b)
    decreases story
    ensures var c := Told(b, story); Reachable(c.bookingType, c.status, c.escrow)
  {
    match story
    case End =>
      var tr :| Shows(tr, from, b);
      assert Holds(Run(EMPTY, tr), "b", b.bookingType, b.status, b.escrow);
    case Then(now, who, e, rest) =>
      var c := Extended(from, b, now, who, e);
      StoryShown(c, now, rest);
  }

  function PaidThen(b: Booking, rest: Story): Story {
    Then(0, TENANT, PaysFor(b), rest)
  }

  function StayEnding(st: BookingStatus): Story {
    if st == Cancelled then Then(ARRIVAL, TENANT, Cancel, End) else End
  }

  function StayStory(st: BookingStatus, es: EscrowStatus): Story {
    var cancelled := StayEnding(st);
    match es
    case AwaitingPayment =>
      if st == Pending then End else if st == Cancelled then cancelled else Then(0, OWNER, Confirm, End)
    case Held => PaidThen(STAY, End)
    case Disputed => PaidThen(STAY, Then(ARRIVAL, TENANT, ReportDispute, cancelled))
    case Released =>
      if st == Completed then PaidThen(STAY, Then(DEPARTURE, OWNER, Complete, End))
      else PaidThen(STAY, Then(0, TENANT, Release, cancelled))
    case Refunded => PaidThen(STAY, Then(0, TENANT, Refund, cancelled))
  }

  function LeaseEnding(st: BookingStatus): Story {
    if st == Cancelled then Then(0, TENANT, Cancel, End)
    else if st == Terminated then Then(0, TENANT, Terminate, End) else End
  }

  function ApprovedAndPaid(rest: Story): Story {
    Then(0, OWNER, Approve, PaidThen(LEASE, rest))
  }

  function LeaseStory(st: BookingStatus, es: EscrowStatus): Story {
    var ended := LeaseEnding(st);
    match es
    case AwaitingPayment =>
      if st == Approved then Then(0, OWNER, Approve, End)
      else if st == Rejected then Then(0, OWNER, Reject, End) else ended
    case Released => ApprovedAndPaid(Then(0, TENANT, Release, ended))
    case Refunded => ApprovedAndPaid(Then(0, TENANT, Refund, ended))
    case _ => ApprovedAndPaid(ended)
  }

  predicate Reads(b: Booking, st: BookingStatus, es: EscrowStatus) {
    b.status == st && b.escrow == es
  }

  /** A booking as the stories begin. */
  predicate Begins(b: Booking) {
    b.tenantId == TENANT.id && b.start == ARRIVAL && b.escrow == AwaitingPayment
    && (b.bookingType.Nightly? ==> b.status == Pending && b.end == Some(DEPARTURE) && b.totalAmount == STAY.totalAmount)
    && (b.bookingType.Monthly? ==> b.status == Requested && b.totalAmount == LEASE.totalAmount)
  }

  lemma Next(b: Booking, from: int, now: int, who: Actor, e: RowEvent, rest: Story)
    requires from <= now && Permission(b, OWNER.id, who, e) == Accepted
    ensures var c, story := RowStep(b, now, who.id == TENANT.id, e).row, Then(now, who, e, rest);
            Told(b, story) == Told(c, rest) && Permitted(b, from, story) == Permitted(c, now, rest)
  {
  }

  lemma PaidFirst(b: Booking, price: Booking, rest: Story)
    requires b.tenantId == TENANT.id && b.totalAmount == price.totalAmount
    requires b.status == Pending || b.status == Approved
    ensures var paid := MarkPaid(b, Some(Ref("t")));
            && Permitted(b, 0, PaidThen(price, rest)) == Permitted(paid, 0, rest)
            && Told(b, PaidThen(price, rest)) == Told(paid, rest)
  {
    Next(b, 0, 0, TENANT, PaysFor(price), rest);
  }

  lemma StayEndingTold(b: Booking, st: BookingStatus, now: int)
    requires b.bookingType.Nightly? && b.tenantId == TENANT.id && b.status == Confirmed && b.escrow != Held
    requires now <= ARRIVAL == b.start && (st == Confirmed || st == Cancelled)
    ensures Permitted(b, now, StayEnding(st)) && Reads(Told(b, StayEnding(st)), st, b.escrow)
  {
    if st == Cancelled {
      Next(b, now, ARRIVAL, TENANT, Cancel, End);
    }
  }

  lemma UnpaidStayTold(b: Booking, st: BookingStatus)
    requires Begins(b) && b.bookingType.Nightly? && AwaitingPayment in LegalEscrows(Nightly, st)
    ensures var story := StayStory(st, AwaitingPayment);
            Permitted(b, 0, story) && Reads(Told(b, story), st, AwaitingPayment)
  {
    if st == Cancelled {
      Next(b, 0, ARRIVAL, TENANT, Cancel, End);
    } else if st == Confirmed {
      Next(b, 0, 0, OWNER, Confirm, End);
    }
  }

  predicate PaidStay(b: Booking) {
    && b.bookingType.Nightly? && b.tenantId == TENANT.id && Reads(b, Confirmed, Held)
    && b.start == ARRIVAL && b.end == Some(DEPARTURE)
  }

  lemma DisputedStayTold(paid: Booking, st: BookingStatus)
    requires PaidStay(paid) && (st == Confirmed || st == Cancelled)
    ensures var rest := StayStory(st, Disputed).rest; Permitted(paid, 0, rest) && Reads(Told(paid, rest), st, Disputed)
  {
    Next(paid, 0, ARRIVAL, TENANT, ReportDispute, StayEnding(st));
    StayEndingTold(RowStep(paid, ARRIVAL, true, ReportDispute).row, st, ARRIVAL);
  }

  lemma CompletedStayTold(paid: Booking)
    requires PaidStay(paid)
    ensures var rest := StayStory(Completed, Released).rest;
            Permitted(paid, 0, rest) && Reads(Told(paid, rest), Completed, Released)
  {
    Next(paid, 0, DEPARTURE, OWNER, Complete, End);
  }

  lemma ReleasedStayTold(paid: Booking, st: BookingStatus)
    requires PaidStay(paid) && (st == Confirmed || st == Cancelled)
    ensures var rest := StayStory(st, Released).rest; Permitted(paid, 0, rest) && Reads(Told(paid, rest), st, Released)
  {
    Next(paid, 0, 0, TENANT, Release, StayEnding(st));
    StayEndingTold(RowStep(paid, 0, true, Release).row, st, 0);
  }

  lemma RefundedStayTold(paid: Booking, st: BookingStatus)
    requires PaidStay(paid) && (st == Confirmed || st == Cancelled)
    ensures var rest := StayStory(st, Refunded).rest; Permitted(paid, 0, rest) && Reads(Told(paid, rest), st, Refunded)
  {
    Next(paid, 0, 0, TENANT, Refund, StayEnding(st));
    StayEndingTold(RowStep(paid, 0, true, Refund).row, st, 0);
  }

  lemma StayStoryTold(b: Booking, st: BookingStatus, es: EscrowStatus)
    requires Begins(b) && b.bookingType.Nightly? && es in LegalEscrows(Nightly, st)
    ensures Permitted(b, 0, StayStory(st, es)) && Reads(Told(b, StayStory(st, es)), st, es)
  {
    var paid := MarkPaid(b, Some(Ref("t")));
    if es == AwaitingPayment {
      UnpaidStayTold(b, st);
    } else {
      PaidFirst(b, STAY, StayStory(st, es).rest);
      match es
      case Held =>
      case Disputed => DisputedStayTold(paid, st);
      case Released => if st == Completed { CompletedStayTold(paid); } else { ReleasedStayTold(paid, st); }
      case Refunded => RefundedStayTold(paid, st);
    }
  }

  lemma UnpaidLeaseTold(b: Booking, st: BookingStatus)
    requires Begins(b) && b.bookingType.Monthly? && AwaitingPayment in LegalEscrows(Monthly, st)
    ensures var story := LeaseStory(st, AwaitingPayment);
            Permitted(b, 0, story) && Reads(Told(b, story), st, AwaitingPayment)
  {
    if st == Approved {
      Next(b, 0, 0, OWNER, Approve, End);
    } else if st == Rejected {
      Next(b, 0, 0, OWNER, Reject, End);
    } else if st == Cancelled {
      Next(b, 0, 0, TENANT, Cancel, End);
    }
  }

  lemma LeaseEndingTold(b: Booking, st: BookingStatus)
    requires b.bookingType.Monthly? && b.tenantId == TENANT.id && b.status == BookingStatus.Active
    requires st in {BookingStatus.Active, Terminated, Cancelled} && (st == Cancelled ==> b.escrow != Held)
    ensures Permitted(b, 0, LeaseEnding(st)) && Reads(Told(b, LeaseEnding(st)), st, b.escrow)
  {
    if st == Cancelled {
      Next(b, 0, 0, TENANT, Cancel, End);
    } else if st == Terminated {
      Next(b, 0, 0, TENANT, Terminate, End);
    }
  }

  lemma MovedLeaseTold(paid: Booking, st: BookingStatus, es: EscrowStatus)
    requires paid.bookingType.Monthly? && paid.tenantId == TENANT.id && Reads(paid, BookingStatus.Active, Held)
    requires es in {Released, Refunded} && st in {BookingStatus.Active, Terminated, Cancelled}
    ensures var rest := LeaseStory(st, es).rest.rest; Permitted(paid, 0, rest) && Reads(Told(paid, rest), st, es)
  {
    var e := if es == Released then RowEvent.Release else RowEvent.Refund;
    Next(paid, 0, 0, TENANT, e, LeaseEnding(st));
    LeaseEndingTold(RowStep(paid, 0, true, e).row, st);
  }

  lemma ApprovedFirst(b: Booking, rest: Story)
    requires Begins(b) && b.bookingType.Monthly?
    ensures var paid := MarkPaid(b.(status := Approved), Some(Ref("t")));
            && Permitted(b, 0, ApprovedAndPaid(rest)) == Permitted(paid, 0, rest)
            && Told(b, ApprovedAndPaid(rest)) == Told(paid, rest)
  {
    Next(b, 0, 0, OWNER, Approve, PaidThen(LEASE, rest));
    PaidFirst(b.(status := Approved), LEASE, rest);
  }

  lemma LeaseStoryTold(b: Booking, st: BookingStatus, es: EscrowStatus)
    requires Begins(b) && b.bookingType.Monthly? && es in LegalEscrows(Monthly, st)
    ensures Permitted(b, 0, LeaseStory(st, es)) && Reads(Told(b, LeaseStory(st, es)), st, es)
  {
    if es == AwaitingPayment {
      UnpaidLeaseTold(b, st);
    } else {
      var paid := MarkPaid(b.(status := Approved), Some(Ref("t")));
      ApprovedFirst(b, LeaseStory(st, es).rest.rest);
      if es == Held {
        LeaseEndingTold(paid, st);
      } else {
        MovedLeaseTold(paid, st, es);
      }
    }
  }

  lemma {:induction false} ToldKeepsType(b: Booking, story: Story)
    ensures Told(b, story).bookingType == b.bookingType
    decreases story
  {
    match story
    case End =>
    case Then(now, who, e, rest) => ToldKeepsType(RowStep(b, now, who.id == TENANT.id, e).row, rest);
  }

  /** The table is exact. */
  lemma ReachableExactly(ty: BookingType, st: BookingStatus, es: EscrowStatus)
    ensures Reachable(ty, st, es) <==> es in LegalEscrows(ty, st)
  {
    if Reachable(ty, st, es) {
      var tr, id :| Chronological(tr) && Holds(Run(EMPTY, tr), id, ty, st, es);
      RunKeepsLegal(EMPTY, tr);
    }
    if es in LegalEscrows(ty, st) {
      StayOpened();
      LeaseOpened();
      if ty.Nightly? {
        StayStoryTold(STAY, st, es);
        ToldKeepsType(STAY, StayStory(st, es));
        StoryShown(STAY, 0, StayStory(st, es));
      } else {
        LeaseStoryTold(LEASE, st, es);
        ToldKeepsType(LEASE, LeaseStory(st, es));
        StoryShown(LEASE, 0, LeaseStory(st, es));
      }
    }
  }
}
