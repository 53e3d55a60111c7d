/**
 No two stays hold the same listing at the same instant. Every request keeps this, with one
 exception, stated exactly: a payment confirmed for a nightly booking that no longer held its
 dates, when those dates have been given away since.
 */
module DoubleBooking {
  import opened Invoices
  import opened Wrappers
  import opened Market
  import opened Legality

  /** Stays are closed intervals; an open-ended one lasts until the far future. */
  predicate Occupies(b: Booking, t: int) {
    b.start <= t <= b.end.GetOr(FAR_FUTURE)
  }

  ghost predicate Clash(a: Booking, b: Booking) {
    a.listingId == b.listingId && exists t :: Occupies(a, t) && Occupies(b, t)
  }

  ghost predicate NoDoubleBooking(s: State) {
    forall i, j | i in s.bookings && j in s.bookings && i != j
      && HoldsDates(s.bookings[i]) && HoldsDates(s.bookings[j]) :: !Clash(s.bookings[i], s.bookings[j])
  }

  /** The guards under which a webhook or an active check marks the booking paid. */
  predicate Settles(b: Booking, e: RowEvent) {
    match e
    case Webhook(_, Paid(amount)) =>
      AmountMatches(b, amount) && b.status !in {Confirmed, Completed, BookingStatus.Active, Terminated}
    case Verify(Paid(amount)) =>
      AmountMatches(b, amount) && b.status !in {Confirmed, BookingStatus.Active} && HasInvoice(b)
    case Initiate(Paid(amount), _) =>
      AmountMatches(b, amount) && b.status == Payable(b) && HasInvoice(b)
    case _ => false
  }

  /** The request confirms a payment of booking `q.id`. */
  predicate Pays(s: State, q: Request) {
    && q.ForBooking?
    && q.id in s.bookings
    && (q.event.Webhook? || q.who.id == s.bookings[q.id].tenantId)
    && Settles(s.bookings[q.id], q.event)
  }

  /** A payment confirmed for a stay whose dates somebody else holds by now. */
  ghost predicate RevivesOntoTakenDates(s: State, q: Request) {
    && Pays(s, q)
    && var b := s.bookings[q.id];
    && b.bookingType.Nightly?
    && !HoldsDates(b)
    && exists j :: j in s.bookings && j != q.id && HoldsDates(s.bookings[j]) && Clash(b, s.bookings[j])
  }

  /** `Payment` is set off exactly under the guards of `Settles`, and then the row is marked paid. */
  lemma PaymentIffSettles(b: Booking, now: int, byTenant: bool, e: RowEvent)
    ensures RowStep(b, now, byTenant, e).effect.Payment? <==> Settles(b, e)
    ensures Settles(b, e) ==>
      exists ref :: RowStep(b, now, byTenant, e).row == MarkPaid(b, ref) && (e.Webhook? || ref == None)
  {
    if Settles(b, e) {
      var ref := if e.Webhook? then Some(Ref(e.token)) else None;
      assert RowStep(b, now, byTenant, e).row == MarkPaid(b, ref);
    }
  }

  /** Apart from payments, no event on a row makes it hold dates it did not hold. */
  lemma OnlyPaymentTakesDates(b: Booking, now: int, byTenant: bool, e: RowEvent)
    ensures var c := RowStep(b, now, byTenant, e).row;
            && c.listingId == b.listingId && c.start == b.start && c.end == b.end && c.bookingType == b.bookingType
            && (Settles(b, e) && b.bookingType.Nightly? ==> HoldsDates(c))
            && (HoldsDates(c) ==> HoldsDates(b) || (Settles(b, e) && b.bookingType.Nightly?))
  {
    PaymentIffSettles(b, now, byTenant, e);
  }

  lemma ClashIsOverlap(a: Booking, b: Booking)
    requires a.listingId == b.listingId
    ensures Clash(a, b) <==> Max(a.start, b.start) <= Min(a.end.GetOr(FAR_FUTURE), b.end.GetOr(FAR_FUTURE))
  {
    var t := Max(a.start, b.start);
    if t <= Min(a.end.GetOr(FAR_FUTURE), b.end.GetOr(FAR_FUTURE)) {
      assert Occupies(a, t) && Occupies(b, t);
    }
  }

  /** The booking-time query finds every stay that would share an instant with the new one. */
  lemma QueryFindsClashes(b: Booking, c: Booking)
    requires Clash(b, c) && HoldsDates(b)
    ensures InTheWay(b, c.listingId, c.start, c.end)
  {
    ClashIsOverlap(b, c);
  }

  lemma BookingEventExact(s: State, now: int, q: Request)
    requires Linked(s) && NoDoubleBooking(s) && q.ForBooking? && q.id in s.bookings
    ensures NoDoubleBooking(Step(s, now, q).state) <==> !RevivesOntoTakenDates(s, q)
  {
    var b, t := s.bookings[q.id], Step(s, now, q).state;
    var judged := Judge(s, now, q.id, q.who, q.event);
    var c := judged.row;
    OnlyPaymentTakesDates(b, now, q.who.id == b.tenantId, q.event);
    assert t.bookings == s.bookings[q.id := c];
    assert forall j | j in s.bookings :: Clash(c, s.bookings[j]) == Clash(b, s.bookings[j]);
    assert forall j | j in s.bookings :: Clash(s.bookings[j], c) == Clash(s.bookings[j], b);
    if RevivesOntoTakenDates(s, q) {
      var j :| j in s.bookings && j != q.id && HoldsDates(s.bookings[j]) && Clash(b, s.bookings[j]);
      assert HoldsDates(t.bookings[q.id]) && t.bookings[j] == s.bookings[j] && Clash(t.bookings[q.id], t.bookings[j]);
    }
  }

  lemma NewStayKeeps(s: State, now: int, q: Request)
    requires Linked(s) && NoDoubleBooking(s) && q.Book?
    ensures NoDoubleBooking(Step(s, now, q).state)
  {
    var r := Step(s, now, q);
    if r.outcome == Accepted {
      var c := r.state.bookings[q.id];
      forall j | j in s.bookings && HoldsDates(s.bookings[j])
        ensures !Clash(s.bookings[j], c) && !Clash(c, s.bookings[j])
      {
        if Clash(s.bookings[j], c) || Clash(c, s.bookings[j]) {
          assert Clash(s.bookings[j], c);
          QueryFindsClashes(s.bookings[j], c);
          assert false;
        }
      }
    }
  }

  /** One request keeps the invariant if and only if it is not such a late confirmation. */
  lemma StepExact(s: State, now: int, q: Request)
    requires Linked(s) && NoDoubleBooking(s)
    ensures NoDoubleBooking(Step(s, now, q).state) <==> !RevivesOntoTakenDates(s, q)
  {
    match q
    case ForBooking(id, _, _) => if id in s.bookings { BookingEventExact(s, now, q); }
    case Book(_, _, _, _, _, _) => NewStayKeeps(s, now, q);
    case AskLease(id, _, _, _, _) =>
      assert !HoldsDates(NewLease("", "", Terms(Mixed, 0.0, None, None, None, None, None), 0, 0.0));
    case Remove(_, _) =>
    case _ =>
  }

  /** Every state of the run, the last one included, is free of double bookings. */
  ghost predicate NeverDoubleBooked(s: State, tr: seq<Entry>)
    requires Linked(s)
  {
    NoDoubleBooking(Run(s, tr)) && (tr != [] ==> NeverDoubleBooked(s, tr[..|tr| - 1]))
  }

  /** No request of the run is a payment confirmed for a stay whose dates have been given away. */
  ghost predicate NoneRevivedOntoTakenDates(s: State, tr: seq<Entry>)
    requires Linked(s)
  {
    tr != [] ==>
      && !RevivesOntoTakenDates(Run(s, tr[..|tr| - 1]), tr[|tr| - 1].request)
      && NoneRevivedOntoTakenDates(s, tr[..|tr| - 1])
  }

  /** Over every run: never double booked if and only if no payment comes that late. */
  lemma {:induction false} RunExact(s: State, tr: seq<Entry>)
    requires Linked(s) && NoDoubleBooking(s)
    ensures NeverDoubleBooked(s, tr) <==> NoneRevivedOntoTakenDates(s, tr)
  {
    if tr == [] {
    } else {
      var shorter, e := tr[..|tr| - 1], tr[|tr| - 1];
      RunExact(s, shorter);
      if NoDoubleBooking(Run(s, shorter)) {
        StepExact(Run(s, shorter), e.now, e.request);
      }
    }
  }

  /** No payment of the run is confirmed for a stay that is cancelled or completed. */
  ghost predicate NoLateConfirmation(s: State, tr: seq<Entry>)
    requires Linked(s)
  {
    tr != [] ==>
      var before, q := Run(s, tr[..|tr| - 1]), tr[|tr| - 1].request;
      && !(Pays(before, q) && before.bookings[q.id].status in {Cancelled, Completed})
      && NoLateConfirmation(s, tr[..|tr| - 1])
  }

  /** From any legal state, the only payments to fear are those of cancelled or completed stays. */
  lemma {:induction false} NoLateConfirmationSuffices(s: State, tr: seq<Entry>)
    requires Linked(s) && AllLegal(s) && NoLateConfirmation(s, tr)
    ensures NoneRevivedOntoTakenDates(s, tr)
  {
    if tr == [] {
    } else {
      NoLateConfirmationSuffices(s, tr[..|tr| - 1]);
      RunKeepsLegal(s, tr[..|tr| - 1]);
    }
  }

  // ----- why the exception is there -----

  const HOUSE := Listing("o", ListingStatus.Active, OFFER)
  const GUEST := Actor("g", false, false)
  const FIRST := NewStay("l", "g", OFFER, ARRIVAL, Some(DEPARTURE), RATE)

  function Asks(id: Id): Entry {
    Entry(0, Book(id, "g", "l", ARRIVAL, Some(DEPARTURE), RATE))
  }

  lemma RunOn(tr: seq<Entry>, e: Entry)
    ensures Run(EMPTY, tr + [e]) == After(Run(EMPTY, tr), e)
  {
    assert (tr + [e])[..|tr|] == tr;
  }

  const OPENS := Entry(0, NewListing("l", "o", OFFER, true, Accepted))

  lemma HouseListed()
    ensures After(EMPTY, OPENS) == State(map[], map["l" := HOUSE], [])
  {
  }

  lemma FirstAsked(s: State)
    requires s == State(map[], map["l" := HOUSE], [])
    ensures After(s, Asks("a")) == State(map["a" := FIRST], map["l" := HOUSE], [])
  {
    assert Nights(ARRIVAL, Some(DEPARTURE)) == 1;
  }

  lemma FirstBooked()
    ensures Run(EMPTY, [] + [OPENS] + [Asks("a")]) == State(map["a" := FIRST], map["l" := HOUSE], [])
  {
    RunOn([], OPENS);
    RunOn([] + [OPENS], Asks("a"));
    HouseListed();
    FirstAsked(After(EMPTY, OPENS));
  }

  lemma DatesGivenAway(s: State)
    requires s == State(map["a" := FIRST], map["l" := HOUSE], [])
    ensures var gone := FIRST.(status := Cancelled);
            After(After(s, Entry(0, ForBooking("a", GUEST, Cancel))), Asks("b"))
            == State(map["a" := gone, "b" := FIRST], map["l" := HOUSE], [])
  {
    var gone := FIRST.(status := Cancelled);
    assert After(s, Entry(0, ForBooking("a", GUEST, Cancel))) == State(map["a" := gone], map["l" := HOUSE], []);
    assert "a"[0] != "b"[0];
    assert Nights(ARRIVAL, Some(DEPARTURE)) == 1;
  }

  lemma PaymentComesIn(s: State)
    requires s == State(map["a" := FIRST.(status := Cancelled), "b" := FIRST], map["l" := HOUSE], [])
    ensures !NoDoubleBooking(After(s, Entry(0, ForBooking("a", GUEST, PaysFor(FIRST)))))
  {
    var t := After(s, Entry(0, ForBooking("a", GUEST, PaysFor(FIRST))));
    assert "a"[0] != "b"[0];
    var a, b := t.bookings["a"], t.bookings["b"];
    assert Occupies(a, ARRIVAL) && Occupies(b, ARRIVAL);
    assert Clash(a, b);
  }

  lemma StoryRun(tr: seq<Entry>, e1: Entry, e2: Entry, e3: Entry)
    ensures Run(EMPTY, tr + [e1] + [e2] + [e3]) == After(After(After(Run(EMPTY, tr), e1), e2), e3)
  {
    RunOn(tr, e1);
    RunOn(tr + [e1], e2);
    RunOn(tr + [e1] + [e2], e3);
  }

  lemma AllAtOnce(tr: seq<Entry>, e1: Entry, e2: Entry, e3: Entry)
    requires forall i | 0 <= i < |tr| :: tr[i].now == 0
    requires e1.now == e2.now == e3.now == 0
    ensures Chronological(tr + [e1] + [e2] + [e3])
  {
  }

  /** A stay is booked and cancelled, its dates are booked again, and then the payment of the
      first booking comes in: both hold the listing. */
  lemma LatePaymentDoubleBooks()
    ensures exists tr :: Chronological(tr) && !NoDoubleBooking(Run(EMPTY, tr))
  {
    var tr := [] + [OPENS] + [Asks("a")];
    var cancels := Entry(0, ForBooking("a", GUEST, Cancel));
    var pays := Entry(0, ForBooking("a", GUEST, PaysFor(FIRST)));
    var story := tr + [cancels] + [Asks("b")] + [pays];
    assert !NoDoubleBooking(Run(EMPTY, story)) by {
      StoryRun(tr, cancels, Asks("b"), pays);
      var s := Run(EMPTY, tr);
      FirstBooked();
      DatesGivenAway(s);
      PaymentComesIn(After(After(s, cancels), Asks("b")));
    }
    AllAtOnce(tr, cancels, Asks("b"), pays);
  }
}
