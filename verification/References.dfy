/**
 The references of invoices. The webhook takes the booking and the token from the callback and
 compares neither with what the booking was given, so one paid invoice can stand for two bookings.
 */
module References {
  import opened DoubleBooking
  import opened Invoices
  import opened Legality
  import opened Market
  import opened Wrappers

  ghost predicate RefsApart(s: State) {
    forall i, j | i in s.bookings && j in s.bookings && i != j && s.bookings[i].paymentRef.Some? ::
      s.bookings[i].paymentRef != s.bookings[j].paymentRef
  }

  /** The reference an event writes: of the invoice a webhook reports as paid, or of a new one. */
  function NewRef(b: Booking, e: RowEvent): Option<string> {
    match e
    case Webhook(token, _) => if Settles(b, e) then Some(Ref(token)) else None
    case Initiate(_, Some(token)) =>
      if b.bookingType.Monthly? && b.status != Approved then None
      else if b.status == Payable(b) && HasInvoice(b) then None
      else Some(Ref(token))
    case _ => None
  }

  /** A request writes a reference that another booking has. */
  ghost predicate RepeatsRef(s: State, q: Request) {
    && q.ForBooking? && q.id in s.bookings
    && (q.event.Webhook? || q.who.id == s.bookings[q.id].tenantId)
    && NewRef(s.bookings[q.id], q.event).Some?
    && exists j :: j in s.bookings && j != q.id && s.bookings[j].paymentRef == NewRef(s.bookings[q.id], q.event)
  }

  lemma RowRef(b: Booking, now: int, byTenant: bool, e: RowEvent)
    ensures RowStep(b, now, byTenant, e).row.paymentRef
         == if NewRef(b, e).Some? then NewRef(b, e) else b.paymentRef
  {
  }

  lemma RowWritten(s: State, t: State, id: Id, row: Booking, ref: Option<string>)
    requires RefsApart(s) && id in s.bookings && t.bookings == s.bookings[id := row]
    requires row.paymentRef == if ref.Some? then ref else s.bookings[id].paymentRef
    ensures RefsApart(t)
       <==> (ref.None? || forall j | j in s.bookings && j != id :: s.bookings[j].paymentRef != ref)
  {
    if j :| j in s.bookings && j != id && ref.Some? && s.bookings[j].paymentRef == ref {
      assert t.bookings[j].paymentRef == t.bookings[id].paymentRef;
    }
  }

  lemma BookingEventExact(s: State, now: int, q: Request)
    requires Linked(s) && RefsApart(s) && q.ForBooking? && q.id in s.bookings
    ensures RefsApart(Step(s, now, q).state) <==> !RepeatsRef(s, q)
  {
    var b, t := s.bookings[q.id], Step(s, now, q).state;
    var row := Judge(s, now, q.id, q.who, q.event).row;
    assert t.bookings == s.bookings[q.id := row];
    if Permission(b, s.listings[b.listingId].ownerId, q.who, q.event) == Accepted {
      RowRef(b, now, q.who.id == b.tenantId, q.event);
      RowWritten(s, t, q.id, row, NewRef(b, q.event));
    } else {
      RowWritten(s, t, q.id, row, None);
    }
  }

  /** Two bookings come to share a reference exactly by a payment confirmed by a webhook, or a new
      invoice, whose reference another booking has. */
  lemma StepExact(s: State, now: int, q: Request)
    requires Linked(s) && RefsApart(s)
    ensures RefsApart(Step(s, now, q).state) <==> !RepeatsRef(s, q)
  {
    if q.ForBooking? && q.id in s.bookings {
      BookingEventExact(s, now, q);
    } else {
      OthersKeep(s, now, q);
    }
  }

  lemma OthersKeep(s: State, now: int, q: Request)
    requires Linked(s) && RefsApart(s) && !(q.ForBooking? && q.id in s.bookings)
    ensures RefsApart(Step(s, now, q).state)
  {
    var t := Step(s, now, q).state;
    forall i | i in t.bookings && t.bookings[i].paymentRef.Some?
      ensures i in s.bookings && t.bookings[i] == s.bookings[i]
    {
    }
  }

  /** Every state of the run, the last one included, has its references apart. */
  ghost predicate AlwaysApart(s: State, tr: seq<Entry>)
    requires Linked(s)
  {
    RefsApart(Run(s, tr)) && (tr != [] ==> AlwaysApart(s, tr[..|tr| - 1]))
  }

  ghost predicate NoneRepeats(s: State, tr: seq<Entry>)
    requires Linked(s)
  {
    tr != [] ==>
      !RepeatsRef(Run(s, tr[..|tr| - 1]), tr[|tr| - 1].request) && NoneRepeats(s, tr[..|tr| - 1])
  }

  /** Over every run: always apart if and only if no request repeats a reference. */
  lemma {:induction false} RunExact(s: State, tr: seq<Entry>)
    requires Linked(s) && RefsApart(s)
    ensures AlwaysApart(s, tr) <==> NoneRepeats(s, tr)
  {
    if tr == [] {
    } else {
      var shorter, e := tr[..|tr| - 1], tr[|tr| - 1];
      RunExact(s, shorter);
      if RefsApart(Run(s, shorter)) {
        StepExact(Run(s, shorter), e.now, e.request);
      }
    }
  }

  // ----- one invoice, two bookings -----

  const LATER := NewStay("l", TENANT.id, OFFER, 10 * DAY, Some(11 * DAY), RATE)
  const PAID_STAY := MarkPaid(STAY, Some(Ref("t")))
  const PAID_LATER := MarkPaid(LATER, Some(Ref("t")))

  function Stays(first: Booking, second: Booking): State {
    State(map["b" := first, "c" := second], map["l" := HOME], [])
  }

  function PaysOnce(id: Id): Entry {
    Entry(0, ForBooking(id, TENANT, PaysFor(STAY)))
  }

  lemma SecondBooked(s: State)
    requires s == State(map["b" := STAY], map["l" := HOME], [])
    ensures After(s, Entry(0, Book("c", TENANT.id, "l", 10 * DAY, Some(11 * DAY), RATE))) == Stays(STAY, LATER)
    ensures LATER.totalAmount == STAY.totalAmount
  {
    assert OWNER.id[0] == 'o' && TENANT.id[0] == 't' && "b"[0] != "c"[0];
    assert Nights(ARRIVAL, Some(DEPARTURE)) == Nights(10 * DAY, Some(11 * DAY)) == 1;
  }

  lemma FirstPaid()
    ensures After(Stays(STAY, LATER), PaysOnce("b")) == Stays(PAID_STAY, LATER)
  {
    assert "b"[0] != "c"[0];
  }

  lemma SecondPaid()
    requires LATER.totalAmount == STAY.totalAmount
    ensures After(Stays(PAID_STAY, LATER), PaysOnce("c")) == Stays(PAID_STAY, PAID_LATER)
  {
    assert "b"[0] != "c"[0];
  }

  /** Two stays of one price are booked, and the gateway's callback for one paid invoice comes once
      with the number of each: both are held, with one reference. */
  lemma PaidOnceHeldTwice() returns (tr: seq<Entry>)
    ensures Run(EMPTY, tr) == Stays(PAID_STAY, PAID_LATER) && !RefsApart(Run(EMPTY, tr))
    ensures PAID_STAY.escrow == PAID_LATER.escrow == Held && Chronological(tr)
  {
    var booked := StayBooked();
    var second := Entry(0, Book("c", TENANT.id, "l", 10 * DAY, Some(11 * DAY), RATE));
    StoryRun(booked, second, PaysOnce("b"), PaysOnce("c"));
    AllAtOnce(booked, second, PaysOnce("b"), PaysOnce("c"));
    SecondBooked(Run(EMPTY, booked));
    FirstPaid();
    SecondPaid();
    tr := booked + [second] + [PaysOnce("b")] + [PaysOnce("c")];
    SharedRef(Run(EMPTY, tr));
  }

  lemma SharedRef(s: State)
    requires s == Stays(PAID_STAY, PAID_LATER)
    ensures !RefsApart(s)
  {
    assert "b"[0] != "c"[0];
    assert s.bookings["b"].paymentRef == s.bookings["c"].paymentRef;
  }
}
