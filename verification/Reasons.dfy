/**
 Why money is where it is: along every run, the state of a booking's escrow was brought about by one
 request that was entitled to it. One kind of release needs no payment at all.
 */
module Reasons {
  import opened Wrappers
  import opened Market
  import opened Legality
  import opened DoubleBooking
  import opened Escrow

  /** The tenant gives up the stay seven days before it begins or later. */
  predicate LateWithdrawal(b: Booking, who: Actor, now: int) {
    who.id == b.tenantId && b.start - now <= 7 * DAY
  }

  predicate Declines(e: RowEvent) {
    match e
    case Webhook(_, Declined) => true
    case Verify(Declined) => true
    case Initiate(Declined, _) => true
    case _ => false
  }

  /** Who may release the funds to the landlord, and when. */
  predicate EntitlesRelease(b: Booking, now: int, who: Actor, e: RowEvent) {
    || (e.Complete? && b.end.GetOr(b.start) <= now)
    || (e.Cancel? && LateWithdrawal(b, who, now))
    || (e.ResolveDispute? && e.release && who.isAdmin)
    || e.Release?
  }

  /** Who may return the funds to the tenant, and when. */
  predicate EntitlesRefund(b: Booking, now: int, who: Actor, e: RowEvent) {
    || (e.Cancel? && !LateWithdrawal(b, who, now))
    || (e.ResolveDispute? && !e.release && who.isAdmin)
    || Declines(e)
    || e.Refund?
  }

  /** The request may bring the escrow of booking `id` to the state it has in `b`. */
  predicate Entitles(b: Booking, id: Id, now: int, q: Request) {
    && q.ForBooking? && q.id == id
    && match b.escrow
       case AwaitingPayment => false
       case Held => Confirms(q, id, b)
       case Disputed => q.event.ReportDispute? && q.who.id == b.tenantId && b.start <= now <= b.start + DAY
       case Released => EntitlesRelease(b, now, q.who, q.event)
       case Refunded => EntitlesRefund(b, now, q.who, q.event)
  }

  lemma RowReasoned(b: Booking, owner: Id, now: int, id: Id, who: Actor, e: RowEvent)
    requires Permission(b, owner, who, e) == Accepted
    ensures var c := RowStep(b, now, who.id == b.tenantId, e).row;
            c.escrow == b.escrow
            || (Entitles(c, id, now, ForBooking(id, who, e)) && (c.escrow == Held ==> Settles(b, e)))
  {
    PaymentIffSettles(b, now, who.id == b.tenantId, e);
  }

  /** One request: the escrow of a booking stays, or the request was entitled to the change. */
  lemma StepReasoned(s: State, now: int, q: Request, id: Id)
    requires Linked(s) && id in s.bookings && id in Step(s, now, q).state.bookings
    ensures var b := Step(s, now, q).state.bookings[id];
            b.escrow == s.bookings[id].escrow || (Entitles(b, id, now, q) && (b.escrow == Held ==> Pays(s, q)))
  {
    if q.ForBooking? && q.id == id {
      var b := s.bookings[id];
      var owner := s.listings[b.listingId].ownerId;
      if Permission(b, owner, q.who, q.event) == Accepted {
        RowReasoned(b, owner, now, id, q.who, q.event);
      }
    }
  }

  ghost predicate EscrowAfter(tr: seq<Entry>, k: nat, id: Id, escrow: EscrowStatus)
    requires k <= |tr|
  {
    var s := Run(EMPTY, tr[..k]);
    id in s.bookings && s.bookings[id].escrow == escrow
  }

  /** Request `j` is the one that brought the escrow of booking `id` to the state it has had ever
      since, and was entitled to it. */
  ghost predicate MovedBy(tr: seq<Entry>, j: nat, id: Id, b: Booking) {
    && j < |tr|
    && id in Run(EMPTY, tr[..j]).bookings && !EscrowAfter(tr, j, id, b.escrow)
    && Entitles(b, id, tr[j].now, tr[j].request)
    && (b.escrow == Held ==> Pays(Run(EMPTY, tr[..j]), tr[j].request))
    && forall k | j < k <= |tr| :: EscrowAfter(tr, k, id, b.escrow)
  }

  /** The booking was made in the run, and a later request moved its escrow to where it is. */
  ghost predicate Reasoned(tr: seq<Entry>, id: Id, b: Booking) {
    exists i: nat ::
      MadeBy(tr, i, id, b) && (b.escrow != AwaitingPayment ==> exists j: nat :: i < j && MovedBy(tr, j, id, b))
  }

  lemma EscrowExtends(tr: seq<Entry>, e: Entry, k: nat, id: Id, escrow: EscrowStatus)
    requires k <= |tr|
    ensures EscrowAfter(tr + [e], k, id, escrow) == EscrowAfter(tr, k, id, escrow)
  {
    SamePrefix(tr, e, k);
  }

  lemma MovedByExtends(tr: seq<Entry>, e: Entry, j: nat, id: Id, b: Booking, c: Booking)
    requires MovedBy(tr, j, id, b) && SameDeal(b, c) && c.escrow == b.escrow
    requires EscrowAfter(tr + [e], |tr| + 1, id, c.escrow)
    ensures MovedBy(tr + [e], j, id, c)
  {
    var longer := tr + [e];
    SamePrefix(tr, e, j);
    EscrowExtends(tr, e, j, id, c.escrow);
    EntitlesAlike(b, c, id, tr[j].now, tr[j].request);
    forall k | j < k <= |longer| ensures EscrowAfter(longer, k, id, c.escrow) {
      if k <= |tr| {
        EscrowExtends(tr, e, k, id, c.escrow);
      }
    }
  }

  lemma JustMoved(tr: seq<Entry>, n: nat, id: Id, c: Booking)
    requires n + 1 == |tr| && id in Run(EMPTY, tr[..n]).bookings
    requires !EscrowAfter(tr, n, id, c.escrow) && EscrowAfter(tr, n + 1, id, c.escrow)
    requires Entitles(c, id, tr[n].now, tr[n].request)
    requires c.escrow == Held ==> Pays(Run(EMPTY, tr[..n]), tr[n].request)
    ensures MovedBy(tr, n, id, c)
  {
    forall k | n < k <= |tr| ensures EscrowAfter(tr, k, id, c.escrow) {
      assert k == n + 1;
    }
  }

  lemma ReasonedStays(tr: seq<Entry>, e: Entry, id: Id, b: Booking, c: Booking)
    requires Reasoned(tr, id, b) && SameDeal(b, c) && c.escrow == b.escrow
    requires EscrowAfter(tr + [e], |tr| + 1, id, c.escrow)
    ensures Reasoned(tr + [e], id, c)
  {
    var i: nat :|
      MadeBy(tr, i, id, b) && (b.escrow != AwaitingPayment ==> exists j: nat :: i < j && MovedBy(tr, j, id, b));
    MadeByExtends(tr, e, i, id, b, c);
    if b.escrow != AwaitingPayment {
      var j: nat :| i < j && MovedBy(tr, j, id, b);
      MovedByExtends(tr, e, j, id, b, c);
    }
  }

  lemma ReasonedAnew(tr: seq<Entry>, e: Entry, id: Id, b: Booking, c: Booking)
    requires Reasoned(tr, id, b) && SameDeal(b, c) && MovedBy(tr + [e], |tr|, id, c)
    ensures Reasoned(tr + [e], id, c)
  {
    var i: nat :|
      MadeBy(tr, i, id, b) && (b.escrow != AwaitingPayment ==> exists j: nat :: i < j && MovedBy(tr, j, id, b));
    MadeByExtends(tr, e, i, id, b, c);
  }

  lemma EntitlesAlike(b: Booking, c: Booking, id: Id, now: int, q: Request)
    requires SameDeal(b, c) && c.escrow == b.escrow && Entitles(b, id, now, q)
    ensures Entitles(c, id, now, q)
  {
  }

  /** A request that finds the booking there. */
  lemma ReasonedAfter(tr: seq<Entry>, e: Entry, id: Id)
    requires id in Run(EMPTY, tr).bookings && id in Run(EMPTY, tr + [e]).bookings
    requires Reasoned(tr, id, Run(EMPTY, tr).bookings[id])
    ensures Reasoned(tr + [e], id, Run(EMPTY, tr + [e]).bookings[id])
  {
    var n := |tr|;
    var b, c := Run(EMPTY, tr).bookings[id], Run(EMPTY, tr + [e]).bookings[id];
    RunOn(tr, e);
    SamePrefix(tr, e, n);
    StepBacked(Run(EMPTY, tr), e.now, e.request, id);
    StepReasoned(Run(EMPTY, tr), e.now, e.request, id);
    if c.escrow == b.escrow {
      ReasonedStays(tr, e, id, b, c);
    } else {
      JustMoved(tr + [e], n, id, c);
      ReasonedAnew(tr, e, id, b, c);
    }
  }

  /** In every state of every run of the marketplace. */
  lemma {:induction false} EscrowHasReason(tr: seq<Entry>, id: Id)
    requires id in Run(EMPTY, tr).bookings
    ensures Reasoned(tr, id, Run(EMPTY, tr).bookings[id])
  {
    var shorter, e := tr[..|tr| - 1], tr[|tr| - 1];
    assert tr == shorter + [e];
    if id in Run(EMPTY, shorter).bookings {
      EscrowHasReason(shorter, id);
      ReasonedAfter(shorter, e, id);
    } else {
      BackedAtFirst(shorter, e, id);
      NewIsUnpaid(Run(EMPTY, shorter), e.now, e.request, id);
    }
  }

  lemma NewIsUnpaid(s: State, now: int, q: Request, id: Id)
    requires Linked(s) && id !in s.bookings && id in Step(s, now, q).state.bookings
    ensures Step(s, now, q).state.bookings[id].escrow == AwaitingPayment
  {
  }

  // ----- released without a payment -----

  lemma RowUnpaid(b: Booking, now: int, byTenant: bool, e: RowEvent)
    requires b.escrow == AwaitingPayment
    ensures RowStep(b, now, byTenant, e).row.escrow == Released
       <==> e.Complete? && b.status == Confirmed && b.end.GetOr(b.start) <= now
  {
  }

  /** Funds nobody has paid become "released" exactly when a confirmed booking is completed at or
      after its end, by its owner or an administrator: `confirm` and `complete` do not look for a
      payment. */
  lemma UnpaidReleaseExact(s: State, now: int, q: Request, id: Id)
    requires Linked(s) && id in s.bookings && s.bookings[id].escrow == AwaitingPayment
    ensures var b, t := s.bookings[id], Step(s, now, q).state;
            (id in t.bookings && t.bookings[id].escrow == Released
             <==> (q.ForBooking? && q.id == id && q.event.Complete?
                   && (q.who.id == s.listings[b.listingId].ownerId || q.who.isAdmin)
                   && b.status == Confirmed && b.end.GetOr(b.start) <= now))
  {
    if q.ForBooking? && q.id == id {
      RowUnpaid(s.bookings[id], now, q.who.id == s.bookings[id].tenantId, q.event);
    }
  }

  lemma ConfirmedAndCompleted(s: State)
    requires s == State(map["b" := STAY], map["l" := HOME], [])
    ensures var t := After(After(s, Entry(0, ForBooking("b", OWNER, RowEvent.Confirm))),
                           Entry(DEPARTURE, ForBooking("b", OWNER, RowEvent.Complete)));
            "b" in t.bookings && t.bookings["b"] == STAY.(status := Completed, escrow := Released)
  {
    var t := After(s, Entry(0, ForBooking("b", OWNER, RowEvent.Confirm)));
    assert t == State(map["b" := STAY.(status := Confirmed)], map["l" := HOME], []);
  }

  /** A run in which the gateway is never asked, and the funds of a stay are released all the same. */
  lemma ReleasedUnpaid() returns (tr: seq<Entry>)
    ensures Chronological(tr) && "b" in Run(EMPTY, tr).bookings && Run(EMPTY, tr).bookings["b"].escrow == Released
    ensures forall e | e in tr && e.request.ForBooking? :: e.request.event.Confirm? || e.request.event.Complete?
  {
    var confirms := Entry(0, ForBooking("b", OWNER, RowEvent.Confirm));
    var completes := Entry(DEPARTURE, ForBooking("b", OWNER, RowEvent.Complete));
    var booked := StayBooked();
    RunOn(booked, confirms);
    RunOn(booked + [confirms], completes);
    ConfirmedAndCompleted(Run(EMPTY, booked));
    tr := booked + [confirms] + [completes];
  }

  // ----- strangers -----

  /** Whoever is neither tenant nor owner nor administrator gets nothing done on a booking: only the
      gateway's callbacks and the two internal calls that move funds ask for no name. */
  lemma StrangersChangeNothing(s: State, now: int, q: Request)
    requires Linked(s) && q.ForBooking? && q.id in s.bookings
    requires !q.event.Webhook? && !q.event.Release? && !q.event.Refund?
    requires var b := s.bookings[q.id];
             q.who.id != b.tenantId && q.who.id != s.listings[b.listingId].ownerId && !q.who.isAdmin
    ensures Step(s, now, q).outcome in {Forbidden, BadRequest} && Step(s, now, q).state == s
  {
    assert s.bookings[q.id := s.bookings[q.id]] == s.bookings;
  }
}
