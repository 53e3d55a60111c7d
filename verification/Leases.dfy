/**
 A listing carries at most one open lease, and a listing with a running lease is marked
 rented, so it takes no new booking. The requests that can break this are named exactly.
 */
module Leases {
  import opened Wrappers
  import opened Market
  import opened Legality
  import opened DoubleBooking

  predicate RunningLease(b: Booking) {
    b.bookingType.Monthly? && b.status == BookingStatus.Active
  }

  ghost predicate SingleLease(s: State) {
    forall i, j | i in s.bookings && j in s.bookings && OpenLease(s.bookings[i]) && OpenLease(s.bookings[j])
      && s.bookings[i].listingId == s.bookings[j].listingId :: i == j
  }

  ghost predicate RentedWhileLeased(s: State)
    requires Linked(s)
  {
    forall i | i in s.bookings && RunningLease(s.bookings[i]) :: s.listings[s.bookings[i].listingId].status == Rented
  }

  ghost predicate LeasesInOrder(s: State)
    requires Linked(s)
  {
    SingleLease(s) && RentedWhileLeased(s)
  }

  /** A payment confirmed for a lease that was over, when the listing has another open one. */
  ghost predicate RevivesBesideOpenLease(s: State, q: Request) {
    && Pays(s, q)
    && var b := s.bookings[q.id];
    && b.bookingType.Monthly? && !OpenLease(b)
    && exists j :: j in s.bookings && j != q.id && OpenLease(s.bookings[j]) && s.bookings[j].listingId == b.listingId
  }

  /** An administrator or a field agent sets the status of a listing by hand. */
  predicate Override(q: Request) {
    && q.ForListing?
    && ((q.change.Activate? && (q.who.isAdmin || q.who.isAgent)) || (q.change.Suspend? && q.who.isAdmin))
  }

  ghost predicate OverridesRunningLease(s: State, q: Request) {
    Override(q) && q.id in s.listings
    && exists i :: i in s.bookings && RunningLease(s.bookings[i]) && s.bookings[i].listingId == q.id
  }

  /** How one event moves a row in and out of the open and the running leases. */
  lemma LeaseEvents(b: Booking, now: int, byTenant: bool, e: RowEvent)
    ensures var r := RowStep(b, now, byTenant, e);
            && r.row.listingId == b.listingId && r.row.bookingType == b.bookingType
            && (OpenLease(r.row) ==> OpenLease(b) || (Settles(b, e) && b.bookingType.Monthly?))
            && (RunningLease(r.row) ==> RunningLease(b) || (r.effect.Payment? && b.bookingType.Monthly?))
            && (Settles(b, e) && b.bookingType.Monthly? ==> RunningLease(r.row) && r.effect.Payment?)
            && (r.effect.LeaseEnd? ==> RunningLease(b) && !OpenLease(r.row))
            && (r.effect.Payment? ==> Settles(b, e))
  {
    PaymentIffSettles(b, now, byTenant, e);
  }

  lemma RevivalBreaks(s: State, now: int, q: Request)
    requires Linked(s) && RevivesBesideOpenLease(s, q)
    ensures !SingleLease(Step(s, now, q).state)
  {
    var b, t := s.bookings[q.id], Step(s, now, q).state;
    LeaseEvents(b, now, q.who.id == b.tenantId, q.event);
    assert t.bookings == s.bookings[q.id := Judge(s, now, q.id, q.who, q.event).row];
    var j :| j in s.bookings && j != q.id && OpenLease(s.bookings[j]) && s.bookings[j].listingId == b.listingId;
    assert OpenLease(t.bookings[q.id]) && OpenLease(t.bookings[j]);
  }

  lemma BookingEventKeeps(s: State, now: int, q: Request)
    requires Linked(s) && LeasesInOrder(s) && q.ForBooking? && q.id in s.bookings && !RevivesBesideOpenLease(s, q)
    ensures LeasesInOrder(Step(s, now, q).state)
  {
    var b := s.bookings[q.id];
    LeaseEvents(b, now, q.who.id == b.tenantId, q.event);
    assert Step(s, now, q).state.bookings == s.bookings[q.id := Judge(s, now, q.id, q.who, q.event).row];
  }

  lemma ListingEventExact(s: State, now: int, q: Request)
    requires Linked(s) && LeasesInOrder(s) && q.ForListing?
    ensures LeasesInOrder(Step(s, now, q).state) <==> !OverridesRunningLease(s, q)
  {
    var t := Step(s, now, q).state;
    assert t.bookings == s.bookings;
    if OverridesRunningLease(s, q) {
      var i :| i in s.bookings && RunningLease(s.bookings[i]) && s.bookings[i].listingId == q.id;
      assert t.listings[q.id].status != Rented;
    }
  }

  /** One request keeps the leases in order if and only if it is none of these. */
  lemma StepExact(s: State, now: int, q: Request)
    requires Linked(s) && LeasesInOrder(s)
    ensures LeasesInOrder(Step(s, now, q).state) <==> !RevivesBesideOpenLease(s, q) && !OverridesRunningLease(s, q)
  {
    match q
    case ForBooking(id, _, _) =>
      if RevivesBesideOpenLease(s, q) {
        RevivalBreaks(s, now, q);
      } else if id in s.bookings {
        BookingEventKeeps(s, now, q);
      }
    case ForListing(_, _, _) => ListingEventExact(s, now, q);
    case _ => OtherRequestsKeep(s, now, q);
  }

  lemma OtherRequestsKeep(s: State, now: int, q: Request)
    requires Linked(s) && LeasesInOrder(s) && !q.ForBooking? && !q.ForListing?
    ensures LeasesInOrder(Step(s, now, q).state)
  {
  }

  /** A listing with a running lease takes neither a stay nor another lease. */
  lemma RentedTakesNoBooking(s: State, now: int, q: Request, i: Id)
    requires Linked(s) && LeasesInOrder(s) && i in s.bookings && RunningLease(s.bookings[i])
    requires (q.Book? || q.AskLease?) && q.listingId == s.bookings[i].listingId
    ensures Step(s, now, q).outcome in {Forbidden, BadRequest} && Step(s, now, q).state == s
  {
  }

  /** The requests by which a listing stops being rented: its lease is terminated, its status is
      set by hand, or it is removed. Cancelling the lease is not among them. */
  ghost predicate EndsRental(s: State, q: Request, l: Id) {
    || (q.ForBooking? && q.event.Terminate? && q.id in s.bookings && s.bookings[q.id].listingId == l
        && RunningLease(s.bookings[q.id]))
    || (Override(q) && q.id == l)
    || (q.Remove? && q.id == l)
  }

  lemma RentedUntilEnded(s: State, now: int, q: Request, l: Id)
    requires Linked(s) && l in s.listings && s.listings[l].status == Rented && !EndsRental(s, q, l)
    ensures var t := Step(s, now, q).state; l in t.listings && t.listings[l].status == Rented
  {
    if q.ForBooking? && q.id in s.bookings {
      LeaseEvents(s.bookings[q.id], now, q.who.id == s.bookings[q.id].tenantId, q.event);
    }
  }

  /** No request of the run pays for a lease that is over or sets the status of a listing by hand. */
  ghost predicate Undisturbed(s: State, tr: seq<Entry>)
    requires Linked(s)
  {
    tr != [] ==>
      var before, q := Run(s, tr[..|tr| - 1]), tr[|tr| - 1].request;
      && !Override(q)
      && !(Pays(before, q) && before.bookings[q.id].status in {Cancelled, Rejected, Terminated})
      && Undisturbed(s, tr[..|tr| - 1])
  }

  lemma {:induction false} RunKeepsLeases(s: State, tr: seq<Entry>)
    requires Linked(s) && AllLegal(s) && LeasesInOrder(s) && Undisturbed(s, tr)
    ensures LeasesInOrder(Run(s, tr))
  {
    if tr == [] {
    } else {
      var shorter, e := tr[..|tr| - 1], tr[|tr| - 1];
      RunKeepsLeases(s, shorter);
      RunKeepsLegal(s, shorter);
      StepExact(Run(s, shorter), e.now, e.request);
    }
  }

  /** Every state of the run, the last one included, has its leases in order. */
  ghost predicate AlwaysInOrder(s: State, tr: seq<Entry>)
    requires Linked(s)
  {
    LeasesInOrder(Run(s, tr)) && (tr != [] ==> AlwaysInOrder(s, tr[..|tr| - 1]))
  }

  /** No request of the run revives a lease beside an open one or overrides a running one. */
  ghost predicate NoneDisturbs(s: State, tr: seq<Entry>)
    requires Linked(s)
  {
    tr != [] ==>
      var before, q := Run(s, tr[..|tr| - 1]), tr[|tr| - 1].request;
      !RevivesBesideOpenLease(before, q) && !OverridesRunningLease(before, q) && NoneDisturbs(s, tr[..|tr| - 1])
  }

  /** Over every run: always in order if and only if no such request occurs. */
  lemma {:induction false} RunExact(s: State, tr: seq<Entry>)
    requires Linked(s) && LeasesInOrder(s)
    ensures AlwaysInOrder(s, tr) <==> NoneDisturbs(s, tr)
  {
    if tr == [] {
    } else {
      var shorter, e := tr[..|tr| - 1], tr[|tr| - 1];
      RunExact(s, shorter);
      if LeasesInOrder(Run(s, shorter)) {
        StepExact(Run(s, shorter), e.now, e.request);
      }
    }
  }

  // ----- rented without a lease -----

  ghost predicate Leased(s: State, l: Id) {
    exists i :: i in s.bookings && s.bookings[i].listingId == l && RunningLease(s.bookings[i])
  }

  ghost predicate LeasedWhileRented(s: State) {
    forall l | l in s.listings && s.listings[l].status == Rented :: Leased(s, l)
  }

  /** The only running lease of a rented listing is cancelled; `cancel` never looks at the listing. */
  ghost predicate AbandonsRental(s: State, q: Request)
    requires Linked(s)
  {
    && q.ForBooking? && q.event.Cancel? && q.id in s.bookings && RunningLease(s.bookings[q.id])
    && var b := s.bookings[q.id];
    && (q.who.id == b.tenantId || q.who.id == s.listings[b.listingId].ownerId)
    && s.listings[b.listingId].status == Rented
    && forall i | i in s.bookings && i != q.id && RunningLease(s.bookings[i]) :: s.bookings[i].listingId != b.listingId
  }

  /** The ways out of a running lease: only termination frees the listing, and only cancellation
      leaves it as it is. */
  lemma LeaseExits(b: Booking, now: int, byTenant: bool, e: RowEvent)
    requires Legal(b) && RunningLease(b)
    ensures var r := RowStep(b, now, byTenant, e);
            && (RunningLease(r.row) <==> !e.Cancel? && !e.Terminate?)
            && (e.Terminate? <==> r.effect.LeaseEnd?) && !r.effect.Payment?
  {
  }

  lemma OthersLeased(s: State, t: State, id: Id, l: Id, i: Id)
    requires id in s.bookings && i in s.bookings && i != id
    requires s.bookings[i].listingId == l && RunningLease(s.bookings[i])
    requires i in t.bookings && t.bookings[i] == s.bookings[i]
    ensures Leased(t, l)
  {
  }

  lemma AbandonmentBreaks(s: State, now: int, q: Request)
    requires Linked(s) && AllLegal(s) && AbandonsRental(s, q)
    ensures !LeasedWhileRented(Step(s, now, q).state)
  {
    var b, t := s.bookings[q.id], Step(s, now, q).state;
    LeaseExits(b, now, q.who.id == b.tenantId, q.event);
    assert t.bookings == s.bookings[q.id := Judge(s, now, q.id, q.who, q.event).row];
    assert t.listings == s.listings && !Leased(t, b.listingId);
  }

  ghost predicate OtherLease(s: State, id: Id, l: Id) {
    exists i :: i in s.bookings && i != id && s.bookings[i].listingId == l && RunningLease(s.bookings[i])
  }

  lemma RowKeepsRental(s: State, t: State, id: Id, row: Booking)
    requires LeasedWhileRented(s) && id in s.bookings && row.listingId == s.bookings[id].listingId
    requires t.bookings == s.bookings[id := row]
    requires forall l | l in t.listings && t.listings[l].status == Rented ::
               (l in s.listings && s.listings[l].status == Rented) || (l == row.listingId && RunningLease(row))
    requires RunningLease(s.bookings[id]) && !RunningLease(row)
             && row.listingId in t.listings && t.listings[row.listingId].status == Rented
             ==> OtherLease(s, id, row.listingId)
    ensures LeasedWhileRented(t)
  {
    forall l | l in t.listings && t.listings[l].status == Rented ensures Leased(t, l) {
      if l == row.listingId && RunningLease(row) {
        assert t.bookings[id].listingId == l;
      } else if OtherLease(s, id, l) {
        var i :| i in s.bookings && i != id && s.bookings[i].listingId == l && RunningLease(s.bookings[i]);
        OthersLeased(s, t, id, l, i);
      }
    }
  }

  lemma BookingKeepsRental(s: State, now: int, q: Request)
    requires Linked(s) && AllLegal(s) && LeasedWhileRented(s) && q.ForBooking? && q.id in s.bookings
    requires !AbandonsRental(s, q)
    ensures LeasedWhileRented(Step(s, now, q).state)
  {
    var b := s.bookings[q.id];
    LeaseEvents(b, now, q.who.id == b.tenantId, q.event);
    if RunningLease(b) {
      LeaseExits(b, now, q.who.id == b.tenantId, q.event);
    }
    RowKeepsRental(s, Step(s, now, q).state, q.id, Judge(s, now, q.id, q.who, q.event).row);
  }

  lemma OthersKeepRental(s: State, now: int, q: Request)
    requires Linked(s) && LeasedWhileRented(s) && !(q.ForBooking? && q.id in s.bookings)
    ensures LeasedWhileRented(Step(s, now, q).state)
  {
    var t := Step(s, now, q).state;
    forall l | l in t.listings && t.listings[l].status == Rented ensures Leased(t, l) {
      assert l in s.listings && s.listings[l].status == Rented;
      var i :| i in s.bookings && s.bookings[i].listingId == l && RunningLease(s.bookings[i]);
      assert i in t.bookings && t.bookings[i] == s.bookings[i];
    }
  }

  /** One request keeps "rented means leased" if and only if it does not cancel the running lease. */
  lemma RentalExact(s: State, now: int, q: Request)
    requires Linked(s) && AllLegal(s) && LeasedWhileRented(s)
    ensures LeasedWhileRented(Step(s, now, q).state) <==> !AbandonsRental(s, q)
  {
    if AbandonsRental(s, q) {
      AbandonmentBreaks(s, now, q);
    } else if q.ForBooking? && q.id in s.bookings {
      BookingKeepsRental(s, now, q);
    } else {
      OthersKeepRental(s, now, q);
    }
  }
}
