/**
 Every cause of every change of a listing: of its status, its terms, its presence, and of the
 contracts that come with leases.
 */
module ListingTransitions {
  import opened Market
  import opened Transitions
  import opened Wrappers

  /** A lease of the listing is paid. */
  predicate LeasePaid(s: State, q: Request, l: Id) {
    && q.ForBooking? && q.id in s.bookings && s.bookings[q.id].listingId == l
    && s.bookings[q.id].bookingType == Monthly && Settling(s.bookings[q.id], q.who, q.event)
  }

  /** A running lease of the listing is terminated by owner, tenant or administrator. */
  predicate LeaseTerminated(s: State, q: Request, l: Id)
    requires Linked(s)
  {
    && q.ForBooking? && q.id in s.bookings && s.bookings[q.id].listingId == l
    && var b := s.bookings[q.id];
    && q.event == Terminate && (q.who.id == s.listings[l].ownerId || q.who.id == b.tenantId || q.who.isAdmin)
    && b.bookingType == Monthly && b.status == BookingStatus.Active
  }

  /** The causes of each status of a listing. */
  predicate ListingLeadsTo(s: State, q: Request, l: Id, status: ListingStatus)
    requires Linked(s) && l in s.listings
  {
    var was := s.listings[l];
    var about := q.ForListing? && q.id == l;
    var byOwner := about && q.who.id == was.ownerId;
    match status
    case Rented => LeasePaid(s, q, l)
    case Active =>
      || LeaseTerminated(s, q, l)
      || (about && q.change == Activate && (q.who.isAdmin || q.who.isAgent))
      || (byOwner && q.change == Publish(Accepted) && was.status == Draft)
      || (byOwner && q.change == Restore(true) && was.status == Suspended)
    case Draft =>
      || (byOwner && q.change == Unpublish && was.status == ListingStatus.Active)
      || (byOwner && q.change == Restore(false) && was.status == Suspended)
    case Suspended =>
      || (byOwner && q.change == Archive && (was.status == ListingStatus.Active || was.status == Draft))
      || (about && q.change == Suspend && q.who.isAdmin)
      || (q.Expire? && was.ownerId in q.owners && was.status == ListingStatus.Active)
  }

  predicate RemovesListing(s: State, q: Request, l: Id)
    requires l in s.listings
  {
    q.Remove? && q.id == l && (q.who.id == s.listings[l].ownerId || q.who.isAdmin)
  }

  /** The range of nights is not turned round. */
  predicate NightsInOrder(t: Terms) {
    t.minimumNights.None? || t.maximumNights.None? || t.minimumNights.value <= t.maximumNights.value
  }

  /** A payment of a lease is the only step that sets off `Payment` for it, a termination the only one
      that sets off `LeaseEnd`. */
  lemma Effects(b: Booking, owner: Id, now: int, who: Actor, e: RowEvent)
    ensures var permitted := Permission(b, owner, who, e) == Accepted;
            var r := RowStep(b, now, who.id == b.tenantId, e);
            && (permitted && r.effect.Payment? <==> Settling(b, who, e))
            && (permitted && r.effect.LeaseEnd?
                <==> e == Terminate && (who.id == owner || who.id == b.tenantId || who.isAdmin)
                     && b.bookingType == Monthly && b.status == BookingStatus.Active)
            && r.row.listingId == b.listingId && r.row.bookingType == b.bookingType
  {
    InvoicedIff(b);
  }

  lemma ByBooking(s: State, now: int, q: Request)
    requires Linked(s) && q.ForBooking? && q.id in s.bookings
    ensures Step(s, now, q).state.listings
         == if LeasePaid(s, q, s.bookings[q.id].listingId)
            then WithListingStatus(s.listings, s.bookings[q.id].listingId, Rented)
            else if LeaseTerminated(s, q, s.bookings[q.id].listingId)
            then WithListingStatus(s.listings, s.bookings[q.id].listingId, ListingStatus.Active)
            else s.listings
    ensures Step(s, now, q).state.contracts
         == if LeasePaid(s, q, s.bookings[q.id].listingId) && q.id !in s.contracts then s.contracts + [q.id]
            else s.contracts
  {
    var b := s.bookings[q.id];
    Effects(b, s.listings[b.listingId].ownerId, now, q.who, q.event);
  }

  /** One request brings a listing into another status if and only if it is one of the causes of that
      status. */
  lemma ListingStatusExact(s: State, now: int, q: Request, l: Id, status: ListingStatus)
    requires Linked(s) && l in s.listings && l in Step(s, now, q).state.listings && s.listings[l].status != status
    ensures Step(s, now, q).state.listings[l].status == status <==> ListingLeadsTo(s, q, l, status)
  {
    if q.ForBooking? && q.id in s.bookings {
      ByBooking(s, now, q);
    }
  }

  /** A listing goes with its removal only; its owner stays, and its terms are what owner or
      administrator last wrote in order. */
  lemma ListingExact(s: State, now: int, q: Request, l: Id)
    requires Linked(s) && l in s.listings
    ensures var was, t := s.listings[l], Step(s, now, q).state;
            && (l in t.listings <==> !RemovesListing(s, q, l))
            && (l in t.listings ==>
                  && t.listings[l].ownerId == was.ownerId
                  && t.listings[l].terms
                     == if q.ForListing? && q.id == l && q.change.Edit? && NightsInOrder(q.change.terms)
                           && (q.who.id == was.ownerId || q.who.isAdmin)
                        then q.change.terms else was.terms)
  {
    if q.ForBooking? && q.id in s.bookings {
      ByBooking(s, now, q);
    }
  }

  /** A listing appears when somebody creates it in order and, to be ACTIVE at once, the check of the
      plan lets it be published. */
  lemma NewListingExact(s: State, now: int, q: Request, l: Id)
    requires Linked(s) && l !in s.listings
    ensures var t := Step(s, now, q).state;
            && (l in t.listings
                <==> q.NewListing? && q.id == l && NightsInOrder(q.terms) && (q.publish ==> q.check == Accepted))
            && (l in t.listings ==>
                  t.listings[l] == Listing(q.ownerId, if q.publish then ListingStatus.Active else Draft, q.terms))
  {
    if q.ForBooking? && q.id in s.bookings {
      ByBooking(s, now, q);
    }
  }

  /** A contract is there after a request if it was, and its booking is not removed, or the request pays
      for the lease. */
  lemma ContractExact(s: State, now: int, q: Request, id: Id)
    requires Linked(s) && id in s.bookings
    ensures id in Step(s, now, q).state.contracts
       <==> (id in s.contracts && !RemovesBooking(s, q, id))
            || (q.ForBooking? && q.id == id && LeasePaid(s, q, s.bookings[id].listingId))
  {
    if q.ForBooking? && q.id in s.bookings {
      ByBooking(s, now, q);
    }
  }

  /** What owner, agent or administrator hears about a listing that is there. */
  lemma ListingAnswer(s: State, now: int, l: Id, who: Actor, e: ListingEvent)
    requires Linked(s) && l in s.listings
    ensures var was := s.listings[l];
            var byOwner := who.id == was.ownerId;
            Step(s, now, ForListing(l, who, e)).outcome
            == match e
               case Activate => if who.isAdmin || who.isAgent then Accepted else Forbidden
               case Suspend => if who.isAdmin then Accepted else Forbidden
               case Edit(terms) =>
                 if !byOwner && !who.isAdmin then Forbidden
                 else if NightsInOrder(terms) then Accepted else BadRequest
               case Archive =>
                 if !byOwner then Forbidden
                 else if was.status == Suspended || was.status == Rented then BadRequest else Accepted
               case Restore(_) =>
                 if !byOwner then Forbidden else if was.status == Suspended then Accepted else BadRequest
               case Unpublish =>
                 if !byOwner then Forbidden else if was.status == ListingStatus.Active then Accepted else BadRequest
               case Publish(check) =>
                 if !byOwner then Forbidden else if was.status == Draft then check else BadRequest
  {
  }

  /** What is heard about a listing that is not there, of one to be removed, and of a new one. */
  lemma OtherAnswers(s: State, now: int, q: Request)
    requires Linked(s)
    ensures q.ForListing? && q.id !in s.listings ==>
              Step(s, now, q)
              == Reply(if (q.change.Activate? && !q.who.isAdmin && !q.who.isAgent)
                          || (q.change.Suspend? && !q.who.isAdmin) then Forbidden else NotFound, s)
    ensures q.Remove? ==>
              Step(s, now, q).outcome == if q.id !in s.listings then NotFound
                                         else if RemovesListing(s, q, q.id) then Accepted else Forbidden
    ensures q.NewListing? ==>
              Step(s, now, q).outcome == if q.publish && q.check != Accepted then q.check
                                         else if NightsInOrder(q.terms) && q.id !in s.listings then Accepted
                                         else BadRequest
  {
  }

  /** What is refused changes nothing, but for a payment that a new attempt to pay discovers. */
  lemma RefusedChangesNothing(s: State, now: int, q: Request)
    requires Linked(s) && Step(s, now, q).outcome != Accepted && !(q.ForBooking? && q.event.Initiate?)
    ensures Step(s, now, q).state == s
  {
    if q.ForBooking? && q.id in s.bookings {
      var b := s.bookings[q.id];
      assert s.bookings[q.id := b] == s.bookings;
      RowRefused(b, now, q.who.id == b.tenantId, q.event);
    } else if q.ForListing? && q.id in s.listings {
      assert s.listings[q.id := s.listings[q.id]] == s.listings;
    }
  }

  lemma RowRefused(b: Booking, now: int, byTenant: bool, e: RowEvent)
    ensures var r := RowStep(b, now, byTenant, e);
            !e.Initiate? && r.outcome != Accepted ==> r.row == b && r.effect.Nothing?
  {
  }

  /** What adds or removes something is accepted exactly if it did. */
  lemma AcceptedAddsOrRemoves(s: State, now: int, q: Request)
    requires Linked(s) && (q.Book? || q.AskLease? || q.NewListing? || q.Remove?)
    ensures Step(s, now, q).outcome == Accepted <==> Step(s, now, q).state != s
  {
    var t := Step(s, now, q).state;
    if Step(s, now, q).outcome == Accepted {
      assert q.Remove? ==> q.id in s.listings && q.id !in t.listings;
      assert q.NewListing? ==> q.id !in s.listings && q.id in t.listings;
      assert q.Book? || q.AskLease? ==> q.id !in s.bookings && q.id in t.bookings;
    }
  }
}
