/**
 A disputed stay that has begun is frozen: nothing but the resolution of the dispute, or the
 removal of the listing, touches its status or its escrow.
 */
module Disputes {
  import opened Wrappers
  import opened Market

  /** The stay is confirmed, in dispute, and began before every instant after `now`. */
  predicate Frozen(s: State, now: int, id: Id) {
    && id in s.bookings
    && var b := s.bookings[id];
    && b.status == Confirmed && b.escrow == Disputed && b.start < now
  }

  /** An administrator resolves this dispute. */
  predicate Resolves(q: Request, id: Id) {
    q.ForBooking? && q.id == id && q.event.ResolveDispute? && q.who.isAdmin
  }

  predicate RemovesListingOf(s: State, q: Request, id: Id)
    requires Linked(s) && id in s.bookings
  {
    var l := s.bookings[id].listingId;
    q.Remove? && q.id == l && (q.who.id == s.listings[l].ownerId || q.who.isAdmin)
  }

  /** One request leaves the stay frozen, or resolves it in one of two ways, or removes it. */
  lemma FrozenStep(s: State, now: int, q: Request, id: Id)
    requires Linked(s) && Frozen(s, now, id)
    ensures var t := Step(s, now, q).state;
            if Resolves(q, id) then
              && id in t.bookings
              && (if q.event.release then t.bookings[id] == s.bookings[id].(status := Completed, escrow := Released)
                  else t.bookings[id] == s.bookings[id].(status := Cancelled, escrow := Refunded))
            else if RemovesListingOf(s, q, id) then id !in t.bookings
            else id in t.bookings && t.bookings[id] == s.bookings[id].(paymentRef := t.bookings[id].paymentRef)
  {
  }

  ghost predicate NeitherResolvedNorRemoved(s: State, tr: seq<Entry>, id: Id)
    requires Linked(s)
  {
    tr != [] ==>
      var before, q := Run(s, tr[..|tr| - 1]), tr[|tr| - 1].request;
      && NeitherResolvedNorRemoved(s, tr[..|tr| - 1], id)
      && !Resolves(q, id)
      && (id in before.bookings ==> !RemovesListingOf(before, q, id))
  }

  /** Over every continuation the stay stays as it is, its payment reference apart. */
  lemma {:induction false} FrozenRun(s: State, now: int, tr: seq<Entry>, id: Id)
    requires Linked(s) && Frozen(s, now, id)
    requires Chronological(tr) && (tr != [] ==> now <= tr[0].now)
    requires NeitherResolvedNorRemoved(s, tr, id)
    ensures var t := Run(s, tr);
            && Frozen(t, now, id)
            && t.bookings[id] == s.bookings[id].(paymentRef := t.bookings[id].paymentRef)
  {
    if tr == [] {
    } else {
      var shorter, e := tr[..|tr| - 1], tr[|tr| - 1];
      FrozenRun(s, now, shorter, id);
      assert now <= e.now;
      FrozenStep(Run(s, shorter), e.now, e.request, id);
    }
  }
}
