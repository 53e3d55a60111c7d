/**
 Money in escrow comes from somewhere: along every run, a booking whose funds are held or disputed
 was paid for by one request, to within one franc of a total that was fixed when it was made.
 */
module Escrow {
  import opened Wrappers
  import opened Market
  import opened DoubleBooking

  /** The columns no request changes after creation. */
  predicate SameDeal(a: Booking, b: Booking) {
    b == a.(status := b.status, escrow := b.escrow, paymentRef := b.paymentRef)
  }

  /** The request carries the gateway's answer "completed" for this booking, for the right amount. */
  predicate Confirms(q: Request, id: Id, b: Booking) {
    && q.ForBooking? && q.id == id
    && match q.event
       case Webhook(_, Paid(amount)) => AmountMatches(b, amount)
       case Verify(Paid(amount)) => AmountMatches(b, amount)
       case Initiate(Paid(amount), _) => AmountMatches(b, amount)
       case _ => false
  }

  predicate InEscrow(b: Booking) {
    b.escrow in {Held, Disputed}
  }

  /** One event on a row. */
  lemma RowBacked(b: Booking, now: int, byTenant: bool, id: Id, who: Actor, e: RowEvent)
    ensures var c := RowStep(b, now, byTenant, e).row;
            && SameDeal(b, c)
            && (InEscrow(c) ==> InEscrow(b) || (Settles(b, e) && Confirms(ForBooking(id, who, e), id, c)))
  {
    PaymentIffSettles(b, now, byTenant, e);
  }

  /** One request: the deal stays, and funds enter escrow only by an accepted payment of the booking. */
  lemma StepBacked(s: State, now: int, q: Request, id: Id)
    requires Linked(s) && id in Step(s, now, q).state.bookings
    ensures var b := Step(s, now, q).state.bookings[id];
            if id in s.bookings then
              && SameDeal(s.bookings[id], b)
              && (InEscrow(b) ==> InEscrow(s.bookings[id]) || (Pays(s, q) && Confirms(q, id, b)))
            else
              (q.Book? || q.AskLease?) && q.id == id && !InEscrow(b)
  {
    if q.ForBooking? && q.id in s.bookings {
      RowBacked(s.bookings[q.id], now, q.who.id == s.bookings[q.id].tenantId, q.id, q.who, q.event);
    }
  }

  // ----- runs -----

  lemma SamePrefix(tr: seq<Entry>, e: Entry, k: nat)
    requires k <= |tr|
    ensures (tr + [e])[..k] == tr[..k] && (tr + [e])[..|tr| + 1] == tr + [e] && tr[..|tr|] == tr
  {
  }

  /** Request `i` made booking `id`, on the terms it still has in `b`. */
  ghost predicate MadeBy(tr: seq<Entry>, i: nat, id: Id, b: Booking) {
    && i < |tr|
    && (tr[i].request.Book? || tr[i].request.AskLease?) && tr[i].request.id == id
    && id !in Run(EMPTY, tr[..i]).bookings
    && id in Run(EMPTY, tr[..i + 1]).bookings
    && SameDeal(Run(EMPTY, tr[..i + 1]).bookings[id], b)
  }

  ghost predicate InEscrowAfter(tr: seq<Entry>, k: nat, id: Id)
    requires k <= |tr|
  {
    var s := Run(EMPTY, tr[..k]);
    id in s.bookings && InEscrow(s.bookings[id])
  }

  /** Request `j` is the payment that took the funds of booking `id` into escrow, where they have been
      ever since. */
  ghost predicate PaidBy(tr: seq<Entry>, j: nat, id: Id, b: Booking) {
    && j < |tr|
    && !InEscrowAfter(tr, j, id)
    && Pays(Run(EMPTY, tr[..j]), tr[j].request) && Confirms(tr[j].request, id, b)
    && forall k | j < k <= |tr| :: InEscrowAfter(tr, k, id)
  }

  ghost predicate Backed(tr: seq<Entry>, id: Id, b: Booking) {
    exists i: nat :: MadeBy(tr, i, id, b) && (InEscrow(b) ==> exists j: nat :: i < j && PaidBy(tr, j, id, b))
  }

  lemma MadeByExtends(tr: seq<Entry>, e: Entry, i: nat, id: Id, b: Booking, c: Booking)
    requires MadeBy(tr, i, id, b) && SameDeal(b, c)
    ensures MadeBy(tr + [e], i, id, c)
  {
    SamePrefix(tr, e, i);
    SamePrefix(tr, e, i + 1);
  }

  lemma InEscrowExtends(tr: seq<Entry>, e: Entry, k: nat, id: Id)
    requires k <= |tr|
    ensures InEscrowAfter(tr + [e], k, id) == InEscrowAfter(tr, k, id)
  {
    SamePrefix(tr, e, k);
  }

  lemma PaidByExtends(tr: seq<Entry>, e: Entry, j: nat, id: Id, b: Booking, c: Booking)
    requires PaidBy(tr, j, id, b) && SameDeal(b, c) && InEscrowAfter(tr + [e], |tr| + 1, id)
    ensures PaidBy(tr + [e], j, id, c)
  {
    var longer := tr + [e];
    SamePrefix(tr, e, j);
    InEscrowExtends(tr, e, j, id);
    forall k | j < k <= |longer| ensures InEscrowAfter(longer, k, id) {
      if k <= |tr| {
        InEscrowExtends(tr, e, k, id);
      }
    }
  }

  lemma JustPaid(tr: seq<Entry>, n: nat, id: Id, c: Booking)
    requires n + 1 == |tr| && !InEscrowAfter(tr, n, id) && InEscrowAfter(tr, n + 1, id)
    requires Pays(Run(EMPTY, tr[..n]), tr[n].request) && Confirms(tr[n].request, id, c)
    ensures PaidBy(tr, n, id, c)
  {
    forall k | n < k <= |tr| ensures InEscrowAfter(tr, k, id) {
      assert k == n + 1;
    }
  }

  lemma BackedStays(tr: seq<Entry>, e: Entry, id: Id, b: Booking, c: Booking)
    requires Backed(tr, id, b) && SameDeal(b, c)
    requires InEscrow(c) ==> InEscrow(b) && InEscrowAfter(tr + [e], |tr| + 1, id)
    ensures Backed(tr + [e], id, c)
  {
    var i: nat :| MadeBy(tr, i, id, b) && (InEscrow(b) ==> exists j: nat :: i < j && PaidBy(tr, j, id, b));
    MadeByExtends(tr, e, i, id, b, c);
    if InEscrow(c) {
      var j: nat :| i < j && PaidBy(tr, j, id, b);
      PaidByExtends(tr, e, j, id, b, c);
    }
  }

  lemma BackedAnew(tr: seq<Entry>, e: Entry, id: Id, b: Booking, c: Booking)
    requires Backed(tr, id, b) && SameDeal(b, c)
    requires PaidBy(tr + [e], |tr|, id, c)
    ensures Backed(tr + [e], id, c)
  {
    var i: nat :| MadeBy(tr, i, id, b) && (InEscrow(b) ==> exists j: nat :: i < j && PaidBy(tr, j, id, b));
    MadeByExtends(tr, e, i, id, b, c);
  }

  /** A request that finds the booking there. */
  lemma BackedAfter(tr: seq<Entry>, e: Entry, id: Id)
    requires id in Run(EMPTY, tr).bookings && id in Run(EMPTY, tr + [e]).bookings
    requires Backed(tr, id, Run(EMPTY, tr).bookings[id])
    ensures Backed(tr + [e], id, Run(EMPTY, tr + [e]).bookings[id])
  {
    var n := |tr|;
    var b, c := Run(EMPTY, tr).bookings[id], Run(EMPTY, tr + [e]).bookings[id];
    RunOn(tr, e);
    SamePrefix(tr, e, n);
    StepBacked(Run(EMPTY, tr), e.now, e.request, id);
    if InEscrow(c) && !InEscrow(b) {
      JustPaid(tr + [e], n, id, c);
      BackedAnew(tr, e, id, b, c);
    } else {
      BackedStays(tr, e, id, b, c);
    }
  }

  /** A request that makes it. */
  lemma BackedAtFirst(tr: seq<Entry>, e: Entry, id: Id)
    requires id !in Run(EMPTY, tr).bookings && id in Run(EMPTY, tr + [e]).bookings
    ensures MadeBy(tr + [e], |tr|, id, Run(EMPTY, tr + [e]).bookings[id])
    ensures !InEscrow(Run(EMPTY, tr + [e]).bookings[id])
  {
    RunOn(tr, e);
    SamePrefix(tr, e, |tr|);
    StepBacked(Run(EMPTY, tr), e.now, e.request, id);
  }

  /** In every state of every run of the marketplace: the booking was made on the terms it has, and if
      its funds are in escrow, one accepted payment took them there, and nothing has taken them out. */
  lemma {:induction false} EscrowIsBacked(tr: seq<Entry>, id: Id)
    requires id in Run(EMPTY, tr).bookings
    ensures Backed(tr, id, Run(EMPTY, tr).bookings[id])
  {
    var shorter, e := tr[..|tr| - 1], tr[|tr| - 1];
    assert tr == shorter + [e];
    if id in Run(EMPTY, shorter).bookings {
      EscrowIsBacked(shorter, id);
      BackedAfter(shorter, e, id);
    } else {
      BackedAtFirst(shorter, e, id);
    }
  }
}
