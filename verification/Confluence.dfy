/**
 Webhook deliveries and active checks for one invoice may arrive in any order and any number
 of times: with one final verdict of the gateway, they leave what a single call leaves.
 */
module Confluence {
  import opened Invoices
  import opened Wrappers
  import opened Market

  /** A call that asks the gateway about invoice `token` of booking `id` and hears `verdict`. */
  predicate Asks(b: Booking, q: Request, id: Id, token: string, verdict: Verdict) {
    && q.ForBooking? && q.id == id
    && (q.event == Webhook(token, verdict) || (q.event == Verify(verdict) && q.who.id == b.tenantId))
  }

  /** What the verdict means for the marketplace. */
  function Settled(s: State, id: Id, verdict: Verdict): State
    requires Linked(s) && id in s.bookings
  {
    var b := s.bookings[id];
    match verdict
    case Paid(amount) =>
      if AmountMatches(b, amount) then Store(s, id, RowReply(Accepted, MarkPaid(b, None), Payment)) else s
    case Declined => s.(bookings := s.bookings[id := MarkDeclined(b)])
    case _ => s
  }

  /** The booking waits for the payment of this invoice. */
  predicate AwaitsPayment(b: Booking, token: string) {
    b.status == Payable(b) && b.paymentRef == Some(Ref(token))
  }

  /** What the verdict means for the row, and whether it is paid by it. */
  function RowSettled(b: Booking, verdict: Verdict): (Booking, bool) {
    match verdict
    case Paid(amount) => if AmountMatches(b, amount) then (MarkPaid(b, None), true) else (b, false)
    case Declined => (MarkDeclined(b), false)
    case _ => (b, false)
  }

  lemma RowCall(b: Booking, now: int, byTenant: bool, e: RowEvent, token: string, verdict: Verdict)
    requires AwaitsPayment(b, token) && (e == Webhook(token, verdict) || e == Verify(verdict))
    ensures var r := RowStep(b, now, byTenant, e);
            (r.row, r.effect.Payment?) == RowSettled(b, verdict) && !r.effect.LeaseEnd?
  {
    assert REF_PREFIX <= Ref(token);
  }

  /** A row that is settled is left alone. */
  lemma RowCalledAgain(b: Booking, now: int, byTenant: bool, e: RowEvent, token: string, verdict: Verdict)
    requires AwaitsPayment(b, token) && (e == Webhook(token, verdict) || e == Verify(verdict))
    requires RowSettled(b, verdict).0 != b
    ensures var r := RowStep(RowSettled(b, verdict).0, now, byTenant, e);
            r.row == RowSettled(b, verdict).0 && r.effect.Nothing?
  {
    assert REF_PREFIX <= Ref(token);
  }

  lemma OneCall(s: State, now: int, q: Request, id: Id, token: string, verdict: Verdict)
    requires Linked(s) && id in s.bookings && AwaitsPayment(s.bookings[id], token)
    requires Asks(s.bookings[id], q, id, token, verdict)
    ensures Step(s, now, q).state == Settled(s, id, verdict)
  {
    var b := s.bookings[id];
    RowCall(b, now, q.who.id == b.tenantId, q.event, token, verdict);
    assert s.bookings[id := b] == s.bookings;
  }

  lemma OneMoreCall(s: State, now: int, q: Request, id: Id, token: string, verdict: Verdict)
    requires Linked(s) && id in s.bookings && AwaitsPayment(s.bookings[id], token)
    requires Asks(s.bookings[id], q, id, token, verdict)
    ensures Step(Settled(s, id, verdict), now, q).state == Settled(s, id, verdict)
  {
    var b, t := s.bookings[id], Settled(s, id, verdict);
    if RowSettled(b, verdict).0 == b {
      assert s.bookings[id := b] == s.bookings;
      OneCall(s, now, q, id, token, verdict);
    } else {
      RowCalledAgain(b, now, q.who.id == b.tenantId, q.event, token, verdict);
      assert t.bookings[id] == RowSettled(b, verdict).0;
      assert t.bookings[id := t.bookings[id]] == t.bookings;
    }
  }

  ghost predicate AllAsk(b: Booking, tr: seq<Entry>, id: Id, token: string, verdict: Verdict) {
    forall i | 0 <= i < |tr| :: Asks(b, tr[i].request, id, token, verdict)
  }

  /** Any non-empty mix of calls leaves the state of a single one. */
  lemma {:induction false} AnyMixSettles(s: State, tr: seq<Entry>, id: Id, token: string, verdict: Verdict)
    requires Linked(s) && id in s.bookings && AwaitsPayment(s.bookings[id], token)
    requires tr != [] && AllAsk(s.bookings[id], tr, id, token, verdict)
    ensures Run(s, tr) == Settled(s, id, verdict)
  {
    var shorter, e := tr[..|tr| - 1], tr[|tr| - 1];
    if shorter == [] {
      OneCall(s, e.now, e.request, id, token, verdict);
    } else {
      AnyMixSettles(s, shorter, id, token, verdict);
      OneMoreCall(s, e.now, e.request, id, token, verdict);
    }
  }

  ghost predicate NoDuplicates(ids: seq<Id>) {
    forall i, j | 0 <= i < j < |ids| :: ids[i] != ids[j]
  }

  lemma {:induction false} WithoutKeepsOrder(ids: seq<Id>, gone: set<Id>)
    requires NoDuplicates(ids)
    ensures NoDuplicates(Without(ids, gone))
  {
    if ids == [] {
    } else {
      WithoutKeepsOrder(ids[1..], gone);
    }
  }

  lemma StepKeepsContracts(s: State, now: int, q: Request)
    requires Linked(s) && NoDuplicates(s.contracts)
    ensures NoDuplicates(Step(s, now, q).state.contracts)
  {
    if q.Remove? && q.id in s.listings {
      WithoutKeepsOrder(s.contracts, set k | k in s.bookings && s.bookings[k].listingId == q.id);
    }
  }

  /** No booking ever has two contracts. */
  lemma {:induction false} OneContractEach(s: State, tr: seq<Entry>)
    requires Linked(s) && NoDuplicates(s.contracts)
    ensures NoDuplicates(Run(s, tr).contracts)
  {
    if tr == [] {
    } else {
      OneContractEach(s, tr[..|tr| - 1]);
      StepKeepsContracts(Run(s, tr[..|tr| - 1]), tr[|tr| - 1].now, tr[|tr| - 1].request);
    }
  }
}
