/** Every cause of every change of a boost and of its payments, in points and milliseconds. */
module BoostMoves {
  import opened Boosts
  import opened SidePayments
  import opened Wrappers

  const SEVEN_DAYS := 604_800_000

  /** The owner boosts a listing that is there, and an active plan covers it. */
  predicate BoostsFree(s: State, r: Request, id: Id) {
    r.Boost? && r.id == id && id in s.rows && r.userId == s.rows[id].ownerId && r.isProActive
  }

  /** The gateway reports an invoice as paid while a payment of the listing is open. */
  predicate BoostsPaid(s: State, r: Request, id: Id) {
    && r.Webhook? && r.id == id && r.answer.Completed?
    && exists k :: 0 <= k < |s.payments| && s.payments[k].listingId == id && s.payments[k].status == Pending
  }

  /** The owner of a listing asks for a boost that no plan covers, and gets an invoice nobody has. */
  predicate OpensPayment(s: State, r: Request) {
    && r.Boost? && r.id in s.rows && r.userId == s.rows[r.id].ownerId && !r.isProActive
    && r.invoice.Some? && !HasRef(s.payments, r.invoice.value, |s.payments|)
  }

  /** A boost is ten points more, a hundred at most, for seven days from the request; nothing else touches
      a listing. */
  lemma RowExact(s: State, r: Request, id: Id)
    requires id in s.rows
    ensures id in Step(s, r).state.rows
    ensures var was, row := s.rows[id], Step(s, r).state.rows[id];
            if BoostsFree(s, r, id) || BoostsPaid(s, r, id) then
              && row.ownerId == was.ownerId && row.until == Some(r.now + SEVEN_DAYS)
              && row.score == if was.score <= 90 then was.score + 10 else 100
            else row == was
  {
    NoneOpen(s.payments, id);
  }

  /** A payment is added for an order that is not covered; the gateway's answer settles the latest open
      payment of the listing, unless another payment has its token. */
  lemma PaymentsExact(s: State, r: Request)
    ensures var t := Step(s, r).state;
            var place := if r.Webhook? then LatestPending(s.payments, r.id) else None;
            t.payments
            == if OpensPayment(s, r) then
                 s.payments + [Payment(r.id, "PD-" + r.invoice.value, Pending, ())]
               else if place.Some? && r.answer.Declined? then
                 s.payments[place.value := s.payments[place.value].(status := Failed)]
               else if place.Some? && r.answer.Completed? && r.id in s.rows
                       && !HasRef(s.payments, r.token, place.value) then
                 s.payments[place.value := s.payments[place.value].(status := Confirmed, ref := "PD-" + r.token)]
               else s.payments
  {
    match r
    case Boost(_, _, _, invoice, _) =>
      if invoice.Some? {
        HasRefIff(s.payments, invoice.value, None);
      }
    case Webhook(id, token, answer, _) =>
      var place := LatestPending(s.payments, id);
      if place.Some? {
        LatestIs(s.payments, id, place.value);
        HasRefIff(s.payments, token, place);
      }
  }

  /** Who hears what. */
  lemma AnswerExact(s: State, r: Request)
    ensures r.Boost? ==>
              (Step(s, r).outcome == Accepted <==> BoostsFree(s, r, r.id) || OpensPayment(s, r))
              && (Step(s, r).outcome == NotFound <==> r.id !in s.rows)
              && (Step(s, r).outcome == Forbidden <==> r.id in s.rows && s.rows[r.id].ownerId != r.userId)
              && (Step(s, r).outcome != Accepted ==> Step(s, r).state == s)
    ensures r.Webhook? && LatestPending(s.payments, r.id).None? ==> Step(s, r) == Reply(Accepted, s)
    ensures r.Webhook? && LatestPending(s.payments, r.id).Some? ==>
              Step(s, r).outcome
              == match r.answer
                 case Unreachable => BadRequest
                 case Completed(_) =>
                   if r.id !in s.rows then NotFound
                   else if HasRef(s.payments, r.token, LatestPending(s.payments, r.id).value) then Refused else Accepted
                 case _ => Accepted
  {
    if r.Boost? && r.invoice.Some? {
      HasRefIff(s.payments, r.invoice.value, None);
    }
    if r.Webhook? && LatestPending(s.payments, r.id).Some? {
      HasRefIff(s.payments, r.token, LatestPending(s.payments, r.id));
    }
  }
}
