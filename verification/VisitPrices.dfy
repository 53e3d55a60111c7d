/**
 What the gateway took for a visit: the webhook confirms a payment without comparing the amount with
 the price that the payment was opened at.
 */
module VisitPrices {
  import opened Invoices
  import opened SidePayments
  import opened Visits
  import opened VisitSafety
  import opened VisitStories
  import opened Wrappers

  /** The good news that the webhook takes for payment `i`. */
  predicate Settles(s: State, r: Request, i: nat) {
    && r.Webhook? && r.answer.Completed?
    && LatestPending(s.payments, r.listingId) == Some(i) && !RefTaken(s.payments, Ref(r.token), Some(i))
  }

  predicate IsConfirmed(payments: seq<VisitPayment>, i: nat) {
    i < |payments| && payments[i].status == Confirmed
  }

  /** Payments stay, at their price; one comes to be confirmed if and only if its good news comes. */
  lemma ConfirmExact(s: State, r: Request, i: nat)
    ensures var t := Step(s, r).state;
            && |s.payments| <= |t.payments|
            && (i < |s.payments| ==> t.payments[i].details.amount == s.payments[i].details.amount)
            && (!IsConfirmed(s.payments, i) ==> (IsConfirmed(t.payments, i) <==> Settles(s, r, i)))
            && (IsConfirmed(s.payments, i) ==> IsConfirmed(t.payments, i))
  {
    if AboutVisit(r) {
      OnVisitKeeps(s, r);
    }
  }

  /** What the gateway reported when the run confirmed the payment, if it did. */
  function AmountTaken(s: State, run: seq<Request>, i: nat): Option<real>
    decreases |run|
  {
    if run == [] then None
    else if Settles(s, run[0], i) then Some(run[0].answer.amount)
    else AmountTaken(Step(s, run[0]).state, run[1..], i)
  }

  lemma {:induction false} ConfirmedStays(s: State, run: seq<Request>, i: nat)
    requires IsConfirmed(s.payments, i)
    ensures IsConfirmed(Run(s, run).payments, i)
    ensures Run(s, run).payments[i].details.amount == s.payments[i].details.amount
    decreases |run|
  {
    if run == [] {
    } else {
      ConfirmExact(s, run[0], i);
      ConfirmedStays(Step(s, run[0]).state, run[1..], i);
    }
  }

  /** A run confirms a payment if and only if the gateway reported an amount for it. */
  lemma {:induction false} ConfirmedByAnswer(s: State, run: seq<Request>, i: nat)
    requires !IsConfirmed(s.payments, i)
    ensures IsConfirmed(Run(s, run).payments, i) <==> AmountTaken(s, run, i).Some?
    decreases |run|
  {
    if run == [] {
    } else {
      var t := Step(s, run[0]).state;
      ConfirmExact(s, run[0], i);
      if Settles(s, run[0], i) {
        ConfirmedStays(t, run[1..], i);
      } else {
        ConfirmedByAnswer(t, run[1..], i);
      }
    }
  }

  // ----- the price -----

  /** If the run confirms the payment, then for its price or more. */
  ghost predicate PaidInFull(s: State, run: seq<Request>, i: nat) {
    !IsConfirmed(s.payments, i) && IsConfirmed(Run(s, run).payments, i) ==>
      var taken := AmountTaken(s, run, i);
      taken.Some? && taken.value >= Run(s, run).payments[i].details.amount as real
  }

  ghost predicate AllPaidInFull(s: State, run: seq<Request>) {
    forall i: nat :: PaidInFull(s, run, i)
  }

  /** Good news of less than the price. */
  predicate Underpays(s: State, r: Request) {
    && r.Webhook?
    && var place := LatestPending(s.payments, r.listingId);
    && place.Some? && Settles(s, r, place.value)
    && r.answer.amount < s.payments[place.value].details.amount as real
  }

  ghost predicate NeverUnderpays(s: State, run: seq<Request>)
    decreases |run|
  {
    run != [] ==> !Underpays(s, run[0]) && NeverUnderpays(Step(s, run[0]).state, run[1..])
  }

  /** What the first request of a run does to the question. */
  lemma InFullAtFirst(s: State, run: seq<Request>, i: nat)
    requires run != []
    ensures var t := Step(s, run[0]).state;
            PaidInFull(s, run, i) <==> PaidInFull(t, run[1..], i) && !(Settles(s, run[0], i) && Underpays(s, run[0]))
  {
    var t := Step(s, run[0]).state;
    ConfirmExact(s, run[0], i);
    if Settles(s, run[0], i) {
      ConfirmedStays(t, run[1..], i);
      assert !IsConfirmed(s.payments, i);
    }
  }

  /** Every payment that a run confirms was paid its price if and only if no good news of less came
      for a payment that was open: the webhook leaves it to the gateway. */
  lemma {:induction false} PaidInFullExact(s: State, run: seq<Request>)
    ensures AllPaidInFull(s, run) <==> NeverUnderpays(s, run)
    decreases |run|
  {
    if run == [] {
      assert forall i: nat :: PaidInFull(s, run, i);
    } else {
      var t := Step(s, run[0]).state;
      PaidInFullExact(t, run[1..]);
      forall i: nat
        ensures PaidInFull(s, run, i)
           <==> PaidInFull(t, run[1..], i) && !(Settles(s, run[0], i) && Underpays(s, run[0]))
      {
        InFullAtFirst(s, run, i);
      }
      if Underpays(s, run[0]) {
        var i := LatestPending(s.payments, run[0].listingId).value;
        assert !PaidInFull(s, run, i);
      }
    }
  }

  // ----- any amount will do -----

  /** The request as if the gateway had reported another amount. */
  function WithAmount(r: Request, amount: real): Request {
    if r.Webhook? && r.answer.Completed? then r.(answer := Completed(amount)) else r
  }

  function WithAmounts(run: seq<Request>, amount: real): seq<Request> {
    seq(|run|, i requires 0 <= i < |run| => WithAmount(run[i], amount))
  }

  /** Payments, visits and badges come out the same whatever amounts the gateway reports. */
  lemma {:induction false} AmountsIgnored(s: State, run: seq<Request>, amount: real)
    ensures Run(s, WithAmounts(run, amount)) == Run(s, run)
    decreases |run|
  {
    if run == [] {
    } else {
      var other := WithAmounts(run, amount);
      assert other[1..] == WithAmounts(run[1..], amount);
      assert Step(s, other[0]) == Step(s, run[0]);
      AmountsIgnored(Step(s, run[0]).state, run[1..], amount);
    }
  }

  lemma OpensAtPrice(s: State, l: Id, owner: Actor, order: Order, price: int)
    requires l in s.listings && s.listings[l].ownerId == owner.id && !Covered(owner)
    requires s.visits == [] && s.payments == []
    ensures Step(s, Create(owner, l, order, Some(Invoice("a", price)))).state
         == s.(payments := [OpenPayment(l, order, owner.id, Invoice("a", price))])
  {
  }

  lemma SettlesAtAnyAmount(s: State, l: Id, owner: Actor, order: Order, price: int, paid: real)
    requires s.payments == [OpenPayment(l, order, owner.id, Invoice("a", price))] && s.visits == []
    requires order.preferredAgentId.None?
    ensures Settles(s, Webhook(l, "a", Completed(paid)), 0)
    ensures Step(s, Webhook(l, "a", Completed(paid))).state.visits == [NewVisit(l, order)]
  {
    assert Awaits(s.payments[0], l);
    assert LatestPending(s.payments, l) == Some(0);
  }

  /** The exception is real: an owner pays less than the price, however little, and has the visit. */
  lemma VisitForLess(l: Id, listing: Listing, order: Order, owner: Actor, price: int, paid: real)
    returns (run: seq<Request>)
    requires listing.ownerId == owner.id && !Covered(owner) && order.preferredAgentId.None?
    requires paid < price as real
    ensures !AllPaidInFull(EmptyMarket(l, listing), run)
    ensures Run(EmptyMarket(l, listing), run).visits == [NewVisit(l, order)]
  {
    var start := EmptyMarket(l, listing);
    var asks, pays := Create(owner, l, order, Some(Invoice("a", price))), Webhook(l, "a", Completed(paid));
    run := [asks] + ([pays] + []);
    var open := start.(payments := [OpenPayment(l, order, owner.id, Invoice("a", price))]);
    OpensAtPrice(start, l, owner, order, price);
    SettlesAtAnyAmount(open, l, owner, order, price, paid);
    RunTwo(start, asks, pays, []);
    assert Underpays(open, pays);
    assert run[1..][0] == pays;
    PaidInFullExact(start, run);
  }
}
