/** Runs from a market without visits that end where nobody would want them to. */
module VisitStories {
  import opened Invoices
  import opened SidePayments
  import opened Visits
  import opened VisitSafety
  import opened Wrappers

  /** One listing, and the account of its owner. */
  function EmptyMarket(l: Id, listing: Listing): State {
    State({listing.ownerId}, map[l := listing], [], [])
  }

  lemma RunOne(s: State, a: Request, rest: seq<Request>)
    ensures Run(s, [a] + rest) == Run(Step(s, a).state, rest)
  {
    assert ([a] + rest)[1..] == rest;
  }

  lemma RunTwo(s: State, a: Request, b: Request, rest: seq<Request>)
    ensures Run(s, [a] + ([b] + rest)) == Run(Step(Step(s, a).state, b).state, rest)
  {
    RunOne(s, a, [b] + rest);
    RunOne(Step(s, a).state, b, rest);
  }

  // ----- an agent's account goes -----

  lemma Assigned(s: State, l: Id, order: Order, admin: Actor, agent: Id)
    requires l in s.listings && s.visits == [] && admin.isAdmin && agent in s.accounts && Known(s, order)
    ensures Step(Step(s, Create(admin, l, order, None)).state, AssignAgent(0, agent)).state
         == s.(visits := [Visit(l, order, Scheduled, Some(agent), None, None)])
  {
    var one := s.(visits := [NewVisit(l, order)]);
    assert Step(s, Create(admin, l, order, None)).state == one;
    assert [NewVisit(l, order)][0 := Visit(l, order, Scheduled, Some(agent), None, None)]
        == [Visit(l, order, Scheduled, Some(agent), None, None)];
  }

  lemma Left(s: State, l: Id, order: Order, agent: Id)
    requires s.visits == [Visit(l, order, Scheduled, Some(agent), None, None)] && order.preferredAgentId.None?
    requires agent in s.accounts && !OwnsListing(s, agent)
    ensures Step(s, DeleteAccount(agent, false)).state.visits == [Visit(l, order, Scheduled, None, None, None)]
  {
    assert WithoutAccount(s.visits[0], agent) == Visit(l, order, Scheduled, None, None, None);
  }

  /** An administrator and an agent sign up, the agent is given a visit, and the agent's account is
      deleted: the visit is scheduled, and nobody will come. `held` is false: the assignment normally
      leaves the agent a notification that keeps the account, so the run supposes that the
      sending of it failed: it goes on beside the request. */
  lemma AgentGoes(l: Id, listing: Listing, order: Order, admin: Actor, agent: Id) returns (run: seq<Request>)
    requires admin.isAdmin && listing.ownerId != agent && order.preferredAgentId.None?
    ensures Run(EmptyMarket(l, listing), run).visits == [Visit(l, order, Scheduled, None, None, None)]
    ensures !VisitsStaffed(Run(EmptyMarket(l, listing), run).visits)
  {
    var start := EmptyMarket(l, listing);
    var staffed := start.(accounts := {listing.ownerId} + {admin.id});
    var joined := start.(accounts := {listing.ownerId} + {admin.id} + {agent});
    var given := joined.(visits := [Visit(l, order, Scheduled, Some(agent), None, None)]);
    var create, assign, delete := Create(admin, l, order, None), AssignAgent(0, agent), DeleteAccount(agent, false);
    run := [SignUp(admin.id)] + ([SignUp(agent)] + ([create] + ([assign] + ([delete] + []))));
    assert Step(start, SignUp(admin.id)).state == staffed && Step(staffed, SignUp(agent)).state == joined;
    Assigned(joined, l, order, admin, agent);
    Left(given, l, order, agent);
    RunTwo(start, SignUp(admin.id), SignUp(agent), [create] + ([assign] + ([delete] + [])));
    RunTwo(joined, create, assign, [delete] + []);
    RunOne(given, delete, []);
    assert NeedsAgent(Run(start, run).visits[0]);
  }

  // ----- paid for nothing -----

  lemma OpensPayment(s: State, l: Id, owner: Actor, order: Order, token: string)
    requires l in s.listings && s.listings[l].ownerId == owner.id && !Covered(owner)
    requires s.visits == [] && LatestPending(s.payments, l).None?
    requires forall i | 0 <= i < |s.payments| :: s.payments[i].ref != Ref(token)
    ensures var t := Step(s, Create(owner, l, order, Some(Invoice(token, 1)))).state;
            && t == s.(payments := s.payments + [OpenPayment(l, order, owner.id, Invoice(token, 1))])
            && LatestPending(t.payments, l) == Some(|s.payments|)
  {
    var t := s.(payments := s.payments + [OpenPayment(l, order, owner.id, Invoice(token, 1))]);
    assert Awaits(t.payments[|s.payments|], l);
  }

  lemma SettlesWithoutVisit(s: State, l: Id, owner: Actor, order: Order, paid: real)
    requires s.payments == [OpenPayment(l, order, owner.id, Invoice("a", 1))] && s.visits == []
    requires LatestPending(s.payments, l) == Some(0) && !Known(s, order)
    ensures var t := Step(s, Webhook(l, "a", Completed(paid))).state;
            && |t.payments| == 1 && t.payments[0].status == Confirmed && t.payments[0].details.visit.None?
            && t.visits == []
  {
    assert !RefTaken(s.payments, Ref("a"), Some(0));
  }

  /** An owner asks for an agent who has no account, and pays: the payment is confirmed, and there is
      no visit. */
  lemma PaidForNothing(l: Id, listing: Listing, order: Order, owner: Actor) returns (run: seq<Request>)
    requires listing.ownerId == owner.id && !Covered(owner)
    requires order.preferredAgentId.Some? && order.preferredAgentId != Some(owner.id)
    ensures var end := Run(EmptyMarket(l, listing), run);
            && |end.payments| == 1 && end.payments[0].status == Confirmed && end.visits == []
            && !PaymentsServed(end.payments)
  {
    var start := EmptyMarket(l, listing);
    var asks, paid := Create(owner, l, order, Some(Invoice("a", 1))), Webhook(l, "a", Completed(1.0));
    run := [asks] + ([paid] + []);
    OpensPayment(start, l, owner, order, "a");
    var middle := start.(payments := [] + [OpenPayment(l, order, owner.id, Invoice("a", 1))]);
    SettlesWithoutVisit(middle, l, owner, order, 1.0);
    RunTwo(start, asks, paid, []);
    assert Run(start, run).payments[0].status == Confirmed;
  }

  // ----- bad news that comes twice -----

  lemma OpensAndFails(s: State, l: Id, owner: Actor, order: Order, token: string, declined: string)
    requires l in s.listings && s.listings[l].ownerId == owner.id && !Covered(owner)
    requires s.visits == [] && LatestPending(s.payments, l).None?
    requires forall i | 0 <= i < |s.payments| :: s.payments[i].ref != Ref(token)
    ensures var unpaid := Step(s, Create(owner, l, order, Some(Invoice(token, 1)))).state;
            Step(unpaid, Webhook(l, declined, Declined)).state
            == s.(payments := s.payments + [OpenPayment(l, order, owner.id, Invoice(token, 1)).(status := Failed)])
  {
    OpensPayment(s, l, owner, order, token);
  }

  /** What the owner of the story asks for, and what the gateway reports. */
  function Asks(l: Id, order: Order, owner: Actor, token: string): Request {
    Create(owner, l, order, Some(Invoice(token, 1)))
  }

  function CancelledTwice(l: Id, order: Order, owner: Actor): seq<Request> {
    var cancelled, paid := Webhook(l, "a", Declined), Webhook(l, "b", Completed(1.0));
    [Asks(l, order, owner, "a")] + ([cancelled] + ([Asks(l, order, owner, "b")] + ([cancelled] + ([paid] + []))))
  }

  lemma CancelledTwiceEnds(start: State, l: Id, order: Order, owner: Actor, middle: State, end: State)
    requires Step(Step(start, Asks(l, order, owner, "a")).state, Webhook(l, "a", Declined)).state == middle
    requires Step(Step(middle, Asks(l, order, owner, "b")).state, Webhook(l, "a", Declined)).state == end
    requires LatestPending(end.payments, l).None?
    ensures Run(start, CancelledTwice(l, order, owner)) == end
  {
    var cancelled, paid := Webhook(l, "a", Declined), Webhook(l, "b", Completed(1.0));
    RunTwo(start, Asks(l, order, owner, "a"), cancelled, [Asks(l, order, owner, "b")] + ([cancelled] + ([paid] + [])));
    RunTwo(middle, Asks(l, order, owner, "b"), cancelled, [paid] + []);
    RunOne(end, paid, []);
  }

  lemma NoneOpen(payments: seq<VisitPayment>, l: Id)
    requires forall i | 0 <= i < |payments| :: payments[i].status != Pending
    ensures LatestPending(payments, l).None?
  {
  }

  function FailedPayment(l: Id, order: Order, owner: Actor, token: string): VisitPayment {
    OpenPayment(l, order, owner.id, Invoice(token, 1)).(status := Failed)
  }

  lemma AfterOne(start: State, l: Id, order: Order, owner: Actor) returns (middle: State)
    requires l in start.listings && start.listings[l].ownerId == owner.id && !Covered(owner)
    requires start.visits == [] && start.payments == []
    ensures Step(Step(start, Asks(l, order, owner, "a")).state, Webhook(l, "a", Declined)).state == middle
    ensures middle == start.(payments := [FailedPayment(l, order, owner, "a")])
  {
    NoneOpen(start.payments, l);
    OpensAndFails(start, l, owner, order, "a", "a");
    assert start.payments + [FailedPayment(l, order, owner, "a")] == [FailedPayment(l, order, owner, "a")];
    middle := start.(payments := [FailedPayment(l, order, owner, "a")]);
  }

  lemma AfterTwo(middle: State, l: Id, order: Order, owner: Actor) returns (end: State)
    requires l in middle.listings && middle.listings[l].ownerId == owner.id && !Covered(owner)
    requires middle.visits == [] && middle.payments == [FailedPayment(l, order, owner, "a")]
    ensures Step(Step(middle, Asks(l, order, owner, "b")).state, Webhook(l, "a", Declined)).state == end
    ensures end == middle.(payments := middle.payments + [FailedPayment(l, order, owner, "b")])
    ensures LatestPending(end.payments, l).None?
  {
    NoneOpen(middle.payments, l);
    RefsDiffer("a", "b");
    OpensAndFails(middle, l, owner, order, "b", "a");
    end := middle.(payments := middle.payments + [FailedPayment(l, order, owner, "b")]);
    NoneOpen(end.payments, l);
  }

  /** A cancellation that comes twice fails the payment that followed, which is then paid for
      nothing: its own good news finds no open payment. */
  lemma LateDeclineFailsTheNext(l: Id, listing: Listing, order: Order, owner: Actor)
    requires listing.ownerId == owner.id && !Covered(owner)
    ensures var end := Run(EmptyMarket(l, listing), CancelledTwice(l, order, owner));
            && end.visits == [] && |end.payments| == 2
            && end.payments[1].ref == Ref("b") && end.payments[1].status == Failed
  {
    var start := EmptyMarket(l, listing);
    var middle := AfterOne(start, l, order, owner);
    var end := AfterTwo(middle, l, order, owner);
    CancelledTwiceEnds(start, l, order, owner, middle, end);
  }
}
