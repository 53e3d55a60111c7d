/**
 Every cause of every change of visits, their payments and badges, told from the tables and the
 request alone.
 */
module VisitMoves {
  import opened SidePayments
  import opened Visits
  import opened VisitSafety
  import opened Wrappers

  const QUARTER_HOUR := 900_000

  /** The agent who was given the visit. */
  predicate Own(v: Visit, agentId: Id) {
    v.agentId.Some? && v.agentId.value == agentId
  }

  predicate UnderWay(v: Visit) {
    v.status == Requested || v.status == Scheduled || v.status == InProgress
  }

  /** The causes of each status of visit `i`. */
  predicate LeadsTo(s: State, r: Request, i: nat, status: VisitStatus)
    requires i < |s.visits|
  {
    var v := s.visits[i];
    match status
    case Requested => r == ApproveDecline(i) && v.status == DeclinePending
    case Scheduled =>
      || (r == RefuseDecline(i) && v.status == DeclinePending)
      || (r.AssignAgent? && r.id == i && r.agentId in s.accounts)
    case InProgress => r.Start? && r.id == i && Own(v, r.agentId) && r.now >= v.order.scheduledAt - QUARTER_HOUR
    case Done => r.Complete? && r.id == i && Own(v, r.agentId) && v.status == InProgress
    case Rejected => r.Reject? && r.id == i && (Own(v, r.who.id) || r.who.isAdmin) && UnderWay(v)
    case DeclinePending => r.Decline? && r.id == i && Own(v, r.agentId) && v.status == Scheduled
  }

  predicate Validates(s: State, r: Request, i: nat)
    requires i < |s.visits|
  {
    r.Validate? && r.id == i && r.who.isAdmin && s.visits[i].status == Done
  }

  /** An account goes that nothing holds and that owns no listing. */
  predicate Leaves(s: State, r: Request, userId: Id) {
    && r.DeleteAccount? && r.userId == userId && userId in s.accounts && !r.held
    && forall l | l in s.listings :: s.listings[l].ownerId != userId
  }

  /** One request brings a visit into another status if and only if it is one of the causes of that
      status. */
  lemma StatusExact(s: State, r: Request, i: nat, status: VisitStatus)
    requires i < |s.visits| && s.visits[i].status != status
    ensures i < |Step(s, r).state.visits|
    ensures Step(s, r).state.visits[i].status == status <==> LeadsTo(s, r, i, status)
  {
    if AboutVisit(r) {
      StatusByVisit(s, r, i, status);
    } else {
      VisitStays(s, r, i);
    }
  }

  lemma StatusByVisit(s: State, r: Request, i: nat, status: VisitStatus)
    requires i < |s.visits| && s.visits[i].status != status && AboutVisit(r)
    ensures i < |Step(s, r).state.visits|
    ensures Step(s, r).state.visits[i].status == status <==> LeadsTo(s, r, i, status)
  {
    OnVisitKeeps(s, r);
  }

  /** Who has the visit, and when it was completed. */
  lemma AgentExact(s: State, r: Request, i: nat)
    requires i < |s.visits|
    ensures i < |Step(s, r).state.visits|
    ensures var was, v := s.visits[i], Step(s, r).state.visits[i];
            && v.listingId == was.listingId
            && v.agentId
               == (if r.AssignAgent? && LeadsTo(s, r, i, Scheduled) then Some(r.agentId)
                   else if LeadsTo(s, r, i, Requested) then None
                   else if was.agentId.Some? && Leaves(s, r, was.agentId.value) then None else was.agentId)
            && v.completedAt == if LeadsTo(s, r, i, Done) then Some(r.now) else was.completedAt
  {
    VisitStays(s, r, i);
    if AboutVisit(r) {
      AgentByVisit(s, r, i);
    }
  }

  lemma AgentByVisit(s: State, r: Request, i: nat)
    requires i < |s.visits| && AboutVisit(r)
    ensures i < |Step(s, r).state.visits|
    ensures var was, v := s.visits[i], Step(s, r).state.visits[i];
            && v.listingId == was.listingId
            && v.agentId == (if r.AssignAgent? && LeadsTo(s, r, i, Scheduled) then Some(r.agentId)
                             else if LeadsTo(s, r, i, Requested) then None else was.agentId)
            && v.completedAt == if LeadsTo(s, r, i, Done) then Some(r.now) else was.completedAt
  {
    OnVisitKeeps(s, r);
  }

  /** What was ordered stays, but for the wish for an agent whose account goes; the reason of the last
      refusal stays until the refusal is turned down. */
  lemma OrderExact(s: State, r: Request, i: nat)
    requires i < |s.visits|
    ensures i < |Step(s, r).state.visits|
    ensures var was, v := s.visits[i], Step(s, r).state.visits[i];
            var wish := was.order.preferredAgentId;
            && v.order == (if wish.Some? && Leaves(s, r, wish.value) then was.order.(preferredAgentId := None)
                           else was.order)
            && v.declineReason == if LeadsTo(s, r, i, DeclinePending) then Some(r.reason)
                                  else if r.RefuseDecline? && LeadsTo(s, r, i, Scheduled) then None
                                  else was.declineReason
  {
    if AboutVisit(r) {
      OrderByVisit(s, r, i);
    } else {
      VisitStays(s, r, i);
    }
  }

  lemma OrderByVisit(s: State, r: Request, i: nat)
    requires i < |s.visits| && AboutVisit(r)
    ensures i < |Step(s, r).state.visits|
    ensures var was, v := s.visits[i], Step(s, r).state.visits[i];
            && v.order == was.order
            && v.declineReason == if LeadsTo(s, r, i, DeclinePending) then Some(r.reason)
                                  else if r.RefuseDecline? && LeadsTo(s, r, i, Scheduled) then None
                                  else was.declineReason
  {
    OnVisitKeeps(s, r);
  }

  /** The sender is neither the agent who was given the visit nor, where that is enough, an administrator. */
  predicate NotTheirs(v: Visit, r: Request) {
    match r
    case Decline(_, a, _) => !Own(v, a)
    case Start(_, a, _) => !Own(v, a)
    case Complete(_, a, _) => !Own(v, a)
    case Validate(_, who, _) => !who.isAdmin
    case Reject(_, who) => !Own(v, who.id) && !who.isAdmin
    case _ => false
  }

  /** Requests about one visit are accepted if they have a cause to change it, or validate it; all others
      change nothing, and hear why. */
  lemma AnswerExact(s: State, r: Request)
    requires AboutVisit(r)
    ensures r.id >= |s.visits| ==>
              Step(s, r) == Reply(if r.Validate? && !r.who.isAdmin then Forbidden else NotFound, s)
    ensures r.id < |s.visits| ==>
              var accepted := Validates(s, r, r.id) || exists status :: LeadsTo(s, r, r.id, status);
              && Step(s, r).outcome
                 == (if accepted then Accepted
                     else if NotTheirs(s.visits[r.id], r) then Forbidden
                     else if r.AssignAgent? then Refused
                     else BadRequest)
              && (!accepted ==> Step(s, r).state == s)
  {
    if r.id < |s.visits| {
      assert s.visits[r.id := s.visits[r.id]] == s.visits;
      if Step(s, r).outcome == Accepted && !r.Validate? {
        assert LeadsTo(s, r, r.id, VisitStep(s.visits[r.id], r).1.status);
      }
    }
  }

  // ----- badges -----

  /** A visit of the listing is completed, or its completion validated. */
  predicate Certifies(s: State, r: Request, l: Id) {
    && AboutVisit(r) && r.id < |s.visits| && s.visits[r.id].listingId == l
    && (LeadsTo(s, r, r.id, Done) || Validates(s, r, r.id))
  }

  /** A listing has a badge after a request if the request certifies it, or it had one that the request
      does not expire; the date is that of the last certificate. */
  lemma BadgeExact(s: State, r: Request, l: Id)
    requires l in s.listings
    ensures l in Step(s, r).state.listings
    ensures var was, listing := s.listings[l], Step(s, r).state.listings[l];
            && listing.ownerId == was.ownerId
            && listing.verifiedAt == (if Certifies(s, r, l) then Some(r.now) else was.verifiedAt)
            && (listing.isVerified
                <==> Certifies(s, r, l)
                     || (was.isVerified
                         && !(r.ExpireBadges? && was.verifiedAt.Some? && was.verifiedAt.value < r.cutoff)))
  {
  }

  lemma AccountsExact(s: State, r: Request, userId: Id)
    ensures userId in Step(s, r).state.accounts
       <==> (userId in s.accounts && !Leaves(s, r, userId)) || r == SignUp(userId)
  {
  }

  // ----- visits and payments that are new -----

  /** Good news for the open payment, with a token that no other payment has. */
  predicate Confirms(s: State, r: Request, i: nat) {
    && r.Webhook? && r.answer.Completed?
    && IsLatest(s.payments, r.listingId, i) && !HasRef(s.payments, r.token, i)
  }

  predicate Fails(s: State, r: Request, i: nat) {
    r.Webhook? && r.answer.Declined? && IsLatest(s.payments, r.listingId, i)
  }

  predicate AgentKnown(s: State, order: Order) {
    order.preferredAgentId.None? || order.preferredAgentId.value in s.accounts
  }

  /** Confirming the payment makes the visit. */
  predicate MakesVisit(s: State, r: Request, i: nat) {
    Confirms(s, r, i) && s.payments[i].details.visit.None? && AgentKnown(s, s.payments[i].details.order)
  }

  /** A payment changes by the gateway's answer about the open payment of its listing, and in no other
      way. */
  lemma PaymentExact(s: State, r: Request, i: nat)
    requires i < |s.payments|
    ensures i < |Step(s, r).state.payments|
    ensures var was := s.payments[i];
            Step(s, r).state.payments[i]
            == if Confirms(s, r, i) then
                 was.(status := Confirmed, ref := "PD-" + r.token,
                      details := was.details.(visit := if MakesVisit(s, r, i) then Some(|s.visits|)
                                                       else was.details.visit))
               else if Fails(s, r, i) then was.(status := Failed)
               else was
  {
    if r.Webhook? {
      LatestIs(s.payments, r.listingId, i);
      HasRefIff(s.payments, r.token, Some(i));
    } else if AboutVisit(r) {
      OnVisitKeeps(s, r);
    }
  }

  /** A listing takes an order from its owner or an administrator while no visit of it is under way. */
  predicate MayOrder(s: State, r: Request) {
    && r.Create? && r.listingId in s.listings
    && (s.listings[r.listingId].ownerId == r.who.id || r.who.isAdmin)
    && forall k | 0 <= k < |s.visits| :: s.visits[k].listingId != r.listingId || !UnderWay(s.visits[k])
  }

  /** The plan of an agency, or being an administrator, covers the visit. */
  predicate OrdersFree(s: State, r: Request) {
    MayOrder(s, r) && (r.who.isAdmin || r.who.isProActive) && AgentKnown(s, r.order)
  }

  /** Everybody else pays, unless a payment of the listing is open. */
  predicate OrdersPaid(s: State, r: Request) {
    && MayOrder(s, r) && !r.who.isAdmin && !r.who.isProActive
    && (forall k | 0 <= k < |s.payments| ::
          s.payments[k].listingId != r.listingId || s.payments[k].status != Pending)
    && r.invoice.Some? && !HasRef(s.payments, r.invoice.value.token, |s.payments|)
  }

  /** An order is accepted exactly when a visit or a payment is added for it. */
  lemma OrderAnswered(s: State, r: Request)
    requires r.Create?
    ensures Step(s, r).outcome == Accepted <==> OrdersFree(s, r) || OrdersPaid(s, r)
    ensures Step(s, r).outcome != Accepted ==> Step(s, r).state == s
    ensures Step(s, r).outcome == Accepted ==>
              Step(s, r).state
              == if OrdersFree(s, r) then
                   s.(visits := s.visits + [Visit(r.listingId, r.order, Requested, None, None, None)])
                 else
                   s.(payments := s.payments
                                  + [Payment(r.listingId, "PD-" + r.invoice.value.token, Pending,
                                             Details(r.order, r.who.id, r.invoice.value.amount, None))])
  {
    NoneOpen(s.payments, r.listingId);
    if r.invoice.Some? {
      HasRefIff(s.payments, r.invoice.value.token, None);
    }
  }

  /** A second order while a visit is under way is a conflict, whoever gives it. */
  lemma SecondOrderConflicts(s: State, r: Request, k: nat)
    requires r.Create? && r.listingId in s.listings
    requires s.listings[r.listingId].ownerId == r.who.id || r.who.isAdmin
    requires k < |s.visits| && s.visits[k].listingId == r.listingId && UnderWay(s.visits[k])
    ensures Step(s, r) == Reply(Conflict, s)
  {
  }

  /** Visits are added by orders that are covered and by payments that are confirmed, one at a time, and
      begin as REQUESTED. */
  lemma VisitsExact(s: State, r: Request)
    ensures var t := Step(s, r).state;
            var place := if r.Webhook? then LatestPending(s.payments, r.listingId) else None;
            if OrdersFree(s, r) then |t.visits| == |s.visits| + 1
            else if place.Some? && MakesVisit(s, r, place.value) then
              var p := s.payments[place.value];
              t.visits == s.visits + [Visit(p.listingId, p.details.order, Requested, None, None, None)]
            else |t.visits| == |s.visits|
  {
    if r.Create? {
      OrderAnswered(s, r);
    } else if r.Webhook? {
      var place := LatestPending(s.payments, r.listingId);
      if place.Some? {
        LatestIs(s.payments, r.listingId, place.value);
        HasRefIff(s.payments, r.token, place);
      }
    } else if AboutVisit(r) {
      OnVisitKeeps(s, r);
    }
  }

  /** What is heard when nothing is ordered: unknown and foreign listings, conflicts, no invoice, and what
      the keys of the database turn away. */
  lemma OrderRefused(s: State, r: Request)
    requires r.Create? && Step(s, r).outcome != Accepted
    ensures Step(s, r).outcome
         == if r.listingId !in s.listings then NotFound
            else if s.listings[r.listingId].ownerId != r.who.id && !r.who.isAdmin then Forbidden
            else if !MayOrder(s, r) then Conflict
            else if r.who.isAdmin || r.who.isProActive then Refused
            else if exists k :: 0 <= k < |s.payments| && s.payments[k].listingId == r.listingId
                                && s.payments[k].status == Pending then Conflict
            else if r.invoice.None? then BadRequest
            else Refused
  {
    NoneOpen(s.payments, r.listingId);
  }

  /** What the gateway's callback is answered: all is well when there is nothing to do. */
  lemma CallbackAnswered(s: State, r: Request)
    requires r.Webhook?
    ensures var place := LatestPending(s.payments, r.listingId);
            Step(s, r).outcome
            == if place.None? then Accepted
               else match r.answer
                    case Unreachable => BadRequest
                    case Completed(_) =>
                      if HasRef(s.payments, r.token, place.value) then Refused
                      else if s.payments[place.value].details.visit.None?
                              && !AgentKnown(s, s.payments[place.value].details.order) then Refused
                      else Accepted
                    case _ => Accepted
  {
    var place := LatestPending(s.payments, r.listingId);
    if place.Some? {
      HasRefIff(s.payments, r.token, place);
    }
  }

  /** Accounts and badges: only an account that is not there, or that something holds, cannot go. */
  lemma OthersAnswered(s: State, r: Request)
    requires r.ExpireBadges? || r.SignUp? || r.DeleteAccount?
    ensures Step(s, r).outcome
         == if !r.DeleteAccount? || Leaves(s, r, r.userId) then Accepted
            else if r.userId !in s.accounts then NotFound else Refused
  {
  }
}
