/**
 The rules of verification visits: a listing's owner asks for a visit, pays for it unless a plan
 covers it, an agent in the field carries it out, and the listing earns its badge.
 */
module Visits {
  import opened Invoices
  import opened SidePayments
  import opened Wrappers

  datatype Audit = Basic | Full

  datatype VisitStatus = Requested | Scheduled | InProgress | Done | Rejected | DeclinePending

  /** What the requester chose. */
  datatype Order = Order(audit: Audit, scheduledAt: int, preferredAgentId: Option<Id>)

  datatype Visit = Visit(listingId: Id, order: Order, status: VisitStatus, agentId: Option<Id>,
                         declineReason: Option<string>, completedAt: Option<int>)

  /** `visit` is the place of the visit that the payment brought about. */
  datatype Details = Details(order: Order, requesterId: Id, amount: int, visit: Option<nat>)

  type VisitPayment = Payment<Details>

  datatype Listing = Listing(ownerId: Id, isVerified: bool, verifiedAt: Option<int>)

  /** Visits and payments are in the order of their creation, and known by their place. */
  datatype State = State(accounts: set<Id>, listings: map<Id, Listing>, visits: seq<Visit>, payments: seq<VisitPayment>)

  datatype Actor = Actor(id: Id, isAdmin: bool, isProActive: bool)

  /** An invoice the gateway issued: its token and the price at that time. */
  datatype Invoice = Invoice(token: string, amount: int)

  /** `held` tells whether rows outside this model, such as a rating or a notification, keep an account. */
  datatype Request =
    | Create(who: Actor, listingId: Id, order: Order, invoice: Option<Invoice>)
    | Webhook(listingId: Id, token: string, answer: Answer)
    | Decline(id: nat, agentId: Id, reason: string)
    | ApproveDecline(id: nat)
    | RefuseDecline(id: nat)
    | AssignAgent(id: nat, agentId: Id)
    | Start(id: nat, agentId: Id, now: int)
    | Complete(id: nat, agentId: Id, now: int)
    | Validate(id: nat, who: Actor, now: int)
    | Reject(id: nat, who: Actor)
    | ExpireBadges(cutoff: int)
    | SignUp(userId: Id)
    | DeleteAccount(userId: Id, held: bool)

  /** `Refused` is a write that a key of the database turns away. */
  datatype Outcome = Accepted | NotFound | Forbidden | BadRequest | Conflict | Refused

  datatype Reply = Reply(outcome: Outcome, state: State)

  const EARLY := 15 * MINUTE

  function NewVisit(listingId: Id, order: Order): Visit {
    Visit(listingId, order, Requested, None, None, None)
  }

  predicate Ongoing(v: Visit) {
    v.status == Requested || v.status == Scheduled || v.status == InProgress
  }

  predicate Covered(who: Actor) {
    who.isAdmin || who.isProActive
  }

  /** The agent asked for, if any, has an account: a foreign key of visits, but not of payments. */
  predicate Known(s: State, order: Order) {
    order.preferredAgentId.Some? ==> order.preferredAgentId.value in s.accounts
  }

  function OpenPayment(listingId: Id, order: Order, requesterId: Id, invoice: Invoice): VisitPayment {
    Payment(listingId, Ref(invoice.token), Pending, Details(order, requesterId, invoice.amount, None))
  }

  function OnCreate(s: State, who: Actor, listingId: Id, order: Order, invoice: Option<Invoice>): Reply {
    if listingId !in s.listings then Reply(NotFound, s)
    else if s.listings[listingId].ownerId != who.id && !who.isAdmin then Reply(Forbidden, s)
    else if exists i :: 0 <= i < |s.visits| && s.visits[i].listingId == listingId && Ongoing(s.visits[i]) then
      Reply(Conflict, s)
    else if Covered(who) then
      if Known(s, order) then Reply(Accepted, s.(visits := s.visits + [NewVisit(listingId, order)]))
      else Reply(Refused, s)
    else if LatestPending(s.payments, listingId).Some? then Reply(Conflict, s)
    else if invoice.None? then Reply(BadRequest, s)
    else if RefTaken(s.payments, Ref(invoice.value.token), None) then Reply(Refused, s)
    else Reply(Accepted, s.(payments := s.payments + [OpenPayment(listingId, order, who.id, invoice.value)]))
  }

  /** The payment is confirmed first; the visit is made by a second write, which may be refused. */
  function Settle(s: State, i: nat, ref: string): Reply
    requires i < |s.payments|
  {
    var p := s.payments[i].(status := Confirmed, ref := ref);
    if p.details.visit.Some? then Reply(Accepted, s.(payments := s.payments[i := p]))
    else if !Known(s, p.details.order) then Reply(Refused, s.(payments := s.payments[i := p]))
    else
      var served := p.(details := p.details.(visit := Some(|s.visits|)));
      Reply(Accepted, s.(visits := s.visits + [NewVisit(p.listingId, p.details.order)],
                         payments := s.payments[i := served]))
  }

  function OnWebhook(s: State, listingId: Id, token: string, answer: Answer): Reply {
    match LatestPending(s.payments, listingId)
    case None => Reply(Accepted, s)
    case Some(i) =>
      match answer
      case Unreachable => Reply(BadRequest, s)
      case Completed(_) =>
        if RefTaken(s.payments, Ref(token), Some(i)) then Reply(Refused, s) else Settle(s, i, Ref(token))
      case Declined => Reply(Accepted, s.(payments := s.payments[i := s.payments[i].(status := Failed)]))
      case Waiting => Reply(Accepted, s)
  }

  function Badge(s: State, listingId: Id, now: int): State {
    if listingId !in s.listings then s
    else s.(listings := s.listings[listingId := s.listings[listingId].(isVerified := true, verifiedAt := Some(now))])
  }

  function Expired(l: Listing, cutoff: int): Listing {
    if l.isVerified && l.verifiedAt.Some? && l.verifiedAt.value < cutoff then l.(isVerified := false) else l
  }

  /** A request about one visit: what it answers and what becomes of the visit. */
  function VisitStep(v: Visit, r: Request): (Outcome, Visit) {
    match r
    case Decline(id, agentId, reason) =>
      if v.agentId != Some(agentId) then (Forbidden, v)
      else if v.status != Scheduled then (BadRequest, v)
      else (Accepted, v.(status := DeclinePending, declineReason := Some(reason)))
    case ApproveDecline(id) =>
      if v.status != DeclinePending then (BadRequest, v)
      else (Accepted, v.(status := Requested, agentId := None))
    case RefuseDecline(id) =>
      if v.status != DeclinePending then (BadRequest, v)
      else (Accepted, v.(status := Scheduled, declineReason := None))
    case AssignAgent(id, agentId) => (Accepted, v.(status := Scheduled, agentId := Some(agentId)))
    case Start(id, agentId, now) =>
      if v.agentId != Some(agentId) then (Forbidden, v)
      else if now < v.order.scheduledAt - EARLY then (BadRequest, v)
      else (Accepted, v.(status := InProgress))
    case Complete(id, agentId, now) =>
      if v.agentId != Some(agentId) then (Forbidden, v)
      else if v.status != InProgress then (BadRequest, v)
      else (Accepted, v.(status := Done, completedAt := Some(now)))
    case Validate(id, who, now) =>
      if !who.isAdmin then (Forbidden, v) else if v.status != Done then (BadRequest, v) else (Accepted, v)
    case Reject(id, who) =>
      if v.agentId != Some(who.id) && !who.isAdmin then (Forbidden, v)
      else if !Ongoing(v) then (BadRequest, v)
      else (Accepted, v.(status := Rejected))
    case _ => (Accepted, v)
  }

  predicate AboutVisit(r: Request) {
    !r.Create? && !r.Webhook? && !r.ExpireBadges? && !r.SignUp? && !r.DeleteAccount?
  }

  function OnVisit(s: State, r: Request): Reply
    requires AboutVisit(r)
  {
    if r.Validate? && !r.who.isAdmin then Reply(Forbidden, s)
    else if r.id >= |s.visits| then Reply(NotFound, s)
    else if r.AssignAgent? && r.agentId !in s.accounts then Reply(Refused, s)
    else
      var (outcome, v) := VisitStep(s.visits[r.id], r);
      var t := s.(visits := s.visits[r.id := v]);
      if outcome == Accepted && r.Complete? then Reply(outcome, Badge(t, v.listingId, r.now))
      else if outcome == Accepted && r.Validate? then Reply(outcome, Badge(t, v.listingId, r.now))
      else Reply(outcome, t)
  }

  function Cleared(agentId: Option<Id>, userId: Id): Option<Id> {
    if agentId == Some(userId) then None else agentId
  }

  /** The foreign keys of a visit are set to null when the account goes. */
  function WithoutAccount(v: Visit, userId: Id): Visit {
    v.(agentId := Cleared(v.agentId, userId),
       order := v.order.(preferredAgentId := Cleared(v.order.preferredAgentId, userId)))
  }

  predicate OwnsListing(s: State, userId: Id) {
    exists l :: l in s.listings && s.listings[l].ownerId == userId
  }

  function OnDelete(s: State, userId: Id, held: bool): Reply {
    if userId !in s.accounts then Reply(NotFound, s)
    else if held || OwnsListing(s, userId) then Reply(Refused, s)
    else
      var visits := seq(|s.visits|, i requires 0 <= i < |s.visits| => WithoutAccount(s.visits[i], userId));
      Reply(Accepted, s.(accounts := s.accounts - {userId}, visits := visits))
  }

  function Step(s: State, r: Request): Reply {
    match r
    case Create(who, listingId, order, invoice) => OnCreate(s, who, listingId, order, invoice)
    case Webhook(listingId, token, answer) => OnWebhook(s, listingId, token, answer)
    case ExpireBadges(cutoff) =>
      Reply(Accepted, s.(listings := map l | l in s.listings :: Expired(s.listings[l], cutoff)))
    case SignUp(userId) => Reply(Accepted, s.(accounts := s.accounts + {userId}))
    case DeleteAccount(userId, held) => OnDelete(s, userId, held)
    case Decline(_, _, _) => OnVisit(s, r)
    case ApproveDecline(_) => OnVisit(s, r)
    case RefuseDecline(_) => OnVisit(s, r)
    case AssignAgent(_, _) => OnVisit(s, r)
    case Start(_, _, _) => OnVisit(s, r)
    case Complete(_, _, _) => OnVisit(s, r)
    case Validate(_, _, _) => OnVisit(s, r)
    case Reject(_, _) => OnVisit(s, r)
  }

  function Run(s: State, run: seq<Request>): State
    decreases |run|
  {
    if run == [] then s else Run(Step(s, run[0]).state, run[1..])
  }
}
