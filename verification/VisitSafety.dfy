/**
 What runs of requests about visits keep, and the two things they do not: that a visit under way has
 an agent, and that a confirmed payment has a visit. Each is kept by exactly the requests named here.
 */
module VisitSafety {
  import opened Invoices
  import opened SidePayments
  import opened Visits
  import opened Wrappers

  /** At most one payment of a listing awaits its answer, and no two payments share a reference. */
  ghost predicate PaymentsApart(payments: seq<VisitPayment>) {
    forall i, j | 0 <= i < j < |payments| ::
      && payments[i].ref != payments[j].ref
      && !(payments[i].status == Pending && Awaits(payments[j], payments[i].listingId))
  }

  /** The visit that was ordered; the wish for an agent is gone with the agent's account. */
  predicate Fulfils(v: Visit, p: VisitPayment) {
    && v.listingId == p.listingId
    && (v.order == p.details.order || v.order == p.details.order.(preferredAgentId := None))
  }

  /** A payment that brought about a visit is confirmed, and the visit is the one ordered. */
  ghost predicate Earned(p: VisitPayment, visits: seq<Visit>) {
    p.details.visit.Some? ==>
      p.status == Confirmed && p.details.visit.value < |visits| && Fulfils(visits[p.details.visit.value], p)
  }

  ghost predicate PaidVisits(s: State) {
    && (forall i | 0 <= i < |s.payments| :: Earned(s.payments[i], s.visits))
    && (forall i, j | 0 <= i < j < |s.payments| && s.payments[i].details.visit.Some? ::
          s.payments[i].details.visit != s.payments[j].details.visit)
  }

  /** A requested visit has no agent yet, and a visit that is done has been completed. */
  predicate InStep(v: Visit) {
    (v.status == Requested ==> v.agentId.None?) && (v.status == Done ==> v.completedAt.Some?)
  }

  ghost predicate VisitsInStep(visits: seq<Visit>) {
    forall i | 0 <= i < |visits| :: InStep(visits[i])
  }

  ghost predicate WasCompleted(visits: seq<Visit>, listingId: Id) {
    exists i :: 0 <= i < |visits| && visits[i].listingId == listingId && visits[i].completedAt.Some?
  }

  /** A badge was earned by a visit that an agent completed. */
  ghost predicate BadgesEarned(s: State) {
    forall l | l in s.listings && s.listings[l].isVerified :: WasCompleted(s.visits, l)
  }

  ghost predicate Sound(s: State) {
    PaymentsApart(s.payments) && PaidVisits(s) && VisitsInStep(s.visits) && BadgesEarned(s)
  }

  /** The later visits are the earlier ones gone on, perhaps with more behind them. */
  ghost predicate GoneOn(before: seq<Visit>, after: seq<Visit>) {
    && |before| <= |after|
    && forall i | 0 <= i < |before| ::
         && after[i].listingId == before[i].listingId
         && (after[i].order == before[i].order || after[i].order == before[i].order.(preferredAgentId := None))
         && (before[i].completedAt.Some? ==> after[i].completedAt.Some?)
  }

  lemma CompletedLater(before: seq<Visit>, after: seq<Visit>, l: Id)
    requires GoneOn(before, after) && WasCompleted(before, l)
    ensures WasCompleted(after, l)
  {
    var i :| 0 <= i < |before| && before[i].listingId == l && before[i].completedAt.Some?;
    assert after[i].listingId == l && after[i].completedAt.Some?;
  }

  lemma EarnedLater(p: VisitPayment, before: seq<Visit>, after: seq<Visit>)
    requires GoneOn(before, after) && Earned(p, before)
    ensures Earned(p, after)
  {
  }

  /** Payments untouched, no new badge: what is left to see is that the visits have gone on. */
  lemma SoundLater(s: State, t: State)
    requires Sound(s) && t.payments == s.payments && GoneOn(s.visits, t.visits) && VisitsInStep(t.visits)
    requires forall l | l in t.listings && t.listings[l].isVerified ::
               WasCompleted(t.visits, l) || (l in s.listings && s.listings[l].isVerified)
    ensures Sound(t)
  {
    forall i | 0 <= i < |t.payments| ensures Earned(t.payments[i], t.visits) {
      EarnedLater(s.payments[i], s.visits, t.visits);
    }
    forall l | l in t.listings && t.listings[l].isVerified ensures WasCompleted(t.visits, l) {
      if l in s.listings && s.listings[l].isVerified {
        CompletedLater(s.visits, t.visits, l);
      }
    }
  }

  lemma VisitStepSound(v: Visit, r: Request)
    requires InStep(v) && AboutVisit(r)
    ensures var (outcome, w) := VisitStep(v, r);
            && InStep(w) && w.order == v.order && w.listingId == v.listingId
            && (v.completedAt.Some? ==> w.completedAt.Some?)
            && (outcome == Accepted && (r.Complete? || r.Validate?) ==> w.completedAt.Some?)
  {
  }

  lemma OnVisitKeeps(s: State, r: Request)
    requires AboutVisit(r)
    ensures var t := OnVisit(s, r).state;
            && t.payments == s.payments && |t.visits| == |s.visits|
            && forall i | 0 <= i < |s.visits| ::
                 t.visits[i] == s.visits[i] || (i == r.id && t.visits[i] == VisitStep(s.visits[i], r).1)
  {
  }

  lemma OnVisitSound(s: State, r: Request)
    requires Sound(s) && AboutVisit(r)
    ensures Sound(OnVisit(s, r).state)
  {
    var t := OnVisit(s, r).state;
    OnVisitKeeps(s, r);
    if r.id < |s.visits| {
      VisitStepSound(s.visits[r.id], r);
      if t.listings != s.listings {
        var l := s.visits[r.id].listingId;
        assert t.visits[r.id].listingId == l && t.visits[r.id].completedAt.Some?;
        assert WasCompleted(t.visits, l);
      }
      SoundLater(s, t);
    }
  }

  lemma MoreVisits(s: State, v: Visit)
    requires Sound(s) && InStep(v)
    ensures Sound(s.(visits := s.visits + [v]))
  {
    SoundLater(s, s.(visits := s.visits + [v]));
  }

  lemma OnCreateSound(s: State, who: Actor, listingId: Id, order: Order, invoice: Option<Invoice>)
    requires Sound(s)
    ensures Sound(OnCreate(s, who, listingId, order, invoice).state)
  {
    var t := OnCreate(s, who, listingId, order, invoice).state;
    if |t.visits| > |s.visits| {
      MoreVisits(s, NewVisit(listingId, order));
    } else if |t.payments| > |s.payments| {
      var n := |s.payments|;
      forall i | 0 <= i < n
        ensures t.payments[i].ref != t.payments[n].ref
        ensures !(t.payments[i].status == Pending && Awaits(t.payments[n], t.payments[i].listingId))
      {
        assert t.payments[i] == s.payments[i] && !Awaits(s.payments[i], listingId);
      }
    }
  }

  lemma SettleSound(s: State, i: nat, ref: string)
    requires Sound(s) && i < |s.payments| && s.payments[i].status == Pending
    requires !RefTaken(s.payments, ref, Some(i))
    ensures Sound(Settle(s, i, ref).state)
  {
    var p := s.payments[i];
    assert Earned(p, s.visits);
    MoreVisits(s, NewVisit(p.listingId, p.details.order));
    var t := Settle(s, i, ref).state;
    forall j | 0 <= j < |s.payments| && j != i
      ensures t.payments[j] == s.payments[j] && t.payments[j].ref != ref && Earned(t.payments[j], t.visits)
      ensures t.payments[j].details.visit.Some? ==> t.payments[j].details.visit != t.payments[i].details.visit
    {
      assert Earned(s.payments[j], s.visits);
    }
  }

  lemma OnWebhookSound(s: State, listingId: Id, token: string, answer: Answer)
    requires Sound(s)
    ensures Sound(OnWebhook(s, listingId, token, answer).state)
  {
    var place := LatestPending(s.payments, listingId);
    if place.Some? {
      var i := place.value;
      if answer.Completed? && !RefTaken(s.payments, Ref(token), Some(i)) {
        SettleSound(s, i, Ref(token));
      } else if answer.Declined? {
        assert Earned(s.payments[i], s.visits);
      }
    }
  }

  lemma StepSound(s: State, r: Request)
    requires Sound(s)
    ensures Sound(Step(s, r).state)
  {
    if AboutVisit(r) {
      OnVisitSound(s, r);
    } else {
      match r
      case Create(who, listingId, order, invoice) => OnCreateSound(s, who, listingId, order, invoice);
      case Webhook(listingId, token, answer) => OnWebhookSound(s, listingId, token, answer);
      case ExpireBadges(_) => SoundLater(s, Step(s, r).state);
      case SignUp(_) => SoundLater(s, Step(s, r).state);
      case DeleteAccount(_, _) => SoundLater(s, Step(s, r).state);
    }
  }

  lemma {:induction false} RunSound(s: State, run: seq<Request>)
    requires Sound(s)
    ensures Sound(Run(s, run))
    decreases |run|
  {
    if run == [] {
    } else {
      StepSound(s, run[0]);
      RunSound(Step(s, run[0]).state, run[1..]);
    }
  }

  /** From a market without visits on, over every run. */
  lemma AlwaysSound(accounts: set<Id>, listings: map<Id, Listing>, run: seq<Request>)
    requires forall l | l in listings :: !listings[l].isVerified
    ensures Sound(Run(State(accounts, listings, [], []), run))
  {
    RunSound(State(accounts, listings, [], []), run);
  }

  // ----- agents -----

  /** The statuses in which an agent has been given the visit. */
  predicate NeedsAgent(v: Visit) {
    v.status in {Scheduled, InProgress, DeclinePending, Done}
  }

  ghost predicate VisitsStaffed(visits: seq<Visit>) {
    forall i | 0 <= i < |visits| && NeedsAgent(visits[i]) :: visits[i].agentId.Some?
  }

  /** The account of an agent goes while a visit names it. */
  ghost predicate Unstaffs(s: State, r: Request) {
    && r.DeleteAccount? && r.userId in s.accounts && !r.held && !OwnsListing(s, r.userId)
    && exists i :: 0 <= i < |s.visits| && NeedsAgent(s.visits[i]) && s.visits[i].agentId == Some(r.userId)
  }

  lemma VisitStepStaffed(v: Visit, r: Request)
    requires AboutVisit(r) && (NeedsAgent(v) ==> v.agentId.Some?)
    ensures var w := VisitStep(v, r).1; NeedsAgent(w) ==> w.agentId.Some?
  {
  }

  /** One request keeps an agent on every visit that needs one if and only if it is not such a
      deletion. */
  lemma StaffedExact(s: State, r: Request)
    requires VisitsStaffed(s.visits)
    ensures VisitsStaffed(Step(s, r).state.visits) <==> !Unstaffs(s, r)
  {
    var t := Step(s, r).state;
    if AboutVisit(r) {
      OnVisitKeeps(s, r);
      if r.id < |s.visits| {
        VisitStepStaffed(s.visits[r.id], r);
      }
    } else if Unstaffs(s, r) {
      var i :| 0 <= i < |s.visits| && NeedsAgent(s.visits[i]) && s.visits[i].agentId == Some(r.userId);
      assert NeedsAgent(t.visits[i]) && t.visits[i].agentId.None?;
    } else if r.DeleteAccount? {
      forall i | 0 <= i < |t.visits| && NeedsAgent(t.visits[i]) ensures t.visits[i].agentId.Some? {
        assert NeedsAgent(s.visits[i]);
      }
    }
  }

  /** Every state of the run, the first one included, has its visits staffed. */
  ghost predicate AlwaysStaffed(s: State, run: seq<Request>)
    decreases |run|
  {
    VisitsStaffed(s.visits) && (run != [] ==> AlwaysStaffed(Step(s, run[0]).state, run[1..]))
  }

  ghost predicate NeverUnstaffs(s: State, run: seq<Request>)
    decreases |run|
  {
    run != [] ==> !Unstaffs(s, run[0]) && NeverUnstaffs(Step(s, run[0]).state, run[1..])
  }

  lemma {:induction false} StaffedRunExact(s: State, run: seq<Request>)
    requires VisitsStaffed(s.visits)
    ensures AlwaysStaffed(s, run) <==> NeverUnstaffs(s, run)
    decreases |run|
  {
    if run == [] {
    } else {
      StaffedExact(s, run[0]);
      if !Unstaffs(s, run[0]) {
        StaffedRunExact(Step(s, run[0]).state, run[1..]);
      }
    }
  }

  // ----- payments -----

  /** Every confirmed payment has its visit. */
  ghost predicate PaymentsServed(payments: seq<VisitPayment>) {
    forall i | 0 <= i < |payments| && payments[i].status == Confirmed :: payments[i].details.visit.Some?
  }

  /** Good news of an order whose preferred agent has no account, no more or never had one. */
  predicate PaysForNothing(s: State, r: Request) {
    && r.Webhook? && r.answer.Completed?
    && var place := LatestPending(s.payments, r.listingId);
    && place.Some? && !RefTaken(s.payments, Ref(r.token), place)
    && !Known(s, s.payments[place.value].details.order) && s.payments[place.value].details.visit.None?
  }

  /** One request leaves no confirmed payment without its visit if and only if it is no such news. */
  lemma ServedExact(s: State, r: Request)
    requires PaymentsServed(s.payments)
    ensures PaymentsServed(Step(s, r).state.payments) <==> !PaysForNothing(s, r)
  {
    var t := Step(s, r).state;
    if AboutVisit(r) {
      OnVisitKeeps(s, r);
    } else if PaysForNothing(s, r) {
      var i := LatestPending(s.payments, r.listingId).value;
      assert t.payments[i].status == Confirmed && t.payments[i].details.visit.None?;
    }
  }

  ghost predicate AlwaysServed(s: State, run: seq<Request>)
    decreases |run|
  {
    PaymentsServed(s.payments) && (run != [] ==> AlwaysServed(Step(s, run[0]).state, run[1..]))
  }

  ghost predicate NeverForNothing(s: State, run: seq<Request>)
    decreases |run|
  {
    run != [] ==> !PaysForNothing(s, run[0]) && NeverForNothing(Step(s, run[0]).state, run[1..])
  }

  lemma {:induction false} ServedRunExact(s: State, run: seq<Request>)
    requires PaymentsServed(s.payments)
    ensures AlwaysServed(s, run) <==> NeverForNothing(s, run)
    decreases |run|
  {
    if run == [] {
    } else {
      ServedExact(s, run[0]);
      if !PaysForNothing(s, run[0]) {
        ServedRunExact(Step(s, run[0]).state, run[1..]);
      }
    }
  }

  // ----- where visits come from -----

  function Served(payments: seq<VisitPayment>): nat {
    if payments == [] then 0
    else Served(payments[..|payments| - 1]) + if payments[|payments| - 1].details.visit.Some? then 1 else 0
  }

  predicate CreatesFree(s: State, r: Request) {
    r.Create? && Covered(r.who) && Step(s, r).outcome == Accepted
  }

  /** How many of the requests create a visit without a payment. */
  function CreatedFree(s: State, run: seq<Request>): nat
    decreases |run|
  {
    if run == [] then 0
    else (if CreatesFree(s, run[0]) then 1 else 0) + CreatedFree(Step(s, run[0]).state, run[1..])
  }

  lemma {:induction false} OneReplaced(payments: seq<VisitPayment>, i: nat, p: VisitPayment)
    requires i < |payments| && payments[i].details.visit.None?
    ensures Served(payments[i := p]) == Served(payments) + if p.details.visit.Some? then 1 else 0
  {
    var front, after := payments[..|payments| - 1], payments[i := p];
    if i == |payments| - 1 {
      assert after[..|after| - 1] == front;
    } else {
      OneReplaced(front, i, p);
      assert after[..|after| - 1] == front[i := p];
    }
  }

  /** A creation adds one visit, one open payment, or nothing. */
  lemma CreateShape(s: State, who: Actor, listingId: Id, order: Order, invoice: Option<Invoice>)
    ensures var r := OnCreate(s, who, listingId, order, invoice);
            if r.outcome != Accepted then r.state == s
            else if Covered(who) then r.state == s.(visits := s.visits + [NewVisit(listingId, order)])
            else
              && invoice.Some?
              && r.state == s.(payments := s.payments + [OpenPayment(listingId, order, who.id, invoice.value)])
  {
  }

  lemma ServedOpen(payments: seq<VisitPayment>, p: VisitPayment)
    requires p.details.visit.None?
    ensures Served(payments + [p]) == Served(payments)
  {
    assert (payments + [p])[..|payments|] == payments;
  }

  lemma CreateAccounted(s: State, who: Actor, listingId: Id, order: Order, invoice: Option<Invoice>)
    ensures var t := OnCreate(s, who, listingId, order, invoice).state;
            && Served(t.payments) == Served(s.payments)
            && |t.visits| - |s.visits| == if CreatesFree(s, Create(who, listingId, order, invoice)) then 1 else 0
  {
    CreateShape(s, who, listingId, order, invoice);
    if invoice.Some? {
      ServedOpen(s.payments, OpenPayment(listingId, order, who.id, invoice.value));
    }
  }

  lemma WebhookAccounted(s: State, listingId: Id, token: string, answer: Answer)
    requires Sound(s)
    ensures var t := OnWebhook(s, listingId, token, answer).state;
            |t.visits| - |s.visits| == Served(t.payments) - Served(s.payments)
  {
    var place := LatestPending(s.payments, listingId);
    if place.Some? && (answer.Completed? || answer.Declined?) {
      assert Earned(s.payments[place.value], s.visits);
      OneReplaced(s.payments, place.value, OnWebhook(s, listingId, token, answer).state.payments[place.value]);
    }
  }

  lemma StepAccounted(s: State, r: Request)
    requires Sound(s)
    ensures var t := Step(s, r).state;
            |t.visits| - |s.visits| == Served(t.payments) - Served(s.payments) + if CreatesFree(s, r) then 1 else 0
  {
    if r.Create? {
      CreateAccounted(s, r.who, r.listingId, r.order, r.invoice);
    } else if r.Webhook? {
      WebhookAccounted(s, r.listingId, r.token, r.answer);
    } else if AboutVisit(r) {
      OnVisitKeeps(s, r);
    }
  }

  /** Visits are made by confirmed payments, one each, and by requests that a plan covers. */
  lemma {:induction false} VisitsAccounted(s: State, run: seq<Request>)
    requires Sound(s)
    ensures |Run(s, run).visits| - |s.visits|
         == Served(Run(s, run).payments) - Served(s.payments) + CreatedFree(s, run)
    decreases |run|
  {
    if run == [] {
    } else {
      StepSound(s, run[0]);
      StepAccounted(s, run[0]);
      VisitsAccounted(Step(s, run[0]).state, run[1..]);
    }
  }

  // ----- deliveries that come again -----

  /** A payment that was settled, or failed, is never written again. */
  lemma {:induction false} SettledIsFinal(s: State, run: seq<Request>, i: nat)
    requires i < |s.payments| && s.payments[i].status != Pending
    ensures i < |Run(s, run).payments| && Run(s, run).payments[i] == s.payments[i]
    decreases |run|
  {
    if run == [] {
    } else {
      var t := Step(s, run[0]).state;
      assert i < |t.payments| && t.payments[i] == s.payments[i];
      SettledIsFinal(t, run[1..], i);
    }
  }

  /** Once its payment is settled, the good news of a token changes nothing, however late it comes
      again and whatever listing it names. */
  lemma ReplayIsHarmless(s: State, i: nat, run: seq<Request>, listingId: Id, token: string, amount: real)
    requires i < |s.payments| && s.payments[i].ref == Ref(token) && s.payments[i].status != Pending
    ensures Step(Run(s, run), Webhook(listingId, token, Completed(amount))).state == Run(s, run)
  {
    SettledIsFinal(s, run, i);
    var t := Run(s, run);
    var place := LatestPending(t.payments, listingId);
    if place.Some? {
      assert t.payments[i].ref == Ref(token) && Some(i) != place;
    }
  }

  /** Bad news fails whichever payment of the listing is open: the token is not compared. */
  lemma DeclineHits(s: State, listingId: Id, token: string, i: nat)
    requires Sound(s) && i < |s.payments| && s.payments[i].status == Pending
    ensures Step(s, Webhook(listingId, token, Declined)).state.payments[i].status == Failed
       <==> s.payments[i].listingId == listingId
  {
    var place := LatestPending(s.payments, listingId);
    if place.Some? && s.payments[i].listingId == listingId {
      assert place.value == i;
    }
  }

  // ----- visits begin on time -----

  predicate Begun(v: Visit) {
    v.status == InProgress || v.status == Done
  }

  predicate Before(r: Request, time: int) {
    r.Start? ==> r.now < time
  }

  lemma VisitStays(s: State, r: Request, i: nat)
    requires i < |s.visits|
    ensures var t := Step(s, r).state;
            && i < |t.visits| && t.visits[i].order.scheduledAt == s.visits[i].order.scheduledAt
            && (t.visits[i].status == s.visits[i].status
                || (AboutVisit(r) && t.visits[i] == VisitStep(s.visits[i], r).1))
  {
    if AboutVisit(r) {
      OnVisitKeeps(s, r);
    }
  }

  /** A visit is not begun, and so not completed, earlier than fifteen minutes before its date. */
  lemma {:induction false} NoEarlyVisit(s: State, run: seq<Request>, i: nat)
    requires i < |s.visits| && !Begun(s.visits[i])
    requires forall r | r in run :: Before(r, s.visits[i].order.scheduledAt - EARLY)
    ensures i < |Run(s, run).visits| && !Begun(Run(s, run).visits[i])
    decreases |run|
  {
    if run == [] {
    } else {
      VisitStays(s, run[0], i);
      assert run[0] in run;
      assert forall r | r in run[1..] :: r in run;
      NoEarlyVisit(Step(s, run[0]).state, run[1..], i);
    }
  }
}
