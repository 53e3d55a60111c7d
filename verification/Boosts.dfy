/** Boosts of a listing: free for agencies with an active PRO plan, paid otherwise. */
module Boosts {
  import opened Invoices
  import opened SidePayments
  import opened Wrappers

  const BOOST_DAYS := 7
  const BOOST_SCORE_GAIN := 10
  const BOOST_SCORE_MAX := 100

  datatype Row = Row(ownerId: Id, score: int, until: Option<int>)

  type BoostPayment = Payment<()>

  datatype State = State(rows: map<Id, Row>, payments: seq<BoostPayment>)

  /** A boost asked for by a user, whose plan may cover it; for a paid one the gateway issues an
      invoice with a token, if it can. */
  datatype Request =
    | Boost(id: Id, userId: Id, isProActive: bool, invoice: Option<string>, now: int)
    | Webhook(id: Id, token: string, answer: Answer, now: int)

  datatype Outcome = Accepted | NotFound | Forbidden | BadRequest | Refused

  datatype Reply = Reply(outcome: Outcome, state: State)

  function Boosted(row: Row, now: int): Row {
    row.(score := Min(row.score + BOOST_SCORE_GAIN, BOOST_SCORE_MAX), until := Some(now + BOOST_DAYS * DAY))
  }

  function Open(id: Id, token: string): BoostPayment {
    Payment(id, Ref(token), Pending, ())
  }

  function OnBoost(s: State, id: Id, userId: Id, isProActive: bool, invoice: Option<string>, now: int): Reply {
    if id !in s.rows then Reply(NotFound, s)
    else if s.rows[id].ownerId != userId then Reply(Forbidden, s)
    else if isProActive then Reply(Accepted, s.(rows := s.rows[id := Boosted(s.rows[id], now)]))
    else if invoice.None? then Reply(BadRequest, s)
    else if RefTaken(s.payments, Ref(invoice.value), None) then Reply(Refused, s)
    else Reply(Accepted, s.(payments := s.payments + [Open(id, invoice.value)]))
  }

  function Settled(payments: seq<BoostPayment>, i: nat, status: PaymentStatus, ref: string): seq<BoostPayment>
    requires i < |payments|
  {
    payments[i := payments[i].(status := status, ref := ref)]
  }

  /** The payment and the boost are written side by side: if the payment is refused, the boost stays. */
  function OnWebhook(s: State, id: Id, token: string, answer: Answer, now: int): Reply {
    match LatestPending(s.payments, id)
    case None => Reply(Accepted, s)
    case Some(i) =>
      match answer
      case Unreachable => Reply(BadRequest, s)
      case Completed(_) =>
        if id !in s.rows then Reply(NotFound, s)
        else
          var rows := s.rows[id := Boosted(s.rows[id], now)];
          if RefTaken(s.payments, Ref(token), Some(i)) then Reply(Refused, s.(rows := rows))
          else Reply(Accepted, State(rows, Settled(s.payments, i, Confirmed, Ref(token))))
      case Declined => Reply(Accepted, s.(payments := Settled(s.payments, i, Failed, s.payments[i].ref)))
      case Waiting => Reply(Accepted, s)
  }

  function Step(s: State, r: Request): Reply {
    match r
    case Boost(id, userId, isProActive, invoice, now) => OnBoost(s, id, userId, isProActive, invoice, now)
    case Webhook(id, token, answer, now) => OnWebhook(s, id, token, answer, now)
  }

  function Run(s: State, run: seq<Request>): State
    decreases |run|
  {
    if run == [] then s else Run(Step(s, run[0]).state, run[1..])
  }

  // ----- scores -----

  ghost predicate ScoresInRange(s: State) {
    forall id | id in s.rows :: 0 <= s.rows[id].score <= 100
  }

  /** Scores stay between 0 and 100 over every run. */
  lemma {:induction false} ScoresStayInRange(s: State, run: seq<Request>)
    requires ScoresInRange(s)
    ensures ScoresInRange(Run(s, run))
    decreases |run|
  {
    if run == [] {
    } else {
      ScoresStayInRange(Step(s, run[0]).state, run[1..]);
    }
  }

  function Confirmations(payments: seq<BoostPayment>, id: Id): nat {
    if payments == [] then 0
    else
      var last := payments[|payments| - 1];
      Confirmations(payments[..|payments| - 1], id) + if last.listingId == id && last.status == Confirmed then 1 else 0
  }

  /** A boost that the owner's plan covers. */
  predicate Free(s: State, r: Request, id: Id) {
    r.Boost? && r.id == id && r.isProActive && id in s.rows && s.rows[id].ownerId == r.userId
  }

  /** Good news of one payment while another of the listing is the latest open one. */
  predicate Misplaced(s: State, r: Request, id: Id) {
    && r.Webhook? && r.id == id && r.answer.Completed?
    && LatestPending(s.payments, id).Some? && RefTaken(s.payments, Ref(r.token), LatestPending(s.payments, id))
  }

  lemma {:induction false} SettledCounts(payments: seq<BoostPayment>, i: nat, status: PaymentStatus, ref: string,
                                         id: Id)
    requires i < |payments| && payments[i].status == Pending
    ensures Confirmations(Settled(payments, i, status, ref), id)
         == Confirmations(payments, id) + if payments[i].listingId == id && status == Confirmed then 1 else 0
  {
    var front := payments[..|payments| - 1];
    var after := Settled(payments, i, status, ref);
    if i == |payments| - 1 {
      assert after[..|after| - 1] == front;
    } else {
      SettledCounts(front, i, status, ref, id);
      assert after[..|after| - 1] == Settled(front, i, status, ref);
    }
  }

  lemma WebhookCounts(s: State, id: Id, token: string, answer: Answer, now: int, other: Id)
    requires other in s.rows
    ensures var t := OnWebhook(s, id, token, answer, now).state;
            var confirmed := Confirmations(t.payments, other) - Confirmations(s.payments, other);
            var misplaced := Misplaced(s, Webhook(id, token, answer, now), other);
            && other in t.rows && 0 <= confirmed <= 1 && !(misplaced && confirmed == 1)
            && t.rows[other].score
               == if misplaced || confirmed == 1 then Min(s.rows[other].score + 10, 100) else s.rows[other].score
  {
    var i := LatestPending(s.payments, id);
    if i.Some? && answer.Completed? {
      SettledCounts(s.payments, i.value, Confirmed, Ref(token), other);
    } else if i.Some? && answer.Declined? {
      SettledCounts(s.payments, i.value, Failed, s.payments[i.value].ref, other);
    }
  }

  lemma OpenCounts(payments: seq<BoostPayment>, id: Id, token: string, other: Id)
    ensures Confirmations(payments + [Open(id, token)], other) == Confirmations(payments, other)
  {
    assert (payments + [Open(id, token)])[..|payments|] == payments;
  }

  /** A request boosts a listing once if it is a free boost, confirms a payment of the listing, or
      is misplaced; it does at most one of these, and in no other case does the score change. */
  lemma StepCounts(s: State, r: Request, id: Id)
    requires id in s.rows
    ensures var t := Step(s, r).state;
            var confirmed := Confirmations(t.payments, id) - Confirmations(s.payments, id);
            var boosts := confirmed + (if Free(s, r, id) then 1 else 0) + (if Misplaced(s, r, id) then 1 else 0);
            && id in t.rows && 0 <= confirmed && 0 <= boosts <= 1
            && t.rows[id].score == if boosts == 0 then s.rows[id].score else Min(s.rows[id].score + 10, 100)
  {
    match r
    case Boost(other, userId, isProActive, invoice, now) =>
      if invoice.Some? {
        OpenCounts(s.payments, other, invoice.value, id);
      }
    case Webhook(other, token, answer, now) =>
      WebhookCounts(s, other, token, answer, now, id);
  }

  /** The request boosts the listing freely, or by a misplaced delivery. */
  function OneUnpaid(s: State, r: Request, id: Id): nat {
    (if Free(s, r, id) then 1 else 0) + (if Misplaced(s, r, id) then 1 else 0)
  }

  function Unpaid(s: State, run: seq<Request>, id: Id): nat
    decreases |run|
  {
    if run == [] then 0 else OneUnpaid(s, run[0], id) + Unpaid(Step(s, run[0]).state, run[1..], id)
  }

  lemma OneMoreBoost(n: nat, boosts: nat)
    requires boosts <= 1
    ensures (if boosts == 0 then Min(10 * n, 100) else Min(Min(10 * n, 100) + 10, 100)) == Min(10 * (n + boosts), 100)
  {
  }

  lemma StepScore(s: State, r: Request, id: Id, n: nat) returns (m: nat)
    requires id in s.rows && s.rows[id].score == Min(10 * n, 100)
    ensures var t := Step(s, r).state;
            && m == n + Confirmations(t.payments, id) - Confirmations(s.payments, id) + OneUnpaid(s, r, id)
            && Confirmations(t.payments, id) >= Confirmations(s.payments, id)
            && id in t.rows && t.rows[id].score == Min(10 * m, 100)
  {
    StepCounts(s, r, id);
    var boosts := Confirmations(Step(s, r).state.payments, id) - Confirmations(s.payments, id) + OneUnpaid(s, r, id);
    OneMoreBoost(n, boosts);
    m := n + boosts;
  }

  /** Over every run a score is ten for each free boost, each confirmed payment and each misplaced
      delivery, and never above a hundred. */
  lemma {:induction false} ScoreCountsBoosts(s: State, run: seq<Request>, id: Id, n: nat)
    requires id in s.rows && s.rows[id].score == Min(10 * n, 100)
    ensures var t := Run(s, run);
            var confirmed := Confirmations(t.payments, id) - Confirmations(s.payments, id);
            id in t.rows && confirmed >= 0 && t.rows[id].score == Min(10 * (n + confirmed + Unpaid(s, run, id)), 100)
    decreases |run|
  {
    if run == [] {
    } else {
      var m := StepScore(s, run[0], id, n);
      ScoreCountsBoosts(Step(s, run[0]).state, run[1..], id, m);
    }
  }

  // ----- deliveries that come astray -----

  lemma TwoOpen(s: State, id: Id, paid: real, now: int)
    requires s.payments == [Open(id, "a"), Open(id, "b")] && id in s.rows
    ensures Step(s, Webhook(id, "a", Completed(paid), now))
         == Reply(Refused, s.(rows := s.rows[id := Boosted(s.rows[id], now)]))
  {
    RefsDiffer("a", "b");
    assert Awaits(s.payments[1], id);
    assert LatestPending(s.payments, id) == Some(1);
    assert s.payments[0].ref == Ref("a");
  }

  /** The owner asks for two paid boosts of a listing, and pays the first invoice: the listing is
      boosted and no payment is confirmed. */
  lemma FirstOfTwoInvoices(id: Id, owner: Id, paid: real, now: int)
    ensures var s := State(map[id := Row(owner, 0, None)], []);
            var one := Step(s, Boost(id, owner, false, Some("a"), now)).state;
            var two := Step(one, Boost(id, owner, false, Some("b"), now)).state;
            var reply := Step(two, Webhook(id, "a", Completed(paid), now));
            reply.outcome == Refused && reply.state.rows[id].score == 10
            && reply.state.payments == [Open(id, "a"), Open(id, "b")]
  {
    RefsDiffer("a", "b");
    var s := State(map[id := Row(owner, 0, None)], []);
    var one := s.(payments := [Open(id, "a")]);
    assert Step(s, Boost(id, owner, false, Some("a"), now)).state == one;
    var two := s.(payments := [Open(id, "a"), Open(id, "b")]);
    assert Step(one, Boost(id, owner, false, Some("b"), now)).state == two;
    TwoOpen(two, id, paid, now);
  }

  /** A delivery that comes again later is harmless exactly when it decides nothing or leaves no
      payment of the listing open. */
  lemma DeliveredTwice(s: State, id: Id, token: string, answer: Answer, now: int, later: int)
    requires id in s.rows && now < later
    ensures var once := Step(s, Webhook(id, token, answer, now)).state;
            (Step(once, Webhook(id, token, answer, later)).state == once
             <==> (answer.Waiting? || answer.Unreachable? || LatestPending(once.payments, id).None?))
  {
    var once := Step(s, Webhook(id, token, answer, now)).state;
    var i := LatestPending(once.payments, id);
    if i.Some? && answer.Completed? {
      var twice := Step(once, Webhook(id, token, answer, later)).state;
      assert LatestPending(s.payments, id).Some?;
      assert once.rows[id].until == Some(now + BOOST_DAYS * DAY);
      assert twice.rows[id].until == Some(later + BOOST_DAYS * DAY);
    } else if i.Some? && answer.Declined? {
      var twice := Step(once, Webhook(id, token, answer, later)).state;
      assert twice.payments[i.value].status != once.payments[i.value].status;
    }
  }

  // ----- any amount will do -----

  /** The request as if the gateway had reported another amount. */
  function WithAmount(r: Request, amount: real): Request {
    if r.Webhook? && r.answer.Completed? then r.(answer := Completed(amount)) else r
  }

  function WithAmounts(run: seq<Request>, amount: real): seq<Request> {
    seq(|run|, i requires 0 <= i < |run| => WithAmount(run[i], amount))
  }

  /** Scores and payments come out the same whatever amounts the gateway reports: the webhook compares
      none with a price, and the row of a payment has none. */
  lemma {:induction false} AmountsIgnored(s: State, run: seq<Request>, amount: real)
    ensures Run(s, WithAmounts(run, amount)) == Run(s, run)
    decreases |run|
  {
    if run == [] {
    } else {
      var other := WithAmounts(run, amount);
      assert other[1..] == WithAmounts(run[1..], amount);
      assert Step(s, other[0]) == Step(s, run[0]);
      AmountsIgnored(Step(s, run[0]).state, run[1..], amount);
    }
  }

  // ----- the code -----

  class BoostsService {
    var rows: map<Id, Row>
    var payments: seq<BoostPayment>

    ghost function Snapshot(): State
      reads this
    {
      State(rows, payments)
    }

    constructor ()
      ensures Snapshot() == State(map[], [])
    {
      rows, payments := map[], [];
    }

    method ApplyBoost(listingId: Id, boostScore: int, now: int)
      requires listingId in rows && boostScore == rows[listingId].score
      modifies this`rows
      ensures rows == old(rows)[listingId := Boosted(old(rows)[listingId], now)]
    {
      var score := Min(boostScore + BOOST_SCORE_GAIN, BOOST_SCORE_MAX);
      rows := rows[listingId := rows[listingId].(score := score, until := Some(now + BOOST_DAYS * DAY))];
    }

    method BoostListing(listingId: Id, userId: Id, isProActive: bool, invoice: Option<string>, now: int)
      returns (outcome: Outcome)
      modifies this
      ensures Reply(outcome, Snapshot()) == Step(old(Snapshot()), Boost(listingId, userId, isProActive, invoice, now))
    {
      if listingId !in rows {
        return NotFound;
      }
      if rows[listingId].ownerId != userId {
        return Forbidden;
      }
      if isProActive {
        ApplyBoost(listingId, rows[listingId].score, now);
        return Accepted;
      }
      if invoice.None? {
        return BadRequest;
      }
      if RefTaken(payments, Ref(invoice.value), None) {
        return Refused;
      }
      payments := payments + [Payment(listingId, Ref(invoice.value), Pending, ())];
      return Accepted;
    }

    method HandleBoostWebhook(listingId: Id, token: string, answer: Answer, now: int) returns (outcome: Outcome)
      modifies this
      ensures Reply(outcome, Snapshot()) == Step(old(Snapshot()), Webhook(listingId, token, answer, now))
    {
      var pending := LatestPending(payments, listingId);
      if pending.None? {
        return Accepted;
      }
      if answer.Unreachable? {
        return BadRequest;
      }
      outcome := Accepted;
      if answer.Completed? {
        if listingId !in rows {
          return NotFound;
        }
        if RefTaken(payments, Ref(token), pending) {
          outcome := Refused;
        } else {
          payments := Settled(payments, pending.value, Confirmed, Ref(token));
        }
        ApplyBoost(listingId, rows[listingId].score, now);
      } else if answer.Declined? {
        payments := Settled(payments, pending.value, Failed, payments[pending.value].ref);
      }
    }
  }
}
