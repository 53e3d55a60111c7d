/**
 What a reader of the prices is told after one request, at every later instant at which nothing else
 has happened: the notice is counted in milliseconds from the request.
 */
module Announcements {
  import opened PlatformPrices
  import opened Wrappers

  const ONE_DAY := 86_400_000

  /** What the request for the prices answers. */
  function PricesAt(row: Option<Row>, t: int): Prices {
    Serve(row, t, GetPricing).0.prices
  }

  function RowAfter(row: Option<Row>, now: int, q: Request): Option<Row> {
    Serve(row, now, q).1
  }

  /** Some price is given, and is another one. */
  predicate Differs(d: Draft, p: Prices) {
    || (d.starter.Some? && d.starter.value != p.starter)
    || (d.pro.Some? && d.pro.value != p.pro)
    || (d.nightlyRate.Some? && d.nightlyRate.value != p.nightlyRate)
    || (d.monthlyMonths.Some? && d.monthlyMonths.value != p.monthlyMonths)
    || (d.auditBasic.Some? && d.auditBasic.value != p.auditBasic)
    || (d.auditFull.Some? && d.auditFull.value != p.auditFull)
    || (d.boost.Some? && d.boost.value != p.boost)
  }

  /** Each price is the one given, or stays. */
  predicate AsGiven(d: Draft, was: Prices, p: Prices) {
    && p.starter == (if d.starter.Some? then d.starter.value else was.starter)
    && p.pro == (if d.pro.Some? then d.pro.value else was.pro)
    && p.nightlyRate == (if d.nightlyRate.Some? then d.nightlyRate.value else was.nightlyRate)
    && p.monthlyMonths == (if d.monthlyMonths.Some? then d.monthlyMonths.value else was.monthlyMonths)
    && p.auditBasic == (if d.auditBasic.Some? then d.auditBasic.value else was.auditBasic)
    && p.auditFull == (if d.auditFull.Some? then d.auditFull.value else was.auditFull)
    && p.boost == (if d.boost.Some? then d.boost.value else was.boost)
  }

  /** A confirmed update that gives another price. */
  predicate Announces(row: Option<Row>, now: int, q: Request) {
    q.Update? && q.confirmation.right && Differs(q.changes, PricesAt(row, now))
  }

  /** The notice in days; thirty if the update does not say. */
  function NoticeOf(q: Request): int
    requires q.Update?
  {
    match q.effectiveInDays
    case Some(d) => d
    case None => 30
  }

  lemma OverAsGiven(d: Draft, was: Prices)
    ensures AsGiven(d, was, d.Over(was))
    ensures AllOf(d.Over(was)).Over(was) == d.Over(was)
    ensures Differs(d, was) <==> d.Changes(was)
  {
  }

  lemma FetchedPrices(row: Option<Row>, t: int)
    ensures PricesAt(row, t) == Fetch(row, t).prices
  {
  }

  /** The row that an announcement leaves. */
  lemma Announced(row: Option<Row>, now: int, q: Request)
    requires Announces(row, now, q)
    ensures RowAfter(row, now, q).Some?
    ensures var was, r := PricesAt(row, now), RowAfter(row, now, q).value;
            if NoticeOf(q) <= 0 then r.prices == q.changes.Over(was) && r.effectiveAt.None?
            else r.prices == was && r.pending == AllOf(q.changes.Over(was))
                 && r.effectiveAt == Some(now + NoticeOf(q) * ONE_DAY)
  {
    FetchedPrices(row, now);
    OverAsGiven(q.changes, PricesAt(row, now));
  }

  /** Whatever was waiting: until its notice is over an announcement leaves the prices as they were, and
      from that instant on they are the ones given. */
  lemma NoticeKept(row: Option<Row>, now: int, q: Request, t: int)
    requires Announces(row, now, q) && now <= t
    ensures var p := PricesAt(RowAfter(row, now, q), t);
            if t < now + NoticeOf(q) * ONE_DAY then p == PricesAt(row, now)
            else AsGiven(q.changes, PricesAt(row, now), p)
  {
    var was := PricesAt(row, now);
    Announced(row, now, q);
    OverAsGiven(q.changes, was);
    FetchedPrices(RowAfter(row, now, q), t);
  }

  /** The answer to an announcement names the prices in force, and the ones to come with their day. */
  lemma NoticeAnswered(row: Option<Row>, now: int, q: Request)
    requires Announces(row, now, q)
    ensures var reply := Serve(row, now, q).0;
            && reply.Config?
            && if NoticeOf(q) <= 0 then
                 && AsGiven(q.changes, PricesAt(row, now), reply.config.prices)
                 && reply.config.pending.None? && reply.config.updatedBy == Some(q.admin)
               else
                 && reply.config.prices == PricesAt(row, now)
                 && reply.config.pending.Some?
                 && AsGiven(q.changes, PricesAt(row, now), reply.config.pending.value.prices)
                 && reply.config.pending.value.due == now + NoticeOf(q) * ONE_DAY
                 && reply.config.pending.value.setBy == Some(q.admin)
  {
  }

  /** A confirmed cancellation leaves the prices in force at its instant in force for good. */
  lemma CancelledForGood(row: Option<Row>, now: int, q: Request, t: int)
    requires q.CancelPending? && q.confirmation.right && now <= t
    ensures PricesAt(RowAfter(row, now, q), t) == PricesAt(row, now)
  {
  }

  /** No other request touches the prices in force, nor those to come. */
  lemma OthersLeavePrices(row: Option<Row>, now: int, q: Request, t: int)
    requires !Announces(row, now, q) && !(q.CancelPending? && q.confirmation.right) && now <= t
    ensures PricesAt(RowAfter(row, now, q), t) == PricesAt(row, t)
  {
  }

  /** The prices before anybody has set any. */
  lemma FirstPrices(t: int)
    ensures PricesAt(None, t) == Prices(75_000, 150_000, 0.10, 1.0, 25_000, 60_000, 5_000)
  {
  }

  /** Only a right code gets anything done; everybody else is rejected. */
  lemma OnlyConfirmed(row: Option<Row>, now: int, q: Request)
    ensures Serve(row, now, q).0.Rejected? <==> !q.GetConfig? && !q.GetPricing? && !q.confirmation.right
  {
  }

  /** The row was read, and a change in it had fallen due; a wrong mailed code is found out before. */
  predicate FindsDue(r: Row, now: int, q: Request) {
    && r.effectiveAt.Some? && r.effectiveAt.value <= now
    && (q.GetConfig? || q.GetPricing? || q.confirmation.right || q.confirmation.Pin?)
  }

  /** A confirmed cancellation of a change that is not yet due. */
  predicate Withdraws(r: Row, now: int, q: Request) {
    q.CancelPending? && q.confirmation.right && r.effectiveAt.Some? && now < r.effectiveAt.value
  }

  /** Author and time of the last write: the author of an immediate change or of a new PIN, and the time of
      whatever was written. */
  lemma StampExact(r: Row, now: int, q: Request)
    ensures RowAfter(Some(r), now, q).Some?
    ensures var s := RowAfter(Some(r), now, q).value;
            var repinned := q.ChangePin? && q.confirmation.right;
            var announced := Announces(Some(r), now, q);
            && s.updatedBy == (if repinned || (announced && NoticeOf(q) <= 0) then Some(q.admin) else r.updatedBy)
            && s.updatedAt == if repinned || announced || Withdraws(r, now, q) || FindsDue(r, now, q) then now
                              else r.updatedAt
  {
    if q.Update? {
      FetchedPrices(Some(r), now);
      OverAsGiven(q.changes, PricesAt(Some(r), now));
    }
  }
}
