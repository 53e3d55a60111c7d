/**
 The platform's prices. A change is announced with a notice period and stored beside the prices
 in force; no timer applies it, the next request that reads the row after it falls due does.
 */
module PlatformPrices {
  import opened Wrappers

  const DEFAULT_NOTICE_DAYS := 30

  datatype Prices = Prices(
    starter: int,
    pro: int,
    nightlyRate: real,
    monthlyMonths: real,
    auditBasic: int,
    auditFull: int,
    boost: int)

  /** Prices of which any may be absent: a request's changes, or the pending columns of the row. */
  datatype Draft = Draft(
    starter: Option<int>,
    pro: Option<int>,
    nightlyRate: Option<real>,
    monthlyMonths: Option<real>,
    auditBasic: Option<int>,
    auditFull: Option<int>,
    boost: Option<int>)
  {
    /** The prices that result when absent fields keep their value. */
    function Over(base: Prices): Prices {
      Prices(starter.GetOr(base.starter), pro.GetOr(base.pro), nightlyRate.GetOr(base.nightlyRate),
             monthlyMonths.GetOr(base.monthlyMonths), auditBasic.GetOr(base.auditBasic),
             auditFull.GetOr(base.auditFull), boost.GetOr(base.boost))
    }

    /** Some field is given and differs. */
    predicate Changes(base: Prices) {
      || (starter.Some? && starter.value != base.starter)
      || (pro.Some? && pro.value != base.pro)
      || (nightlyRate.Some? && nightlyRate.value != base.nightlyRate)
      || (monthlyMonths.Some? && monthlyMonths.value != base.monthlyMonths)
      || (auditBasic.Some? && auditBasic.value != base.auditBasic)
      || (auditFull.Some? && auditFull.value != base.auditFull)
      || (boost.Some? && boost.value != base.boost)
    }
  }

  const NO_PRICES := Draft(None, None, None, None, None, None, None)
  const DEFAULTS := Prices(75_000, 150_000, 0.10, 1.0, 25_000, 60_000, 5_000)

  function AllOf(p: Prices): Draft {
    Draft(Some(p.starter), Some(p.pro), Some(p.nightlyRate), Some(p.monthlyMonths), Some(p.auditBasic),
          Some(p.auditFull), Some(p.boost))
  }

  datatype Row = Row(
    prices: Prices,
    pending: Draft,
    effectiveAt: Option<int>,
    setBy: Option<string>,
    updatedAt: int,
    updatedBy: Option<string>)

  datatype Change = Change(prices: Prices, due: int, setBy: Option<string>)

  /** What a reader of the configuration sees, the time of the last write apart. */
  datatype Public = Public(prices: Prices, updatedBy: Option<string>, pending: Option<Change>)

  function ToPublic(r: Row): Public {
    Public(r.prices, r.updatedBy,
           if r.effectiveAt.Some? then Some(Change(r.pending.Over(r.prices), r.effectiveAt.value, r.setBy)) else None)
  }

  /** How an administrator proves who they are, and whether the code was right. */
  datatype Confirmation = Pin(right: bool) | Otp(right: bool)

  datatype Request =
    | GetConfig
    | GetPricing
    | Update(admin: string, changes: Draft, effectiveInDays: Option<int>, confirmation: Confirmation)
    | CancelPending(admin: string, confirmation: Confirmation)
    | ChangePin(admin: string, confirmation: Confirmation)

  datatype Reply = Rejected | Config(config: Public) | Pricing(prices: Prices) | Success

  // ----- the row as the service keeps it -----

  predicate Due(r: Row, now: int) {
    r.effectiveAt.Some? && r.effectiveAt.value <= now
  }

  function Cleared(r: Row): Row {
    r.(pending := NO_PRICES, effectiveAt := None, setBy := None)
  }

  function PromoteIfDue(r: Row, now: int): Row {
    if Due(r, now) then Cleared(r).(prices := r.pending.Over(r.prices), updatedAt := now) else r
  }

  /** The row every request starts from; the first one creates it. */
  function Fetch(row: Option<Row>, now: int): Row {
    match row
    case None => Row(DEFAULTS, NO_PRICES, None, None, now, None)
    case Some(r) => PromoteIfDue(r, now)
  }

  function Updated(r: Row, now: int, q: Request): Row
    requires q.Update?
  {
    var days := q.effectiveInDays.GetOr(DEFAULT_NOTICE_DAYS);
    if !q.changes.Changes(r.prices) then r
    else if days <= 0 then
      Cleared(r).(prices := q.changes.Over(r.prices), updatedBy := Some(q.admin), updatedAt := now)
    else
      r.(pending := AllOf(q.changes.Over(r.prices)), effectiveAt := Some(now + days * DAY), setBy := Some(q.admin),
         updatedAt := now)
  }

  function Serve(row: Option<Row>, now: int, q: Request): (Reply, Option<Row>) {
    var r := Fetch(row, now);
    match q
    case GetConfig => (Config(ToPublic(r)), Some(r))
    case GetPricing => (Pricing(r.prices), Some(r))
    case Update(_, _, _, confirmation) =>
      if !confirmation.right then (Rejected, if confirmation.Pin? then Some(r) else row)
      else (Config(ToPublic(Updated(r, now, q))), Some(Updated(r, now, q)))
    case CancelPending(_, confirmation) =>
      if !confirmation.right then (Rejected, if confirmation.Pin? then Some(r) else row)
      else
        var cancelled := if r.effectiveAt.None? then r else Cleared(r).(updatedAt := now);
        (Config(ToPublic(cancelled)), Some(cancelled))
    case ChangePin(admin, confirmation) =>
      if !confirmation.right then (Rejected, if confirmation.Pin? then Some(r) else row)
      else (Success, Some(r.(updatedBy := Some(admin), updatedAt := now)))
  }

  class PlatformConfigService {
    var row: Option<Row>

    constructor ()
      ensures row == None
    {
      row := None;
    }

    method Promote(r: Row, now: int) returns (promoted: Row)
      requires row == Some(r)
      modifies this
      ensures promoted == PromoteIfDue(r, now) && row == Some(promoted)
    {
      if r.effectiveAt.None? || r.effectiveAt.value > now {
        return r;
      }
      promoted := Row(
        Prices(r.pending.starter.GetOr(r.prices.starter),
               r.pending.pro.GetOr(r.prices.pro),
               r.pending.nightlyRate.GetOr(r.prices.nightlyRate),
               r.pending.monthlyMonths.GetOr(r.prices.monthlyMonths),
               r.pending.auditBasic.GetOr(r.prices.auditBasic),
               r.pending.auditFull.GetOr(r.prices.auditFull),
               r.pending.boost.GetOr(r.prices.boost)),
        NO_PRICES, None, None, now, r.updatedBy);
      row := Some(promoted);
    }

    method GetOrCreateRow(now: int) returns (r: Row)
      modifies this
      ensures r == Fetch(old(row), now) && row == Some(r)
    {
      if row.None? {
        r := Row(DEFAULTS, NO_PRICES, None, None, now, None);
        row := Some(r);
        return;
      }
      r := Promote(row.value, now);
    }

    method VerifyConfirmation(now: int, confirmation: Confirmation) returns (ok: bool)
      modifies this
      ensures ok == confirmation.right
      ensures row == if confirmation.Pin? then Some(Fetch(old(row), now)) else old(row)
    {
      if confirmation.Pin? {
        var _ := GetOrCreateRow(now);
      }
      return confirmation.right;
    }

    method ReadConfig(now: int) returns (reply: Reply)
      modifies this
      ensures (reply, row) == Serve(old(row), now, GetConfig)
    {
      var r := GetOrCreateRow(now);
      return Config(ToPublic(r));
    }

    method ReadPricing(now: int) returns (reply: Reply)
      modifies this
      ensures (reply, row) == Serve(old(row), now, GetPricing)
    {
      var r := GetOrCreateRow(now);
      return Pricing(r.prices);
    }

    method UpdateConfig(now: int, admin: string, changes: Draft, effectiveInDays: Option<int>,
                        confirmation: Confirmation)
      returns (reply: Reply)
      modifies this
      ensures (reply, row) == Serve(old(row), now, Update(admin, changes, effectiveInDays, confirmation))
    {
      FetchTwice(row, now);
      var ok := VerifyConfirmation(now, confirmation);
      if !ok {
        return Rejected;
      }
      var before := GetOrCreateRow(now);
      if !changes.Changes(before.prices) {
        return Config(ToPublic(before));
      }
      var days := effectiveInDays.GetOr(DEFAULT_NOTICE_DAYS);
      var r := before;
      if days <= 0 {
        r := Row(changes.Over(before.prices), NO_PRICES, None, None, now, Some(admin));
      } else {
        r := before.(pending := AllOf(changes.Over(before.prices)), effectiveAt := Some(now + days * DAY),
                     setBy := Some(admin), updatedAt := now);
      }
      row := Some(r);
      return Config(ToPublic(r));
    }

    method CancelPendingChange(now: int, admin: string, confirmation: Confirmation) returns (reply: Reply)
      modifies this
      ensures (reply, row) == Serve(old(row), now, CancelPending(admin, confirmation))
    {
      FetchTwice(row, now);
      var ok := VerifyConfirmation(now, confirmation);
      if !ok {
        return Rejected;
      }
      var before := GetOrCreateRow(now);
      if before.effectiveAt.None? {
        return Config(ToPublic(before));
      }
      var r := before.(pending := NO_PRICES, effectiveAt := None, setBy := None, updatedAt := now);
      row := Some(r);
      return Config(ToPublic(r));
    }

    method ChangeThePin(now: int, admin: string, confirmation: Confirmation) returns (reply: Reply)
      modifies this
      ensures (reply, row) == Serve(old(row), now, ChangePin(admin, confirmation))
    {
      FetchTwice(row, now);
      var ok := VerifyConfirmation(now, confirmation);
      if !ok {
        return Rejected;
      }
      var before := GetOrCreateRow(now);
      row := Some(before.(updatedBy := Some(admin), updatedAt := now));
      return Success;
    }
  }

  /** Fetching again at once changes nothing. */
  lemma FetchTwice(row: Option<Row>, now: int)
    ensures Fetch(Some(Fetch(row, now)), now) == Fetch(row, now)
  {
  }
}
