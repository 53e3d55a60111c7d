/**
 The prices compared with a machine that has a real timer: time passes in single ticks, and a
 change is applied by the very tick at which it falls due. No sequence of requests can tell the
 two apart.
 */
module Timer {
  import opened Wrappers
  import opened PlatformPrices

  datatype Machine = Machine(clock: int, prices: Prices, change: Option<Change>, updatedBy: Option<string>)

  function Tick(m: Machine): Machine {
    var clock := m.clock + 1;
    if m.change.Some? && m.change.value.due == clock
    then Machine(clock, m.change.value.prices, None, m.updatedBy)
    else m.(clock := clock)
  }

  function TickTo(m: Machine, t: int): Machine
    decreases t - m.clock
  {
    if t <= m.clock then m else TickTo(Tick(m), t)
  }

  function Show(m: Machine): Public {
    Public(m.prices, m.updatedBy, m.change)
  }

  function Handle(m: Machine, q: Request): (Reply, Machine) {
    match q
    case GetConfig => (Config(Show(m)), m)
    case GetPricing => (Pricing(m.prices), m)
    case Update(admin, changes, effectiveInDays, confirmation) =>
      if !confirmation.right then (Rejected, m)
      else
        var wanted := changes.Over(m.prices);
        var days := if effectiveInDays.Some? then effectiveInDays.value else 30;
        var n :=
          if wanted == m.prices then m
          else if days <= 0 then m.(prices := wanted, change := None, updatedBy := Some(admin))
          else m.(change := Some(Change(wanted, m.clock + days * DAY, Some(admin))));
        (Config(Show(n)), n)
    case CancelPending(_, confirmation) =>
      if !confirmation.right then (Rejected, m) else (Config(Show(m.(change := None))), m.(change := None))
    case ChangePin(admin, confirmation) =>
      if !confirmation.right then (Rejected, m) else (Success, m.(updatedBy := Some(admin)))
  }

  // ----- simulation -----

  /** The machine the row stands for at a given instant. */
  function Abs(row: Option<Row>, now: int): Machine {
    match row
    case None => Machine(now, DEFAULTS, None, None)
    case Some(r) =>
      var p := PromoteIfDue(r, now);
      Machine(now, p.prices, ToPublic(p).pending, p.updatedBy)
  }

  /** Doing nothing simulates a tick. */
  lemma TickSimulated(row: Option<Row>, now: int)
    ensures Abs(row, now + 1) == Tick(Abs(row, now))
  {
  }

  lemma {:induction false} TicksSimulated(row: Option<Row>, now: int, later: int)
    requires now <= later
    ensures TickTo(Abs(row, now), later) == Abs(row, later)
    decreases later - now
  {
    if now == later {
    } else {
      TickSimulated(row, now);
      TicksSimulated(row, now + 1, later);
    }
  }

  lemma ChangesIff(d: Draft, p: Prices)
    ensures d.Changes(p) <==> d.Over(p) != p
  {
  }

  /** Serving a request simulates handling it: the same reply, and related states. */
  lemma RequestSimulated(row: Option<Row>, now: int, q: Request)
    ensures var (reply, row') := Serve(row, now, q);
            (reply, Abs(row', now)) == Handle(Abs(row, now), q)
  {
    ChangesIff(if q.Update? then q.changes else NO_PRICES, Fetch(row, now).prices);
    FetchTwice(row, now);
  }

  datatype Entry = Entry(now: int, request: Request)

  ghost predicate Chronological(start: int, tr: seq<Entry>) {
    && (forall i | 0 <= i < |tr| :: start <= tr[i].now)
    && (forall i, j | 0 <= i < j < |tr| :: tr[i].now <= tr[j].now)
  }

  function Last(start: int, tr: seq<Entry>): int {
    if tr == [] then start else tr[|tr| - 1].now
  }

  /** The service: the row and the replies of a run. */
  function Lazy(row: Option<Row>, tr: seq<Entry>): (seq<Reply>, Option<Row>) {
    if tr == [] then ([], row)
    else
      var (replies, r) := Lazy(row, tr[..|tr| - 1]);
      var e := tr[|tr| - 1];
      var (reply, r') := Serve(r, e.now, e.request);
      (replies + [reply], r')
  }

  /** The machine with the timer. */
  function Eager(m: Machine, tr: seq<Entry>): (seq<Reply>, Machine) {
    if tr == [] then ([], m)
    else
      var (replies, n) := Eager(m, tr[..|tr| - 1]);
      var e := tr[|tr| - 1];
      var (reply, n') := Handle(TickTo(n, e.now), e.request);
      (replies + [reply], n')
  }

  /** Whatever the requests and their times, the replies are the same. */
  lemma {:induction false} LazyRefinesTimer(row: Option<Row>, start: int, tr: seq<Entry>)
    requires Chronological(start, tr)
    ensures var (replies, row') := Lazy(row, tr);
            (replies, Abs(row', Last(start, tr))) == Eager(Abs(row, start), tr)
  {
    if tr == [] {
    } else {
      var front, e := tr[..|tr| - 1], tr[|tr| - 1];
      LazyRefinesTimer(row, start, front);
      assert Last(start, front) <= e.now;
      var r := Lazy(row, front).1;
      TicksSimulated(r, Last(start, front), e.now);
      RequestSimulated(r, e.now, e.request);
    }
  }

  // ----- reads -----

  predicate IsRead(q: Request) {
    q.GetConfig? || q.GetPricing?
  }

  function WithoutReads(tr: seq<Entry>): seq<Entry> {
    if tr == [] then []
    else if IsRead(tr[|tr| - 1].request) then WithoutReads(tr[..|tr| - 1])
    else WithoutReads(tr[..|tr| - 1]) + [tr[|tr| - 1]]
  }

  function Final(row: Option<Row>, tr: seq<Entry>): Option<Row> {
    Lazy(row, tr).1
  }

  /** Rows that look alike now go on looking alike. */
  lemma LookAlikeLater(a: Option<Row>, b: Option<Row>, now: int, later: int)
    requires now <= later && Abs(a, now) == Abs(b, now)
    ensures Abs(a, later) == Abs(b, later)
  {
    TicksSimulated(a, now, later);
    TicksSimulated(b, now, later);
  }

  /** Leaving out every read of a run changes nothing anybody can see afterwards. */
  lemma {:induction false} ReadsAreInvisible(row: Option<Row>, start: int, tr: seq<Entry>, now: int)
    requires Chronological(start, tr) && Last(start, tr) <= now
    ensures Abs(Final(row, tr), now) == Abs(Final(row, WithoutReads(tr)), now)
  {
    if tr == [] {
    } else {
      var front, e := tr[..|tr| - 1], tr[|tr| - 1];
      assert Last(start, front) <= e.now;
      ReadsAreInvisible(row, start, front, e.now);
      var a, b := Final(row, front), Final(row, WithoutReads(front));
      RequestSimulated(a, e.now, e.request);
      RequestSimulated(b, e.now, e.request);
      assert Final(row, tr) == Serve(a, e.now, e.request).1;
      if IsRead(e.request) {
        LookAlikeLater(Final(row, tr), b, e.now, now);
      } else {
        assert WithoutReads(tr)[..|WithoutReads(tr)| - 1] == WithoutReads(front);
        assert Final(row, WithoutReads(tr)) == Serve(b, e.now, e.request).1;
        LookAlikeLater(Final(row, tr), Final(row, WithoutReads(tr)), e.now, now);
      }
    }
  }

  /** A read writes the row if and only if a change has fallen due, and then stamps the time of the
      read on it: the time of the last write is the one thing a timer would show differently. */
  lemma ReadWritesIffDue(r: Row, now: int, q: Request)
    requires IsRead(q)
    ensures Serve(Some(r), now, q).1 == Some(r) <==> !Due(r, now)
    ensures Due(r, now) ==> Serve(Some(r), now, q).1.value.updatedAt == now
  {
  }

  /** A confirmed cancellation erases the pending change if it is not yet due; a change already due
      is in force, cancelled or not. */
  lemma CancelOnlyBeforeDue(r: Row, now: int, admin: string, confirmation: Confirmation)
    requires r.effectiveAt.Some? && confirmation.right
    ensures var after := Abs(Serve(Some(r), now, CancelPending(admin, confirmation)).1, now);
            && after.change == None
            && after.prices == if r.effectiveAt.value <= now then r.pending.Over(r.prices) else r.prices
  {
  }
}
