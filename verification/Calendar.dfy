/**
 The availability calendar against the booking check. Both sides see the same rows; the calendar
 blocks whole days, the check compares instants.
 */
module Calendar {
  import opened Wrappers
  import opened Market
  import opened DoubleBooking
  import opened Tables

  datatype Range = Range(start: int, end: Option<int>)

  /** The rows the availability query returns. */
  predicate Listed(b: Booking, listingId: Id, now: int) {
    b.listingId == listingId && HoldsDates(b) && (b.end.None? || now <= b.end.value)
  }

  function RangeOf(b: Booking): Range {
    Range(b.start, b.end)
  }

  /** The range comes from a row of the availability query. */
  ghost predicate FromRow(r: Range, bookings: map<Id, Booking>, listingId: Id, now: int) {
    exists k :: k in bookings && Listed(bookings[k], listingId, now) && r == RangeOf(bookings[k])
  }

  /** The ranges handed to the calendar, in any order. */
  ghost predicate Feeds(ranges: seq<Range>, bookings: map<Id, Booking>, listingId: Id, now: int) {
    && (forall r | r in ranges :: FromRow(r, bookings, listingId, now))
    && (forall k | k in bookings && Listed(bookings[k], listingId, now) :: RangeOf(bookings[k]) in ranges)
  }

  function StartOfDay(t: int): int {
    t - t % DAY
  }

  function EndOfDay(t: int): int {
    StartOfDay(t) + DAY - 1
  }

  /** The range blocks the day that begins at `day`. */
  predicate Blocks(r: Range, day: int) {
    StartOfDay(r.start) <= day <= if r.end.Some? then EndOfDay(r.end.value) else FAR_FUTURE
  }

  /** A PENDING or CONFIRMED booking of the listing that is not over, from its start to its end. */
  predicate OffersRange(b: Booking, listingId: Id, now: int, r: Range) {
    && b.listingId == listingId && (b.status == Pending || b.status == Confirmed)
    && (b.end.None? || b.end.value >= now) && r.start == b.start && r.end == b.end
  }

  lemma RangesExactly(ranges: seq<Range>, bookings: map<Id, Booking>, listingId: Id, now: int)
    requires Feeds(ranges, bookings, listingId, now)
    ensures forall r :: r in ranges <==> exists k :: k in bookings && OffersRange(bookings[k], listingId, now, r)
  {
    forall r ensures r in ranges <==> exists k :: k in bookings && OffersRange(bookings[k], listingId, now, r) {
      if r in ranges {
        assert FromRow(r, bookings, listingId, now);
        var k :| k in bookings && Listed(bookings[k], listingId, now) && r == RangeOf(bookings[k]);
        assert OffersRange(bookings[k], listingId, now, r);
      }
      if k :| k in bookings && OffersRange(bookings[k], listingId, now, r) {
        assert Listed(bookings[k], listingId, now) && r == RangeOf(bookings[k]);
      }
    }
  }

  method GetAvailability(db: Database, listingId: Id, now: int) returns (ranges: seq<Range>)
    ensures Feeds(ranges, db.bookings, listingId, now)
    ensures forall r :: r in ranges <==> exists k :: k in db.bookings && OffersRange(db.bookings[k], listingId, now, r)
  {
    ranges := [];
    var todo := db.bookings.Keys;
    while todo != {}
      invariant todo <= db.bookings.Keys
      invariant forall r | r in ranges :: FromRow(r, db.bookings, listingId, now)
      invariant forall k | k in db.bookings && k !in todo && Listed(db.bookings[k], listingId, now) ::
        RangeOf(db.bookings[k]) in ranges
      decreases todo
    {
      var k :| k in todo;
      if Listed(db.bookings[k], listingId, now) {
        assert FromRow(RangeOf(db.bookings[k]), db.bookings, listingId, now);
        ranges := ranges + [RangeOf(db.bookings[k])];
      }
      todo := todo - {k};
    }
    RangesExactly(ranges, db.bookings, listingId, now);
  }

  method IsBooked(day: int, ranges: seq<Range>) returns (booked: bool)
    ensures booked <==> exists r :: r in ranges && Blocks(r, day)
  {
    for i := 0 to |ranges|
      invariant forall j | 0 <= j < i :: !Blocks(ranges[j], day)
    {
      var start := StartOfDay(ranges[i].start);
      var end := if ranges[i].end.Some? then EndOfDay(ranges[i].end.value) else FAR_FUTURE;
      if day >= start && day <= end {
        assert ranges[i] in ranges && Blocks(ranges[i], day);
        return true;
      }
    }
    assert forall r | r in ranges :: !Blocks(r, day);
    return false;
  }

  /** Every day of the stay, arrival and departure included, is free in the calendar. */
  ghost predicate AllDaysFree(ranges: seq<Range>, start: int, end: int) {
    forall day, r | r in ranges && day % DAY == 0 && StartOfDay(start) <= day <= end :: !Blocks(r, day)
  }

  /** The query made at booking time finds nothing. */
  ghost predicate QueryEmpty(s: State, listingId: Id, start: int, end: int) {
    forall k | k in s.bookings :: !InTheWay(s.bookings[k], listingId, start, Some(end))
  }

  lemma StartOfDayBounds(t: int)
    ensures StartOfDay(t) <= t < StartOfDay(t) + DAY && StartOfDay(t) % DAY == 0
  {
  }

  lemma StartOfDayMonotone(t: int, u: int)
    requires t <= u
    ensures StartOfDay(t) <= StartOfDay(u)
  {
    StartOfDayBounds(t);
    StartOfDayBounds(u);
  }

  /** No stay on the books ends before it begins; the services do not check it. */
  ghost predicate Forward(s: State) {
    forall k | k in s.bookings && s.bookings[k].end.Some? :: s.bookings[k].start <= s.bookings[k].end.value
  }

  /** Whatever the times of day: a stay whose days the calendar shows free passes the check. */
  lemma FreeDaysPass(s: State, ranges: seq<Range>, listingId: Id, now: int, start: int, end: int)
    requires Forward(s) && Feeds(ranges, s.bookings, listingId, now) && now < start <= end <= FAR_FUTURE
    requires AllDaysFree(ranges, start, end)
    ensures QueryEmpty(s, listingId, start, end)
  {
    forall k | k in s.bookings ensures !InTheWay(s.bookings[k], listingId, start, Some(end)) {
      var b := s.bookings[k];
      if InTheWay(b, listingId, start, Some(end)) {
        var r := RangeOf(b);
        assert Listed(b, listingId, now) && r in ranges;
        var t := Max(start, b.start);
        var day := StartOfDay(t);
        StartOfDayBounds(t);
        StartOfDayMonotone(start, t);
        StartOfDayMonotone(b.start, t);
        if b.end.Some? {
          StartOfDayBounds(b.end.value);
        }
        assert Blocks(r, day);
        assert false;
      }
    }
  }

  /** What begins by the end of a day has its own day no later than that. */
  lemma DaysWithin(t: int, end: int)
    requires t <= EndOfDay(end)
    ensures StartOfDay(t) <= end
  {
    StartOfDayBounds(end);
    StartOfDayMonotone(t, EndOfDay(end));
    LastInstant(end);
  }

  lemma LastInstant(t: int)
    ensures StartOfDay(EndOfDay(t)) == StartOfDay(t)
  {
    StartOfDayBounds(t);
    StartOfDayBounds(EndOfDay(t));
    SameDay(StartOfDay(t), EndOfDay(t));
  }

  lemma SameDay(day: int, t: int)
    requires day % DAY == 0 && day <= t < day + DAY
    ensures StartOfDay(t) == day
  {
  }

  /** A range that meets the days of [start, end] blocks one of them. */
  lemma SharedDay(r: Range, start: int, end: int) returns (day: int)
    requires start <= end <= FAR_FUTURE && r.start <= EndOfDay(end)
    requires r.end.Some? ==> StartOfDay(start) <= r.end.value && r.start <= r.end.value
    ensures day % DAY == 0 && StartOfDay(start) <= day <= end && Blocks(r, day)
  {
    StartOfDayBounds(start);
    StartOfDayBounds(r.start);
    if r.end.Some? {
      StartOfDayBounds(r.end.value);
    }
    if r.start <= start {
      day := StartOfDay(start);
      StartOfDayMonotone(r.start, start);
    } else {
      day := StartOfDay(r.start);
      StartOfDayMonotone(start, r.start);
      DaysWithin(r.start, end);
    }
  }

  lemma WidenedFound(s: State, ranges: seq<Range>, listingId: Id, now: int, start: int, end: int, k: Id)
    requires Forward(s) && Feeds(ranges, s.bookings, listingId, now)
    requires now <= StartOfDay(start) && start <= end <= FAR_FUTURE
    requires k in s.bookings && InTheWay(s.bookings[k], listingId, StartOfDay(start), Some(EndOfDay(end)))
    ensures !AllDaysFree(ranges, start, end)
  {
    var r := RangeOf(s.bookings[k]);
    assert Listed(s.bookings[k], listingId, now) && r in ranges;
    var day := SharedDay(r, start, end);
  }

  lemma BlockedFound(s: State, ranges: seq<Range>, listingId: Id, now: int, start: int, end: int, r: Range, day: int)
    returns (k: Id)
    requires Feeds(ranges, s.bookings, listingId, now)
    requires r in ranges && day % DAY == 0 && StartOfDay(start) <= day <= end && Blocks(r, day)
    ensures k in s.bookings && InTheWay(s.bookings[k], listingId, StartOfDay(start), Some(EndOfDay(end)))
  {
    assert FromRow(r, s.bookings, listingId, now);
    k :| k in s.bookings && Listed(s.bookings[k], listingId, now) && r == RangeOf(s.bookings[k]);
    BeginsBy(r.start, day, end);
    StartOfDayBounds(start);
    if r.end.Some? {
      EndsFrom(r.end.value, day, StartOfDay(start));
    }
  }

  lemma BeginsBy(t: int, day: int, end: int)
    requires StartOfDay(t) <= day <= end
    ensures t <= EndOfDay(end)
  {
    StartOfDayBounds(t);
    StartOfDayMonotone(StartOfDay(t), end);
    SameDay(StartOfDay(t), StartOfDay(t));
  }

  lemma EndsFrom(t: int, day: int, first: int)
    requires day % DAY == 0 && first % DAY == 0 && first <= day <= EndOfDay(t)
    ensures first <= t
  {
    StartOfDayBounds(t);
    if t < first {
      StartOfDayMonotone(EndOfDay(t), first);
      DayAfter(StartOfDay(t), first);
    }
  }

  /** Two different days are a day apart. */
  lemma DayAfter(day: int, later: int)
    requires day % DAY == 0 && later % DAY == 0 && day < later
    ensures day + DAY <= later
  {
  }

  /** The calendar shows every day of a stay free exactly when the check would find nothing for the
      stay widened to whole days. */
  lemma CalendarIsWidenedCheck(s: State, ranges: seq<Range>, listingId: Id, now: int, start: int, end: int)
    requires Forward(s) && Feeds(ranges, s.bookings, listingId, now)
    requires now <= StartOfDay(start) && start <= end <= FAR_FUTURE
    ensures AllDaysFree(ranges, start, end) <==> QueryEmpty(s, listingId, StartOfDay(start), EndOfDay(end))
  {
    forall k | k in s.bookings && InTheWay(s.bookings[k], listingId, StartOfDay(start), Some(EndOfDay(end)))
      ensures !AllDaysFree(ranges, start, end)
    {
      WidenedFound(s, ranges, listingId, now, start, end, k);
    }
    forall day, r | r in ranges && day % DAY == 0 && StartOfDay(start) <= day <= end && Blocks(r, day)
      ensures !QueryEmpty(s, listingId, StartOfDay(start), EndOfDay(end))
    {
      var k := BlockedFound(s, ranges, listingId, now, start, end, r, day);
    }
  }

  /** A held stay that meets the days of [start, end], but not the stay itself. */
  ghost predicate OnlyDaysMeet(s: State, listingId: Id, start: int, end: int) {
    && QueryEmpty(s, listingId, start, end)
    && exists k :: k in s.bookings && InTheWay(s.bookings[k], listingId, StartOfDay(start), Some(EndOfDay(end)))
  }

  /** Calendar and check agree about a stay if and only if no other stay only shares a day with it. */
  lemma AgreeExactly(s: State, ranges: seq<Range>, listingId: Id, now: int, start: int, end: int)
    requires Forward(s) && Feeds(ranges, s.bookings, listingId, now)
    requires now <= StartOfDay(start) && start <= end <= FAR_FUTURE
    ensures (AllDaysFree(ranges, start, end) <==> QueryEmpty(s, listingId, start, end))
            <==> !OnlyDaysMeet(s, listingId, start, end)
  {
    CalendarIsWidenedCheck(s, ranges, listingId, now, start, end);
    StartOfDayBounds(start);
    StartOfDayBounds(end);
    assert QueryEmpty(s, listingId, StartOfDay(start), EndOfDay(end)) ==> QueryEmpty(s, listingId, start, end) by {
      forall k | k in s.bookings && InTheWay(s.bookings[k], listingId, start, Some(end))
        ensures InTheWay(s.bookings[k], listingId, StartOfDay(start), Some(EndOfDay(end)))
      {
      }
    }
  }

  lemma WholeDaysMeet(b: Booking, listingId: Id, start: int, end: int)
    requires start % DAY == 0 && end % DAY == 0
    requires b.start % DAY == 0 && b.end.GetOr(0) % DAY == 0
    requires InTheWay(b, listingId, StartOfDay(start), Some(EndOfDay(end)))
    ensures InTheWay(b, listingId, start, Some(end))
  {
    SameDay(start, start);
    SameDay(end, end);
    if end < b.start {
      DayAfter(end, b.start);
    }
  }

  /** For stays that begin and end at midnight, as the calendar makes them, the two agree. */
  lemma CalendarAgrees(s: State, ranges: seq<Range>, listingId: Id, now: int, start: int, end: int)
    requires Forward(s) && Feeds(ranges, s.bookings, listingId, now) && now < start <= end <= FAR_FUTURE
    requires start % DAY == 0 && end % DAY == 0
    requires forall k | k in s.bookings && HoldsDates(s.bookings[k]) ::
               s.bookings[k].start % DAY == 0 && s.bookings[k].end.GetOr(0) % DAY == 0
    ensures AllDaysFree(ranges, start, end) <==> QueryEmpty(s, listingId, start, end)
  {
    SameDay(start, start);
    forall k | k in s.bookings && InTheWay(s.bookings[k], listingId, StartOfDay(start), Some(EndOfDay(end)))
      ensures InTheWay(s.bookings[k], listingId, start, Some(end))
    {
      WholeDaysMeet(s.bookings[k], listingId, start, end);
    }
    AgreeExactly(s, ranges, listingId, now, start, end);
  }

  const NIGHTS_ONLY := Terms(NightlyOnly, 0.0, None, None, None, None, None)

  /** With times of day they may disagree: a guest leaves at noon, the next could come at two, and
      the calendar still blocks that day. */
  lemma SameDayTurnoverIsBlocked(listingId: Id)
    ensures var b := NewStay(listingId, "guest", NIGHTS_ONLY, 0, Some(DAY + 12 * HOUR), 0.0);
            var s := State(map["b" := b], map[listingId := Listing("owner", ListingStatus.Active, NIGHTS_ONLY)], []);
            && Linked(s) && Forward(s) && Feeds([RangeOf(b)], s.bookings, listingId, -1)
            && QueryEmpty(s, listingId, DAY + 14 * HOUR, 2 * DAY)
            && !AllDaysFree([RangeOf(b)], DAY + 14 * HOUR, 2 * DAY)
  {
    var b := NewStay(listingId, "guest", NIGHTS_ONLY, 0, Some(DAY + 12 * HOUR), 0.0);
    var r := RangeOf(b);
    assert [r][0] == r;
    var bookings := map["b" := b];
    assert bookings["b"] == b && FromRow(r, bookings, listingId, -1);
    assert Blocks(r, DAY) && DAY % DAY == 0;
  }
}
