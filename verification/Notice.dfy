/**
 Which announcement the prices in force come from: the last one that stood until it fell due. One
 that was cancelled or replaced before that day never shows.
 */
module Notice {
  import opened PlatformPrices
  import opened Timer
  import opened Wrappers

  function Visible(row: Option<Row>, now: int): Prices {
    Abs(row, now).prices
  }

  // ----- what a run announces -----

  /** The row that request `i` of the run meets. */
  function Before(row: Option<Row>, tr: seq<Entry>, i: nat): Option<Row>
    requires i <= |tr|
  {
    Final(row, tr[..i])
  }

  /** The update is confirmed and changes something. */
  predicate Takes(row: Option<Row>, e: Entry) {
    && e.request.Update? && e.request.confirmation.right
    && e.request.changes.Over(Visible(row, e.now)) != Visible(row, e.now)
  }

  predicate Cancels(q: Request) {
    q.CancelPending? && q.confirmation.right
  }

  predicate Announces(row: Option<Row>, tr: seq<Entry>, i: nat) {
    i < |tr| && Takes(Before(row, tr, i), tr[i])
  }

  /** The request replaces or cancels whatever has been announced. */
  predicate Upsets(row: Option<Row>, tr: seq<Entry>, j: nat) {
    j < |tr| && (Announces(row, tr, j) || Cancels(tr[j].request))
  }

  /** The notice that an update asks for: thirty days if it does not say, none if it says zero. */
  function Days(q: Request): int
    requires q.Update?
  {
    var days := if q.effectiveInDays.Some? then q.effectiveInDays.value else 30;
    if days > 0 then days else 0
  }

  /** The day from which the announced prices are to hold. */
  function Effective(e: Entry): int {
    if e.request.Update? then e.now + Days(e.request) * 86_400_000 else e.now
  }

  function Wanted(row: Option<Row>, e: Entry): Prices {
    if e.request.Update? then e.request.changes.Over(Visible(row, e.now)) else Visible(row, e.now)
  }

  /** An announcement that nothing replaced or cancelled before its day. */
  ghost predicate Stood(row: Option<Row>, tr: seq<Entry>, i: nat) {
    Announces(row, tr, i) && forall j: nat | i < j && Upsets(row, tr, j) :: Effective(tr[i]) <= tr[j].now
  }

  /** The change that was waiting before the run, and that nothing replaced or cancelled before its day. */
  ghost predicate FirstStood(row: Option<Row>, start: int, tr: seq<Entry>) {
    var c := Abs(row, start).change;
    c.Some? && forall j: nat | Upsets(row, tr, j) :: c.value.due <= tr[j].now
  }

  ghost predicate FellDue(row: Option<Row>, tr: seq<Entry>, i: nat, now: int) {
    Stood(row, tr, i) && Effective(tr[i]) <= now
  }

  ghost predicate Waits(row: Option<Row>, tr: seq<Entry>, i: nat, now: int) {
    Stood(row, tr, i) && now < Effective(tr[i])
  }

  /** The last of the first `n` requests to announce what has come to hold. */
  ghost function LastDue(row: Option<Row>, tr: seq<Entry>, n: nat, now: int): (i: Option<nat>)
    ensures i.Some? ==> i.value < n && FellDue(row, tr, i.value, now)
    ensures forall k: nat | k < n && FellDue(row, tr, k, now) :: i.Some? && k <= i.value
  {
    if n == 0 then None
    else if FellDue(row, tr, n - 1, now) then Some(n - 1)
    else LastDue(row, tr, n - 1, now)
  }

  /** The prices at `now`, told from the announcements alone. */
  ghost function AnnouncedPrices(row: Option<Row>, start: int, tr: seq<Entry>, now: int): Prices {
    var last := LastDue(row, tr, |tr|, now);
    var first := Abs(row, start);
    if last.Some? then Wanted(Before(row, tr, last.value), tr[last.value])
    else if FirstStood(row, start, tr) && first.change.value.due <= now then first.change.value.prices
    else first.prices
  }

  /** The change that waits at `now` is the one announced and neither replaced nor cancelled. */
  ghost predicate WaitingAsAnnounced(row: Option<Row>, start: int, tr: seq<Entry>, now: int) {
    var m, first := Abs(Final(row, tr), now), Abs(row, start);
    && (forall i: nat | Waits(row, tr, i, now) ::
          m.change == Some(Change(Wanted(Before(row, tr, i), tr[i]), Effective(tr[i]), Some(tr[i].request.admin))))
    && (FirstStood(row, start, tr) && now < first.change.value.due ==> m.change == first.change)
    && (m.change.Some? ==>
          || (exists i: nat :: Waits(row, tr, i, now))
          || (FirstStood(row, start, tr) && now < first.change.value.due))
  }

  ghost predicate AsAnnounced(row: Option<Row>, start: int, tr: seq<Entry>, now: int) {
    Visible(Final(row, tr), now) == AnnouncedPrices(row, start, tr, now) && WaitingAsAnnounced(row, start, tr, now)
  }

  // ----- one request -----

  /** What one request does to the prices in force and to the change that waits. */
  lemma RequestEffect(row: Option<Row>, e: Entry)
    ensures var before, after := Abs(row, e.now), Abs(Serve(row, e.now, e.request).1, e.now);
            if Takes(row, e) && Days(e.request) == 0 then
              after.prices == Wanted(row, e) && after.change == None
            else if Takes(row, e) then
              && after.prices == before.prices
              && after.change == Some(Change(Wanted(row, e), Effective(e), Some(e.request.admin)))
            else
              after.prices == before.prices && after.change == if Cancels(e.request) then None else before.change
  {
    RequestSimulated(row, e.now, e.request);
  }

  lemma SameBefore(row: Option<Row>, tr: seq<Entry>, e: Entry, i: nat)
    requires i <= |tr|
    ensures Before(row, tr + [e], i) == Before(row, tr, i) && Before(row, tr, |tr|) == Final(row, tr)
  {
    assert (tr + [e])[..i] == tr[..i] && tr[..|tr|] == tr;
  }

  lemma SameUpsets(row: Option<Row>, tr: seq<Entry>, e: Entry, j: nat)
    requires j < |tr|
    ensures Announces(row, tr + [e], j) == Announces(row, tr, j) && Upsets(row, tr + [e], j) == Upsets(row, tr, j)
  {
    SameBefore(row, tr, e, j);
  }

  lemma LastUpsets(row: Option<Row>, tr: seq<Entry>, e: Entry)
    ensures Announces(row, tr + [e], |tr|) == Takes(Final(row, tr), e)
    ensures Upsets(row, tr + [e], |tr|) == (Takes(Final(row, tr), e) || Cancels(e.request))
  {
    SameBefore(row, tr, e, |tr|);
  }

  /** What stood goes on standing unless the new request upsets it before its day. */
  lemma StoodExtends(row: Option<Row>, tr: seq<Entry>, e: Entry, i: nat)
    requires i < |tr|
    ensures Stood(row, tr + [e], i)
       <==> Stood(row, tr, i) && (Upsets(row, tr + [e], |tr|) ==> Effective(tr[i]) <= e.now)
  {
    var longer := tr + [e];
    SameUpsets(row, tr, e, i);
    if Stood(row, tr, i) && (Upsets(row, longer, |tr|) ==> Effective(tr[i]) <= e.now) {
      forall j: nat | i < j && Upsets(row, longer, j) ensures Effective(tr[i]) <= longer[j].now {
        if j < |tr| {
          SameUpsets(row, tr, e, j);
        }
      }
    }
    if Stood(row, longer, i) {
      forall j: nat | i < j && Upsets(row, tr, j) ensures Effective(tr[i]) <= tr[j].now {
        SameUpsets(row, tr, e, j);
      }
    }
  }

  lemma FirstStoodExtends(row: Option<Row>, start: int, tr: seq<Entry>, e: Entry)
    ensures FirstStood(row, start, tr + [e])
       <==> FirstStood(row, start, tr)
            && (Upsets(row, tr + [e], |tr|) ==> Abs(row, start).change.value.due <= e.now)
  {
    var longer := tr + [e];
    var c := Abs(row, start).change;
    if FirstStood(row, start, tr) && (Upsets(row, longer, |tr|) ==> c.value.due <= e.now) {
      forall j: nat | Upsets(row, longer, j) ensures c.value.due <= longer[j].now {
        if j < |tr| {
          SameUpsets(row, tr, e, j);
        }
      }
    }
    if FirstStood(row, start, longer) {
      forall j: nat | Upsets(row, tr, j) ensures c.value.due <= tr[j].now {
        SameUpsets(row, tr, e, j);
      }
    }
  }

  lemma NewStands(row: Option<Row>, tr: seq<Entry>, e: Entry)
    ensures Stood(row, tr + [e], |tr|) <==> Takes(Final(row, tr), e)
  {
    LastUpsets(row, tr, e);
  }

  lemma LastDueExtends(row: Option<Row>, tr: seq<Entry>, e: Entry)
    ensures LastDue(row, tr + [e], |tr| + 1, e.now)
         == if Takes(Final(row, tr), e) && Effective(e) <= e.now then Some(|tr|) else LastDue(row, tr, |tr|, e.now)
  {
    NewStands(row, tr, e);
    forall k: nat | k < |tr| ensures FellDue(row, tr + [e], k, e.now) == FellDue(row, tr, k, e.now) {
      StoodExtends(row, tr, e, k);
    }
  }

  lemma PricesAfter(row: Option<Row>, start: int, tr: seq<Entry>, e: Entry)
    requires AsAnnounced(row, start, tr, e.now)
    ensures Visible(Final(row, tr + [e]), e.now) == AnnouncedPrices(row, start, tr + [e], e.now)
  {
    var r, longer := Final(row, tr), tr + [e];
    assert longer[..|tr|] == tr;
    assert Final(row, longer) == Serve(r, e.now, e.request).1;
    RequestEffect(r, e);
    LastDueExtends(row, tr, e);
    FirstStoodExtends(row, start, tr, e);
    SameBefore(row, tr, e, |tr|);
    var last := LastDue(row, tr, |tr|, e.now);
    if last.Some? {
      SameBefore(row, tr, e, last.value);
    }
  }

  lemma WaitsExtends(row: Option<Row>, tr: seq<Entry>, e: Entry, i: nat)
    ensures Waits(row, tr + [e], i, e.now)
       <==> if i < |tr| then Waits(row, tr, i, e.now) && !Upsets(row, tr + [e], |tr|)
            else i == |tr| && Takes(Final(row, tr), e) && e.now < Effective(e)
  {
    if i < |tr| {
      StoodExtends(row, tr, e, i);
    } else if i == |tr| {
      NewStands(row, tr, e);
    }
  }

  lemma WaitingAfter(row: Option<Row>, start: int, tr: seq<Entry>, e: Entry)
    requires AsAnnounced(row, start, tr, e.now)
    ensures WaitingAsAnnounced(row, start, tr + [e], e.now)
  {
    var r, longer := Final(row, tr), tr + [e];
    assert longer[..|tr|] == tr;
    assert Final(row, longer) == Serve(r, e.now, e.request).1;
    RequestEffect(r, e);
    LastUpsets(row, tr, e);
    FirstStoodExtends(row, start, tr, e);
    var m := Abs(Final(row, longer), e.now);
    forall i: nat | Waits(row, longer, i, e.now)
      ensures m.change == Some(Change(Wanted(Before(row, longer, i), longer[i]), Effective(longer[i]),
                                      Some(longer[i].request.admin)))
    {
      WaitsExtends(row, tr, e, i);
      SameBefore(row, tr, e, i);
    }
    if m.change.Some? {
      WaitsExtends(row, tr, e, |tr|);
      if i: nat :| Waits(row, tr, i, e.now) {
        WaitsExtends(row, tr, e, i);
      }
    }
  }

  // ----- time -----

  /** As time passes, prices change only by the change that waits, once it is due. */
  lemma TimeEffect(row: Option<Row>, now: int, later: int)
    requires now <= later
    ensures var a, b := Abs(row, now), Abs(row, later);
            if a.change.Some? && a.change.value.due <= later then b.prices == a.change.value.prices && b.change == None
            else b.prices == a.prices && b.change == a.change
  {
  }

  /** Nothing comes after an announcement that waits: it would have been upset. */
  lemma NothingAfter(row: Option<Row>, tr: seq<Entry>, i: nat, now: int)
    requires Waits(row, tr, i, now) && forall j | 0 <= j < |tr| :: tr[j].now <= now
    ensures forall j: nat | i < j :: !Upsets(row, tr, j)
    ensures forall k: nat | k < i && Stood(row, tr, k) :: Effective(tr[k]) <= now
  {
    forall k: nat | k < i && Stood(row, tr, k) ensures Effective(tr[k]) <= now {
      assert Upsets(row, tr, i);
    }
  }

  lemma SameLastDue(row: Option<Row>, tr: seq<Entry>, n: nat, now: int, later: int)
    requires forall k: nat | k < n :: FellDue(row, tr, k, later) == FellDue(row, tr, k, now)
    ensures LastDue(row, tr, n, later) == LastDue(row, tr, n, now)
  {
    var a, b := LastDue(row, tr, n, later), LastDue(row, tr, n, now);
    assert a.Some? ==> FellDue(row, tr, a.value, now);
    assert b.Some? ==> FellDue(row, tr, b.value, later);
  }

  lemma OtherDueLater(row: Option<Row>, tr: seq<Entry>, now: int, later: int, i: nat, k: nat)
    requires Waits(row, tr, i, now) && (forall j | 0 <= j < |tr| :: tr[j].now <= now) && now <= later && k != i
    ensures FellDue(row, tr, k, later) == FellDue(row, tr, k, now) && !Waits(row, tr, k, later)
    ensures k > i ==> !FellDue(row, tr, k, later)
  {
    NothingAfter(row, tr, i, now);
    assert k > i ==> !Upsets(row, tr, k);
  }

  lemma DueLater(row: Option<Row>, tr: seq<Entry>, now: int, later: int, i: nat)
    requires Waits(row, tr, i, now) && (forall j | 0 <= j < |tr| :: tr[j].now <= now) && now <= later
    ensures LastDue(row, tr, |tr|, later) == if Effective(tr[i]) <= later then Some(i) else LastDue(row, tr, |tr|, now)
    ensures forall k: nat | Waits(row, tr, k, later) :: k == i
  {
    forall k: nat | k != i
      ensures FellDue(row, tr, k, later) == FellDue(row, tr, k, now) && !Waits(row, tr, k, later)
      ensures k > i ==> !FellDue(row, tr, k, later)
    {
      OtherDueLater(row, tr, now, later, i, k);
    }
    if Effective(tr[i]) <= later {
      assert FellDue(row, tr, i, later);
    } else {
      SameLastDue(row, tr, |tr|, now, later);
    }
  }

  lemma NoneDueLater(row: Option<Row>, tr: seq<Entry>, now: int, later: int)
    requires now <= later && forall i: nat :: !Waits(row, tr, i, now)
    ensures LastDue(row, tr, |tr|, later) == LastDue(row, tr, |tr|, now)
    ensures forall i: nat :: !Waits(row, tr, i, later)
  {
    forall k: nat ensures FellDue(row, tr, k, later) == FellDue(row, tr, k, now) && !Waits(row, tr, k, later) {
      assert !Waits(row, tr, k, now);
    }
    SameLastDue(row, tr, |tr|, now, later);
  }

  lemma AnnouncedLater(row: Option<Row>, start: int, tr: seq<Entry>, now: int, later: int)
    requires AsAnnounced(row, start, tr, now) && (forall j | 0 <= j < |tr| :: tr[j].now <= now) && now <= later
    ensures AsAnnounced(row, start, tr, later)
  {
    TimeEffect(Final(row, tr), now, later);
    var first := Abs(row, start).change;
    if i: nat :| Waits(row, tr, i, now) {
      DueLater(row, tr, now, later, i);
      assert Upsets(row, tr, i);
      assert Effective(tr[i]) > later ==> Waits(row, tr, i, later);
    } else {
      NoneDueLater(row, tr, now, later);
      if FirstStood(row, start, tr) && now < first.value.due {
        assert forall j: nat :: !Upsets(row, tr, j);
        assert LastDue(row, tr, |tr|, later).None?;
      }
    }
  }

  // ----- every run -----

  /** Over every run the prices in force are those of the last announcement that stood until it fell
      due, and the change that waits is the one that still stands. */
  lemma {:induction false} PricesAsAnnounced(row: Option<Row>, start: int, tr: seq<Entry>, now: int)
    requires Chronological(start, tr) && Last(start, tr) <= now
    ensures AsAnnounced(row, start, tr, now)
  {
    if tr == [] {
      TimeEffect(row, start, now);
    } else {
      var front, e := tr[..|tr| - 1], tr[|tr| - 1];
      assert Last(start, front) <= e.now;
      PricesAsAnnounced(row, start, front, e.now);
      PricesAfter(row, start, front, e);
      WaitingAfter(row, start, front, e);
      assert tr == front + [e];
      AnnouncedLater(row, start, tr, e.now, now);
    }
  }

  /** In particular: the prices in force are the defaults, or were announced by a request whose notice
      had run out, which nothing replaced or cancelled before, and after which no other announcement
      that stood has fallen due. */
  lemma PricesAreAnnounced(tr: seq<Entry>, start: int, now: int)
    requires Chronological(start, tr) && Last(start, tr) <= now
    ensures var p := Visible(Final(None, tr), now);
            || (p == DEFAULTS && forall k: nat :: !FellDue(None, tr, k, now))
            || (exists i: nat :: FellDue(None, tr, i, now) && p == Wanted(Before(None, tr, i), tr[i])
                                 && forall k: nat | i < k :: !FellDue(None, tr, k, now))
  {
    PricesAsAnnounced(None, start, tr, now);
    var last := LastDue(None, tr, |tr|, now);
    if last.Some? {
      assert FellDue(None, tr, last.value, now);
    }
  }

  /** Nothing that stood has fallen due: whatever was announced and then cancelled or replaced before
      its day does not count. */
  ghost predicate NothingFellDue(row: Option<Row>, start: int, tr: seq<Entry>, now: int) {
    && (forall i: nat :: !FellDue(row, tr, i, now))
    && (FirstStood(row, start, tr) ==> now < Abs(row, start).change.value.due)
  }

  /** Until an announcement that stood falls due, or an immediate change is made, prices stand still. */
  lemma NoticeHonoured(row: Option<Row>, start: int, tr: seq<Entry>, now: int)
    requires Chronological(start, tr) && Last(start, tr) <= now
    requires NothingFellDue(row, start, tr, now)
    ensures Visible(Final(row, tr), now) == Visible(row, start)
  {
    PricesAsAnnounced(row, start, tr, now);
    assert LastDue(row, tr, |tr|, now).None?;
  }

  /** A change announced, cancelled before its day, and read after it: the old prices. */
  lemma CancelledNeverShows(row: Option<Row>, start: int, announce: Entry, cancel: Entry, now: int)
    requires Abs(row, start).change.None?
    requires start <= announce.now <= cancel.now < Effective(announce) && cancel.now <= now
    requires Takes(row, announce) && Cancels(cancel.request)
    ensures Visible(Final(row, [announce, cancel]), now) == Visible(row, start)
  {
    var tr := [announce, cancel];
    assert tr[..0] == [] && tr[..1] == [announce] && [announce][..0] == [];
    assert Upsets(row, tr, 1);
    assert !Stood(row, tr, 0) && !Announces(row, tr, 1);
    NoticeHonoured(row, start, tr, now);
  }
}
