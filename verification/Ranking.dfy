/**
 The order of search results and their pages: listings are scored, sorted in memory and sliced.
 */
module Ranking {
  import opened Wrappers

  datatype Plan = Starter | Pro

  datatype Subscription = Subscription(plan: Plan, active: bool)

  datatype Listing = Listing(id: string, createdAt: int, boostScore: int, boostUntil: Option<int>,
                             ownerIsAgency: bool, subscription: Option<Subscription>)

  predicate ActiveAgency(l: Listing, plan: Plan) {
    l.ownerIsAgency && l.subscription == Some(Subscription(plan, true))
  }

  function Priority(l: Listing, now: int): int {
    if ActiveAgency(l, Pro) then l.boostScore + 200
    else if ActiveAgency(l, Starter) then l.boostScore + 100
    else if l.boostUntil.Some? && l.boostUntil.value > now then l.boostScore + 50
    else l.boostScore
  }

  datatype Scored = Scored(listing: Listing, priority: int)

  /** The comparison of the sort: negative when `a` goes first. */
  function Compare(a: Scored, b: Scored): int {
    if b.priority - a.priority != 0 then b.priority - a.priority
    else b.listing.createdAt - a.listing.createdAt
  }

  function Insert(x: Scored, s: seq<Scored>): seq<Scored> {
    if s == [] || Compare(x, s[0]) <= 0 then [x] + s else [s[0]] + Insert(x, s[1..])
  }

  /** `Array.prototype.sort`, which is stable. */
  function Sort(s: seq<Scored>): seq<Scored> {
    if s == [] then [] else Insert(s[0], Sort(s[1..]))
  }

  /** `slice((page - 1) * limit, page * limit)`. */
  function Page<T>(s: seq<T>, page: nat, limit: nat): seq<T>
    requires page > 0 && limit > 0
  {
    s[Min((page - 1) * limit, |s|)..Min(page * limit, |s|)]
  }

  function Score(all: seq<Listing>, now: int): seq<Scored> {
    seq(|all|, i requires 0 <= i < |all| => Scored(all[i], Priority(all[i], now)))
  }

  function Listings(s: seq<Scored>): seq<Listing> {
    seq(|s|, i requires 0 <= i < |s| => s[i].listing)
  }

  function Ranked(all: seq<Listing>, now: int): seq<Listing> {
    Listings(Sort(Score(all, now)))
  }

  function FindAll(all: seq<Listing>, now: int, page: nat, limit: nat): seq<Listing>
    requires page > 0 && limit > 0
  {
    Page(Ranked(all, now), page, limit)
  }

  // ----- sorting -----

  ghost predicate Ordered(s: seq<Scored>) {
    forall i, j | 0 <= i < j < |s| :: Compare(s[i], s[j]) <= 0
  }

  /** The elements that compare equal to `key`, in their order. */
  function Alike(s: seq<Scored>, key: Scored): seq<Scored> {
    if s == [] then [] else AlikeOne(s[0], key) + Alike(s[1..], key)
  }

  function AlikeOne(x: Scored, key: Scored): seq<Scored> {
    if Compare(x, key) == 0 then [x] else []
  }

  lemma {:induction false} InsertPermutes(x: Scored, s: seq<Scored>)
    ensures multiset(Insert(x, s)) == multiset(s) + multiset{x}
  {
    if s != [] && Compare(x, s[0]) > 0 {
      InsertPermutes(x, s[1..]);
      assert s == [s[0]] + s[1..];
    }
  }

  lemma {:induction false} SortPermutes(s: seq<Scored>)
    ensures multiset(Sort(s)) == multiset(s)
  {
    if s == [] {
    } else {
      SortPermutes(s[1..]);
      InsertPermutes(s[0], Sort(s[1..]));
      assert s == [s[0]] + s[1..];
    }
  }

  lemma ListingsCons(x: Scored, s: seq<Scored>)
    ensures multiset(Listings([x] + s)) == multiset{x.listing} + multiset(Listings(s))
  {
    assert Listings([x] + s) == [x.listing] + Listings(s);
  }

  lemma {:induction false} InsertPermutesListings(x: Scored, s: seq<Scored>)
    ensures multiset(Listings(Insert(x, s))) == multiset{x.listing} + multiset(Listings(s))
  {
    if s == [] || Compare(x, s[0]) <= 0 {
      ListingsCons(x, s);
    } else {
      InsertPermutesListings(x, s[1..]);
      ListingsCons(s[0], Insert(x, s[1..]));
      ListingsCons(s[0], s[1..]);
      assert s == [s[0]] + s[1..];
    }
  }

  lemma {:induction false} SortPermutesListings(s: seq<Scored>)
    ensures multiset(Listings(Sort(s))) == multiset(Listings(s))
  {
    if s == [] {
    } else {
      SortPermutesListings(s[1..]);
      InsertPermutesListings(s[0], Sort(s[1..]));
      ListingsCons(s[0], s[1..]);
      assert s == [s[0]] + s[1..];
    }
  }

  lemma {:induction false} InsertKeepsOrder(x: Scored, s: seq<Scored>)
    requires Ordered(s)
    ensures Ordered(Insert(x, s))
    ensures s != [] && Compare(x, s[0]) > 0 ==> Insert(x, s)[0] == s[0]
    ensures forall e | e in Insert(x, s) :: e == x || e in s
  {
    if s != [] && Compare(x, s[0]) > 0 {
      InsertKeepsOrder(x, s[1..]);
      var r := Insert(x, s[1..]);
      forall k | 0 <= k < |r| ensures Compare(s[0], r[k]) <= 0 {
        assert r[k] in r;
      }
    }
  }

  lemma {:induction false} SortOrders(s: seq<Scored>)
    ensures Ordered(Sort(s))
  {
    if s == [] {
    } else {
      SortOrders(s[1..]);
      InsertKeepsOrder(s[0], Sort(s[1..]));
    }
  }

  lemma {:induction false} InsertKeepsAlike(x: Scored, s: seq<Scored>, key: Scored)
    ensures Alike(Insert(x, s), key) == Alike([x] + s, key)
  {
    if s != [] && Compare(x, s[0]) > 0 {
      InsertKeepsAlike(x, s[1..], key);
      assert ([s[0]] + Insert(x, s[1..]))[1..] == Insert(x, s[1..]);
      assert ([x] + s)[1..] == s && ([x] + s[1..])[1..] == s[1..];
    }
  }

  /** Elements that compare equal keep their order. */
  lemma {:induction false} SortIsStable(s: seq<Scored>, key: Scored)
    ensures Alike(Sort(s), key) == Alike(s, key)
  {
    if s == [] {
    } else {
      SortIsStable(s[1..], key);
      InsertKeepsAlike(s[0], Sort(s[1..]), key);
      assert ([s[0]] + Sort(s[1..]))[1..] == Sort(s[1..]);
    }
  }

  lemma {:induction false} HeadIsFirst(s: seq<Scored>, key: Scored)
    requires Ordered(s) && Alike(s, key) != []
    ensures s != [] && Compare(s[0], key) <= 0
  {
    if Compare(s[0], key) == 0 {
    } else {
      HeadIsFirst(s[1..], key);
      assert Compare(s[0], s[1]) <= 0;
    }
  }

  lemma SameHead(s: seq<Scored>, t: seq<Scored>)
    requires s != [] && Ordered(s) && Ordered(t)
    requires Alike(s, s[0]) == Alike(t, s[0])
    requires t != [] ==> Alike(s, t[0]) == Alike(t, t[0])
    ensures t != [] && s[0] == t[0]
  {
    HeadIsFirst(t, s[0]);
    HeadIsFirst(s, t[0]);
    assert Alike(s, s[0])[0] == s[0];
    assert Alike(t, s[0])[0] == t[0];
  }

  lemma SameTail(s: seq<Scored>, t: seq<Scored>, key: Scored)
    requires s != [] && t != [] && s[0] == t[0] && Alike(s, key) == Alike(t, key)
    ensures Alike(s[1..], key) == Alike(t[1..], key)
  {
    var n := |AlikeOne(s[0], key)|;
    assert Alike(s[1..], key) == Alike(s, key)[n..];
    assert Alike(t[1..], key) == Alike(t, key)[n..];
  }

  lemma {:induction false} StableSortIsOne(s: seq<Scored>, t: seq<Scored>)
    requires Ordered(s) && Ordered(t) && forall key :: Alike(s, key) == Alike(t, key)
    ensures s == t
  {
    if s != [] {
      SameHead(s, t);
      forall key ensures Alike(s[1..], key) == Alike(t[1..], key) {
        SameTail(s, t, key);
      }
      StableSortIsOne(s[1..], t[1..]);
      assert s == [s[0]] + s[1..] && t == [t[0]] + t[1..];
    } else if t != [] {
      SameHead(t, s);
    }
  }

  /** In order, with the same elements at each rank in the same order as before. */
  ghost predicate StablyOrders(t: seq<Scored>, s: seq<Scored>) {
    Ordered(t) && forall key :: Alike(t, key) == Alike(s, key)
  }

  /** There is one stable ordering only: whatever way the sort works, this is its result. */
  lemma SortSorts(s: seq<Scored>, t: seq<Scored>)
    ensures StablyOrders(t, s) <==> t == Sort(s)
  {
    SortOrders(s);
    forall key ensures Alike(Sort(s), key) == Alike(s, key) {
      SortIsStable(s, key);
    }
    if StablyOrders(t, s) {
      forall key ensures Alike(t, key) == Alike(Sort(s), key) {
        assert Alike(t, key) == Alike(s, key);
      }
      StableSortIsOne(t, Sort(s));
    }
  }

  // ----- pages -----

  /** The first `n` pages, one after another. */
  function Pages<T>(s: seq<T>, n: nat, limit: nat): seq<T>
    requires limit > 0
  {
    if n == 0 then [] else Pages(s, n - 1, limit) + Page(s, n, limit)
  }

  lemma {:induction false} PagesArePrefix<T>(s: seq<T>, n: nat, limit: nat)
    requires limit > 0
    ensures Pages(s, n, limit) == s[..Min(n * limit, |s|)]
  {
    if n == 0 {
    } else {
      PagesArePrefix(s, n - 1, limit);
      assert n * limit == (n - 1) * limit + limit;
      var low, high := Min((n - 1) * limit, |s|), Min(n * limit, |s|);
      assert s[..low] + s[low..high] == s[..high];
    }
  }

  lemma MulMonotone(a: nat, b: nat, limit: nat)
    requires a <= b
    ensures a * limit <= b * limit
  {
  }

  lemma PageOf(i: nat, page: nat, limit: nat, low: nat, high: nat)
    requires page > 0 && limit > 0 && low == (page - 1) * limit && high == page * limit
    ensures low <= i < high <==> page == i / limit + 1
  {
    var q := i / limit;
    assert q * limit <= i < q * limit + limit;
    assert (q + 1) * limit == q * limit + limit;
    if page <= q {
      MulMonotone(page, q, limit);
    } else if page > q + 1 {
      MulMonotone(q + 1, page - 1, limit);
    }
  }

  /** A place is on page `page` for one number only. */
  lemma OnOnePage<T>(s: seq<T>, i: nat, page: nat, limit: nat)
    requires i < |s| && page > 0 && limit > 0
    ensures Min((page - 1) * limit, |s|) <= i < Min(page * limit, |s|) <==> page == i / limit + 1
  {
    PageOf(i, page, limit, (page - 1) * limit, page * limit);
  }

  lemma RankedPermutes(all: seq<Listing>, now: int)
    ensures multiset(Ranked(all, now)) == multiset(all) && |Ranked(all, now)| == |all|
  {
    SortPermutesListings(Score(all, now));
    assert Listings(Score(all, now)) == all;
    assert |multiset(Ranked(all, now))| == |multiset(all)|;
  }

  lemma {:induction false} ScoredFor(all: seq<Listing>, now: int)
    ensures forall e | e in Sort(Score(all, now)) :: e.priority == Priority(e.listing, now)
  {
    SortPermutes(Score(all, now));
    forall e | e in Sort(Score(all, now)) ensures e.priority == Priority(e.listing, now) {
      assert e in multiset(Score(all, now));
      assert e in Score(all, now);
    }
  }

  /** Priorities fall, and among equal ones the newer goes first. */
  lemma RankedInOrder(all: seq<Listing>, now: int, i: nat, j: nat)
    requires i < j < |Ranked(all, now)|
    ensures var a, b := Ranked(all, now)[i], Ranked(all, now)[j];
            Priority(a, now) > Priority(b, now)
            || (Priority(a, now) == Priority(b, now) && a.createdAt >= b.createdAt)
  {
    var sorted := Sort(Score(all, now));
    SortOrders(Score(all, now));
    ScoredFor(all, now);
    assert sorted[i] in sorted && sorted[j] in sorted;
    assert Compare(sorted[i], sorted[j]) <= 0;
  }

  /** As many pages as are needed, put together, are the listings in ranked order. */
  lemma PagesTogether(all: seq<Listing>, now: int, n: nat, limit: nat)
    requires limit > 0 && n * limit >= |all|
    ensures Pages(Ranked(all, now), n, limit) == Ranked(all, now)
    ensures multiset(Pages(Ranked(all, now), n, limit)) == multiset(all)
  {
    RankedPermutes(all, now);
    PagesArePrefix(Ranked(all, now), n, limit);
  }

  lemma TwiceCounted<T>(s: seq<T>, i: nat, j: nat)
    requires i < j < |s| && s[i] == s[j]
    ensures multiset(s)[s[i]] > 1
  {
    assert s == s[..i + 1] + s[i + 1..];
    assert s[..i + 1][i] == s[i] && s[i + 1..][j - i - 1] == s[i];
    assert multiset(s) == multiset(s[..i + 1]) + multiset(s[i + 1..]);
    assert s[i] in multiset(s[..i + 1]) && s[i] in multiset(s[i + 1..]);
  }

  lemma OnceCounted<T>(s: seq<T>, i: nat, j: nat)
    requires i < |s| && j < |s| && s[i] == s[j] && multiset(s)[s[i]] == 1
    ensures i == j
  {
    if i < j {
      TwiceCounted(s, i, j);
    } else if j < i {
      TwiceCounted(s, j, i);
    }
  }

  lemma PlaceOnPage<T>(s: seq<T>, page: nat, limit: nat, i: nat)
    requires page > 0 && limit > 0 && i < |s| && page == i / limit + 1
    ensures s[i] in Page(s, page, limit)
  {
    OnOnePage(s, i, page, limit);
    var low, high := Min((page - 1) * limit, |s|), Min(page * limit, |s|);
    assert s[low..high][i - low] == s[i];
  }

  lemma FoundOnPage<T>(s: seq<T>, page: nat, limit: nat, x: T) returns (i: nat)
    requires page > 0 && limit > 0 && x in Page(s, page, limit)
    ensures i < |s| && s[i] == x && page == i / limit + 1
  {
    var low, high := Min((page - 1) * limit, |s|), Min(page * limit, |s|);
    var k :| 0 <= k < |s[low..high]| && s[low..high][k] == x;
    i := low + k;
    OnOnePage(s, i, page, limit);
  }

  lemma OnlyPage<T>(s: seq<T>, i: nat, p: nat, limit: nat)
    requires i < |s| && p > 0 && limit > 0 && multiset(s)[s[i]] == 1
    ensures s[i] in Page(s, p, limit) <==> p == i / limit + 1
  {
    if p == i / limit + 1 {
      PlaceOnPage(s, p, limit, i);
    } else if s[i] in Page(s, p, limit) {
      var j := FoundOnPage(s, p, limit, s[i]);
      OnceCounted(s, i, j);
    }
  }

  lemma PlaceOf<T>(s: seq<T>, x: T) returns (i: nat)
    requires multiset(s)[x] == 1
    ensures i < |s| && s[i] == x
  {
    assert x in multiset(s);
    i :| 0 <= i < |s| && s[i] == x;
  }

  /** Each listing is on exactly one page. */
  lemma ListingOnOnePage(all: seq<Listing>, now: int, limit: nat, l: Listing) returns (page: nat)
    requires limit > 0 && multiset(all)[l] == 1
    ensures page > 0 && forall p: nat | p > 0 :: l in FindAll(all, now, p, limit) <==> p == page
  {
    var r := Ranked(all, now);
    RankedPermutes(all, now);
    var i := PlaceOf(r, l);
    page := i / limit + 1;
    forall p: nat | p > 0 ensures l in FindAll(all, now, p, limit) <==> p == page {
      OnlyPage(r, i, p, limit);
    }
  }

  // ----- who goes first -----

  predicate ScoreInRange(l: Listing) {
    0 <= l.boostScore <= 100
  }

  /** A listing of an agency with an active PRO plan stands before every listing whose owner is no
      agency: 200 at least against 150 at most. */
  lemma ProGoesFirst(all: seq<Listing>, now: int, i: nat, j: nat)
    requires i < |Ranked(all, now)| && j < |Ranked(all, now)|
    requires ActiveAgency(Ranked(all, now)[i], Pro) && !Ranked(all, now)[j].ownerIsAgency
    requires ScoreInRange(Ranked(all, now)[i]) && ScoreInRange(Ranked(all, now)[j])
    ensures i < j
  {
    if j < i {
      RankedInOrder(all, now, j, i);
    }
  }

  /** Against an agency with the STARTER plan only a boost of 100 against none levels the scores, and
      then the date decides. */
  lemma ProAgainstStarter(all: seq<Listing>, now: int, i: nat, j: nat)
    requires i < |Ranked(all, now)| && j < |Ranked(all, now)|
    requires ActiveAgency(Ranked(all, now)[i], Pro) && ActiveAgency(Ranked(all, now)[j], Starter)
    requires ScoreInRange(Ranked(all, now)[i]) && ScoreInRange(Ranked(all, now)[j])
    ensures var pro, starter := Ranked(all, now)[i], Ranked(all, now)[j];
            var level := pro.boostScore == 0 && starter.boostScore == 100;
            && (j < i ==> level && pro.createdAt <= starter.createdAt)
            && (level && pro.createdAt < starter.createdAt ==> j < i)
  {
    if j < i {
      RankedInOrder(all, now, j, i);
    } else {
      RankedInOrder(all, now, i, j);
    }
  }

  /** The listing belongs to an agency whose subscription to the plan is active. */
  predicate OnPlan(l: Listing, plan: Plan) {
    l.ownerIsAgency && l.subscription.Some? && l.subscription.value.active && l.subscription.value.plan == plan
  }

  predicate OutsidePlans(l: Listing) {
    !OnPlan(l, Pro) && !OnPlan(l, Starter)
  }

  /** The boost of the listing has not run out. */
  predicate Live(l: Listing, now: int) {
    l.boostUntil.Some? && now < l.boostUntil.value
  }

  /** Two listings in the results, of which the first is ahead by so many points: if by more than none it
      stands before the other, if by less behind it, and if by none the newer one goes first. */
  predicate AheadBy(points: int, a: Listing, b: Listing, i: nat, j: nat) {
    && (points > 0 ==> i < j) && (points < 0 ==> j < i)
    && (points == 0 && a.createdAt > b.createdAt ==> i < j)
    && (points == 0 && a.createdAt < b.createdAt ==> j < i)
  }

  lemma AheadByPriority(all: seq<Listing>, now: int, i: nat, j: nat)
    requires i < |Ranked(all, now)| && j < |Ranked(all, now)| && i != j
    ensures var a, b := Ranked(all, now)[i], Ranked(all, now)[j];
            AheadBy(Priority(a, now) - Priority(b, now), a, b, i, j)
  {
    if j < i {
      RankedInOrder(all, now, j, i);
    } else {
      RankedInOrder(all, now, i, j);
    }
  }

  /** Outside the plans a boost that has not run out is worth fifty points, and one that has, none. */
  lemma BoostIsWorthFifty(all: seq<Listing>, now: int, i: nat, j: nat)
    requires i < |Ranked(all, now)| && j < |Ranked(all, now)| && i != j
    requires OutsidePlans(Ranked(all, now)[i]) && OutsidePlans(Ranked(all, now)[j])
    ensures var a, b := Ranked(all, now)[i], Ranked(all, now)[j];
            AheadBy(a.boostScore - b.boostScore + (if Live(a, now) then 50 else 0) - (if Live(b, now) then 50 else 0),
                    a, b, i, j)
  {
    AheadByPriority(all, now, i, j);
  }

  /** A plan is worth a hundred points more than no plan, PRO another hundred, and on a plan it does not
      matter whether the boost has run out. */
  lemma PlansAreWorthHundreds(all: seq<Listing>, now: int, i: nat, j: nat)
    requires i < |Ranked(all, now)| && j < |Ranked(all, now)| && i != j
    requires !OutsidePlans(Ranked(all, now)[i])
    ensures var a, b := Ranked(all, now)[i], Ranked(all, now)[j];
            var points := a.boostScore - b.boostScore + if OnPlan(a, Pro) then 200 else 100;
            AheadBy(points - (if OnPlan(b, Pro) then 200 else if OnPlan(b, Starter) then 100
                              else if Live(b, now) then 50 else 0), a, b, i, j)
  {
    AheadByPriority(all, now, i, j);
  }

  /** Against an agency with the STARTER plan it does not: boosted to the limit, a newer listing
      ties and goes first. */
  lemma StarterCanGoFirst() returns (all: seq<Listing>, now: int)
    ensures |Ranked(all, now)| == 2 && forall l | l in all :: ScoreInRange(l)
    ensures ActiveAgency(Ranked(all, now)[0], Starter) && ActiveAgency(Ranked(all, now)[1], Pro)
  {
    var pro := Listing("p", 1, 0, None, true, Some(Subscription(Pro, true)));
    var starter := Listing("s", 2, 100, None, true, Some(Subscription(Starter, true)));
    var a, b := Scored(pro, 200), Scored(starter, 200);
    all, now := [pro, starter], 0;
    assert Score(all, now) == [a, b];
    assert Sort([b]) == [b] by {
      assert [b][1..] == [];
    }
    assert Insert(a, [b]) == [b, a] by {
      assert [b][1..] == [] && Insert(a, []) == [a];
    }
    assert [a, b][1..] == [b];
    assert Sort([a, b]) == [b, a];
  }
}
