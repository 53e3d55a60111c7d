/** Runs from the empty marketplace that end with leases out of order, or without the lease that the
    listing is rented for. */
module LeaseStories {
  import opened DoubleBooking
  import opened Invoices
  import opened Leases
  import opened Legality
  import opened Market
  import opened Wrappers

  const AGENT := Actor("agent", false, true)

  function Asks(id: Id): Entry {
    Entry(0, AskLease(id, TENANT.id, "l", ARRIVAL, MONTHS))
  }

  function Does(id: Id, who: Actor, e: RowEvent): Entry {
    Entry(0, ForBooking(id, who, e))
  }

  function Pays(id: Id): Entry {
    Does(id, TENANT, PaysFor(LEASE))
  }

  const APPROVED := LEASE.(status := BookingStatus.Approved)
  const REJECTED := LEASE.(status := Rejected)
  const RUNNING := MarkPaid(LEASE, Some(Ref("t")))
  const RENTED_HOME := HOME.(status := Rented)

  /** The states through which the runs go. */
  function One(b: Booking, l: Listing, contracts: seq<Id>): State {
    State(map["a" := b], map["l" := l], contracts)
  }

  function Two(a: Booking, b: Booking, l: Listing, contracts: seq<Id>): State {
    State(map["a" := a, "b" := b], map["l" := l], contracts)
  }

  lemma Distinct()
    ensures OWNER.id != TENANT.id && "a" != "b"
  {
    assert OWNER.id[0] == 'o' && TENANT.id[0] == 't' && "a"[0] == 'a' && "b"[0] == 'b';
  }

  lemma Asked()
    ensures Run(EMPTY, [PUBLISH, Asks("a")]) == One(LEASE, HOME, [])
  {
    Distinct();
    var tr := Published(Asks("a"));
    assert After(EMPTY, PUBLISH) == State(map[], map["l" := HOME], []);
  }

  lemma Approved()
    ensures After(One(LEASE, HOME, []), Does("a", OWNER, Approve)) == One(APPROVED, HOME, [])
  {
    Distinct();
  }

  lemma PaidFor()
    ensures After(One(APPROVED, HOME, []), Pays("a")) == One(RUNNING, RENTED_HOME, ["a"])
  {
    Distinct();
  }

  /** The lease is asked for, approved and paid. */
  lemma Running() returns (tr: seq<Entry>)
    ensures Run(EMPTY, tr) == One(RUNNING, RENTED_HOME, ["a"])
    ensures Chronological(tr) && forall i | 0 <= i < |tr| :: tr[i].now == 0
  {
    Asked();
    Approved();
    PaidFor();
    var asked := [PUBLISH, Asks("a")];
    RunOn(asked, Does("a", OWNER, Approve));
    RunOn(asked + [Does("a", OWNER, Approve)], Pays("a"));
    tr := asked + [Does("a", OWNER, Approve)] + [Pays("a")];
  }

  // ----- a lease revived -----

  lemma AskedAgain()
    ensures After(After(One(LEASE, HOME, []), Does("a", OWNER, Reject)), Asks("b")) == Two(REJECTED, LEASE, HOME, [])
  {
    Distinct();
    assert After(One(LEASE, HOME, []), Does("a", OWNER, Reject)) == One(REJECTED, HOME, []);
  }

  lemma PaidLate()
    ensures After(Two(REJECTED, LEASE, HOME, []), Pays("a")) == Two(RUNNING, LEASE, RENTED_HOME, ["a"])
  {
    Distinct();
  }

  lemma TwoOpenLeases(s: State)
    requires s == Two(RUNNING, LEASE, RENTED_HOME, ["a"])
    ensures !SingleLease(s)
  {
    Distinct();
    assert OpenLease(s.bookings["a"]) && OpenLease(s.bookings["b"]);
  }

  function RevivalStory(): seq<Entry> {
    [PUBLISH, Asks("a")] + [Does("a", OWNER, Reject)] + [Asks("b")] + [Pays("a")]
  }

  lemma RevivalEnds()
    ensures Run(EMPTY, RevivalStory()) == Two(RUNNING, LEASE, RENTED_HOME, ["a"])
  {
    StoryRun([PUBLISH, Asks("a")], Does("a", OWNER, Reject), Asks("b"), Pays("a"));
    Asked();
    AskedAgain();
    PaidLate();
  }

  /** A lease is asked for and rejected, another is asked for, and then the first one is paid: the
      listing has two open leases. */
  lemma LatePaymentRevivesLease()
    ensures Chronological(RevivalStory()) && !SingleLease(Run(EMPTY, RevivalStory()))
    ensures Run(EMPTY, RevivalStory()) == Two(RUNNING, LEASE, RENTED_HOME, ["a"])
  {
    RevivalEnds();
    TwoOpenLeases(Run(EMPTY, RevivalStory()));
    AllAtOnce([PUBLISH, Asks("a")], Does("a", OWNER, Reject), Asks("b"), Pays("a"));
  }

  // ----- a rented listing opened by hand -----

  lemma OpenedAndBooked()
    ensures After(After(One(RUNNING, RENTED_HOME, ["a"]), Entry(0, ForListing("l", AGENT, Activate))),
                  Entry(0, Book("b", TENANT.id, "l", ARRIVAL, Some(DEPARTURE), RATE)))
         == Two(RUNNING, STAY, HOME, ["a"])
  {
    Distinct();
    assert Nights(ARRIVAL, Some(DEPARTURE)) == 1;
    assert After(One(RUNNING, RENTED_HOME, ["a"]), Entry(0, ForListing("l", AGENT, Activate)))
        == One(RUNNING, HOME, ["a"]);
  }

  lemma StayInLease(s: State)
    requires s == Two(RUNNING, STAY, HOME, ["a"])
    ensures !RentedWhileLeased(s)
  {
    Distinct();
    assert RunningLease(s.bookings["a"]);
  }

  /** An agent in the field activates a rented listing, and a stay is accepted while the lease runs. */
  lemma ActivatedWhileLeased() returns (tr: seq<Entry>)
    ensures Chronological(tr) && !RentedWhileLeased(Run(EMPTY, tr))
    ensures Run(EMPTY, tr) == Two(RUNNING, STAY, HOME, ["a"])
  {
    var running := Running();
    var activates := Entry(0, ForListing("l", AGENT, Activate));
    var books := Entry(0, Book("b", TENANT.id, "l", ARRIVAL, Some(DEPARTURE), RATE));
    RunOn(running, activates);
    RunOn(running + [activates], books);
    OpenedAndBooked();
    tr := running + [activates] + [books];
    StayInLease(Run(EMPTY, tr));
  }

  // ----- a lease cancelled -----

  lemma Abandoned(s: State)
    requires s == One(RUNNING, RENTED_HOME, ["a"])
    ensures var t := After(s, Does("a", TENANT, Cancel));
            !LeasedWhileRented(t) && "l" in t.listings && t.listings["l"].status == Rented
  {
    Distinct();
    assert s.bookings["a"].listingId == "l" && RunningLease(s.bookings["a"]);
    RentalExact(s, 0, ForBooking("a", TENANT, Cancel));
    assert AbandonsRental(s, ForBooking("a", TENANT, Cancel));
  }

  /** The tenant cancels the running lease: the listing stays rented, and nobody lives there. */
  lemma RentedForNobody() returns (tr: seq<Entry>)
    ensures Chronological(tr) && !LeasedWhileRented(Run(EMPTY, tr))
    ensures "l" in Run(EMPTY, tr).listings && Run(EMPTY, tr).listings["l"].status == Rented
  {
    var running := Running();
    var cancels := Does("a", TENANT, Cancel);
    RunOn(running, cancels);
    tr := running + [cancels];
    Abandoned(One(RUNNING, RENTED_HOME, ["a"]));
  }
}
