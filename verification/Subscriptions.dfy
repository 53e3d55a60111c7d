/** The nightly job that suspends subscriptions that have run out, and the listings of their owners. */
module Subscriptions {
  import opened Market
  import opened Tables
  import opened Wrappers

  /** ACTIVE, SUSPENDED and CANCELLED in the source. */
  datatype SubscriptionStatus = Running | Stopped | Ended

  /** A subscription without an end never runs out. */
  datatype Subscription = Subscription(userId: Id, status: SubscriptionStatus, endDate: Option<int>)

  predicate Expired(s: Subscription, now: int) {
    s.status == Running && s.endDate.Some? && s.endDate.value < now
  }

  /** The users whose subscription has run out. */
  ghost function ExpiredUsers(subscriptions: seq<Subscription>, now: int): set<Id> {
    set s | s in subscriptions && Expired(s, now) :: s.userId
  }

  lemma NobodyExpired(subscriptions: seq<Subscription>, now: int)
    ensures ExpiredUsers(subscriptions, now) == {}
       <==> forall i | 0 <= i < |subscriptions| :: !Expired(subscriptions[i], now)
  {
    forall i | 0 <= i < |subscriptions| && Expired(subscriptions[i], now)
      ensures subscriptions[i].userId in ExpiredUsers(subscriptions, now)
    {
      assert subscriptions[i] in subscriptions;
    }
  }

  /** The job suspends a listing if and only if it is ACTIVE and its owner has a subscription that was
      running, and whose end is past. */
  lemma SuspendedExactly(s: State, subscriptions: seq<Subscription>, now: int, l: Id)
    requires Linked(s) && l in s.listings
    ensures var t := Step(s, now, Expire(ExpiredUsers(subscriptions, now))).state;
            && l in t.listings && t.listings[l] == s.listings[l].(status := t.listings[l].status)
            && t.listings[l].status
               == if s.listings[l].status == ListingStatus.Active
                     && exists i :: 0 <= i < |subscriptions| && subscriptions[i].userId == s.listings[l].ownerId
                          && subscriptions[i].status.Running? && subscriptions[i].endDate.Some?
                          && subscriptions[i].endDate.value < now
                  then Suspended else s.listings[l].status
  {
    var owner := s.listings[l].ownerId;
    if i :| 0 <= i < |subscriptions| && subscriptions[i].userId == owner && Expired(subscriptions[i], now) {
      assert subscriptions[i] in subscriptions && owner in ExpiredUsers(subscriptions, now);
    } else {
      assert owner !in ExpiredUsers(subscriptions, now);
    }
  }

  class SubscriptionsService {
    const db: Database
    var subscriptions: seq<Subscription>

    constructor (db: Database)
      ensures this.db == db && subscriptions == []
    {
      this.db := db;
      subscriptions := [];
    }

    method FindExpired(now: int) returns (userIds: set<Id>)
      ensures userIds == ExpiredUsers(subscriptions, now)
    {
      userIds := {};
      for i := 0 to |subscriptions|
        invariant userIds == ExpiredUsers(subscriptions[..i], now)
      {
        if Expired(subscriptions[i], now) {
          userIds := userIds + {subscriptions[i].userId};
        }
        assert subscriptions[..i + 1] == subscriptions[..i] + [subscriptions[i]];
      }
      assert subscriptions[..|subscriptions|] == subscriptions;
    }

    method SuspendExpiredSubscriptions(now: int)
      requires Linked(db.Snapshot())
      modifies this`subscriptions, db
      ensures |subscriptions| == |old(subscriptions)|
      ensures forall i | 0 <= i < |subscriptions| ::
                var was := old(subscriptions)[i];
                subscriptions[i] == if was.status.Running? && was.endDate.Some? && was.endDate.value < now
                                    then was.(status := Stopped) else was
      ensures db.Snapshot() == Step(old(db.Snapshot()), now, Expire(ExpiredUsers(old(subscriptions), now))).state
      ensures ExpiredUsers(subscriptions, now) == {}
    {
      var userIds := FindExpired(now);
      if userIds == {} {
        NobodyExpired(subscriptions, now);
        assert db.Snapshot() == Step(db.Snapshot(), now, Expire({})).state by {
          assert Step(db.Snapshot(), now, Expire({})).state.listings == db.listings;
        }
        return;
      }
      var before := subscriptions;
      subscriptions := seq(|before|, i requires 0 <= i < |before| =>
        if Expired(before[i], now) then before[i].(status := Stopped) else before[i]);
      db.listings := map id | id in db.listings ::
        var l := db.listings[id];
        if l.ownerId in userIds && l.status == ListingStatus.Active then l.(status := Suspended) else l;
    }
  }
}
