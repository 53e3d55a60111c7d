/**
 The parts of the listing service that write the status of a listing, each proved to do what the
 rules of `Market` say.
 */
module Listings {
  import opened Wrappers
  import opened Market
  import opened Tables

  class ListingsService {
    const db: Database

    constructor (db: Database)
      ensures this.db == db
    {
      this.db := db;
    }

    /** `check` is the answer of the subscription check, asked for only when publishing. */
    method Create(now: int, id: Id, ownerId: Id, terms: Terms, publish: bool, check: Outcome) returns (outcome: Outcome)
      requires Linked(db.Snapshot())
      modifies db
      ensures Reply(outcome, db.Snapshot())
           == Step(old(db.Snapshot()), now, NewListing(id, ownerId, terms, publish, check))
    {
      if publish && check != Accepted {
        return check;
      }
      if !ValidNightsRange(terms) || id in db.listings {
        return BadRequest;
      }
      db.listings := db.listings[id := Listing(ownerId, if publish then ListingStatus.Active else Draft, terms)];
      return Accepted;
    }

    method Update(now: int, id: Id, who: Actor, terms: Terms) returns (outcome: Outcome)
      requires Linked(db.Snapshot())
      modifies db
      ensures Reply(outcome, db.Snapshot()) == Step(old(db.Snapshot()), now, ForListing(id, who, Edit(terms)))
    {
      if id !in db.listings {
        return NotFound;
      }
      var listing := db.listings[id];
      if listing.ownerId != who.id && !who.isAdmin {
        return Forbidden;
      }
      if !ValidNightsRange(terms) {
        return BadRequest;
      }
      db.listings := db.listings[id := listing.(terms := terms)];
      return Accepted;
    }

    method ArchiveListing(now: int, id: Id, who: Actor) returns (outcome: Outcome)
      requires Linked(db.Snapshot())
      modifies db
      ensures Reply(outcome, db.Snapshot()) == Step(old(db.Snapshot()), now, ForListing(id, who, Archive))
    {
      if id !in db.listings {
        return NotFound;
      }
      var listing := db.listings[id];
      if listing.ownerId != who.id {
        return Forbidden;
      }
      if listing.status == Suspended {
        return BadRequest;
      }
      if listing.status == Rented {
        return BadRequest;
      }
      db.SetListingStatus(id, Suspended);
      return Accepted;
    }

    method RestoreListing(now: int, id: Id, who: Actor, published: bool) returns (outcome: Outcome)
      requires Linked(db.Snapshot())
      modifies db
      ensures Reply(outcome, db.Snapshot()) == Step(old(db.Snapshot()), now, ForListing(id, who, Restore(published)))
    {
      if id !in db.listings {
        return NotFound;
      }
      var listing := db.listings[id];
      if listing.ownerId != who.id {
        return Forbidden;
      }
      if listing.status != Suspended {
        return BadRequest;
      }
      db.SetListingStatus(id, if published then ListingStatus.Active else Draft);
      return Accepted;
    }

    method UnpublishListing(now: int, id: Id, who: Actor) returns (outcome: Outcome)
      requires Linked(db.Snapshot())
      modifies db
      ensures Reply(outcome, db.Snapshot()) == Step(old(db.Snapshot()), now, ForListing(id, who, Unpublish))
    {
      if id !in db.listings {
        return NotFound;
      }
      var listing := db.listings[id];
      if listing.ownerId != who.id {
        return Forbidden;
      }
      if listing.status != ListingStatus.Active {
        return BadRequest;
      }
      db.SetListingStatus(id, Draft);
      return Accepted;
    }

    method PublishListing(now: int, id: Id, who: Actor, check: Outcome) returns (outcome: Outcome)
      requires Linked(db.Snapshot())
      modifies db
      ensures Reply(outcome, db.Snapshot()) == Step(old(db.Snapshot()), now, ForListing(id, who, Publish(check)))
    {
      if id !in db.listings {
        return NotFound;
      }
      var listing := db.listings[id];
      if listing.ownerId != who.id {
        return Forbidden;
      }
      if listing.status != Draft {
        return BadRequest;
      }
      if check != Accepted {
        return check;
      }
      db.SetListingStatus(id, ListingStatus.Active);
      return Accepted;
    }

    method ActivateListing(now: int, id: Id, who: Actor) returns (outcome: Outcome)
      requires Linked(db.Snapshot())
      modifies db
      ensures Reply(outcome, db.Snapshot()) == Step(old(db.Snapshot()), now, ForListing(id, who, Activate))
    {
      if !who.isAdmin && !who.isAgent {
        return Forbidden;
      }
      if id !in db.listings {
        return NotFound;
      }
      db.SetListingStatus(id, ListingStatus.Active);
      return Accepted;
    }

    method SuspendListing(now: int, id: Id, who: Actor) returns (outcome: Outcome)
      requires Linked(db.Snapshot())
      modifies db
      ensures Reply(outcome, db.Snapshot()) == Step(old(db.Snapshot()), now, ForListing(id, who, Suspend))
    {
      if !who.isAdmin {
        return Forbidden;
      }
      if id !in db.listings {
        return NotFound;
      }
      db.SetListingStatus(id, Suspended);
      return Accepted;
    }

    method Remove(now: int, id: Id, who: Actor) returns (outcome: Outcome)
      requires Linked(db.Snapshot())
      modifies db
      ensures Reply(outcome, db.Snapshot()) == Step(old(db.Snapshot()), now, Request.Remove(id, who))
    {
      if id !in db.listings {
        return NotFound;
      }
      if db.listings[id].ownerId != who.id && !who.isAdmin {
        return Forbidden;
      }
      var gone := set k | k in db.bookings && db.bookings[k].listingId == id;
      db.contracts := Without(db.contracts, gone);
      db.bookings := db.bookings - gone;
      db.listings := db.listings - {id};
      return Accepted;
    }
  }
}
