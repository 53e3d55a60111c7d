/** The tables the services share. */
module Tables {
  import opened Market

  class Database {
    var bookings: map<Id, Booking>
    var listings: map<Id, Listing>
    var contracts: seq<Id>

    ghost function Snapshot(): State
      reads this
    {
      State(bookings, listings, contracts)
    }

    constructor ()
      ensures Snapshot() == EMPTY
    {
      bookings, listings, contracts := map[], map[], [];
    }

    method SetListingStatus(id: Id, status: ListingStatus)
      requires id in listings
      modifies this`listings
      ensures listings == WithListingStatus(old(listings), id, status)
    {
      listings := listings[id := listings[id].(status := status)];
    }
  }
}
