/**
 The tables of payments that boosts and visits keep. A payment names its listing; the webhook looks
 for the latest one of the listing that is still open.
 */
module SidePayments {
  import opened Invoices
  import opened Wrappers

  /** Identifiers are never empty. */
  type Id = s: string | s != "" witness "id"

  datatype PaymentStatus = Pending | Confirmed | Failed

  /** A row; `details` are the columns only one of the tables has. */
  datatype Payment<+T> = Payment(listingId: Id, ref: string, status: PaymentStatus, details: T)

  /** What the gateway says of a payment: settled, with the amount it took; cancelled or failed; not
      known yet; or no answer. */
  datatype Answer = Completed(amount: real) | Declined | Waiting | Unreachable

  predicate Awaits<T>(p: Payment<T>, listingId: Id) {
    p.listingId == listingId && p.status == Pending
  }

  /** Rows are in the order of their creation. */
  function LatestPending<T>(payments: seq<Payment<T>>, listingId: Id): (place: Option<nat>)
    ensures place.Some? ==> place.value < |payments| && Awaits(payments[place.value], listingId)
    ensures place.None? ==> forall i | 0 <= i < |payments| :: !Awaits(payments[i], listingId)
  {
    LastIndex(payments, (p: Payment<T>) => Awaits(p, listingId))
  }

  /** The column of references is unique: another row with the reference refuses the write. */
  predicate RefTaken<T>(payments: seq<Payment<T>>, ref: string, except: Option<nat>) {
    exists i :: 0 <= i < |payments| && payments[i].ref == ref && Some(i) != except
  }

  // ----- the same without a search -----

  /** Payment `i` is the latest of the listing that is open. */
  predicate IsLatest<T>(payments: seq<Payment<T>>, listingId: Id, i: nat) {
    && i < |payments| && payments[i].listingId == listingId && payments[i].status == Pending
    && forall k | i < k < |payments| :: payments[k].listingId != listingId || payments[k].status != Pending
  }

  lemma LatestIs<T>(payments: seq<Payment<T>>, listingId: Id, i: nat)
    ensures IsLatest(payments, listingId, i) <==> LatestPending(payments, listingId) == Some(i)
  {
    var place := LatestPending(payments, listingId);
    if IsLatest(payments, listingId, i) {
      assert Awaits(payments[i], listingId);
      assert place.Some? && Awaits(payments[place.value], listingId);
      LatestIsLast(payments, listingId);
    } else if place == Some(i) {
      LatestIsLast(payments, listingId);
    }
  }

  lemma LatestIsLast<T>(payments: seq<Payment<T>>, listingId: Id)
    ensures var place := LatestPending(payments, listingId);
            place.Some? ==> forall k | place.value < k < |payments| :: !Awaits(payments[k], listingId)
  {
    var test := (p: Payment<T>) => Awaits(p, listingId);
    assert LatestPending(payments, listingId) == LastIndex(payments, test);
  }

  predicate HasRef<T>(payments: seq<Payment<T>>, token: string, except: int) {
    exists k :: 0 <= k < |payments| && payments[k].ref == "PD-" + token && k != except
  }

  lemma HasRefIff<T>(payments: seq<Payment<T>>, token: string, i: Option<nat>)
    ensures HasRef(payments, token, i.GetOr(|payments|)) <==> RefTaken(payments, Ref(token), i)
  {
    assert Ref(token) == "PD-" + token;
  }

  lemma NoneOpen<T>(payments: seq<Payment<T>>, listingId: Id)
    ensures LatestPending(payments, listingId).None?
       <==> forall k | 0 <= k < |payments| :: payments[k].listingId != listingId || payments[k].status != Pending
  {
    var place := LatestPending(payments, listingId);
    if place.Some? {
      assert Awaits(payments[place.value], listingId);
    } else {
      forall k | 0 <= k < |payments| ensures payments[k].listingId != listingId || payments[k].status != Pending {
        assert !Awaits(payments[k], listingId);
      }
    }
  }
}
