/**
 The verification service. Each method reads and writes the tables step by step and is proved to do
 what the rules of `Visits` say: the same outcome, and the whole new state.
 */
module Verifications {
  import opened Invoices
  import opened SidePayments
  import opened Visits
  import opened Wrappers

  class VerificationsService {
    var accounts: set<Id>
    var listings: map<Id, Listing>
    var visits: seq<Visit>
    var payments: seq<VisitPayment>

    ghost function Snapshot(): State
      reads this
    {
      State(accounts, listings, visits, payments)
    }

    constructor ()
      ensures Snapshot() == State({}, map[], [], [])
    {
      accounts, listings, visits, payments := {}, map[], [], [];
    }

    method HasOngoing(listingId: Id) returns (found: bool)
      ensures found <==> exists i :: 0 <= i < |visits| && visits[i].listingId == listingId && Ongoing(visits[i])
    {
      found := false;
      var i := 0;
      while i < |visits| && !found
        invariant 0 <= i <= |visits|
        invariant found <==> exists k :: 0 <= k < i && visits[k].listingId == listingId && Ongoing(visits[k])
      {
        found := visits[i].listingId == listingId && Ongoing(visits[i]);
        i := i + 1;
      }
    }

    /** The insert of a visit, which the foreign key of the preferred agent may refuse. */
    method InsertVisit(listingId: Id, order: Order) returns (outcome: Outcome)
      modifies this`visits
      ensures outcome == if Known(old(Snapshot()), order) then Accepted else Refused
      ensures visits == if outcome == Accepted then old(visits) + [NewVisit(listingId, order)] else old(visits)
    {
      if order.preferredAgentId.Some? && order.preferredAgentId.value !in accounts {
        return Refused;
      }
      visits := visits + [Visit(listingId, order, Requested, None, None, None)];
      return Accepted;
    }

    method Create(who: Actor, listingId: Id, order: Order, invoice: Option<Invoice>) returns (outcome: Outcome)
      modifies this
      ensures Reply(outcome, Snapshot()) == Step(old(Snapshot()), Request.Create(who, listingId, order, invoice))
    {
      if listingId !in listings {
        return NotFound;
      }
      var isOwner := listings[listingId].ownerId == who.id;
      if !isOwner && !who.isAdmin {
        return Forbidden;
      }
      var existing := HasOngoing(listingId);
      if existing {
        return Conflict;
      }
      if who.isAdmin || who.isProActive {
        outcome := InsertVisit(listingId, order);
        return;
      }
      if LatestPending(payments, listingId).Some? {
        return Conflict;
      }
      outcome := InitiatePayment(who.id, listingId, order, invoice);
    }

    method InitiatePayment(requesterId: Id, listingId: Id, order: Order, invoice: Option<Invoice>)
      returns (outcome: Outcome)
      modifies this`payments
      ensures outcome == if invoice.None? then BadRequest
                         else if RefTaken(old(payments), Ref(invoice.value.token), None) then Refused else Accepted
      ensures payments == if outcome != Accepted then old(payments)
                          else old(payments) + [OpenPayment(listingId, order, requesterId, invoice.value)]
    {
      if invoice.None? {
        return BadRequest;
      }
      var paymentRef := Ref(invoice.value.token);
      if RefTaken(payments, paymentRef, None) {
        return Refused;
      }
      var details := Details(order, requesterId, invoice.value.amount, None);
      payments := payments + [Payment(listingId, paymentRef, Pending, details)];
      return Accepted;
    }

    /** A payment that has its visit is left alone; the insert may be refused. */
    method CreateVerificationFromPayment(id: nat) returns (outcome: Outcome)
      requires id < |payments|
      modifies this`visits, this`payments
      ensures var p := old(payments)[id];
              if p.details.visit.Some? then outcome == Accepted && visits == old(visits) && payments == old(payments)
              else if !Known(old(Snapshot()), p.details.order) then
                outcome == Refused && visits == old(visits) && payments == old(payments)
              else
                && outcome == Accepted && visits == old(visits) + [NewVisit(p.listingId, p.details.order)]
                && payments == old(payments)[id := p.(details := p.details.(visit := Some(|old(visits)|)))]
    {
      var payment := payments[id];
      if payment.details.visit.Some? {
        return Accepted;
      }
      outcome := InsertVisit(payment.listingId, payment.details.order);
      if outcome == Accepted {
        payments := payments[id := payment.(details := payment.details.(visit := Some(|visits| - 1)))];
      }
    }

    method HandleWebhookPayDunya(listingId: Id, token: string, answer: Answer) returns (outcome: Outcome)
      modifies this
      ensures Reply(outcome, Snapshot()) == Step(old(Snapshot()), Webhook(listingId, token, answer))
    {
      var found := LatestPending(payments, listingId);
      if found.None? {
        return Accepted;
      }
      var id := found.value;
      if answer.Unreachable? {
        return BadRequest;
      }
      outcome := Accepted;
      if answer.Completed? {
        if RefTaken(payments, Ref(token), Some(id)) {
          return Refused;
        }
        payments := payments[id := payments[id].(status := Confirmed, ref := Ref(token))];
        outcome := CreateVerificationFromPayment(id);
      } else if answer.Declined? {
        payments := payments[id := payments[id].(status := Failed)];
      }
    }

    method Decline(id: nat, agentId: Id, reason: string) returns (outcome: Outcome)
      modifies this`visits
      ensures Reply(outcome, Snapshot()) == Step(old(Snapshot()), Request.Decline(id, agentId, reason))
    {
      if id >= |visits| {
        return NotFound;
      }
      if visits[id].agentId != Some(agentId) {
        return Forbidden;
      }
      if visits[id].status != Scheduled {
        return BadRequest;
      }
      visits := visits[id := visits[id].(status := DeclinePending, declineReason := Some(reason))];
      return Accepted;
    }

    method ApproveDecline(id: nat) returns (outcome: Outcome)
      modifies this`visits
      ensures Reply(outcome, Snapshot()) == Step(old(Snapshot()), Request.ApproveDecline(id))
    {
      if id >= |visits| {
        return NotFound;
      }
      if visits[id].status != DeclinePending {
        return BadRequest;
      }
      visits := visits[id := visits[id].(status := Requested, agentId := None)];
      return Accepted;
    }

    method RefuseDecline(id: nat) returns (outcome: Outcome)
      modifies this`visits
      ensures Reply(outcome, Snapshot()) == Step(old(Snapshot()), Request.RefuseDecline(id))
    {
      if id >= |visits| {
        return NotFound;
      }
      if visits[id].status != DeclinePending {
        return BadRequest;
      }
      visits := visits[id := visits[id].(status := Scheduled, declineReason := None)];
      return Accepted;
    }

    method AssignAgent(id: nat, agentId: Id) returns (outcome: Outcome)
      modifies this`visits
      ensures Reply(outcome, Snapshot()) == Step(old(Snapshot()), Request.AssignAgent(id, agentId))
    {
      if id >= |visits| {
        return NotFound;
      }
      if agentId !in accounts {
        return Refused;
      }
      visits := visits[id := visits[id].(agentId := Some(agentId), status := Scheduled)];
      return Accepted;
    }

    method Start(id: nat, agentId: Id, now: int) returns (outcome: Outcome)
      modifies this`visits
      ensures Reply(outcome, Snapshot()) == Step(old(Snapshot()), Request.Start(id, agentId, now))
    {
      if id >= |visits| {
        return NotFound;
      }
      if visits[id].agentId.None? {
        return Forbidden;
      }
      if visits[id].agentId != Some(agentId) {
        return Forbidden;
      }
      var earliest := visits[id].order.scheduledAt - 15 * MINUTE;
      if now < earliest {
        return BadRequest;
      }
      visits := visits[id := visits[id].(status := InProgress)];
      return Accepted;
    }

    method SetBadge(listingId: Id, now: int)
      modifies this`listings
      ensures Snapshot() == Badge(old(Snapshot()), listingId, now)
    {
      if listingId in listings {
        listings := listings[listingId := listings[listingId].(isVerified := true, verifiedAt := Some(now))];
      }
    }

    method Complete(id: nat, agentId: Id, now: int) returns (outcome: Outcome)
      modifies this`visits, this`listings
      ensures Reply(outcome, Snapshot()) == Step(old(Snapshot()), Request.Complete(id, agentId, now))
    {
      if id >= |visits| {
        return NotFound;
      }
      if visits[id].agentId.None? {
        return Forbidden;
      }
      if visits[id].agentId != Some(agentId) {
        return Forbidden;
      }
      if visits[id].status != InProgress {
        return BadRequest;
      }
      SetBadge(visits[id].listingId, now);
      visits := visits[id := visits[id].(status := Done, completedAt := Some(now))];
      return Accepted;
    }

    method Validate(id: nat, who: Actor, now: int) returns (outcome: Outcome)
      modifies this`listings
      ensures Reply(outcome, Snapshot()) == Step(old(Snapshot()), Request.Validate(id, who, now))
    {
      if !who.isAdmin {
        return Forbidden;
      }
      if id >= |visits| {
        return NotFound;
      }
      if visits[id].status != Done {
        return BadRequest;
      }
      SetBadge(visits[id].listingId, now);
      return Accepted;
    }

    method Reject(id: nat, who: Actor) returns (outcome: Outcome)
      modifies this`visits
      ensures Reply(outcome, Snapshot()) == Step(old(Snapshot()), Request.Reject(id, who))
    {
      if id >= |visits| {
        return NotFound;
      }
      var isAgent := visits[id].agentId == Some(who.id);
      if !isAgent && !who.isAdmin {
        return Forbidden;
      }
      if visits[id].status != Requested && visits[id].status != Scheduled && visits[id].status != InProgress {
        return BadRequest;
      }
      visits := visits[id := visits[id].(status := Rejected)];
      return Accepted;
    }

    /** The nightly bulk update. */
    method ExpireOldBadges(cutoff: int)
      modifies this`listings
      ensures Snapshot() == Step(old(Snapshot()), ExpireBadges(cutoff)).state
    {
      listings := map l | l in listings :: Expired(listings[l], cutoff);
    }
  }
}
