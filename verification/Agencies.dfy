/**
 The accounts, as far as the addresses of agencies depend on them: how an address is found, and
 what every run of requests keeps.
 */
module Agencies {
  import opened Wrappers
  import opened Slugs
  import Decimals

  type UserId = string

  datatype User = User(email: string, isAdmin: bool, agencyName: Option<string>, agencySlug: Option<string>)

  type Users = map<UserId, User>

  datatype Outcome = Accepted | NotFound | Forbidden | Conflict

  datatype Reply = Reply(outcome: Outcome, users: Users)

  /** Accounts go by an administrator or by the identity provider; `held` tells whether rows outside
      this model, such as listings or bookings, keep the account. */
  datatype Request =
    | UpdateMe(userId: UserId, agencyName: Option<string>)
    | CreateProAgence(adminId: UserId, newId: UserId, email: string, name: string, clerkCreates: bool)
    | SyncUser(newId: UserId, email: string)
    | DeleteUser(adminId: UserId, targetId: UserId, held: bool)
    | AccountDeleted(targetId: UserId, held: bool)

  // ----- slugs in use -----

  ghost predicate SlugsDistinct(users: Users) {
    forall a, b | a in users && b in users && a != b && users[a].agencySlug.Some? ::
      users[a].agencySlug != users[b].agencySlug
  }

  ghost predicate NoEmptySlugs(users: Users) {
    forall a | a in users :: users[a].agencySlug != Some("")
  }

  /** No user has the slug, or only the one who may keep it. */
  ghost predicate IsFree(users: Users, slug: string, exclude: Option<UserId>) {
    forall a | a in users && users[a].agencySlug == Some(slug) :: Some(a) == exclude
  }

  /** Slugs being distinct, the one user found by a slug tells whether it is free. */
  lemma FreeIffFound(users: Users, slug: string, existing: Option<UserId>, exclude: Option<UserId>)
    requires SlugsDistinct(users)
    requires existing.Some? ==> existing.value in users && users[existing.value].agencySlug == Some(slug)
    requires existing.None? ==> forall a | a in users :: users[a].agencySlug != Some(slug)
    ensures IsFree(users, slug, exclude) <==> existing.None? || existing == exclude
  {
  }

  ghost predicate IsFirstFree(users: Users, base: string, exclude: Option<UserId>, k: nat) {
    IsFree(users, Candidate(base, k), exclude)
    && forall j | 0 <= j < k :: !IsFree(users, Candidate(base, j), exclude)
  }

  ghost function SlugsOf(users: Users): set<string> {
    set a | a in users && users[a].agencySlug.Some? :: users[a].agencySlug.value
  }

  /** Candidates that are not free are taken, so there is an end to them. */
  lemma TakenAreCounted(users: Users, base: string, exclude: Option<UserId>, k: nat)
    requires forall j | 0 <= j < k :: !IsFree(users, Candidate(base, j), exclude)
    ensures k <= |SlugsOf(users)|
  {
    forall j | 0 <= j < k ensures Candidate(base, j) in SlugsOf(users) {
      assert !IsFree(users, Candidate(base, j), exclude);
      var a :| a in users && users[a].agencySlug == Some(Candidate(base, j)) && Some(a) != exclude;
    }
    CandidatesCounted(base, k, SlugsOf(users));
  }

  lemma OneMoreTaken(users: Users, base: string, exclude: Option<UserId>, k: nat)
    requires forall j | 0 <= j < k :: !IsFree(users, Candidate(base, j), exclude)
    requires !IsFree(users, Candidate(base, k), exclude)
    ensures k < |SlugsOf(users)|
    ensures forall j | 0 <= j < k + 1 :: !IsFree(users, Candidate(base, j), exclude)
  {
    TakenAreCounted(users, base, exclude, k + 1);
  }

  lemma {:induction false} FirstFreeExists(users: Users, base: string, exclude: Option<UserId>, from: nat)
    returns (k: nat)
    requires forall j | 0 <= j < from :: !IsFree(users, Candidate(base, j), exclude)
    ensures IsFirstFree(users, base, exclude, k)
    decreases |SlugsOf(users)| + 1 - from
  {
    if IsFree(users, Candidate(base, from), exclude) {
      k := from;
    } else {
      OneMoreTaken(users, base, exclude, from);
      k := FirstFreeExists(users, base, exclude, from + 1);
    }
  }

  /** Whatever slugs are taken, the search comes to a free candidate. */
  lemma SearchEnds(users: Users, base: string, exclude: Option<UserId>)
    ensures exists k: nat :: k <= |SlugsOf(users)| && IsFirstFree(users, base, exclude, k)
  {
    var k := FirstFreeExists(users, base, exclude, 0);
    TakenAreCounted(users, base, exclude, k);
  }

  /** The place of the first candidate that is free. */
  ghost function FirstFree(users: Users, base: string, exclude: Option<UserId>): (k: nat)
    ensures IsFirstFree(users, base, exclude, k)
  {
    SearchEnds(users, base, exclude);
    var k: nat :| IsFirstFree(users, base, exclude, k);
    k
  }

  lemma FirstFreeIsOne(users: Users, base: string, exclude: Option<UserId>, k: nat)
    requires IsFirstFree(users, base, exclude, k)
    ensures FirstFree(users, base, exclude) == k
  {
  }

  function BaseOf(fold: Folding, agencyName: string): string {
    var slug := SlugifyAgencyName(fold, agencyName);
    if slug == "" then "agence" else slug
  }

  ghost function SlugFor(fold: Folding, users: Users, agencyName: string, exclude: Option<UserId>): (slug: string)
    ensures IsFree(users, slug, exclude)
  {
    var base := BaseOf(fold, agencyName);
    Candidate(base, FirstFree(users, base, exclude))
  }

  /** A slug that was searched is not empty and, below a thousand million slugs, fits its column. */
  lemma SlugFits(fold: Folding, users: Users, agencyName: string, exclude: Option<UserId>)
    ensures SlugFor(fold, users, agencyName, exclude) != ""
    ensures |SlugsOf(users)| + 1 < 1_000_000_000 ==> |SlugFor(fold, users, agencyName, exclude)| <= 80
  {
    var base := BaseOf(fold, agencyName);
    SlugifyGivesSlug(fold, agencyName);
    var k := FirstFree(users, base, exclude);
    TakenAreCounted(users, base, exclude, k);
    if |SlugsOf(users)| + 1 < 1_000_000_000 {
      CandidateFits(base, k);
    }
  }

  // ----- requests -----

  predicate HasNoSlug(user: User) {
    user.agencySlug.None? || user.agencySlug == Some("")
  }

  ghost function OnUpdateMe(fold: Folding, users: Users, userId: UserId, agencyName: Option<string>): Reply {
    if userId !in users then Reply(NotFound, users)
    else
      var user := users[userId];
      var named := user.(agencyName := if agencyName.Some? then agencyName else user.agencyName);
      if agencyName.Some? && agencyName.value != "" && HasNoSlug(user) then
        var slug := SlugFor(fold, users, agencyName.value, Some(userId));
        Reply(Accepted, users[userId := named.(agencySlug := Some(slug))])
      else Reply(Accepted, users[userId := named])
  }

  predicate EmailTaken(users: Users, email: string) {
    exists a :: a in users && users[a].email == email
  }

  ghost function Step(fold: Folding, users: Users, r: Request): Reply {
    match r
    case UpdateMe(userId, agencyName) => OnUpdateMe(fold, users, userId, agencyName)
    case CreateProAgence(adminId, newId, email, name, clerkCreates) =>
      if adminId !in users then Reply(NotFound, users)
      else if !users[adminId].isAdmin then Reply(Forbidden, users)
      else if EmailTaken(users, email) || !clerkCreates || newId in users then Reply(Conflict, users)
      else Reply(Accepted, users[newId := User(email, false, Some(name), Some(SlugFor(fold, users, name, None)))])
    case SyncUser(newId, email) =>
      if newId in users then Reply(Accepted, users)
      else if EmailTaken(users, email) then Reply(Conflict, users)
      else Reply(Accepted, users[newId := User(email, false, None, None)])
    case DeleteUser(adminId, targetId, held) =>
      if adminId !in users then Reply(NotFound, users)
      else if !users[adminId].isAdmin then Reply(Forbidden, users)
      else if targetId !in users then Reply(NotFound, users)
      else if users[targetId].isAdmin then Reply(Forbidden, users)
      else if held then Reply(Conflict, users)
      else Reply(Accepted, users - {targetId})
    case AccountDeleted(targetId, held) =>
      if held && targetId in users then Reply(Conflict, users) else Reply(Accepted, users - {targetId})
  }

  ghost function Run(fold: Folding, users: Users, run: seq<Request>): Users
    decreases |run|
  {
    if run == [] then users else Run(fold, Step(fold, users, run[0]).users, run[1..])
  }

  // ----- what every run keeps -----

  lemma WithSlugDistinct(users: Users, id: UserId, user: User)
    requires SlugsDistinct(users)
    requires user.agencySlug.Some? ==> IsFree(users, user.agencySlug.value, Some(id))
    ensures SlugsDistinct(users[id := user])
  {
  }

  lemma StepKeepsSlugs(fold: Folding, users: Users, r: Request)
    requires SlugsDistinct(users) && NoEmptySlugs(users)
    ensures SlugsDistinct(Step(fold, users, r).users) && NoEmptySlugs(Step(fold, users, r).users)
  {
    match r
    case UpdateMe(userId, agencyName) =>
      if userId in users {
        if agencyName.Some? {
          SlugFits(fold, users, agencyName.value, Some(userId));
        }
        WithSlugDistinct(users, userId, Step(fold, users, r).users[userId]);
      }
    case CreateProAgence(adminId, newId, email, name, clerkCreates) =>
      SlugFits(fold, users, name, None);
    case SyncUser(newId, email) =>
    case DeleteUser(_, _, _) =>
    case AccountDeleted(_, _) =>
  }

  /** No two users ever share a slug, and no slug is empty. */
  lemma {:induction false} RunKeepsSlugs(fold: Folding, users: Users, run: seq<Request>)
    requires SlugsDistinct(users) && NoEmptySlugs(users)
    ensures SlugsDistinct(Run(fold, users, run)) && NoEmptySlugs(Run(fold, users, run))
    decreases |run|
  {
    if run == [] {
    } else {
      StepKeepsSlugs(fold, users, run[0]);
      RunKeepsSlugs(fold, Step(fold, users, run[0]).users, run[1..]);
    }
  }

  /** A slug, once set, stays until the account is deleted. */
  lemma {:induction false} SlugIsForGood(fold: Folding, users: Users, run: seq<Request>, id: UserId)
    requires id in users && NoEmptySlugs(users) && SlugsDistinct(users) && users[id].agencySlug.Some?
    requires forall r | r in run :: !((r.DeleteUser? || r.AccountDeleted?) && r.targetId == id)
    ensures id in Run(fold, users, run) && Run(fold, users, run)[id].agencySlug == users[id].agencySlug
    decreases |run|
  {
    if run == [] {
    } else {
      var next := Step(fold, users, run[0]).users;
      StepKeepsSlugs(fold, users, run[0]);
      assert run[0] in run;
      assert id in next && next[id].agencySlug == users[id].agencySlug;
      assert forall r | r in run[1..] :: r in run;
      SlugIsForGood(fold, next, run[1..], id);
    }
  }

  /** Of two agencies of one name, the first to give it gets the first free address, and the second
      another. */
  lemma SameNameAnotherSlug(fold: Folding, users: Users, name: string, first: UserId, second: UserId)
    requires SlugsDistinct(users) && NoEmptySlugs(users)
    requires first in users && second in users && first != second && name != ""
    requires HasNoSlug(users[first]) && HasNoSlug(users[second])
    ensures var middle := Step(fold, users, UpdateMe(first, Some(name))).users;
            var after := Step(fold, middle, UpdateMe(second, Some(name))).users;
            && first in after && after[first].agencySlug == Some(SlugFor(fold, users, name, Some(first)))
            && second in after && after[second].agencySlug.Some? && after[second].agencySlug != after[first].agencySlug
  {
    var middle := Step(fold, users, UpdateMe(first, Some(name))).users;
    StepKeepsSlugs(fold, users, UpdateMe(first, Some(name)));
    StepKeepsSlugs(fold, middle, UpdateMe(second, Some(name)));
  }

  // ----- the code -----

  class AuthService {
    const fold: Folding
    var users: Users

    constructor (fold: Folding)
      ensures this.fold == fold && users == map[]
    {
      this.fold := fold;
      users := map[];
    }

    method FindBySlug(slug: string) returns (existing: Option<UserId>)
      ensures existing.Some? ==> existing.value in users && users[existing.value].agencySlug == Some(slug)
      ensures existing.None? ==> forall a | a in users :: users[a].agencySlug != Some(slug)
    {
      if a :| a in users && users[a].agencySlug == Some(slug) {
        existing := Some(a);
      } else {
        existing := None;
      }
    }

    method GenerateUniqueAgencySlug(agencyName: string, excludeUserId: Option<UserId>) returns (candidate: string)
      requires SlugsDistinct(users)
      ensures candidate == SlugFor(fold, users, agencyName, excludeUserId)
    {
      var base := SlugifyAgencyName(fold, agencyName);
      if base == "" {
        base := "agence";
      }
      candidate := base;
      var suffix := 2;
      ghost var k := 0;
      while true
        invariant suffix == k + 2 && candidate == Candidate(base, k)
        invariant forall j | 0 <= j < k :: !IsFree(users, Candidate(base, j), excludeUserId)
        decreases |SlugsOf(users)| + 1 - k
      {
        var existing := FindBySlug(candidate);
        FreeIffFound(users, candidate, existing, excludeUserId);
        if existing.None? || existing == excludeUserId {
          FirstFreeIsOne(users, base, excludeUserId, k);
          return;
        }
        OneMoreTaken(users, base, excludeUserId, k);
        candidate := base + "-" + Decimals.Digits(suffix);
        suffix := suffix + 1;
        k := k + 1;
      }
    }

    method UpdateMe(userId: UserId, agencyName: Option<string>) returns (outcome: Outcome)
      requires SlugsDistinct(users)
      modifies this`users
      ensures Reply(outcome, users) == Step(fold, old(users), Request.UpdateMe(userId, agencyName))
    {
      var agencySlug: Option<string> := None;
      if agencyName.Some? && agencyName.value != "" {
        if userId !in users {
          return NotFound;
        }
        if HasNoSlug(users[userId]) {
          var slug := GenerateUniqueAgencySlug(agencyName.value, Some(userId));
          agencySlug := Some(slug);
        }
      }
      if userId !in users {
        return NotFound;
      }
      var user := users[userId];
      if agencyName.Some? {
        user := user.(agencyName := agencyName);
      }
      if agencySlug.Some? && agencySlug.value != "" {
        user := user.(agencySlug := agencySlug);
      }
      ghost var was := users;
      if agencyName.Some? {
        SlugFits(fold, was, agencyName.value, Some(userId));
      }
      users := users[userId := user];
      return Accepted;
    }

    method CreateProAgence(adminId: UserId, newId: UserId, email: string, agencyName: string, clerkCreates: bool)
      returns (outcome: Outcome)
      requires SlugsDistinct(users)
      modifies this`users
      ensures Reply(outcome, users)
           == Step(fold, old(users), Request.CreateProAgence(adminId, newId, email, agencyName, clerkCreates))
    {
      if adminId !in users {
        return NotFound;
      }
      if !users[adminId].isAdmin {
        return Forbidden;
      }
      if EmailTaken(users, email) {
        return Conflict;
      }
      if !clerkCreates {
        return Conflict;
      }
      var agencySlug := GenerateUniqueAgencySlug(agencyName, None);
      if newId in users {
        return Conflict;
      }
      users := users[newId := User(email, false, Some(agencyName), Some(agencySlug))];
      return Accepted;
    }
  }
}
