/** Every cause of every change of an account, and the address an agency is given, sign by sign. */
module AgencyAccounts {
  import opened Agencies
  import opened Decimals
  import opened Slugs
  import opened Wrappers

  /** Somebody else than the one who asks has the address. */
  ghost predicate Taken(users: Users, slug: string, asks: Option<UserId>) {
    exists a :: a in users && users[a].agencySlug == Some(slug) && Some(a) != asks
  }

  /** The slug of the name, or "agence" if there is none; then the same with -2, -3 and so on: the first
      that nobody else has. */
  ghost predicate FirstAddress(users: Users, base: string, asks: Option<UserId>, slug: string) {
    || (slug == base && !Taken(users, base, asks))
    || (Taken(users, base, asks)
        && exists n: nat :: n >= 2 && slug == base + "-" + Digits(n) && !Taken(users, slug, asks)
                            && forall m: nat | 2 <= m < n :: Taken(users, base + "-" + Digits(m), asks))
  }

  lemma CandidateIs(base: string, k: nat)
    ensures Candidate(base, k) == if k == 0 then base else base + "-" + Digits(k + 1)
  {
  }

  lemma FreeIffNotTaken(users: Users, slug: string, asks: Option<UserId>)
    ensures IsFree(users, slug, asks) <==> !Taken(users, slug, asks)
  {
  }

  lemma AddressGiven(fold: Folding, users: Users, name: string, asks: Option<UserId>)
    ensures var slug := SlugifyAgencyName(fold, name);
            FirstAddress(users, if slug == "" then "agence" else slug, asks, SlugFor(fold, users, name, asks))
  {
    var base := BaseOf(fold, name);
    var k := FirstFree(users, base, asks);
    CandidateIs(base, k);
    FreeIffNotTaken(users, Candidate(base, k), asks);
    if k > 0 {
      CandidateIs(base, 0);
      FreeIffNotTaken(users, Candidate(base, 0), asks);
      assert !IsFree(users, Candidate(base, 0), asks);
      forall m: nat | 2 <= m < k + 1 ensures Taken(users, base + "-" + Digits(m), asks) {
        assert !IsFree(users, Candidate(base, m - 1), asks);
        FreeIffNotTaken(users, Candidate(base, m - 1), asks);
      }
    }
  }

  // ----- accounts -----

  predicate IsAdmin(users: Users, id: UserId) {
    id in users && users[id].isAdmin
  }

  ghost predicate HasEmail(users: Users, email: string) {
    exists a :: a in users && users[a].email == email
  }

  /** An administrator creates an agency, or the identity provider announces a user; with an e-mail that
      nobody has. */
  ghost predicate Opens(users: Users, r: Request, id: UserId) {
    || (r.CreateProAgence? && r.newId == id && IsAdmin(users, r.adminId) && !HasEmail(users, r.email) && r.clerkCreates)
    || (r.SyncUser? && r.newId == id && !HasEmail(users, r.email))
  }

  /** An account that nothing holds goes, by an administrator unless it is one, or by the identity
      provider. */
  predicate Closes(users: Users, r: Request, id: UserId)
    requires id in users
  {
    || (r.DeleteUser? && r.targetId == id && IsAdmin(users, r.adminId) && !users[id].isAdmin && !r.held)
    || (r.AccountDeleted? && r.targetId == id && !r.held)
  }

  /** The user gives a name, and has no address yet. */
  predicate AsksForAddress(users: Users, r: Request, id: UserId)
    requires id in users
  {
    && r.UpdateMe? && r.userId == id && r.agencyName.Some? && |r.agencyName.value| > 0
    && (users[id].agencySlug == None || users[id].agencySlug == Some(""))
  }

  lemma AccountsExact(fold: Folding, users: Users, r: Request, id: UserId)
    ensures id !in users ==> (id in Step(fold, users, r).users <==> Opens(users, r, id))
    ensures id in users ==> (id in Step(fold, users, r).users <==> !Closes(users, r, id))
  {
  }

  /** A new account is no administrator; an agency has its name and an address, a user neither. */
  lemma NewAccount(fold: Folding, users: Users, r: Request, id: UserId)
    requires id !in users && id in Step(fold, users, r).users
    ensures var user := Step(fold, users, r).users[id];
            && user.email == r.email && !user.isAdmin
            && if r.SyncUser? then user.agencyName.None? && user.agencySlug.None?
               else user.agencyName == Some(r.name) && user.agencySlug == Some(SlugFor(fold, users, r.name, None))
  {
  }

  /** An account keeps its e-mail and its rights; its name is the last one given, and its address is given
      to it once. */
  lemma AccountExact(fold: Folding, users: Users, r: Request, id: UserId)
    requires id in users && id in Step(fold, users, r).users
    ensures var was, user := users[id], Step(fold, users, r).users[id];
            && user.email == was.email && user.isAdmin == was.isAdmin
            && user.agencyName == (if r.UpdateMe? && r.userId == id && r.agencyName.Some? then r.agencyName
                                   else was.agencyName)
            && user.agencySlug == if AsksForAddress(users, r, id)
                                  then Some(SlugFor(fold, users, r.agencyName.value, Some(id))) else was.agencySlug
  {
  }

  /** Who hears what: unknown callers and targets, callers without rights, conflicts. */
  lemma AnswerExact(fold: Folding, users: Users, r: Request)
    ensures Step(fold, users, r).outcome
         == match r
            case UpdateMe(userId, _) => if userId in users then Accepted else NotFound
            case CreateProAgence(adminId, newId, email, _, clerkCreates) =>
              if adminId !in users then NotFound
              else if !users[adminId].isAdmin then Forbidden
              else if HasEmail(users, email) || !clerkCreates || newId in users then Conflict
              else Accepted
            case SyncUser(newId, email) => if newId !in users && HasEmail(users, email) then Conflict else Accepted
            case DeleteUser(adminId, targetId, held) =>
              if adminId !in users then NotFound
              else if !users[adminId].isAdmin then Forbidden
              else if targetId !in users then NotFound
              else if users[targetId].isAdmin then Forbidden
              else if held then Conflict
              else Accepted
            case AccountDeleted(targetId, held) => if held && targetId in users then Conflict else Accepted
  {
  }
}
