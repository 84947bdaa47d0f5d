/** When removing a member, handing over a workspace, inviting and revoking succeed, and what is
    true of the rows then. Joining is `WorkspaceTheorems.JoinsExactlyWhenInvited`. */
module MemberOutcomes {
  import opened Wrappers
  import opened Access
  import opened Text
  import opened Entities
  import opened Store
  import opened UseCases
  import opened Invariant
  import opened Runs
  import opened WorkspaceTheorems
  import opened WorkspaceOutcomes
  import opened RoleOutcomes
  import opened Authority

  // --- removing ---------------------------------------------------------------------

  lemma RemoveSucceedsExactly(t: Tables, now: Time, w: Id, memberId: Id, u: Id)
    requires Reachable(t, now)
    ensures RemoveMember(t, w, memberId, u).Success?
       <==> May(t, u, MembersRemove, w) && (w, memberId) in t.members && memberId != t.workspaces[w].ownerId
    ensures RemoveMember(t, w, memberId, u) == Failure(OwnerIsProtected)
       <==> May(t, u, MembersRemove, w) && memberId == t.workspaces[w].ownerId
    ensures RemoveMember(t, w, memberId, u) == Failure(MemberNotFound)
       <==> May(t, u, MembersRemove, w) && (w, memberId) !in t.members && memberId != t.workspaces[w].ownerId
  {
    RequireExactly(t, now, u, MembersRemove, w);
    SingleOwnerCheckNeverFires(t, now, w, memberId, 0, "", "", u);
  }

  /** One membership goes; its holder is back at the workspace step if it was the last one. */
  lemma RemoveLeaves(t: Tables, w: Id, memberId: Id, u: Id)
    requires RemoveMember(t, w, memberId, u).Success?
    ensures var t' := RemoveMember(t, w, memberId, u).value;
            && t' == t.(members := t'.members, users := t'.users)
            && (forall m :: m in t'.members <==> m in t.members && m != (w, memberId))
            && (forall m <- t'.members :: t'.members[m] == t.members[m])
            && t'.users.Keys == t.users.Keys
            && (forall o <- t.users ::
                  t'.users[o] == if o == memberId && OnlyIn(t, o, w) && t.users[o].status == Completed
                                 then t.users[o].(status := WorkspacePending) else t.users[o])
  {
    var t' := RemoveMember(t, w, memberId, u).value;
    assert !BelongsToAny(t'.members, memberId) <==> OnlyIn(t, memberId, w) by {
      if m :| m in t.members && m.1 == memberId && m.0 != w {
        assert m in t'.members;
      }
    }
  }

  // --- handing over -----------------------------------------------------------------

  lemma TransferSucceedsExactly(t: Tables, now: Time, w: Id, targetId: Id, u: Id)
    requires Reachable(t, now)
    ensures Transfer(t, w, targetId, u).Success? <==> Owns(t, u, w) && targetId != u && (w, targetId) in t.members
    ensures Transfer(t, w, targetId, u) == Failure(SelectAnotherMember) <==> Owns(t, u, w) && targetId == u
    ensures Transfer(t, w, targetId, u) == Failure(MemberNotFound)
       <==> Owns(t, u, w) && targetId != u && (w, targetId) !in t.members
  {
    RequireExactly(t, now, u, WorkspaceTransfer, w);
    OwnerActionsTakeOwnership(t, now, u, w);
    SingleOwnerCheckNeverFires(t, now, w, targetId, 0, "", "", u);
  }

  /** A role named admin of the workspace, if it has one, or a new one with an admin's permissions. */
  ghost predicate AdminOf(t: Tables, t': Tables, w: Id, admin: Id) {
    && admin in t'.roles && t'.roles[admin].workspaceId == w && t'.roles[admin].name == "admin"
    && if NameHeld(t, w, "admin", t.nextId) then t'.roles == t.roles && t'.grants == t.grants
       else && admin !in t.roles && t'.roles == t.roles[admin := Role(w, "admin", true, false)]
            && t'.grants == t.grants[admin := {WorkspaceUpdate, MembersInvite, MembersRemove, InvitationsRevoke,
                                               RolesManage, ProductsCreate, ProductsUpdate, ProductsDelete}]
  }

  lemma AdminFound(t: Tables, w: Id, found: Option<Id>)
    requires forall r <- t.roles :: r < t.nextId
    requires if found.Some? then HasRole(t, w, ADMIN_ROLE, found.value) else forall id :: !HasRole(t, w, ADMIN_ROLE, id)
    ensures AdminOf(t, WithAdminRole(t, w, found), w, if found.Some? then found.value else t.nextId)
  {
    SystemRolesPromise();
    assert "admin"[0] != "owner"[0];
    if found.Some? {
      assert NameHeld(t, w, "admin", t.nextId);
    } else if r :| r in t.roles && r != t.nextId && t.roles[r].workspaceId == w && t.roles[r].name == "admin" {
      assert HasRole(t, w, ADMIN_ROLE, r);
    }
  }

  /** The target is the owner and holds the owner's role; the previous owner holds an admin's.
      No other member, role, account, invitation or product differs. */
  lemma TransferLeaves(t: Tables, now: Time, w: Id, targetId: Id, u: Id)
    requires Reachable(t, now) && Transfer(t, w, targetId, u).Success?
    ensures var t' := Transfer(t, w, targetId, u).value;
            && t'.workspaces.Keys == t.workspaces.Keys
            && (forall v <- t.workspaces :: v != w ==> t'.workspaces[v] == t.workspaces[v])
            && t'.workspaces[w] == t.workspaces[w].(ownerId := targetId)
            && t'.members.Keys == t.members.Keys
            && (forall m <- t.members :: m != (w, u) && m != (w, targetId) ==> t'.members[m] == t.members[m])
            && t'.members[(w, targetId)] == t.members[(w, u)]
            && AdminOf(t, t', w, t'.members[(w, u)].roleId)
            && t'.users == t.users && t'.invitations == t.invitations && t'.products == t.products
  {
    Transferred(t, w, targetId, u, Transfer(t, w, targetId, u).value);
    FoundedIsNew(t, now);
    AdminFound(t, w, RoleByName(t, w, ADMIN_ROLE));
  }

  // --- inviting ---------------------------------------------------------------------

  /** Somebody with this address, in any letter case, is a member of the workspace. */
  ghost predicate AddressOfMember(t: Tables, w: Id, email: string) {
    exists m :: m in t.members && m.0 == w && m.1 in t.users && t.users[m.1].email == Lower(email)
  }

  ghost predicate AddressInvited(t: Tables, w: Id, email: string, clock: Time) {
    exists i :: i in t.invitations && t.invitations[i].workspaceId == w && t.invitations[i].email == Lower(email)
                && t.invitations[i].status == Pending && clock < t.invitations[i].expiresAt
  }

  /** The right to invite reaches to the system role named member; any other role also takes the
      right to manage roles. */
  ghost predicate MayInviteAs(t: Tables, u: Id, w: Id, r: Id) {
    && May(t, u, MembersInvite, w) && Ordinary(t, w, r)
    && ((t.roles[r].isSystem && t.roles[r].name == "member") || May(t, u, RolesManage, w))
  }

  lemma InviteSucceedsExactly(t: Tables, now: Time, w: Id, email: string, r: Id, u: Id, clock: Time, later: Time)
    requires Reachable(t, now)
    ensures Invite(t, w, email, r, u, clock, later).Success?
       <==> MayInviteAs(t, u, w, r) && !AddressOfMember(t, w, email) && !AddressInvited(t, w, email, clock)
    ensures Invite(t, w, email, r, u, clock, later) == Failure(AlreadyInvited)
       <==> MayInviteAs(t, u, w, r) && (AddressOfMember(t, w, email) || AddressInvited(t, w, email, clock))
    ensures Invite(t, w, email, r, u, clock, later) == Failure(InvitingTakesRolesManage)
       <==> May(t, u, MembersInvite, w) && Ordinary(t, w, r) && !MayInviteAs(t, u, w, r)
    ensures Invite(t, w, email, r, u, clock, later) == Failure(RoleNotFound)
       <==> May(t, u, MembersInvite, w) && Unknown(t, w, r)
    ensures Invite(t, w, email, r, u, clock, later) == Failure(OwnerIsProtected)
       <==> May(t, u, MembersInvite, w) && !Unknown(t, w, r) && t.roles[r].isProtected
  {
    RequireExactly(t, now, u, MembersInvite, w);
    RequireExactly(t, now, u, RolesManage, w);
    LowerIdempotent(email);
    assert MemberHasEmail(t, w, Lower(email)) <==> AddressOfMember(t, w, email);
    assert HasPending(t, w, Lower(email), clock) <==> AddressInvited(t, w, email, clock);
  }

  const SEVEN_DAYS := 604800

  /** One pending invitation is new, under a new id and token. */
  lemma InviteLeaves(t: Tables, now: Time, w: Id, email: string, r: Id, u: Id, clock: Time, later: Time)
    requires Reachable(t, now) && Invite(t, w, email, r, u, clock, later).Success?
    ensures var t', i := Invite(t, w, email, r, u, clock, later).value, t.nextId;
            && i !in t.invitations && t' == t.(invitations := t'.invitations, nextId := t.nextId + 1)
            && t'.invitations.Keys == t.invitations.Keys + {i}
            && (forall j <- t.invitations ::
                  t'.invitations[j] == t.invitations[j] && t.invitations[j].token != t'.invitations[i].token)
    ensures var x := Invite(t, w, email, r, u, clock, later).value.invitations[t.nextId];
            && x.workspaceId == w && x.roleId == r && x.email == Lower(email) && x.invitedBy == u
            && x.status == Pending && x.acceptedBy == None && x.expiresAt == later + SEVEN_DAYS
            && forall moment: Time :: x.Open(moment) <==> moment < later + SEVEN_DAYS
  {
    FoundedIsNew(t, now);
    ReachableIsOk(t, now);
    LowerIdempotent(email);
    forall j <- t.invitations ensures t.invitations[j].token != t.nextId {
      assert Below(Tokens(t.invitations)[j], t.nextId);
    }
  }

  /** For seven days whoever holds the address can join with the new token. */
  lemma InvitationLastsSevenDays(t: Tables, now: Time, w: Id, email: string, r: Id, u: Id, clock: Time, later: Time,
                                 v: Id, moment: Time, moment': Time)
    requires Reachable(t, now) && now <= clock <= later <= moment <= moment' < later + SEVEN_DAYS
    requires Invite(t, w, email, r, u, clock, later).Success? && v in t.users && t.users[v].email == Lower(email)
    ensures var t' := Invite(t, w, email, r, u, clock, later).value;
            Join(t', t'.invitations[t.nextId].token, v, moment, moment').Success?
  {
    var t' := Invite(t, w, email, r, u, clock, later).value;
    InviteLeaves(t, now, w, email, r, u, clock, later);
    ReachableIsOk(t, now);
    InvAges(t, now, later);
    InviteKeeps(t, w, email, r, u, t', clock, later);
    InvAges(t', later, moment);
    InvitedJoins(t', t.nextId, t'.invitations[t.nextId].token, v, moment, moment');
  }

  // --- revoking ---------------------------------------------------------------------

  lemma RevokeSucceedsExactly(t: Tables, now: Time, w: Id, i: Id, u: Id, clock: Time)
    requires Reachable(t, now)
    ensures RevokeInvitation(t, w, i, u, clock).Success?
       <==> && May(t, u, InvitationsRevoke, w) && i in t.invitations && t.invitations[i].workspaceId == w
            && t.invitations[i].status == Pending && clock < t.invitations[i].expiresAt
    ensures RevokeInvitation(t, w, i, u, clock) == Failure(InvitationNotFound)
       <==> May(t, u, InvitationsRevoke, w) && (i !in t.invitations || t.invitations[i].workspaceId != w)
    ensures RevokeInvitation(t, w, i, u, clock) == Failure(NoLongerPending)
       <==> && May(t, u, InvitationsRevoke, w) && i in t.invitations && t.invitations[i].workspaceId == w
            && (t.invitations[i].status != Pending || t.invitations[i].expiresAt <= clock)
  {
    RequireExactly(t, now, u, InvitationsRevoke, w);
  }

  /** That invitation is revoked; every other row is as it was. */
  lemma RevokeLeaves(t: Tables, w: Id, i: Id, u: Id, clock: Time)
    requires RevokeInvitation(t, w, i, u, clock).Success?
    ensures var t' := RevokeInvitation(t, w, i, u, clock).value;
            && i in t.invitations && t' == t.(invitations := t'.invitations)
            && t'.invitations.Keys == t.invitations.Keys
            && t'.invitations[i].status == Revoked && (forall moment: Time :: !t'.invitations[i].Open(moment))
            && t'.invitations[i] == t.invitations[i].(status := t'.invitations[i].status)
            && forall j <- t.invitations :: j != i ==> t'.invitations[j] == t.invitations[j]
  {}

  // --- spent tokens -----------------------------------------------------------------

  /** The token was given out, and no invitation that has it is pending. */
  ghost predicate Spent(t: Tables, token: Token) {
    token < t.nextId && forall i <- t.invitations :: t.invitations[i].token == token ==> t.invitations[i].status != Pending
  }

  lemma SpentAfterAStep(t: Tables, t': Tables, token: Token)
    requires Spent(t, token) && Evolves(t, t')
    ensures Spent(t', token)
  {
    forall i <- t'.invitations | t'.invitations[i].token == token ensures t'.invitations[i].status != Pending {
      assert InvitationEvolves(t, t', i);
    }
  }

  /** Nothing that happens later brings a spent token back. */
  lemma {:induction false} SpentTokensStaySpent(t: Tables, events: seq<Event>, start: Time, token: Token)
    requires Inv(t, start) && Chronological(events, start) && Spent(t, token)
    ensures Spent(Run(t, events), token)
    decreases events
  {
    if events != [] {
      OneStepOn(t, events[0], start);
      SpentAfterAStep(t, Step(t, events[0]), token);
      SpentTokensStaySpent(Step(t, events[0]), events[1..], events[0].later, token);
    }
  }

  /** With a spent token nobody joins, and registering with it is registering without one. */
  lemma SpentTokensOpenNothing(t: Tables, token: Token, u: Id, email: string, name: string, now: Time, later: Time)
    requires Spent(t, token)
    ensures Join(t, token, u, now, later).Failure?
    ensures u in t.users ==> Join(t, token, u, now, later) == Failure(InvitationUnusable)
    ensures Register(t, u, email, name, Some(token), now, later) == Register(t, u, email, name, None, now, later)
  {
    OwnAccountExactly(t, u);
    var added := AddUnlessTaken(t, u, User.New(email, name));
    assert Spent(added, token);
  }

  lemma OnlyOneHasTheToken(t: Tables, now: Time, i: Id, j: Id)
    requires Reachable(t, now) && i in t.invitations && j in t.invitations
    ensures t.invitations[i].token < t.nextId
    ensures t.invitations[i].token == t.invitations[j].token ==> i == j
  {
    ReachableIsOk(t, now);
    assert Below(Tokens(t.invitations)[i], t.nextId);
    assert Same(Tokens(t.invitations)[i], Tokens(t.invitations)[j]) <==> t.invitations[i].token == t.invitations[j].token;
  }

  lemma SettlingSpends(t: Tables, now: Time, i: Id, t': Tables)
    requires Reachable(t, now) && i in t.invitations && t.nextId <= t'.nextId
    requires t'.invitations.Keys == t.invitations.Keys && t'.invitations[i].token == t.invitations[i].token
    requires t'.invitations[i].status != Pending && forall j <- t.invitations :: j != i ==> t'.invitations[j] == t.invitations[j]
    ensures Spent(t', t.invitations[i].token)
  {
    forall j <- t'.invitations | t'.invitations[j].token == t.invitations[i].token ensures t'.invitations[j].status != Pending {
      OnlyOneHasTheToken(t, now, i, j);
    }
    OnlyOneHasTheToken(t, now, i, i);
  }

  /** Once an invitation is revoked its token never lets anybody in, at no later point of any run. */
  lemma RevokedNeverJoins(t: Tables, now: Time, w: Id, i: Id, u: Id, clock: Time, events: seq<Event>, v: Id,
                          moment: Time, later: Time)
    requires Reachable(t, now) && now <= clock && RevokeInvitation(t, w, i, u, clock).Success?
    requires Chronological(events, clock)
    ensures var t' := Run(RevokeInvitation(t, w, i, u, clock).value, events);
            Spent(t', t.invitations[i].token) && Join(t', t.invitations[i].token, v, moment, later).Failure?
  {
    var t', token := RevokeInvitation(t, w, i, u, clock).value, t.invitations[i].token;
    RevokeLeaves(t, w, i, u, clock);
    SettlingSpends(t, now, i, t');
    ReachableIsOk(t, now);
    InvAges(t, now, clock);
    RevokeInvitationKeeps(t, w, i, u, t', clock);
    SpentTokensStaySpent(t', events, clock, token);
    SpentTokensOpenNothing(Run(t', events), token, v, "", "", moment, later);
  }

  /** Nor does a token that somebody has joined with: an invitation is good for one person. */
  lemma InvitationsAreSingleUse(t: Tables, now: Time, token: Token, u: Id, clock: Time, middle: Time,
                                events: seq<Event>, v: Id, moment: Time, later: Time)
    requires Reachable(t, now) && now <= clock <= middle && Join(t, token, u, clock, middle).Success?
    requires Chronological(events, middle)
    ensures var t' := Run(Join(t, token, u, clock, middle).value, events);
            Spent(t', token) && Join(t', token, v, moment, later).Failure?
  {
    var t', i := Join(t, token, u, clock, middle).value, Joinable(t, token, u, clock).value;
    SettlingSpends(t, now, i, t');
    ReachableIsOk(t, now);
    InvAges(t, now, clock);
    JoinKeeps(t, token, u, t', clock, middle);
    SpentTokensStaySpent(t', events, middle, token);
    SpentTokensOpenNothing(Run(t', events), token, v, "", "", moment, later);
  }

  // --- joining ----------------------------------------------------------------------

  /** The token is an invitation's that is open, whoever it is for. */
  ghost predicate Usable(t: Tables, i: Id, token: Token, moment: Time) {
    i in t.invitations && t.invitations[i].token == token
    && t.invitations[i].status == Pending && moment < t.invitations[i].expiresAt
  }

  /** Why somebody does not join: no account, no open invitation with that token, or one for
      another address. One that expires before it is accepted counts as none. */
  lemma JoinFailsExactly(t: Tables, token: Token, u: Id, now: Time, later: Time)
    requires Reachable(t, now)
    ensures Join(t, token, u, now, later) == Failure(AccountNotFound) <==> u !in t.users
    ensures Join(t, token, u, now, later) == Failure(WrongAddressee)
       <==> u in t.users && exists i: Id :: Usable(t, i, token, now) && t.invitations[i].email != t.users[u].email
    ensures Join(t, token, u, now, later) == Failure(InvitationUnusable)
       <==> && u in t.users
            && forall i: Id | Usable(t, i, token, now) ::
                 t.invitations[i].email == t.users[u].email && !Usable(t, i, token, later)
  {
    OwnAccountExactly(t, u);
    var found := InvitationByToken(t, token);
    if found.Some? && u in t.users && t.invitations[found.value].Open(now) {
      var i := found.value;
      forall j: Id | Usable(t, j, token, now) ensures j == i {
        OnlyOneHasTheToken(t, now, i, j);
      }
      ReachableIsOk(t, now);
      assert EmailOk(Emails(t.users)[u]);
      if t.users[u].email == t.invitations[i].email {
        InvitedJoins(t, i, token, u, now, now);
      }
    } else if found.Some? {
      forall i: Id | Usable(t, i, token, now) ensures i == found.value {
        OnlyOneHasTheToken(t, now, i, found.value);
      }
    } else {
      assert forall i: Id :: Usable(t, i, token, now) ==> HasToken(t, i, token);
    }
  }
}
