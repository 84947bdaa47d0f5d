/** What holds in every reachable state of the workspace and account tables, in the terms of
    the use cases. */
module WorkspaceTheorems {
  import opened Wrappers
  import opened Access
  import opened Text
  import opened Entities
  import opened Store
  import opened UseCases
  import opened Invariant
  import opened Runs

  ghost predicate Reachable(t: Tables, now: Time) {
    exists events: seq<Event> :: Chronological(events, 0) && t == Run(EMPTY, events) && End(events, 0) <= now
  }

  lemma ReachableIsOk(t: Tables, now: Time)
    requires Reachable(t, now)
    ensures Inv(t, now)
  {
    var events: seq<Event> :| Chronological(events, 0) && t == Run(EMPTY, events) && End(events, 0) <= now;
    EmptyIsOk(0);
    RunKeeps(EMPTY, events, 0);
    InvAges(t, End(events, 0), now);
  }

  // --- ownership --------------------------------------------------------------------

  ghost predicate ProtectedRoleOf(t: Tables, w: Id, r: Id) {
    r in t.roles && t.roles[r].workspaceId == w && t.roles[r].isProtected
  }

  lemma OneOwner(t: Tables, w: Id, now: Time)
    requires Inv(t, now) && IsLive(t.workspaces, w)
    ensures t.workspaces[w].ownerId in t.users && OwnerIds(t, w) == {t.workspaces[w].ownerId}
    ensures SingleOwner(t, w).Pass?
  {
    var owner := t.workspaces[w].ownerId;
    assert OwnerOk(w, Owners(t.workspaces)[w], t.members.Keys);
    assert MemberOk((w, owner), t.members[(w, owner)], t.users.Keys, Owners(t.workspaces), Standings(t.roles));
    forall u <- OwnerIds(t, w) ensures u == owner {
      assert MemberOk((w, u), t.members[(w, u)], t.users.Keys, Owners(t.workspaces), Standings(t.roles));
    }
    assert (w, owner) in t.members && owner in OwnerIds(t, w);
  }

  /** Every live workspace has exactly one protected role, the one named `owner`, held by
      exactly one member: the existing account the workspace names as its owner. */
  lemma SingleOwnerAlways(t: Tables, now: Time, w: Id)
    requires Reachable(t, now) && IsLive(t.workspaces, w)
    ensures t.workspaces[w].ownerId in t.users && OwnerIds(t, w) == {t.workspaces[w].ownerId}
    ensures exists r :: ProtectedRoleOf(t, w, r) && t.roles[r].name == OWNER_ROLE
                     && (forall q | ProtectedRoleOf(t, w, q) :: q == r)
                     && (forall m <- t.members | m.0 == w :: t.members[m].roleId == r <==> m.1 == t.workspaces[w].ownerId)
  {
    ReachableIsOk(t, now);
    OneOwner(t, w, now);
    var owner := t.workspaces[w].ownerId;
    assert (w, owner) in t.members;
    assert MemberOk((w, owner), t.members[(w, owner)], t.users.Keys, Owners(t.workspaces), Standings(t.roles));
    var r := t.members[(w, owner)].roleId;
    assert RoleOk(t.roles[r], t.workspaces.Keys);
    forall q | ProtectedRoleOf(t, w, q) ensures q == r {
      assert RoleOk(t.roles[q], t.workspaces.Keys);
      assert Same(RoleNames(t.roles)[q], RoleNames(t.roles)[r]);
    }
    forall m <- t.members | m.0 == w ensures t.members[m].roleId == r <==> m.1 == owner {
      assert MemberOk(m, t.members[m], t.users.Keys, Owners(t.workspaces), Standings(t.roles));
    }
    assert ProtectedRoleOf(t, w, r);
  }

  /** The defensive `ensure_single_owner` check of the four use cases that make it never fires. */
  lemma SingleOwnerCheckNeverFires(t: Tables, now: Time, w: Id, memberId: Id, roleId: Id, name: string, slug: string, u: Id)
    requires Reachable(t, now)
    ensures Create(t, name, Address(slug), u) != Failure(NotASingleOwner)
    ensures SetMemberRole(t, w, memberId, roleId, u) != Failure(NotASingleOwner)
    ensures RemoveMember(t, w, memberId, u) != Failure(NotASingleOwner)
    ensures Transfer(t, w, memberId, u) != Failure(NotASingleOwner)
  {
    ReachableIsOk(t, now);
    CreateChecks(t, name, Address(slug), u, now);
    AssignChecks(t, w, memberId, roleId, u, now);
    RemoveChecks(t, w, memberId, u, now);
    TransferChecks(t, w, memberId, u, now);
  }

  lemma FoundedHasOneOwner(t: Tables, name: string, slug: Slug, u: Id, t': Tables, now: Time)
    requires Inv(t, now) && u in t.users && t' == Founded(t, name, slug, u)
    requires t.users[u].status != ProfilePending && slug.Address? && !SlugInUse(t', slug, t.nextId)
    ensures SingleOwner(t', t.nextId).Pass?
  {
    SlugWasUnused(t.workspaces, t.nextId, t'.workspaces[t.nextId], t');
    WorkspaceFounded(t, name, slug, u, t', now);
    OneOwner(t', t.nextId, now);
  }

  lemma CreateGotToTheCheck(t: Tables, name: string, slug: Slug, u: Id, t': Tables)
    requires Create(t, name, slug, u) == Failure(NotASingleOwner)
    requires u in t.users ==> t' == Founded(t, name, slug, u)
    ensures u in t.users && t.users[u].status != ProfilePending
    ensures !SlugInUse(t', slug, t.nextId) && !SingleOwner(t', t.nextId).Pass?
  {}

  lemma CreateChecks(t: Tables, name: string, slug: Slug, u: Id, now: Time)
    requires Inv(t, now) && slug.Address?
    ensures Create(t, name, slug, u) != Failure(NotASingleOwner)
  {
    if Create(t, name, slug, u) == Failure(NotASingleOwner) {
      CreateGotToTheCheck(t, name, slug, u, Founded(t, name, slug, u));
      FoundedHasOneOwner(t, name, slug, u, Founded(t, name, slug, u), now);
    }
  }

  lemma AssignChecks(t: Tables, w: Id, memberId: Id, roleId: Id, u: Id, now: Time)
    requires Inv(t, now)
    ensures SetMemberRole(t, w, memberId, roleId, u) != Failure(NotASingleOwner)
  {
    if SetMemberRole(t, w, memberId, roleId, u) == Failure(NotASingleOwner) {
      MemberRoleSet(t, w, memberId, roleId, now);
      OneOwner(t.(members := t.members[(w, memberId) := Member(roleId)]), w, now);
    }
  }

  lemma RemoveChecks(t: Tables, w: Id, memberId: Id, u: Id, now: Time)
    requires Inv(t, now)
    ensures RemoveMember(t, w, memberId, u) != Failure(NotASingleOwner)
  {
    if RemoveMember(t, w, memberId, u) == Failure(NotASingleOwner) {
      var members := t.members - {(w, memberId)};
      var t' := t.(members := members, users := ReturnToWorkspaceStep(t.users, members, {memberId}));
      assert OwnerIds(t', w) == OwnerIds(t.(members := members), w);
      MemberRemoved(t, w, memberId, now);
      OneOwner(t', w, now);
    }
  }

  lemma TransferChecks(t: Tables, w: Id, targetId: Id, u: Id, now: Time)
    requires Inv(t, now)
    ensures Transfer(t, w, targetId, u) != Failure(NotASingleOwner)
  {
    if Transfer(t, w, targetId, u) == Failure(NotASingleOwner) {
      OwnerActionsAreTheOwners(t, u, WorkspaceTransfer, w);
      var found := RoleByName(t, w, ADMIN_ROLE);
      var adminId, t1 := if found.Some? then found.value else t.nextId, WithAdminRole(t, w, found);
      AdminRoleKeeps(t, w, found, now);
      OwnershipMoved(t1, w, u, targetId, adminId, now);
      OneOwner(t1.(members := t1.members[(w, targetId) := t1.members[(w, u)]][(w, u) := Member(adminId)],
               workspaces := t1.workspaces[w := t1.workspaces[w].(ownerId := targetId)]), w, now);
    }
  }

  // --- references -------------------------------------------------------------------

  /** No row names one that is gone, except for who accepted an invitation. */
  lemma ReferencesHold(t: Tables, now: Time)
    requires Reachable(t, now)
    ensures forall m <- t.members ::
              && m.1 in t.users && IsLive(t.workspaces, m.0)
              && t.members[m].roleId in t.roles && t.roles[t.members[m].roleId].workspaceId == m.0
    ensures forall i <- t.invitations ::
              var x := t.invitations[i];
              && x.workspaceId in t.workspaces && x.invitedBy in t.users
              && x.roleId in t.roles && t.roles[x.roleId].workspaceId == x.workspaceId
              && !t.roles[x.roleId].isProtected
              && (x.status == Pending ==> IsLive(t.workspaces, x.workspaceId))
    ensures forall r <- t.grants :: r in t.roles && t.roles[r].workspaceId in t.workspaces
    ensures forall w <- t.workspaces | t.workspaces[w].Live() :: t.workspaces[w].ownerId in t.users
  {
    ReachableIsOk(t, now);
    forall m <- t.members
      ensures m.1 in t.users && IsLive(t.workspaces, m.0)
      ensures t.members[m].roleId in t.roles && t.roles[t.members[m].roleId].workspaceId == m.0
    {
      assert MemberOk(m, t.members[m], t.users.Keys, Owners(t.workspaces), Standings(t.roles));
    }
    forall i <- t.invitations
      ensures var x := t.invitations[i];
              && x.workspaceId in t.workspaces && x.invitedBy in t.users
              && x.roleId in t.roles && t.roles[x.roleId].workspaceId == x.workspaceId
              && !t.roles[x.roleId].isProtected
              && (x.status == Pending ==> IsLive(t.workspaces, x.workspaceId))
    {
      assert InvitationOk(t.invitations[i], t.users.Keys, t.workspaces.Keys, Owners(t.workspaces).Keys, Standings(t.roles));
    }
    forall r <- t.grants ensures r in t.roles && t.roles[r].workspaceId in t.workspaces {
      assert GrantOk(r, t.grants[r], t.roles.Keys);
      assert RoleOk(t.roles[r], t.workspaces.Keys);
    }
    forall w <- t.workspaces | t.workspaces[w].Live() ensures t.workspaces[w].ownerId in t.users {
      OneOwner(t, w, now);
    }
  }

  /** `preview_invitation`: the workspace and role a token leads to. */
  ghost function Preview(t: Tables, token: Token, now: Time): Result<(Workspace, string), Error> {
    var i :- UsableInvitation(t, token, now);
    var workspace :- LiveWorkspace(t, t.invitations[i].workspaceId);
    var role :- ConfigurableRole(t, t.invitations[i].workspaceId, t.invitations[i].roleId);
    Success((workspace, role.name))
  }

  /** A token previews exactly when it is some open invitation's: the workspace and the role
      are always still there. */
  lemma UsableTokensPreview(t: Tables, token: Token, now: Time)
    requires Reachable(t, now)
    ensures Preview(t, token, now).Success?
       <==> exists i :: HasToken(t, i, token) && t.invitations[i].Open(now)
    ensures Preview(t, token, now).Failure? ==> Preview(t, token, now).error == InvitationUnusable
  {
    ReachableIsOk(t, now);
    var found := InvitationByToken(t, token);
    if i :| HasToken(t, i, token) && t.invitations[i].Open(now) {
      assert HasToken(t, i, token);
      assert found.Some? && Same(Tokens(t.invitations)[i], Tokens(t.invitations)[found.value]);
    }
    if UsableInvitation(t, token, now).Success? {
      assert InvitationOk(t.invitations[found.value], t.users.Keys, t.workspaces.Keys, Owners(t.workspaces).Keys,
                          Standings(t.roles));
    }
  }

  // --- invitations ------------------------------------------------------------------

  /** At every moment at most one invitation per workspace and email can be accepted, and none
      is for the email of a member of that workspace. */
  lemma OpenInvitationsAreUnique(t: Tables, now: Time)
    requires Reachable(t, now)
    ensures forall i <- t.invitations, j <- t.invitations ::
              && t.invitations[i].Open(now) && t.invitations[j].Open(now)
              && t.invitations[i].workspaceId == t.invitations[j].workspaceId
              && t.invitations[i].email == t.invitations[j].email
              ==> i == j
    ensures forall i <- t.invitations, m <- t.members ::
              t.invitations[i].Open(now) && m.0 == t.invitations[i].workspaceId && m.1 in t.users
              ==> t.users[m.1].email != t.invitations[i].email
  {
    ReachableIsOk(t, now);
    var open := OpenAddresses(t.invitations, now);
    forall i <- t.invitations, j <- t.invitations
      | && t.invitations[i].Open(now) && t.invitations[j].Open(now)
        && t.invitations[i].workspaceId == t.invitations[j].workspaceId
        && t.invitations[i].email == t.invitations[j].email
      ensures i == j
    {
      assert Same(open[i], open[j]);
    }
    forall i <- t.invitations, m <- t.members
      | t.invitations[i].Open(now) && m.0 == t.invitations[i].workspaceId && m.1 in t.users
      ensures t.users[m.1].email != t.invitations[i].email
    {
      assert Vacant(open[i], MemberAddresses(t.members.Keys, Emails(t.users)));
      assert (m.0, Emails(t.users)[m.1]) in MemberAddresses(t.members.Keys, Emails(t.users));
    }
  }

  /** `token` is an invitation's for `u`, and it is open at both moments the clock is read. */
  ghost predicate Admits(t: Tables, i: Id, token: Token, u: Id, now: Time, later: Time) {
    && HasToken(t, i, token)
    && t.invitations[i].Open(now) && t.invitations[i].Open(later)
    && u in t.users && t.users[u].email == t.invitations[i].email
  }

  /** An account can join exactly when the token is an invitation's that is for its email and
      stays open: the workspace, the role and the missing membership need no luck. Then that
      invitation, that member and that account's onboarding are all that changes. */
  lemma JoinsExactlyWhenInvited(t: Tables, token: Token, u: Id, now: Time, later: Time)
    requires Reachable(t, now)
    ensures Join(t, token, u, now, later).Success? <==> exists i :: Admits(t, i, token, u, now, later)
    ensures forall i | Admits(t, i, token, u, now, later) ::
              var x := t.invitations[i];
              && (x.workspaceId, u) !in t.members
              && Join(t, token, u, now, later) == Success(t.(
                  members := t.members[(x.workspaceId, u) := Member(x.roleId)],
                  invitations := t.invitations[i := x.(status := Accepted, acceptedBy := Some(u))],
                  users := t.users[u := t.users[u].JoinedAWorkspace()]))
  {
    ReachableIsOk(t, now);
    if Join(t, token, u, now, later).Success? {
      assert EmailOk(Emails(t.users)[u]);
      assert Admits(t, Joinable(t, token, u, now).value, token, u, now, later);
    }
    forall i | Admits(t, i, token, u, now, later)
      ensures (t.invitations[i].workspaceId, u) !in t.members
      ensures Join(t, token, u, now, later) == Success(Joined(t, i, u))
    {
      InvitedJoins(t, i, token, u, now, later);
    }
  }

  lemma InvitedJoins(t: Tables, i: Id, token: Token, u: Id, now: Time, later: Time)
    requires Inv(t, now) && Admits(t, i, token, u, now, later)
    ensures (t.invitations[i].workspaceId, u) !in t.members
    ensures Join(t, token, u, now, later) == Success(Joined(t, i, u))
  {
    var x, found := t.invitations[i], InvitationByToken(t, token);
    assert found.Some? && Same(Tokens(t.invitations)[i], Tokens(t.invitations)[found.value]);
    assert EmailOk(Emails(t.users)[u]);
    assert InvitationOk(x, t.users.Keys, t.workspaces.Keys, Owners(t.workspaces).Keys, Standings(t.roles));
    assert (x.workspaceId, u) in t.members ==>
        (x.workspaceId, Emails(t.users)[u]) in MemberAddresses(t.members.Keys, Emails(t.users));
    assert Vacant(OpenAddresses(t.invitations, now)[i], MemberAddresses(t.members.Keys, Emails(t.users)));
  }

  /** What may happen to an invitation while it exists. */
  ghost predicate Settles(x: Invitation, x': Invitation) {
    if x.status != Pending then x' == x
    else x' == x || x' == x.Revoke() || (x'.acceptedBy.Some? && x' == x.Accept(x'.acceptedBy.value))
  }

  /** An invitation that was there may settle; a new one is pending, under an id and a token never
      used before. */
  ghost predicate InvitationEvolves(t: Tables, t': Tables, i: Id)
    requires i in t'.invitations
  {
    if i in t.invitations then Settles(t.invitations[i], t'.invitations[i])
    else t.nextId <= i && t.nextId <= t'.invitations[i].token && t'.invitations[i].status == Pending
  }

  ghost predicate Evolves(t: Tables, t': Tables) {
    && t.nextId <= t'.nextId
    && forall i <- t'.invitations {:trigger InvitationEvolves(t, t', i)} :: InvitationEvolves(t, t', i)
  }

  /** Most use cases add no invitation and change none. */
  lemma Untouched(t: Tables, t': Tables)
    requires t.nextId <= t'.nextId && Extends(t'.invitations, t.invitations)
    ensures Evolves(t, t')
  {
    forall i <- t'.invitations ensures InvitationEvolves(t, t', i) {
    }
  }

  lemma RevokedEvolves(t: Tables, t': Tables, w: Id)
    requires t.nextId <= t'.nextId && t'.invitations == RevokePending(t.invitations, w)
    ensures Evolves(t, t')
  {
    forall i <- t'.invitations ensures InvitationEvolves(t, t', i) {
    }
  }

  lemma OneEvolves(t: Tables, t': Tables, i: Id, x: Invitation)
    requires t.nextId <= t'.nextId && t'.invitations == t.invitations[i := x]
    requires if i in t.invitations then Settles(t.invitations[i], x) else t.nextId <= i && t.nextId <= x.token && x.status == Pending
    ensures Evolves(t, t')
  {
    forall j <- t'.invitations ensures InvitationEvolves(t, t', j) {
    }
  }

  lemma WorkspaceCommandEvolves(t: Tables, c: WorkspaceCommand, u: Id, now: Time, t': Tables)
    requires ApplyToWorkspace(t, c, u, now) == Success(t')
    ensures Evolves(t, t')
  {
    match c
    case CreateWorkspace(_, _) => Untouched(t, t');
    case UpdateWorkspace(_, _, _) => Untouched(t, t');
    case ReplaceLogo(_, _) => Untouched(t, t');
    case DeleteWorkspace(w) => RevokedEvolves(t, t', w);
  }

  lemma RoleCommandEvolves(t: Tables, c: RoleCommand, w: Id, u: Id, now: Time, t': Tables)
    requires ApplyToRole(t, c, w, u, now) == Success(t')
    ensures Evolves(t, t')
  {
    Untouched(t, t');
  }

  lemma JoinEvolves(t: Tables, token: Token, u: Id, now: Time, later: Time)
    requires Join(t, token, u, now, later).Success?
    ensures Evolves(t, Join(t, token, u, now, later).value)
  {
    var i := Joinable(t, token, u, now).value;
    OneEvolves(t, Join(t, token, u, now, later).value, i, t.invitations[i].Accept(u));
  }

  lemma MemberCommandEvolves(t: Tables, c: MemberCommand, u: Id, now: Time, later: Time, t': Tables)
    requires ApplyToMember(t, c, u, now, later) == Success(t') && t.nextId !in t.invitations
    ensures Evolves(t, t')
  {
    match c
    case DropMember(_, _) => Untouched(t, t');
    case TransferOwnership(_, _) => Untouched(t, t');
    case InviteByEmail(_, _, _) => OneEvolves(t, t', t.nextId, t'.invitations[t.nextId]);
    case RevokeInvite(_, i) => OneEvolves(t, t', i, t.invitations[i].Revoke());
    case AcceptInvite(token) => JoinEvolves(t, token, u, now, later);
  }

  lemma AccountCommandEvolves(t: Tables, c: AccountCommand, u: Id, now: Time, later: Time, t': Tables)
    requires ApplyToAccount(t, c, u, now, later) == Success(t')
    ensures Evolves(t, t')
  {
    if c.RegisterAccount? {
      var t1 := AddUnlessTaken(t, u, User.New(c.email, c.name));
      if c.withToken.Some? && Join(t1, c.withToken.value, u, now, later).Success? {
        JoinEvolves(t1, c.withToken.value, u, now, later);
        forall i <- t'.invitations ensures InvitationEvolves(t, t', i) {
          assert InvitationEvolves(t1, t', i);
        }
      } else {
        Untouched(t, t');
      }
    } else {
      Untouched(t, t');
    }
  }

  lemma StepEvolves(t: Tables, e: Event)
    requires t.nextId !in t.invitations
    ensures Evolves(t, Step(t, e))
  {
    Untouched(t, t);
    if Apply(t, e).Success? {
      var t' := Step(t, e);
      match e.command
      case OnWorkspace(c, u) => WorkspaceCommandEvolves(t, c, u, e.now, t');
      case OnRole(c, w, u) => RoleCommandEvolves(t, c, w, u, e.now, t');
      case OnMember(c, u) => MemberCommandEvolves(t, c, u, e.now, e.later, t');
      case OnAccount(c, u) => AccountCommandEvolves(t, c, u, e.now, e.later, t');
      case PurgeWorkspace(w) => Untouched(t, t');
    }
  }

  /** An invitation leaves pending at most once: one that was accepted or revoked at some point
      of a run is exactly the same at every later point at which it still exists; and while it
      was pending, all that can happen to it is to stay, to be revoked or to be accepted. */
  lemma {:induction false} InvitationsSettleOnce(t: Tables, events: seq<Event>, start: Time, i: Id)
    requires Inv(t, start) && Chronological(events, start)
    requires i in t.invitations && i in Run(t, events).invitations
    ensures Settles(t.invitations[i], Run(t, events).invitations[i])
    decreases events
  {
    if events != [] {
      var t' := Step(t, events[0]);
      OneStepOn(t, events[0], start);
      assert Below(i, t.nextId);
      if i !in t'.invitations {
        GoneInvitationsStayGone(t', events[1..], events[0].later, i);
      } else {
        assert InvitationEvolves(t, t', i);
        InvitationsSettleOnce(t', events[1..], events[0].later, i);
      }
    }
  }

  lemma OneStepOn(t: Tables, e: Event, start: Time)
    requires Inv(t, start) && start <= e.now <= e.later && Admissible(e.command)
    ensures Inv(Step(t, e), e.later) && Evolves(t, Step(t, e))
  {
    InvAges(t, start, e.now);
    StepKeeps(t, e);
    assert t.nextId in t.invitations ==> Below(t.nextId, t.nextId);
    StepEvolves(t, e);
  }

  /** An invitation that is gone stays gone: its id is never given to another one. */
  lemma {:induction false} GoneInvitationsStayGone(t: Tables, events: seq<Event>, start: Time, i: Id)
    requires Inv(t, start) && Chronological(events, start) && i !in t.invitations && i < t.nextId
    ensures i !in Run(t, events).invitations
    decreases events
  {
    if events != [] {
      var t' := Step(t, events[0]);
      OneStepOn(t, events[0], start);
      assert i in t'.invitations ==> InvitationEvolves(t, t', i);
      GoneInvitationsStayGone(t', events[1..], events[0].later, i);
    }
  }

  // --- onboarding and permissions ---------------------------------------------------

  /** A user past the profile step has completed onboarding exactly when they are a member of
      some workspace, and no profile field is missing any more. */
  lemma OnboardingAgreesWithMembership(t: Tables, now: Time, u: Id)
    requires Reachable(t, now) && u in t.users && t.users[u].status != ProfilePending
    ensures t.users[u].status == Completed <==> exists m <- t.members :: m.1 == u
    ensures Strip(t.users[u].displayName) != []
  {
    ReachableIsOk(t, now);
    assert UserOk(t.users[u], BelongsToAny(t.members, u));
  }

  /** No role stores an owner action or a permission outside the catalog. */
  lemma StoredPermissionsAreCatalogued(t: Tables, now: Time, r: Id)
    requires Reachable(t, now)
    ensures Permissions(t, r) <= CATALOG - OWNER_ACTIONS
  {
    ReachableIsOk(t, now);
    if r in t.grants {
      assert GrantOk(r, t.grants[r], t.roles.Keys);
    }
  }

  /** Role permissions of that kind decide a member's list and what they may do alike. */
  lemma ListAgrees(t: Tables, w: Id, u: Id, action: Action)
    requires IsLive(t.workspaces, w) && (w, u) in t.members && action in CATALOG + OWNER_ACTIONS
    requires Permissions(t, t.members[(w, u)].roleId) <= CATALOG - OWNER_ACTIONS
    ensures View(t, w, u).Success?
    ensures action in View(t, w, u).value.permissions <==> Permits(t, u, action, w)
  {
  }

  /** The permission list a member is shown is exact: an action of the catalog or of the owner
      is listed if and only if it is permitted. */
  lemma PermissionListIsExact(t: Tables, now: Time, w: Id, u: Id, action: Action)
    requires Reachable(t, now) && IsLive(t.workspaces, w) && (w, u) in t.members
    requires action in CATALOG + OWNER_ACTIONS
    ensures View(t, w, u).Success?
    ensures action in View(t, w, u).value.permissions <==> Permits(t, u, action, w)
  {
    StoredPermissionsAreCatalogued(t, now, t.members[(w, u)].roleId);
    ListAgrees(t, w, u, action);
  }
}
