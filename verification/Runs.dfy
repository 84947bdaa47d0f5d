/** Every use case keeps the invariant, so every reachable state satisfies it. */
module Runs {
  import opened Wrappers
  import opened Access
  import opened Text
  import opened Entities
  import opened Store
  import opened UseCases
  import opened Invariant

  // --- one use case at a time -------------------------------------------------------

  /** Whoever passes an owner action is the owner. */
  lemma OwnerActionsAreTheOwners(t: Tables, u: Id, action: Action, w: Id)
    requires Require(t, u, action, w).Pass? && action in OWNER_ACTIONS
    ensures IsLive(t.workspaces, w) && u == t.workspaces[w].ownerId && (w, u) in t.members && u in t.users
  {
  }

  lemma Created(t: Tables, name: string, slug: Slug, u: Id, t': Tables)
    requires Create(t, name, slug, u) == Success(t')
    ensures u in t.users && t.users[u].status != ProfilePending
    ensures t' == Founded(t, name, slug, u) && !SlugInUse(t', slug, t.nextId)
  {
  }

  lemma CreateKeeps(t: Tables, name: string, slug: Slug, u: Id, t': Tables, now: Time)
    requires Inv(t, now) && slug.Address? && Create(t, name, slug, u) == Success(t')
    ensures Inv(t', now)
  {
    Created(t, name, slug, u, t');
    SlugWasUnused(t.workspaces, t.nextId, t'.workspaces[t.nextId], t');
    WorkspaceFounded(t, name, slug, u, t', now);
  }

  lemma SlugWasUnused(workspaces: map<Id, Workspace>, w: Id, workspace: Workspace, t': Tables)
    requires t'.workspaces == workspaces[w := workspace] && !SlugInUse(t', workspace.slug, w)
    ensures Unused(Slugs(workspaces), w, workspace.slug)
  {
    forall v <- Slugs(workspaces) | v != w ensures !Same(Slugs(workspaces)[v], workspace.slug) {
      assert v in t'.workspaces && t'.workspaces[v] == workspaces[v];
    }
  }

  lemma UpdateKeeps(t: Tables, w: Id, name: string, slug: Slug, u: Id, t': Tables, now: Time)
    requires Inv(t, now) && slug.Address? && Update(t, w, name, slug, u) == Success(t')
    ensures Inv(t', now)
  {
    forall v <- t.workspaces | v != w ensures t.workspaces[v].slug != slug {
      assert v in t'.workspaces && t'.workspaces[v] == t.workspaces[v];
    }
    WorkspaceEdited(t, w, t'.workspaces[w], now);
  }

  lemma SetLogoKeeps(t: Tables, w: Id, logoKey: Option<Key>, u: Id, t': Tables, now: Time)
    requires Inv(t, now) && SetLogo(t, w, logoKey, u) == Success(t')
    ensures Inv(t', now)
  {
    WorkspaceEdited(t, w, t'.workspaces[w], now);
  }

  lemma Deleted(t: Tables, w: Id, u: Id, t': Tables, now: Time)
    requires Delete(t, w, u, now) == Success(t')
    ensures IsLive(t.workspaces, w)
    ensures var members := WithoutMembersOf(t.members, w);
            t' == t.(members := members,
                     invitations := RevokePending(t.invitations, w),
                     workspaces := t.workspaces[w := t.workspaces[w].(deletedAt := Some(now), slug := Tombstone(t.nextId))],
                     users := ReturnToWorkspaceStep(t.users, members, UserIds(t.members, w)),
                     nextId := t.nextId + 1)
  {
  }

  lemma DeleteKeeps(t: Tables, w: Id, u: Id, t': Tables, now: Time)
    requires Inv(t, now) && Delete(t, w, u, now) == Success(t')
    ensures Inv(t', now)
  {
    Deleted(t, w, u, t', now);
    WorkspaceDeleted(t, w, now);
  }

  lemma SaveRoleKeeps(t: Tables, w: Id, roleId: Option<Id>, name: string, u: Id, t': Tables, now: Time)
    requires Inv(t, now) && SaveRole(t, w, roleId, name, u) == Success(t')
    ensures Inv(t', now)
  {
    if roleId.None? {
      RoleAdded(t, Role.Custom(w, name), {}, now);
    } else {
      RoleRenamed(t, roleId.value, Strip(name), now);
    }
  }

  lemma DeleteRoleKeeps(t: Tables, w: Id, roleId: Id, u: Id, t': Tables, now: Time)
    requires Inv(t, now) && DeleteRole(t, w, roleId, u, now) == Success(t')
    ensures Inv(t', now)
  {
    RoleDeleted(t, roleId, now);
  }

  lemma SetPermissionsKeeps(t: Tables, w: Id, roleId: Id, permissions: set<Action>, u: Id, t': Tables, now: Time)
    requires Inv(t, now) && SetPermissions(t, w, roleId, permissions, u) == Success(t')
    ensures Inv(t', now)
  {
    forall p <- permissions ensures p in CATALOG - OWNER_ACTIONS {
      assert p !in permissions * OWNER_ACTIONS;
    }
    GrantsSet(t, roleId, permissions, now);
  }

  lemma SetMemberRoleKeeps(t: Tables, w: Id, memberId: Id, roleId: Id, u: Id, t': Tables, now: Time)
    requires Inv(t, now) && SetMemberRole(t, w, memberId, roleId, u) == Success(t')
    ensures Inv(t', now)
  {
    MemberRoleSet(t, w, memberId, roleId, now);
  }

  lemma RemoveMemberKeeps(t: Tables, w: Id, memberId: Id, u: Id, t': Tables, now: Time)
    requires Inv(t, now) && RemoveMember(t, w, memberId, u) == Success(t')
    ensures Inv(t', now)
  {
    MemberRemoved(t, w, memberId, now);
  }

  lemma AdminRoleKeeps(t: Tables, w: Id, found: Option<Id>, now: Time)
    requires Inv(t, now) && w in t.workspaces && found == RoleByName(t, w, ADMIN_ROLE)
    ensures Inv(WithAdminRole(t, w, found), now)
    ensures var t' := WithAdminRole(t, w, found);
            var adminId := if found.Some? then found.value else t.nextId;
            adminId in t'.roles && t'.roles[adminId].workspaceId == w && !t'.roles[adminId].isProtected
  {
    assert ADMIN_ROLE[0] != OWNER_ROLE[0];
    if found.Some? {
      assert RoleOk(t.roles[found.value], t.workspaces.Keys);
    } else {
      forall r <- t.roles ensures !HasRole(t, w, ADMIN_ROLE, r) {
      }
      RoleAdded(t, Role.System(w, ADMIN_ROLE), ADMIN_PERMISSIONS, now);
    }
  }

  /** What a transfer that succeeded found, and what it left. */
  lemma Transferred(t: Tables, w: Id, targetId: Id, u: Id, t': Tables)
    requires Transfer(t, w, targetId, u) == Success(t')
    ensures w in t.workspaces && t.workspaces[w].Live() && u == t.workspaces[w].ownerId && u != targetId
    ensures (w, u) in t.members && (w, targetId) in t.members
    ensures var found := RoleByName(t, w, ADMIN_ROLE);
            var t1 := WithAdminRole(t, w, found);
            t' == t1.(members := t1.members[(w, targetId) := t1.members[(w, u)]]
                                           [(w, u) := Member(if found.Some? then found.value else t.nextId)],
                      workspaces := t1.workspaces[w := t1.workspaces[w].(ownerId := targetId)])
  {
    OwnerActionsAreTheOwners(t, u, WorkspaceTransfer, w);
  }

  lemma TransferKeeps(t: Tables, w: Id, targetId: Id, u: Id, t': Tables, now: Time)
    requires Inv(t, now) && Transfer(t, w, targetId, u) == Success(t')
    ensures Inv(t', now)
  {
    Transferred(t, w, targetId, u, t');
    var found := RoleByName(t, w, ADMIN_ROLE);
    AdminRoleKeeps(t, w, found, now);
    OwnershipMoved(WithAdminRole(t, w, found), w, u, targetId, if found.Some? then found.value else t.nextId, now);
  }

  lemma InviteKeeps(t: Tables, w: Id, email: string, roleId: Id, u: Id, t': Tables, now: Time, later: Time)
    requires Inv(t, now) && now <= later && Invite(t, w, email, roleId, u, now, later) == Success(t')
    ensures Inv(t', later)
  {
    LowerIdempotent(email);
    LowerIdempotent(Lower(email));
    InvAges(t, now, later);
    InvitationAdded(t, t'.invitations[t.nextId], later);
  }

  lemma RevokeInvitationKeeps(t: Tables, w: Id, i: Id, u: Id, t': Tables, now: Time)
    requires Inv(t, now) && RevokeInvitation(t, w, i, u, now) == Success(t')
    ensures Inv(t', now)
  {
    InvitationRevoked(t, i, now);
  }

  lemma JoinKeeps(t: Tables, token: Token, u: Id, t': Tables, now: Time, later: Time)
    requires Inv(t, now) && now <= later && Join(t, token, u, now, later) == Success(t')
    ensures Inv(t', later)
  {
    var i := Joinable(t, token, u, now).value;
    assert EmailOk(Emails(t.users)[u]);
    InvAges(t, now, later);
    InvitationAccepted(t, i, u, later);
  }

  lemma AddUnlessTakenKeeps(t: Tables, u: Id, email: string, name: string, now: Time)
    requires Inv(t, now)
    ensures Inv(AddUnlessTaken(t, u, User.New(email, name)), now)
  {
    var user := User.New(email, name);
    LowerIdempotent(email);
    StripTrims(name);
    if AddUnlessTaken(t, u, user) != t {
      forall o <- Emails(t.users) | o != u ensures !Same(Emails(t.users)[o], user.email) {
        assert t.users[o].email != user.email;
      }
      UserAdded(t, u, user, now);
    }
  }

  lemma RegisterKeeps(t: Tables, u: Id, email: string, name: string, token: Option<Token>, now: Time, later: Time)
    requires Inv(t, now) && now <= later
    ensures Inv(Register(t, u, email, name, token, now, later), later)
  {
    var t' := AddUnlessTaken(t, u, User.New(email, name));
    AddUnlessTakenKeeps(t, u, email, name, now);
    InvAges(t', now, later);
    if token.Some? && Join(t', token.value, u, now, later).Success? {
      JoinKeeps(t', token.value, u, Join(t', token.value, u, now, later).value, now, later);
    }
  }

  lemma RenameKeeps(t: Tables, u: Id, name: string, t': Tables, now: Time)
    requires Inv(t, now) && Strip(name) != [] && Rename(t, u, name) == Success(t')
    ensures Inv(t', now)
  {
    assert UserOk(t.users[u], BelongsToAny(t.members, u));
    UserEdited(t, u, t'.users[u], now);
  }

  lemma SetAvatarKeeps(t: Tables, u: Id, avatarKey: Option<Key>, t': Tables, now: Time)
    requires Inv(t, now) && SetAvatar(t, u, avatarKey) == Success(t')
    ensures Inv(t', now)
  {
    assert UserOk(t.users[u], BelongsToAny(t.members, u));
    UserEdited(t, u, t'.users[u], now);
  }

  lemma DeleteAccountKeeps(t: Tables, u: Id, t': Tables, now: Time)
    requires Inv(t, now) && DeleteAccount(t, u) == Success(t')
    ensures Inv(t', now)
  {
    AccountDeleted(t, u, now);
  }

  lemma PurgeRowsKeeps(t: Tables, w: Id, now: Time)
    requires Inv(t, now)
    ensures Inv(PurgeRows(t, w), now)
  {
    if w in t.workspaces && !t.workspaces[w].Live() {
      RowsPurged(t, w, now);
    }
  }

  // --- commands ---------------------------------------------------------------------

  datatype WorkspaceCommand =
    | CreateWorkspace(name: string, slug: string)
    | UpdateWorkspace(w: Id, name: string, slug: string)
    | ReplaceLogo(w: Id, logoKey: Option<Key>)
    | DeleteWorkspace(w: Id)

  datatype RoleCommand =
    | SaveARole(roleId: Option<Id>, name: string)
    | DeleteARole(role: Id)
    | ReplacePermissions(role: Id, permissions: set<Action>)
    | AssignRole(memberId: Id, role: Id)

  datatype MemberCommand =
    | DropMember(w: Id, memberId: Id)
    | TransferOwnership(w: Id, targetId: Id)
    | InviteByEmail(w: Id, email: string, role: Id)
    | RevokeInvite(w: Id, invitationId: Id)
    | AcceptInvite(token: Token)

  datatype AccountCommand =
    | RegisterAccount(email: string, name: string, withToken: Option<Token>)
    | FirstRequest(email: string)
    | RenameProfile(name: string)
    | ReplaceAvatar(avatarKey: Option<Key>)
    | CloseAccount

  /** A use case and who calls it; the purge is run by the scheduler. */
  datatype Command =
    | OnWorkspace(workspace: WorkspaceCommand, actor: Id)
    | OnRole(role: RoleCommand, within: Id, actor: Id)
    | OnMember(member: MemberCommand, actor: Id)
    | OnAccount(account: AccountCommand, actor: Id)
    | PurgeWorkspace(w: Id)

  /** A command with the two moments its use case reads the clock at. */
  datatype Event = Event(command: Command, now: Time, later: Time)

  ghost function ApplyToWorkspace(t: Tables, c: WorkspaceCommand, u: Id, now: Time): Change {
    match c
    case CreateWorkspace(name, slug) => Create(t, name, Address(slug), u)
    case UpdateWorkspace(w, name, slug) => Update(t, w, name, Address(slug), u)
    case ReplaceLogo(w, logoKey) => SetLogo(t, w, logoKey, u)
    case DeleteWorkspace(w) => Delete(t, w, u, now)
  }

  ghost function ApplyToRole(t: Tables, c: RoleCommand, w: Id, u: Id, now: Time): Change {
    match c
    case SaveARole(roleId, name) => SaveRole(t, w, roleId, name, u)
    case DeleteARole(role) => DeleteRole(t, w, role, u, now)
    case ReplacePermissions(role, permissions) => SetPermissions(t, w, role, permissions, u)
    case AssignRole(memberId, role) => SetMemberRole(t, w, memberId, role, u)
  }

  ghost function ApplyToMember(t: Tables, c: MemberCommand, u: Id, now: Time, later: Time): Change {
    match c
    case DropMember(w, memberId) => RemoveMember(t, w, memberId, u)
    case TransferOwnership(w, targetId) => Transfer(t, w, targetId, u)
    case InviteByEmail(w, email, role) => Invite(t, w, email, role, u, now, later)
    case RevokeInvite(w, i) => RevokeInvitation(t, w, i, u, now)
    case AcceptInvite(token) => Join(t, token, u, now, later)
  }

  ghost function ApplyToAccount(t: Tables, c: AccountCommand, u: Id, now: Time, later: Time): Change {
    match c
    case RegisterAccount(email, name, token) => Success(Register(t, u, email, name, token, now, later))
    case FirstRequest(email) => Success(EnsureAccount(t, u, email))
    case RenameProfile(name) => Rename(t, u, name)
    case ReplaceAvatar(avatarKey) => SetAvatar(t, u, avatarKey)
    case CloseAccount => DeleteAccount(t, u)
  }

  /** What one command does: the new tables, or why it is refused. */
  ghost function Apply(t: Tables, e: Event): Change {
    match e.command
    case OnWorkspace(c, u) => ApplyToWorkspace(t, c, u, e.now)
    case OnRole(c, w, u) => ApplyToRole(t, c, w, u, e.now)
    case OnMember(c, u) => ApplyToMember(t, c, u, e.now, e.later)
    case OnAccount(c, u) => ApplyToAccount(t, c, u, e.now, e.later)
    case PurgeWorkspace(w) => Success(PurgeRows(t, w))
  }

  // --- runs -------------------------------------------------------------------------

  /** A refused command is rolled back. */
  ghost function Step(t: Tables, e: Event): Tables {
    var r := Apply(t, e);
    if r.Success? then r.value else t
  }

  ghost function Run(t: Tables, events: seq<Event>): Tables
    decreases events
  {
    if events == [] then t else Run(Step(t, events[0]), events[1..])
  }

  /** What the request schemas guarantee: a profile is never renamed to a blank name. */
  ghost predicate Admissible(c: Command) {
    c.OnAccount? && c.account.RenameProfile? ==> Strip(c.account.name) != []
  }

  /** Events run one after the other from `start` on, with a clock that never goes back. */
  ghost predicate Chronological(events: seq<Event>, start: Time) {
    events == [] || (
      && start <= events[0].now <= events[0].later
      && Admissible(events[0].command)
      && Chronological(events[1..], events[0].later))
  }

  ghost function End(events: seq<Event>, start: Time): Time {
    if events == [] then start else events[|events| - 1].later
  }

  lemma WorkspaceCommandKeeps(t: Tables, c: WorkspaceCommand, u: Id, t': Tables, now: Time)
    requires Inv(t, now) && ApplyToWorkspace(t, c, u, now) == Success(t')
    ensures Inv(t', now)
  {
    match c
    case CreateWorkspace(name, slug) => CreateKeeps(t, name, Address(slug), u, t', now);
    case UpdateWorkspace(w, name, slug) => UpdateKeeps(t, w, name, Address(slug), u, t', now);
    case ReplaceLogo(w, logoKey) => SetLogoKeeps(t, w, logoKey, u, t', now);
    case DeleteWorkspace(w) => DeleteKeeps(t, w, u, t', now);
  }

  lemma RoleCommandKeeps(t: Tables, c: RoleCommand, w: Id, u: Id, t': Tables, now: Time)
    requires Inv(t, now) && ApplyToRole(t, c, w, u, now) == Success(t')
    ensures Inv(t', now)
  {
    match c
    case SaveARole(roleId, name) => SaveRoleKeeps(t, w, roleId, name, u, t', now);
    case DeleteARole(role) => DeleteRoleKeeps(t, w, role, u, t', now);
    case ReplacePermissions(role, permissions) => SetPermissionsKeeps(t, w, role, permissions, u, t', now);
    case AssignRole(memberId, role) => SetMemberRoleKeeps(t, w, memberId, role, u, t', now);
  }

  lemma MemberCommandKeeps(t: Tables, c: MemberCommand, u: Id, t': Tables, now: Time, later: Time)
    requires Inv(t, now) && now <= later && ApplyToMember(t, c, u, now, later) == Success(t')
    ensures Inv(t', later)
  {
    InvAges(t, now, later);
    match c
    case DropMember(w, memberId) => RemoveMemberKeeps(t, w, memberId, u, t', later);
    case TransferOwnership(w, targetId) => TransferKeeps(t, w, targetId, u, t', later);
    case InviteByEmail(w, email, role) => InviteKeeps(t, w, email, role, u, t', now, later);
    case RevokeInvite(w, i) => RevokeInvitationKeeps(t, w, i, u, t', now); InvAges(t', now, later);
    case AcceptInvite(token) => JoinKeeps(t, token, u, t', now, later);
  }

  lemma AccountCommandKeeps(t: Tables, c: AccountCommand, u: Id, t': Tables, now: Time, later: Time)
    requires Inv(t, now) && now <= later && ApplyToAccount(t, c, u, now, later) == Success(t')
    requires c.RenameProfile? ==> Strip(c.name) != []
    ensures Inv(t', later)
  {
    InvAges(t, now, later);
    match c
    case RegisterAccount(email, name, token) => RegisterKeeps(t, u, email, name, token, now, later);
    case FirstRequest(email) => AddUnlessTakenKeeps(t, u, email, "", later);
    case RenameProfile(name) => RenameKeeps(t, u, name, t', later);
    case ReplaceAvatar(avatarKey) => SetAvatarKeeps(t, u, avatarKey, t', later);
    case CloseAccount => DeleteAccountKeeps(t, u, t', later);
  }

  lemma ApplyKeeps(t: Tables, e: Event, t': Tables)
    requires Inv(t, e.now) && e.now <= e.later && Admissible(e.command) && Apply(t, e) == Success(t')
    ensures Inv(t', e.later)
  {
    match e.command {
      case OnMember(c, u) => MemberCommandKeeps(t, c, u, t', e.now, e.later);
      case OnAccount(c, u) => AccountCommandKeeps(t, c, u, t', e.now, e.later);
      case _ =>
        QuickCommandKeeps(t, e, t');
        InvAges(t', e.now, e.later);
    }
  }

  lemma RoleOrPurgeKeeps(t: Tables, e: Event, t': Tables)
    requires Inv(t, e.now) && Apply(t, e) == Success(t') && (e.command.OnRole? || e.command.PurgeWorkspace?)
    ensures Inv(t', e.now)
  {
    if e.command.OnRole? {
      RoleCommandKeeps(t, e.command.role, e.command.within, e.command.actor, t', e.now);
    } else {
      PurgeRowsKeeps(t, e.command.w, e.now);
    }
  }

  /** The use cases that read the clock once at most. */
  lemma QuickCommandKeeps(t: Tables, e: Event, t': Tables)
    requires Inv(t, e.now) && Admissible(e.command) && Apply(t, e) == Success(t')
    requires !e.command.OnMember? && !e.command.OnAccount?
    ensures Inv(t', e.now)
  {
    if e.command.OnWorkspace? {
      WorkspaceCommandKeeps(t, e.command.workspace, e.command.actor, t', e.now);
    } else {
      RoleOrPurgeKeeps(t, e, t');
    }
  }

  lemma StepKeeps(t: Tables, e: Event)
    requires Inv(t, e.now) && e.now <= e.later && Admissible(e.command)
    ensures Inv(Step(t, e), e.later)
  {
    InvAges(t, e.now, e.later);
    if Apply(t, e).Success? {
      ApplyKeeps(t, e, Step(t, e));
    }
  }

  /** Every reachable state satisfies the invariant. */
  lemma {:induction false} RunKeeps(t: Tables, events: seq<Event>, start: Time)
    requires Inv(t, start) && Chronological(events, start)
    ensures Inv(Run(t, events), End(events, start))
    decreases events
  {
    if events != [] {
      InvAges(t, start, events[0].now);
      StepKeeps(t, events[0]);
      RunKeeps(Step(t, events[0]), events[1..], events[0].later);
    }
  }
}
