/** What each use case does to the tables, as one atomic step
    (app/application/access.py, workspaces.py, accounts.py, purge.py). A failure leaves the
    tables as they were: the transaction rolls back. */
module UseCases {
  import opened Wrappers
  import opened Access
  import opened Text
  import opened Entities
  import opened Store

  type Change = Result<Tables, Error>

  // --- access -----------------------------------------------------------------------

  predicate Permits(t: Tables, u: Id, action: Action, resource: Id) {
    if IsOnOwnAccount(action) then resource == u
    else if !IsLive(t.workspaces, resource) || (resource, u) !in t.members then false
    else
      match t.workspaces[resource].Grants(u, action)
      case Some(granted) => granted
      case None => action in Permissions(t, t.members[(resource, u)].roleId)
  }

  function Require(t: Tables, u: Id, action: Action, resource: Id): Check<Error> {
    if u !in t.users then Refuse(AccountNotFound)
    else if t.users[u].status !in OnboardingNeededFor(action) then
      Refuse(OnboardingIncomplete(t.users[u].status))
    else if !Permits(t, u, action, resource) then Refuse(PermissionDenied)
    else Pass
  }

  // --- views ------------------------------------------------------------------------

  datatype WorkspaceView = WorkspaceView(workspace: Workspace, roleId: Id, permissions: set<Action>)

  function View(t: Tables, w: Id, u: Id): Result<WorkspaceView, Error>
    requires w in t.workspaces
  {
    if (w, u) !in t.members then Failure(MembershipRequired)
    else
      var roleId := t.members[(w, u)].roleId;
      var held := if t.workspaces[w].ownerId == u then {} else Permissions(t, roleId);
      Success(WorkspaceView(t.workspaces[w], roleId, t.workspaces[w].PermissionsFor(u, held)))
  }

  /** A role of the workspace that may be changed or handed out. */
  function ConfigurableRole(t: Tables, w: Id, roleId: Id): Result<Role, Error> {
    if roleId !in t.roles || t.roles[roleId].workspaceId != w then Failure(RoleNotFound)
    else if t.roles[roleId].isProtected then Failure(OwnerIsProtected)
    else Success(t.roles[roleId])
  }

  function SingleOwner(t: Tables, w: Id): Check<Error>
    requires w in t.workspaces
  {
    Need(OwnerIds(t, w) == {t.workspaces[w].ownerId}, NotASingleOwner)
  }

  // --- workspaces -------------------------------------------------------------------

  /** The name of the system role `id` of workspace `w`; their ids follow its own. */
  function SystemRoleName(w: Id, id: Id): string
    requires w < id <= w + SYSTEM_ROLES
  {
    SystemRole(id - w - 1)
  }

  /** The rows of the first `n` system roles of workspace `w`. */
  function SystemRoles(w: Id, n: nat): map<Id, Role>
    requires n <= SYSTEM_ROLES
  {
    map id: Id | w < id <= w + n :: Role.System(w, SystemRoleName(w, id))
  }

  function SystemGrants(w: Id, n: nat): map<Id, set<Action>>
    requires n <= SYSTEM_ROLES
  {
    map id: Id | w < id <= w + n :: SystemPermissions(SystemRoleName(w, id))
  }

  /** A new workspace `t.nextId`, its roles, and its creator `u` as the member with the first one. */
  function WithWorkspace(t: Tables, workspace: Workspace, roles: map<Id, Role>, grants: map<Id, set<Action>>,
                         u: Id, nextId: Id): Tables
    requires u in t.users
  {
    t.(workspaces := t.workspaces[t.nextId := workspace],
    roles := roles,
    grants := grants,
    members := WithFounder(t.members, t.nextId, u),
    users := t.users[u := t.users[u].CreatedAWorkspace()],
    nextId := nextId)
  }

  /** The founder of workspace `w` holds its first role. */
  function WithFounder(members: map<(Id, Id), Member>, w: Id, u: Id): map<(Id, Id), Member> {
    members[(w, u) := Member(w + 1)]
  }

  /** The four system roles come with a workspace; the first is its owner's. */
  function Founded(t: Tables, name: string, slug: Slug, u: Id): Tables
    requires u in t.users
  {
    WithWorkspace(t, Workspace(Strip(name), slug, u, None, None), t.roles + SystemRoles(t.nextId, 4),
                  t.grants + SystemGrants(t.nextId, 4), u, t.nextId + 5)
  }

  function Create(t: Tables, name: string, slug: Slug, u: Id): Change {
    var allowed := Require(t, u, WorkspacesCreate, u);
    :- allowed;
    :- Need(Strip(name) != [], EmptyName);
    var t' := Founded(t, name, slug, u);
    :- Need(!SlugInUse(t', slug, t.nextId), SlugTaken);
    :- SingleOwner(t', t.nextId);
    var _ :- View(t', t.nextId, u);
    Success(t')
  }

  function Update(t: Tables, w: Id, name: string, slug: Slug, u: Id): Change {
    var workspace :- LiveWorkspace(t, w);
    :- Require(t, u, WorkspaceUpdate, w);
    var t' := t.(workspaces := t.workspaces[w := workspace.(name := Strip(name), slug := slug)]);
    :- Need(!SlugInUse(t', slug, w), SlugTaken);
    var _ :- View(t', w, u);
    Success(t')
  }

  /** The transaction of `set_logo`; the files are the media protocol's concern. */
  function SetLogo(t: Tables, w: Id, logoKey: Option<Key>, u: Id): Change {
    var workspace :- LiveWorkspace(t, w);
    :- Require(t, u, WorkspaceUpdate, w);
    var t' := t.(workspaces := t.workspaces[w := workspace.(logoKey := logoKey)]);
    var _ :- View(t', w, u);
    Success(t')
  }

  function RevokePending(invitations: map<Id, Invitation>, w: Id): map<Id, Invitation> {
    map i <- invitations ::
      if invitations[i].workspaceId == w && invitations[i].status == Pending
      then invitations[i].Revoke() else invitations[i]
  }

  /** Whoever of `left` appears in no row of `members` loses a completed onboarding. */
  function ReturnToWorkspaceStep(users: map<Id, User>, members: map<(Id, Id), Member>, left: set<Id>)
    : map<Id, User>
  {
    map u <- users ::
      if u in left && !BelongsToAny(members, u) then users[u].LeftEveryWorkspace() else users[u]
  }

  function WithoutMembersOf(members: map<(Id, Id), Member>, w: Id): map<(Id, Id), Member> {
    map m <- members | m.0 != w :: members[m]
  }

  /** The workspace row stays, marked and under a tombstone slug; its member rows go. */
  function Delete(t: Tables, w: Id, u: Id, now: Time): Change {
    var workspace :- LiveWorkspace(t, w);
    :- Require(t, u, WorkspaceDelete, w);
    var members := WithoutMembersOf(t.members, w);
    Success(t.(
            members := members,
            invitations := RevokePending(t.invitations, w),
            workspaces := t.workspaces[w := workspace.(deletedAt := Some(now), slug := Tombstone(t.nextId))],
            users := ReturnToWorkspaceStep(t.users, members, UserIds(t.members, w)),
            nextId := t.nextId + 1))
  }

  // --- roles ------------------------------------------------------------------------

  function SaveRole(t: Tables, w: Id, roleId: Option<Id>, name: string, u: Id): Change {
    var _ :- LiveWorkspace(t, w);
    :- Require(t, u, RolesManage, w);
    :- Need(AssignableRoleName(name), OwnerNameIsReserved);
    if roleId.None? then
      :- Need(!RoleNameInUse(t, w, Strip(name), t.nextId), RoleNameTaken);
      Success(t.(roles := t.roles[t.nextId := Role.Custom(w, name)],
              grants := t.grants[t.nextId := {}],
              nextId := t.nextId + 1))
    else
      var role :- ConfigurableRole(t, w, roleId.value);
      :- Need(!RoleNameInUse(t, w, Strip(name), roleId.value), RoleNameTaken);
      Success(t.(roles := t.roles[roleId.value := role.Rename(name)]))
  }

  function WithoutInvitationsFor(invitations: map<Id, Invitation>, roleId: Id): map<Id, Invitation> {
    map i <- invitations | invitations[i].roleId != roleId :: invitations[i]
  }

  function DeleteRole(t: Tables, w: Id, roleId: Id, u: Id, now: Time): Change {
    var _ :- LiveWorkspace(t, w);
    :- Require(t, u, RolesManage, w);
    var _ :- ConfigurableRole(t, w, roleId);
    :- Need(!IsRoleInUse(t, roleId, now), RoleInUse);
    Success(t.(invitations := WithoutInvitationsFor(t.invitations, roleId),
            grants := t.grants - {roleId},
            roles := t.roles - {roleId}))
  }

  function ValidPermissions(permissions: set<Action>): Check<Error> {
    if permissions * OWNER_ACTIONS != {} then Refuse(OwnerOnlyPermission)
    else Need(permissions <= CATALOG, UnknownPermission)
  }

  function SetPermissions(t: Tables, w: Id, roleId: Id, permissions: set<Action>, u: Id): Change {
    var _ :- LiveWorkspace(t, w);
    :- Require(t, u, RolesManage, w);
    var _ :- ConfigurableRole(t, w, roleId);
    :- ValidPermissions(permissions);
    Success(t.(grants := t.grants[roleId := permissions]))
  }

  // --- members ----------------------------------------------------------------------

  function SetMemberRole(t: Tables, w: Id, memberId: Id, roleId: Id, u: Id): Change {
    var workspace :- LiveWorkspace(t, w);
    :- Require(t, u, RolesManage, w);
    var _ :- ConfigurableRole(t, w, roleId);
    :- Need(memberId != workspace.ownerId, OwnerIsProtected);
    var _ :- FoundMember(t, w, memberId);
    var t' := t.(members := t.members[(w, memberId) := Member(roleId)]);
    :- SingleOwner(t', w);
    Success(t')
  }

  function RemoveMember(t: Tables, w: Id, memberId: Id, u: Id): Change {
    var workspace :- LiveWorkspace(t, w);
    :- Require(t, u, MembersRemove, w);
    :- Need(memberId != workspace.ownerId, OwnerIsProtected);
    var _ :- FoundMember(t, w, memberId);
    var t' := t.(members := t.members - {(w, memberId)});
    :- SingleOwner(t', w);
    Success(t'.(users := ReturnToWorkspaceStep(t.users, t'.members, {memberId})))
  }

  /** `roles.by_name`: at most one, because names are unique within a workspace. */
  ghost function RoleByName(t: Tables, w: Id, name: string): (r: Option<Id>)
    ensures r.Some? ==> HasRole(t, w, name, r.value)
    ensures r.None? ==> forall id :: !HasRole(t, w, name, id)
  {
    if id: Id :| HasRole(t, w, name, id) then Some(id) else None
  }

  /** The tables with an admin role in the workspace: the one it has, or a new one. */
  function WithAdminRole(t: Tables, w: Id, found: Option<Id>): Tables {
    if found.Some? then t
    else t.(roles := t.roles[t.nextId := Role.System(w, ADMIN_ROLE)],
         grants := t.grants[t.nextId := ADMIN_PERMISSIONS],
         nextId := t.nextId + 1)
  }

  /** The two members exchange: the owner's role id moves to the target, the admin role's id to
      the caller, and the workspace names the target. */
  ghost function Transfer(t: Tables, w: Id, targetId: Id, u: Id): Change {
    var workspace :- LiveWorkspace(t, w);
    :- Require(t, u, WorkspaceTransfer, w);
    :- Need(targetId != u, SelectAnotherMember);
    var target :- FoundMember(t, w, targetId);
    var previous :- FoundMember(t, w, u);
    var found := RoleByName(t, w, ADMIN_ROLE);
    var adminId := if found.Some? then found.value else t.nextId;
    var t1 := WithAdminRole(t, w, found);
    var t' := t1.(members := t1.members[(w, targetId) := previous][(w, u) := Member(adminId)],
    workspaces := t1.workspaces[w := workspace.(ownerId := targetId)]);
    :- SingleOwner(t', w);
    Success(t')
  }

  // --- invitations ------------------------------------------------------------------

  /** `now` is read for the pending check and `later` for the new invitation's dates. */
  function Invite(t: Tables, w: Id, email: string, roleId: Id, u: Id, now: Time, later: Time): Change {
    var _ :- LiveWorkspace(t, w);
    :- Require(t, u, MembersInvite, w);
    var role :- ConfigurableRole(t, w, roleId);
    :- Need(role.Invitable(Permits(t, u, RolesManage, w)), InvitingTakesRolesManage);
    :- Need(!MemberHasEmail(t, w, Lower(email)) && !HasPending(t, w, Lower(email), now), AlreadyInvited);
    var invitation := Invitation.Issue(w, Lower(email), roleId, u, t.nextId, later);
    Success(t.(invitations := t.invitations[t.nextId := invitation], nextId := t.nextId + 1))
  }

  function RevokeInvitation(t: Tables, w: Id, i: Id, u: Id, now: Time): Change {
    var _ :- LiveWorkspace(t, w);
    :- Require(t, u, InvitationsRevoke, w);
    :- Need(i in t.invitations && t.invitations[i].workspaceId == w, InvitationNotFound);
    :- Need(t.invitations[i].Open(now), NoLongerPending);
    Success(t.(invitations := t.invitations[i := t.invitations[i].Revoke()]))
  }

  /** `invitations.by_token`: at most one, because token hashes are unique. */
  ghost function InvitationByToken(t: Tables, token: Token): (r: Option<Id>)
    ensures r.Some? ==> HasToken(t, r.value, token)
    ensures r.None? ==> forall id :: !HasToken(t, id, token)
  {
    if id: Id :| HasToken(t, id, token) then Some(id) else None
  }

  ghost function UsableInvitation(t: Tables, token: Token, now: Time): Result<Id, Error> {
    var found := InvitationByToken(t, token);
    if found.Some? && t.invitations[found.value].Open(now) then Success(found.value)
    else Failure(InvitationUnusable)
  }

  /** The checks of `join_with_invitation` before it changes anything. */
  ghost function Joinable(t: Tables, token: Token, u: Id, now: Time): Result<Id, Error> {
    var allowed := Require(t, u, InvitationsAccept, u);
    :- allowed;
    var i :- UsableInvitation(t, token, now);
    var user :- ExistingUser(t, u);
    var invitation := t.invitations[i];
    :- Need(Lower(user.email) == invitation.email, WrongAddressee);
    var _ :- LiveWorkspace(t, invitation.workspaceId);
    var _ :- ConfigurableRole(t, invitation.workspaceId, invitation.roleId);
    :- Need((invitation.workspaceId, u) !in t.members, AlreadyAMember);
    Success(i)
  }

  /** `u` accepts invitation `i`: the invitation settles, the member appears, onboarding moves. */
  function Joined(t: Tables, i: Id, u: Id): Tables
    requires i in t.invitations && u in t.users
  {
    var invitation := t.invitations[i];
    t.(invitations := t.invitations[i := invitation.Accept(u)],
    members := t.members[(invitation.workspaceId, u) := Member(invitation.roleId)],
    users := t.users[u := t.users[u].JoinedAWorkspace()])
  }

  /** The clock is read again when the invitation is accepted: it may have expired meanwhile. */
  ghost function Join(t: Tables, token: Token, u: Id, now: Time, later: Time): Change {
    var i :- Joinable(t, token, u, now);
    :- Need(t.invitations[i].Open(later), InvitationUnusable);
    var t' := Joined(t, i, u);
    var _ :- View(t', t.invitations[i].workspaceId, u);
    Success(t')
  }

  // --- accounts ---------------------------------------------------------------------

  /** `users.add_unless_taken`: a row with this id or this address stays as it is. */
  function AddUnlessTaken(t: Tables, u: Id, user: User): Tables {
    if u in t.users || (exists o <- t.users :: t.users[o].email == user.email) then t
    else t.(users := t.users[u := user])
  }

  /** An invitation that cannot be applied is ignored; the account is created all the same. */
  ghost function Register(t: Tables, u: Id, email: string, name: string, token: Option<Token>,
                          now: Time, later: Time): Tables
  {
    var t' := AddUnlessTaken(t, u, User.New(email, name));
    if token.None? then t'
    else
      var joined := Join(t', token.value, u, now, later);
      if joined.Success? then joined.value else t'
  }

  function EnsureAccount(t: Tables, u: Id, email: string): Tables {
    AddUnlessTaken(t, u, User.New(email, ""))
  }

  /** The request schema refuses a blank name before it gets here. */
  function Rename(t: Tables, u: Id, name: string): Change {
    var allowed := Require(t, u, ProfileUpdate, u);
    :- allowed;
    var user :- ExistingUser(t, u);
    Success(t.(users := t.users[u := user.Rename(name, BelongsToAny(t.members, u))]))
  }

  function SetAvatar(t: Tables, u: Id, avatarKey: Option<Key>): Change {
    var user :- ExistingUser(t, u);
    Success(t.(users := t.users[u := user.(avatarKey := avatarKey)]))
  }

  function EnsureDeletable(t: Tables, u: Id): Check<Error> {
    if Require(t, u, ProfileDelete, u).Refuse? then Require(t, u, ProfileDelete, u)
    else Need(!AnyOwnedBy(t, u), OwnsAWorkspace)
  }

  /** The last transaction of an account deletion; its deleted workspaces are purged before. */
  function DeleteAccount(t: Tables, u: Id): Change {
    var allowed := EnsureDeletable(t, u);
    :- allowed;
    var _ :- ExistingUser(t, u);
    Success(t.(members := map m <- t.members | m.1 != u :: t.members[m],
            invitations := map i <- t.invitations | t.invitations[i].invitedBy != u :: t.invitations[i],
            users := t.users - {u}))
  }

  // --- purge ------------------------------------------------------------------------

  function RoleIdsOf(t: Tables, w: Id): set<Id> {
    set r <- t.roles | t.roles[r].workspaceId == w
  }

  /** `purge_rows`: the rows of a soft-deleted workspace, its products excepted. */
  function PurgeRows(t: Tables, w: Id): Tables {
    if w !in t.workspaces || t.workspaces[w].Live() then t
    else t.(grants := t.grants - RoleIdsOf(t, w),
         roles := t.roles - RoleIdsOf(t, w),
         members := WithoutMembersOf(t.members, w),
         invitations := map i <- t.invitations | t.invitations[i].workspaceId != w :: t.invitations[i],
         workspaces := t.workspaces - {w})
  }
}
