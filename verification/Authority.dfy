/** Who may do what. A person acts in a workspace by the permission list their view shows them;
    ownership alone decides about deleting and handing over a workspace. */
module Authority {
  import opened Wrappers
  import opened Access
  import opened Entities
  import opened Store
  import opened UseCases
  import opened Runs
  import opened WorkspaceTheorems

  /** An account past onboarding that is a member of the live workspace. */
  predicate Belongs(t: Tables, u: Id, w: Id) {
    && u in t.users && t.users[u].status == Completed
    && w in t.workspaces && t.workspaces[w].deletedAt == None && (w, u) in t.members
  }

  /** Such a member whose view lists the action. */
  predicate May(t: Tables, u: Id, action: Action, w: Id) {
    Belongs(t, u, w) && action in View(t, w, u).value.permissions
  }

  predicate Owns(t: Tables, u: Id, w: Id) {
    Belongs(t, u, w) && t.workspaces[w].ownerId == u
  }

  // --- the list a member is shown ---------------------------------------------------

  /** What a role has been granted, read from the grants themselves. */
  function Granted(t: Tables, roleId: Id): set<Action> {
    set a, r | r in t.grants && r == roleId && a in t.grants[r] :: a
  }

  /** The owner's list is complete; everybody else's is what their role was granted, and never
      contains an owner's action. */
  lemma ListsAreTheRoles(t: Tables, now: Time, w: Id, u: Id)
    requires Reachable(t, now) && w in t.workspaces && (w, u) in t.members
    ensures View(t, w, u).Success? && View(t, w, u).value.workspace == t.workspaces[w]
    ensures View(t, w, u).value.roleId == t.members[(w, u)].roleId
    ensures var shown := View(t, w, u).value.permissions;
            if t.workspaces[w].ownerId == u then
              shown == {WorkspaceUpdate, WorkspaceDelete, WorkspaceTransfer, MembersInvite, MembersRemove,
                        InvitationsRevoke, RolesManage, ProductsCreate, ProductsUpdate, ProductsDelete}
            else
              shown == Granted(t, t.members[(w, u)].roleId) && WorkspaceDelete !in shown && WorkspaceTransfer !in shown
  {
    StoredPermissionsAreCatalogued(t, now, t.members[(w, u)].roleId);
  }

  /** The check of an action in a workspace, exactly: it lets through who may, and otherwise says
      what is missing. */
  lemma RequireExactly(t: Tables, now: Time, u: Id, action: Action, w: Id)
    requires Reachable(t, now) && action in CATALOG + OWNER_ACTIONS
    ensures Require(t, u, action, w).Pass? <==> May(t, u, action, w)
    ensures Require(t, u, action, w) == Refuse(AccountNotFound) <==> u !in t.users
    ensures forall status :: Require(t, u, action, w) == Refuse(OnboardingIncomplete(status))
                             <==> u in t.users && t.users[u].status == status && status != Completed
    ensures Require(t, u, action, w) == Refuse(PermissionDenied)
       <==> u in t.users && t.users[u].status == Completed && !May(t, u, action, w)
  {
    if IsLive(t.workspaces, w) && (w, u) in t.members {
      PermissionListIsExact(t, now, w, u, action);
    }
  }

  /** Deleting and handing over take ownership: no role stands in for it. */
  lemma OwnerActionsTakeOwnership(t: Tables, now: Time, u: Id, w: Id)
    requires Reachable(t, now)
    ensures May(t, u, WorkspaceDelete, w) <==> Owns(t, u, w)
    ensures May(t, u, WorkspaceTransfer, w) <==> Owns(t, u, w)
  {
    if w in t.workspaces && (w, u) in t.members {
      ListsAreTheRoles(t, now, w, u);
    }
  }

  /** Every member may read; what is not the workspace's to decide is about one's own account. */
  lemma ReadingTakesMembership(t: Tables, u: Id, action: Action, w: Id)
    requires action in {WorkspaceRead, ProductsRead}
    ensures Require(t, u, action, w).Pass? <==> Belongs(t, u, w)
  {}

  /** Founding is open from the workspace step on, the account itself at every step. */
  lemma OwnAccountExactly(t: Tables, u: Id)
    ensures Require(t, u, WorkspacesCreate, u).Pass? <==> u in t.users && t.users[u].status != ProfilePending
    ensures forall action <- {ProfileRead, ProfileUpdate, ProfileDelete, InvitationsAccept} ::
              Require(t, u, action, u).Pass? <==> u in t.users
    ensures forall v, action <- {ProfileUpdate, ProfileDelete, WorkspacesCreate, InvitationsAccept} ::
              v != u ==> !Require(t, u, action, v).Pass?
  {}

  // --- commands ---------------------------------------------------------------------

  /** What the actor of a command must be allowed. */
  ghost predicate Authorized(t: Tables, c: Command) {
    match c
    case OnWorkspace(CreateWorkspace(_, _), u) => u in t.users && t.users[u].status != ProfilePending
    case OnWorkspace(UpdateWorkspace(w, _, _), u) => May(t, u, WorkspaceUpdate, w)
    case OnWorkspace(ReplaceLogo(w, _), u) => May(t, u, WorkspaceUpdate, w)
    case OnWorkspace(DeleteWorkspace(w), u) => Owns(t, u, w)
    case OnRole(_, w, u) => May(t, u, RolesManage, w)
    case OnMember(DropMember(w, _), u) => May(t, u, MembersRemove, w)
    case OnMember(TransferOwnership(w, _), u) => Owns(t, u, w)
    case OnMember(InviteByEmail(w, _, role), u) =>
      && May(t, u, MembersInvite, w)
      && role in t.roles
      && (May(t, u, RolesManage, w) || (t.roles[role].isSystem && t.roles[role].name == "member"))
    case OnMember(RevokeInvite(w, _), u) => May(t, u, InvitationsRevoke, w)
    case OnMember(AcceptInvite(_), u) => u in t.users
    case OnAccount(RegisterAccount(_, _, _), _) => true
    case OnAccount(FirstRequest(_), _) => true
    case OnAccount(_, u) => u in t.users
    case PurgeWorkspace(_) => true
  }

  lemma WorkspaceCommandsAreAuthorized(t: Tables, now: Time, c: WorkspaceCommand, u: Id, clock: Time)
    requires Reachable(t, now) && ApplyToWorkspace(t, c, u, clock).Success?
    ensures Authorized(t, OnWorkspace(c, u))
  {
    match c {
      case CreateWorkspace(_, _) =>
      case UpdateWorkspace(w, _, _) => RequireExactly(t, now, u, WorkspaceUpdate, w);
      case ReplaceLogo(w, _) => RequireExactly(t, now, u, WorkspaceUpdate, w);
      case DeleteWorkspace(w) =>
        RequireExactly(t, now, u, WorkspaceDelete, w);
        OwnerActionsTakeOwnership(t, now, u, w);
    }
  }

  lemma RoleCommandsAreAuthorized(t: Tables, now: Time, c: RoleCommand, w: Id, u: Id, clock: Time)
    requires Reachable(t, now) && ApplyToRole(t, c, w, u, clock).Success?
    ensures Authorized(t, OnRole(c, w, u))
  {
    RequireExactly(t, now, u, RolesManage, w);
  }

  lemma MemberCommandsAreAuthorized(t: Tables, now: Time, c: MemberCommand, u: Id, clock: Time, later: Time)
    requires Reachable(t, now) && ApplyToMember(t, c, u, clock, later).Success?
    ensures Authorized(t, OnMember(c, u))
  {
    match c {
      case DropMember(w, _) => RequireExactly(t, now, u, MembersRemove, w);
      case TransferOwnership(w, _) =>
        RequireExactly(t, now, u, WorkspaceTransfer, w);
        OwnerActionsTakeOwnership(t, now, u, w);
      case InviteByEmail(w, _, _) =>
        RequireExactly(t, now, u, MembersInvite, w);
        RequireExactly(t, now, u, RolesManage, w);
      case RevokeInvite(w, _) => RequireExactly(t, now, u, InvitationsRevoke, w);
      case AcceptInvite(_) =>
    }
  }

  /** No command succeeds for an actor who is not allowed it. */
  lemma CommandsAreAuthorized(t: Tables, now: Time, e: Event)
    requires Reachable(t, now) && Apply(t, e).Success?
    ensures Authorized(t, e.command)
  {
    match e.command {
      case OnWorkspace(c, u) => WorkspaceCommandsAreAuthorized(t, now, c, u, e.now);
      case OnRole(c, w, u) => RoleCommandsAreAuthorized(t, now, c, w, u, e.now);
      case OnMember(c, u) => MemberCommandsAreAuthorized(t, now, c, u, e.now, e.later);
      case OnAccount(_, _) =>
      case PurgeWorkspace(_) =>
    }
  }

  // --- refusals ---------------------------------------------------------------------

  /** The workspace a command acts in and what it takes there, unless it is about one's own
      account. */
  function Needs(c: Command): Option<(Id, Action)> {
    match c
    case OnWorkspace(UpdateWorkspace(w, _, _), _) => Some((w, WorkspaceUpdate))
    case OnWorkspace(ReplaceLogo(w, _), _) => Some((w, WorkspaceUpdate))
    case OnWorkspace(DeleteWorkspace(w), _) => Some((w, WorkspaceDelete))
    case OnRole(_, w, _) => Some((w, RolesManage))
    case OnMember(DropMember(w, _), _) => Some((w, MembersRemove))
    case OnMember(TransferOwnership(w, _), _) => Some((w, WorkspaceTransfer))
    case OnMember(InviteByEmail(w, _, _), _) => Some((w, MembersInvite))
    case OnMember(RevokeInvite(w, _), _) => Some((w, InvitationsRevoke))
    case _ => None
  }

  /** What somebody who may not act in a workspace is told. */
  function Refusal(t: Tables, u: Id, w: Id): Error {
    if !IsLive(t.workspaces, w) then WorkspaceNotFound
    else if u !in t.users then AccountNotFound
    else if t.users[u].status != Completed then OnboardingIncomplete(t.users[u].status)
    else PermissionDenied
  }

  /** Being allowed is settled first: whoever may not act is told so whatever else is wrong with
      the command, and whoever may is never told so. */
  lemma OthersAreRefused(t: Tables, now: Time, e: Event)
    requires Reachable(t, now) && Needs(e.command).Some?
    ensures var (w, action) := Needs(e.command).value;
            var u := e.command.actor;
            if May(t, u, action, w) then Apply(t, e) != Failure(Refusal(t, u, w))
            else Apply(t, e) == Failure(Refusal(t, u, w))
  {
    var (w, action) := Needs(e.command).value;
    var u := e.command.actor;
    RequireExactly(t, now, u, action, w);
    assert Require(t, u, action, w).Pass? <==> May(t, u, action, w);
  }
}
