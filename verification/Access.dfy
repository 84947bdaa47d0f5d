/** Actions as an enumeration, with the constant sets that decide permissions and the onboarding
    statuses an action requires (app/domain/access.py). The source writes actions as text;
    `Other` stands for any text outside its tables. */
module Access {

  datatype OnboardingStatus = ProfilePending | WorkspacePending | Completed

  datatype Action =
    | ProfileRead
    | ProfileUpdate
    | ProfileDelete
    | WorkspacesList
    | WorkspacesCreate
    | WorkspacesAvailability
    | InvitationsAccept
    | WorkspaceRead
    | WorkspaceUpdate
    | WorkspaceDelete
    | WorkspaceTransfer
    | MembersInvite
    | MembersRemove
    | InvitationsRevoke
    | RolesManage
    | ProductsRead
    | ProductsCreate
    | ProductsUpdate
    | ProductsDelete
    | Other(text: string)

  /** The only permissions a role can store, owner actions excepted. */
  const CATALOG: set<Action> := {
    WorkspaceUpdate, WorkspaceDelete, MembersInvite, MembersRemove, InvitationsRevoke,
    RolesManage, ProductsCreate, ProductsUpdate, ProductsDelete
  }

  /** No stored permission grants these: `Workspace.Grants` answers them by ownership alone. */
  const OWNER_ACTIONS: set<Action> := {WorkspaceDelete, WorkspaceTransfer}

  const ADMIN_PERMISSIONS: set<Action> := CATALOG - {WorkspaceDelete}

  const MEMBER_PERMISSIONS: set<Action> := {ProductsCreate, ProductsUpdate, ProductsDelete}

  const OWNER_ROLE := "owner"
  const ADMIN_ROLE := "admin"
  const DEFAULT_MEMBER_ROLE := "member"
  const VIEWER_ROLE := "viewer"

  const SYSTEM_ROLES := 4

  /** The names of the system roles, in the order they are created. */
  function SystemRole(n: nat): string
    requires n < SYSTEM_ROLES
  {
    if n == 0 then OWNER_ROLE else if n == 1 then ADMIN_ROLE else if n == 2 then DEFAULT_MEMBER_ROLE else VIEWER_ROLE
  }

  /** What each system role grants when a workspace is created. */
  function SystemPermissions(name: string): set<Action> {
    if name == ADMIN_ROLE then ADMIN_PERMISSIONS
    else if name == DEFAULT_MEMBER_ROLE then MEMBER_PERMISSIONS
    else {}
  }

  /** Everybody in a workspace may perform its `.read` actions. */
  predicate IsRead(action: Action) {
    action in {ProfileRead, WorkspaceRead, ProductsRead}
  }

  /** For these, `Permits` compares the resource with the caller and looks at no membership. */
  predicate IsOnOwnAccount(action: Action) {
    action in {ProfileRead, ProfileUpdate, ProfileDelete, WorkspacesList, WorkspacesCreate,
               WorkspacesAvailability, InvitationsAccept}
  }

  /** `Require` refuses a caller whose status is outside this set. */
  function OnboardingNeededFor(action: Action): set<OnboardingStatus> {
    if action in {WorkspacesCreate, WorkspacesAvailability} then {Completed, WorkspacePending}
    else if action in {ProfileRead, ProfileUpdate, ProfileDelete, InvitationsAccept} then
      {ProfilePending, WorkspacePending, Completed}
    else {Completed}
  }
}
