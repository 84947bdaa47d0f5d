/** The rows of the database as the domain sees them (app/domain/user.py,
    app/domain/workspace.py). Text columns that never decide anything are left out. */
module Entities {
  import opened Wrappers
  import opened Access
  import opened Text

  /** Primary keys are opaque and ordered; new ones are drawn from an increasing source. */
  type Id = nat
  type Time = nat
  /** The key of an object in the media bucket. */
  type Key = nat

  function Maybe(key: Option<Key>): set<Key> {
    if key.Some? then {key.value} else {}
  }

  /** An invitation's secret; its hash is injective, so the row can hold it directly. */
  type Token = nat

  /** Why a use case fails. */
  datatype Error =
    | AccountNotFound
    | OnboardingIncomplete(status: OnboardingStatus)
    | PermissionDenied
    | MembershipRequired
    | WorkspaceNotFound
    | RoleNotFound
    | MemberNotFound
    | InvitationNotFound
    | InvitationUnusable
    | WrongAddressee
    | OwnerIsProtected
    | OwnerNameIsReserved
    | AlreadyAMember
    | SlugTaken
    | RoleNameTaken
    | RoleInUse
    | OwnerOnlyPermission
    | UnknownPermission
    | SelectAnotherMember
    | InvitingTakesRolesManage
    | AlreadyInvited
    | NoLongerPending
    | NotASingleOwner
    | EmptyName
    | OwnsAWorkspace

  // --- accounts ---------------------------------------------------------------------

  datatype User = User(
    email: string,
    displayName: string,
    avatarKey: Option<Key>,
    status: OnboardingStatus) {

    /** The first row of an account: lower-cased address, trimmed name, and the profile step
        still open exactly when the name is blank. */
    static function New(email: string, displayName: string): User {
      var name := Strip(displayName);
      User(Lower(email), name, None, if name == [] then ProfilePending else WorkspacePending)
    }

    function Rename(name: string, belongsToAWorkspace: bool): User {
      this.(displayName := name,
      status := if status != ProfilePending then status
      else if belongsToAWorkspace then Completed
      else WorkspacePending)
    }

    function CreatedAWorkspace(): User {
      this.(status := Completed)
    }

    function JoinedAWorkspace(): User {
      if status == WorkspacePending then this.(status := Completed) else this
    }

    function LeftEveryWorkspace(): User {
      if status == Completed then this.(status := WorkspacePending) else this
    }
  }

  // --- workspaces -------------------------------------------------------------------

  /** A soft-deleted workspace frees its slug for a generated one nobody can have chosen. */
  datatype Slug = Address(text: string) | Tombstone(id: Id)

  datatype Workspace = Workspace(
    name: string,
    slug: Slug,
    ownerId: Id,
    logoKey: Option<Key>,
    deletedAt: Option<Time>) {

    predicate Live() {
      deletedAt.None?
    }

    /** The answer that does not depend on stored permissions, if there is one. */
    function Grants(userId: Id, action: Action): Option<bool> {
      if userId == ownerId then Some(true)
      else if action in OWNER_ACTIONS then Some(false)
      else if IsRead(action) then Some(true)
      else None
    }

    /** The permission list of a member's view: the stored one, or everything for the owner. */
    function PermissionsFor(userId: Id, rolePermissions: set<Action>): set<Action> {
      if userId != ownerId then rolePermissions else CATALOG + OWNER_ACTIONS
    }
  }

  datatype Role = Role(workspaceId: Id, name: string, isSystem: bool, isProtected: bool) {

    static function System(workspaceId: Id, name: string): Role {
      Role(workspaceId, name, true, name == OWNER_ROLE)
    }

    static function Custom(workspaceId: Id, name: string): Role {
      Role(workspaceId, Strip(name), false, false)
    }

    function Rename(newName: string): Role {
      this.(name := Strip(newName))
    }

    /** Whether an inviter may offer this role: any role with the right to manage roles, and
        otherwise just the system role named "member". */
    predicate Invitable(mayManageRoles: bool) {
      (isSystem && name == DEFAULT_MEMBER_ROLE) || mayManageRoles
    }
  }

  predicate AssignableRoleName(name: string) {
    Strip(name) != OWNER_ROLE
  }

  datatype Member = Member(roleId: Id)

  // --- invitations ------------------------------------------------------------------

  const INVITATION_LIFETIME: nat := 7 * 24 * 60 * 60

  datatype InvitationStatus = Pending | Accepted | Revoked

  datatype Invitation = Invitation(
    workspaceId: Id,
    email: string,
    roleId: Id,
    token: Token,
    status: InvitationStatus,
    invitedBy: Id,
    acceptedBy: Option<Id>,
    expiresAt: Time) {

    static function Issue(workspaceId: Id, email: string, roleId: Id, invitedBy: Id,
                          token: Token, now: Time): Invitation {
      Invitation(workspaceId, Lower(email), roleId, token, Pending, invitedBy, None,
                 now + INVITATION_LIFETIME)
    }

    /** Pending and not expired. */
    predicate Open(now: Time) {
      status == Pending && now < expiresAt
    }

    function Revoke(): Invitation {
      this.(status := Revoked)
    }

    function Accept(userId: Id): Invitation {
      this.(status := Accepted, acceptedBy := Some(userId))
    }
  }
}
