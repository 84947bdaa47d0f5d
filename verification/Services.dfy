/** The use cases as they run: each changes the tables of its transaction step by step
    (app/application/workspaces.py, accounts.py) and is proved to do exactly what `UseCases`
    says. A transaction that fails is rolled back. */
module Services {
  import opened Wrappers
  import opened Access
  import opened Text
  import opened Entities
  import opened ProductRows
  import opened Store
  import U = UseCases
  import opened Invariant

  type Answer = Result<(), Error>

  /** The tables as one transaction sees and changes them. */
  class UnitOfWork {
    var users: map<Id, User>
    var workspaces: map<Id, Workspace>
    var roles: map<Id, Role>
    var grants: map<Id, set<Action>>
    var members: map<(Id, Id), Member>
    var invitations: map<Id, Invitation>
    var products: map<Id, ProductRow>
    var nextId: Id

    function Tables(): Tables
      reads this
    {
      Store.Tables(users, workspaces, roles, grants, members, invitations, products, nextId)
    }

    constructor ()
      ensures Tables() == EMPTY
    {
      users, workspaces, roles, grants := map[], map[], map[], map[];
      members, invitations, products, nextId := map[], map[], map[], 0;
    }

    method Rollback(t: Tables)
      modifies this
      ensures Tables() == t
    {
      users, workspaces, roles, grants := t.users, t.workspaces, t.roles, t.grants;
      members, invitations, products, nextId := t.members, t.invitations, t.products, t.nextId;
    }

    method NewId() returns (id: Id)
      modifies this`nextId
      ensures id == old(nextId) && nextId == id + 1
    {
      id := nextId;
      nextId := nextId + 1;
    }

    /** `roles.by_name`; the database keeps role names unique within a workspace. */
    method RoleByName(w: Id, name: string) returns (found: Option<Id>)
      requires Injective(RoleNames(roles))
      ensures found == U.RoleByName(Tables(), w, name)
    {
      found := None;
      var t := Tables();
      if exists r <- roles :: HasRole(t, w, name, r) {
        var r :| r in roles && HasRole(t, w, name, r);
        found := Some(r);
        assert forall q | HasRole(t, w, name, q) :: Same(RoleNames(roles)[q], RoleNames(roles)[r]);
      } else {
        assert forall q :: !HasRole(t, w, name, q);
      }
    }

    /** `invitations.by_token`; the database keeps token hashes unique. */
    method InvitationByToken(token: Token) returns (found: Option<Id>)
      requires Injective(Tokens(invitations))
      ensures found == U.InvitationByToken(Tables(), token)
    {
      found := None;
      var t := Tables();
      if exists i <- invitations :: HasToken(t, i, token) {
        var i :| i in invitations && HasToken(t, i, token);
        found := Some(i);
        assert forall j | HasToken(t, j, token) :: Same(Tokens(invitations)[j], Tokens(invitations)[i]);
      } else {
        assert forall j :: !HasToken(t, j, token);
      }
    }
  }

  /** `work` ran to the end as `change` says: same tables on success, same error otherwise. */
  ghost predicate Ran(change: U.Change, after: Tables, r: Answer) {
    match change
    case Success(t) => r == Success(()) && after == t
    case Failure(e) => r == Failure(e)
  }

  lemma NextSystemRole(roles: map<Id, Role>, w: Id, n: nat, name: string)
    requires n < SYSTEM_ROLES && name == U.SystemRoleName(w, w + 1 + n)
    ensures roles + U.SystemRoles(w, n + 1) == (roles + U.SystemRoles(w, n))[w + 1 + n := Role.System(w, name)]
  {
    assert U.SystemRoles(w, n + 1) == U.SystemRoles(w, n)[w + 1 + n := Role.System(w, name)];
  }

  lemma NextSystemGrant(grants: map<Id, set<Action>>, w: Id, n: nat, name: string)
    requires n < SYSTEM_ROLES && name == U.SystemRoleName(w, w + 1 + n)
    ensures grants + U.SystemGrants(w, n + 1) == (grants + U.SystemGrants(w, n))[w + 1 + n := SystemPermissions(name)]
  {
    assert U.SystemGrants(w, n + 1) == U.SystemGrants(w, n)[w + 1 + n := SystemPermissions(name)];
  }

  lemma OwnerRoleComesFirst(n: nat)
    requires n < SYSTEM_ROLES
    ensures SystemRole(n) == OWNER_ROLE <==> n == 0
  {
    assert OWNER_ROLE[0] == 'o' && ADMIN_ROLE[0] == 'a' && DEFAULT_MEMBER_ROLE[0] == 'm' && VIEWER_ROLE[0] == 'v';
  }

  lemma NameInUseElsewhere(t: Tables, t': Tables, w: Id, name: string, r: Id)
    requires r in t'.roles && t'.roles == t.roles[r := t'.roles[r]]
    ensures RoleNameInUse(t', w, name, r) <==> RoleNameInUse(t, w, name, r)
  {
    assert forall q <- t.roles :: q in t'.roles && (q != r ==> t'.roles[q] == t.roles[q]);
  }

  class WorkspaceService {
    const uow: UnitOfWork

    constructor (uow: UnitOfWork)
      ensures this.uow == uow
    {
      this.uow := uow;
    }

    method Create(name: string, slug: Slug, u: Id) returns (r: Answer)
      modifies uow
      ensures Ran(U.Create(old(uow.Tables()), name, slug, u), uow.Tables(), r)
    {
      var allowed := U.Require(uow.Tables(), u, WorkspacesCreate, u);
      :- allowed;
      :- Need(Strip(name) != [], EmptyName);
      var w := AddWorkspace(name, slug, u);
      :- Need(!SlugInUse(uow.Tables(), slug, w), SlugTaken);
      :- U.SingleOwner(uow.Tables(), w);
      assert U.View(uow.Tables(), w, u).Success?;
      r := Success(());
    }

    /** The rows of a new workspace; its founder has completed onboarding. */
    method AddWorkspace(name: string, slug: Slug, u: Id) returns (w: Id)
      requires u in uow.users
      modifies uow
      ensures w == old(uow.nextId) && uow.Tables() == U.Founded(old(uow.Tables()), name, slug, u)
    {
      var user := uow.users[u];
      w := uow.NewId();
      uow.workspaces := uow.workspaces[w := Workspace(Strip(name), slug, u, None, None)];
      AddSystemRoles(w, u);
      uow.users := uow.users[u := user.CreatedAWorkspace()];
    }

    /** The four system roles of a new workspace; its creator takes the owner's. */
    method AddSystemRoles(w: Id, u: Id)
      requires uow.nextId == w + 1
      modifies uow`roles, uow`grants, uow`members, uow`nextId
      ensures uow.roles == old(uow.roles) + U.SystemRoles(w, SYSTEM_ROLES)
      ensures uow.grants == old(uow.grants) + U.SystemGrants(w, SYSTEM_ROLES)
      ensures uow.members == old(uow.members)[(w, u) := Member(w + 1)]
      ensures uow.nextId == w + 1 + SYSTEM_ROLES
    {
      ghost var roles, grants, members := uow.roles, uow.grants, uow.members;
      assert roles + U.SystemRoles(w, 0) == roles;
      assert grants + U.SystemGrants(w, 0) == grants;
      for n := 0 to SYSTEM_ROLES
        invariant uow.roles == roles + U.SystemRoles(w, n)
        invariant uow.grants == grants + U.SystemGrants(w, n)
        invariant uow.members == if n == 0 then members else members[(w, u) := Member(w + 1)]
        invariant uow.nextId == w + 1 + n
      {
        NextSystemRole(roles, w, n, SystemRole(n));
        NextSystemGrant(grants, w, n, SystemRole(n));
        AddSystemRole(w, u, n);
      }
    }

    method AddSystemRole(w: Id, u: Id, n: nat)
      requires n < SYSTEM_ROLES
      modifies uow`roles, uow`grants, uow`members, uow`nextId
      ensures uow.roles == old(uow.roles)[old(uow.nextId) := Role.System(w, SystemRole(n))]
      ensures uow.grants == old(uow.grants)[old(uow.nextId) := SystemPermissions(SystemRole(n))]
      ensures uow.members == if n == 0 then old(uow.members)[(w, u) := Member(old(uow.nextId))] else old(uow.members)
      ensures uow.nextId == old(uow.nextId) + 1
    {
      var roleName := SystemRole(n);
      var roleId := uow.NewId();
      uow.roles := uow.roles[roleId := Role.System(w, roleName)];
      uow.grants := uow.grants[roleId := SystemPermissions(roleName)];
      OwnerRoleComesFirst(n);
      if roleName == OWNER_ROLE {
        uow.members := uow.members[(w, u) := Member(roleId)];
      }
    }

    method Update(w: Id, name: string, slug: Slug, u: Id) returns (r: Answer)
      modifies uow
      ensures Ran(U.Update(old(uow.Tables()), w, name, slug, u), uow.Tables(), r)
    {
      var workspace :- LiveWorkspace(uow.Tables(), w);
      :- U.Require(uow.Tables(), u, WorkspaceUpdate, w);
      uow.workspaces := uow.workspaces[w := workspace.(name := Strip(name), slug := slug)];
      :- Need(!SlugInUse(uow.Tables(), slug, w), SlugTaken);
      var _ :- U.View(uow.Tables(), w, u);
      r := Success(());
    }

    method ReplaceLogo(w: Id, logoKey: Option<Key>, u: Id) returns (r: Answer)
      modifies uow
      ensures Ran(U.SetLogo(old(uow.Tables()), w, logoKey, u), uow.Tables(), r)
    {
      var workspace :- LiveWorkspace(uow.Tables(), w);
      :- U.Require(uow.Tables(), u, WorkspaceUpdate, w);
      uow.workspaces := uow.workspaces[w := workspace.(logoKey := logoKey)];
      var _ :- U.View(uow.Tables(), w, u);
      r := Success(());
    }

    /** Sends the people of `userIds` who belong nowhere any more back to the workspace step. */
    method ReturnToWorkspaceStep(userIds: set<Id>)
      modifies uow`users
      ensures uow.users == U.ReturnToWorkspaceStep(old(uow.users), uow.members, userIds)
    {
      var before, left := uow.users, userIds;
      while left != {}
        invariant left <= userIds
        invariant uow.users == U.ReturnToWorkspaceStep(before, uow.members, userIds - left)
      {
        var u :| u in left;
        if u in uow.users && !BelongsToAny(uow.members, u) {
          uow.users := uow.users[u := uow.users[u].LeftEveryWorkspace()];
        }
        left := left - {u};
      }
      assert userIds - {} == userIds;
    }

    method Delete(w: Id, u: Id, now: Time) returns (r: Answer)
      modifies uow
      ensures Ran(U.Delete(old(uow.Tables()), w, u, now), uow.Tables(), r)
    {
      var workspace :- LiveWorkspace(uow.Tables(), w);
      :- U.Require(uow.Tables(), u, WorkspaceDelete, w);
      var memberIds := UserIds(uow.members, w);
      uow.members := U.WithoutMembersOf(uow.members, w);
      uow.invitations := U.RevokePending(uow.invitations, w);
      var id := uow.NewId();
      uow.workspaces := uow.workspaces[w := workspace.(deletedAt := Some(now), slug := Tombstone(id))];
      ReturnToWorkspaceStep(memberIds);
      r := Success(());
    }

    method SaveRole(w: Id, roleId: Option<Id>, name: string, u: Id) returns (r: Answer)
      modifies uow
      ensures Ran(U.SaveRole(old(uow.Tables()), w, roleId, name, u), uow.Tables(), r)
    {
      var _ :- LiveWorkspace(uow.Tables(), w);
      :- U.Require(uow.Tables(), u, RolesManage, w);
      :- Need(AssignableRoleName(name), OwnerNameIsReserved);
      if roleId.None? {
        ghost var before := uow.Tables();
        var id := uow.NewId();
        uow.roles := uow.roles[id := Role.Custom(w, name)];
        uow.grants := uow.grants[id := {}];
        NameInUseElsewhere(before, uow.Tables(), w, Strip(name), id);
        :- Need(!RoleNameInUse(uow.Tables(), w, Strip(name), id), RoleNameTaken);
      } else {
        ghost var before := uow.Tables();
        var role :- U.ConfigurableRole(uow.Tables(), w, roleId.value);
        uow.roles := uow.roles[roleId.value := role.Rename(name)];
        NameInUseElsewhere(before, uow.Tables(), w, Strip(name), roleId.value);
        :- Need(!RoleNameInUse(uow.Tables(), w, Strip(name), roleId.value), RoleNameTaken);
      }
      r := Success(());
    }

    method DeleteRole(w: Id, roleId: Id, u: Id, now: Time) returns (r: Answer)
      modifies uow
      ensures Ran(U.DeleteRole(old(uow.Tables()), w, roleId, u, now), uow.Tables(), r)
    {
      var _ :- LiveWorkspace(uow.Tables(), w);
      :- U.Require(uow.Tables(), u, RolesManage, w);
      var _ :- U.ConfigurableRole(uow.Tables(), w, roleId);
      :- Need(!IsRoleInUse(uow.Tables(), roleId, now), RoleInUse);
      uow.invitations := U.WithoutInvitationsFor(uow.invitations, roleId);
      uow.grants := uow.grants - {roleId};
      uow.roles := uow.roles - {roleId};
      r := Success(());
    }

    method SetPermissions(w: Id, roleId: Id, permissions: set<Action>, u: Id) returns (r: Answer)
      modifies uow
      ensures Ran(U.SetPermissions(old(uow.Tables()), w, roleId, permissions, u), uow.Tables(), r)
    {
      var _ :- LiveWorkspace(uow.Tables(), w);
      :- U.Require(uow.Tables(), u, RolesManage, w);
      var _ :- U.ConfigurableRole(uow.Tables(), w, roleId);
      :- U.ValidPermissions(permissions);
      uow.grants := uow.grants - {roleId};
      uow.grants := uow.grants[roleId := permissions];
      assert uow.grants == old(uow.grants)[roleId := permissions];
      r := Success(());
    }

    method SetMemberRole(w: Id, memberId: Id, roleId: Id, u: Id) returns (r: Answer)
      modifies uow
      ensures Ran(U.SetMemberRole(old(uow.Tables()), w, memberId, roleId, u), uow.Tables(), r)
    {
      var workspace :- LiveWorkspace(uow.Tables(), w);
      :- U.Require(uow.Tables(), u, RolesManage, w);
      var _ :- U.ConfigurableRole(uow.Tables(), w, roleId);
      :- Need(memberId != workspace.ownerId, OwnerIsProtected);
      var member :- FoundMember(uow.Tables(), w, memberId);
      uow.members := uow.members[(w, memberId) := member.(roleId := roleId)];
      :- U.SingleOwner(uow.Tables(), w);
      r := Success(());
    }

    method RemoveMember(w: Id, memberId: Id, u: Id) returns (r: Answer)
      modifies uow
      ensures Ran(U.RemoveMember(old(uow.Tables()), w, memberId, u), uow.Tables(), r)
    {
      var workspace :- LiveWorkspace(uow.Tables(), w);
      :- U.Require(uow.Tables(), u, MembersRemove, w);
      :- Need(memberId != workspace.ownerId, OwnerIsProtected);
      var _ :- FoundMember(uow.Tables(), w, memberId);
      uow.members := uow.members - {(w, memberId)};
      :- U.SingleOwner(uow.Tables(), w);
      ReturnToWorkspaceStep({memberId});
      r := Success(());
    }

    /** The admin role of `w`, created again should it be gone. */
    method AdminRole(w: Id) returns (adminId: Id)
      requires Injective(RoleNames(uow.roles))
      modifies uow`roles, uow`grants, uow`nextId
      ensures var found := U.RoleByName(old(uow.Tables()), w, ADMIN_ROLE);
              && uow.Tables() == U.WithAdminRole(old(uow.Tables()), w, found)
              && adminId == if found.Some? then found.value else old(uow.nextId)
    {
      var admin := uow.RoleByName(w, ADMIN_ROLE);
      if admin.Some? {
        return admin.value;
      }
      adminId := uow.NewId();
      uow.roles := uow.roles[adminId := Role.System(w, ADMIN_ROLE)];
      uow.grants := uow.grants[adminId := ADMIN_PERMISSIONS];
    }

    method Transfer(w: Id, targetId: Id, u: Id) returns (r: Answer)
      requires Injective(RoleNames(uow.roles))
      modifies uow
      ensures Ran(U.Transfer(old(uow.Tables()), w, targetId, u), uow.Tables(), r)
    {
      var workspace :- LiveWorkspace(uow.Tables(), w);
      :- U.Require(uow.Tables(), u, WorkspaceTransfer, w);
      :- Need(targetId != u, SelectAnotherMember);
      var target :- FoundMember(uow.Tables(), w, targetId);
      var previous :- FoundMember(uow.Tables(), w, u);
      var adminId := AdminRole(w);
      uow.members := uow.members[(w, targetId) := target.(roleId := previous.roleId)];
      uow.members := uow.members[(w, u) := previous.(roleId := adminId)];
      uow.workspaces := uow.workspaces[w := workspace.(ownerId := targetId)];
      :- U.SingleOwner(uow.Tables(), w);
      r := Success(());
    }

    method Invite(w: Id, email: string, roleId: Id, u: Id, now: Time, later: Time) returns (r: Answer)
      modifies uow
      ensures Ran(U.Invite(old(uow.Tables()), w, email, roleId, u, now, later), uow.Tables(), r)
    {
      var address := Lower(email);
      var _ :- LiveWorkspace(uow.Tables(), w);
      :- U.Require(uow.Tables(), u, MembersInvite, w);
      var role :- U.ConfigurableRole(uow.Tables(), w, roleId);
      :- Need(role.Invitable(U.Permits(uow.Tables(), u, RolesManage, w)), InvitingTakesRolesManage);
      if MemberHasEmail(uow.Tables(), w, address) || HasPending(uow.Tables(), w, address, now) {
        return Failure(AlreadyInvited);
      }
      var id := uow.NewId();
      uow.invitations := uow.invitations[id := Invitation.Issue(w, address, roleId, u, id, later)];
      r := Success(());
    }

    method RevokeInvitation(w: Id, i: Id, u: Id, now: Time) returns (r: Answer)
      modifies uow
      ensures Ran(U.RevokeInvitation(old(uow.Tables()), w, i, u, now), uow.Tables(), r)
    {
      var _ :- LiveWorkspace(uow.Tables(), w);
      :- U.Require(uow.Tables(), u, InvitationsRevoke, w);
      :- Need(i in uow.invitations && uow.invitations[i].workspaceId == w, InvitationNotFound);
      :- Need(uow.invitations[i].Open(now), NoLongerPending);
      uow.invitations := uow.invitations[i := uow.invitations[i].Revoke()];
      r := Success(());
    }

    /** `join_with_invitation`. Every check comes before the first write, so a failure leaves all
        rows alone even when, as in `Register`, the transaction goes on to commit. */
    method Join(token: Token, u: Id, now: Time, later: Time) returns (r: Answer)
      requires Injective(Tokens(uow.invitations))
      modifies uow
      ensures Ran(U.Join(old(uow.Tables()), token, u, now, later), uow.Tables(), r)
      ensures r.Failure? ==> uow.Tables() == old(uow.Tables())
    {
      var allowed := U.Require(uow.Tables(), u, InvitationsAccept, u);
      :- allowed;
      var found := uow.InvitationByToken(token);
      if found.None? {
        return Failure(InvitationUnusable);
      }
      var i := found.value;
      :- Need(uow.invitations[i].Open(now), InvitationUnusable);
      var user, invitation := uow.users[u], uow.invitations[i];
      :- Need(Lower(user.email) == invitation.email, WrongAddressee);
      var w := invitation.workspaceId;
      var _ :- LiveWorkspace(uow.Tables(), w);
      var _ :- U.ConfigurableRole(uow.Tables(), w, invitation.roleId);
      :- Need((w, u) !in uow.members, AlreadyAMember);
      :- Need(invitation.Open(later), InvitationUnusable);
      uow.invitations := uow.invitations[i := invitation.Accept(u)];
      uow.members := uow.members[(w, u) := Member(invitation.roleId)];
      uow.users := uow.users[u := user.JoinedAWorkspace()];
      assert U.View(uow.Tables(), w, u).Success?;
      r := Success(());
    }
  }

  class AccountService {
    const uow: UnitOfWork
    const workspaces: WorkspaceService

    constructor (uow: UnitOfWork, workspaces: WorkspaceService)
      requires workspaces.uow == uow
      ensures this.uow == uow && this.workspaces == workspaces
    {
      this.uow := uow;
      this.workspaces := workspaces;
    }

    method AddUnlessTaken(u: Id, user: User)
      modifies uow
      ensures uow.Tables() == U.AddUnlessTaken(old(uow.Tables()), u, user)
    {
      if u !in uow.users && !exists o <- uow.users :: uow.users[o].email == user.email {
        uow.users := uow.users[u := user];
      }
    }

    /** The transaction of `register`: an invitation that cannot be applied is ignored. */
    method Register(u: Id, email: string, name: string, token: Option<Token>, now: Time, later: Time)
      requires workspaces.uow == uow && Injective(Tokens(uow.invitations))
      modifies uow
      ensures uow.Tables() == U.Register(old(uow.Tables()), u, email, name, token, now, later)
    {
      AddUnlessTaken(u, User.New(email, name));
      if token.Some? {
        var ignored := workspaces.Join(token.value, u, now, later);
      }
    }

    method EnsureAccount(u: Id, email: string)
      modifies uow
      ensures uow.Tables() == U.EnsureAccount(old(uow.Tables()), u, email)
    {
      AddUnlessTaken(u, User.New(email, ""));
    }

    method Rename(u: Id, name: string) returns (r: Answer)
      modifies uow
      ensures Ran(U.Rename(old(uow.Tables()), u, name), uow.Tables(), r)
    {
      var allowed := U.Require(uow.Tables(), u, ProfileUpdate, u);
      :- allowed;
      var user :- ExistingUser(uow.Tables(), u);
      uow.users := uow.users[u := user.Rename(name, BelongsToAny(uow.members, u))];
      r := Success(());
    }

    method ReplaceAvatar(u: Id, avatarKey: Option<Key>) returns (r: Answer)
      modifies uow
      ensures Ran(U.SetAvatar(old(uow.Tables()), u, avatarKey), uow.Tables(), r)
    {
      var user :- ExistingUser(uow.Tables(), u);
      uow.users := uow.users[u := user.(avatarKey := avatarKey)];
      r := Success(());
    }

    /** The last transaction of `delete`. */
    method DeleteRow(u: Id) returns (r: Answer)
      modifies uow
      ensures Ran(U.DeleteAccount(old(uow.Tables()), u), uow.Tables(), r)
    {
      var allowed := U.EnsureDeletable(uow.Tables(), u);
      :- allowed;
      var _ :- ExistingUser(uow.Tables(), u);
      uow.members := map m <- uow.members | m.1 != u :: uow.members[m];
      uow.invitations := map i <- uow.invitations | uow.invitations[i].invitedBy != u :: uow.invitations[i];
      uow.users := uow.users - {u};
      r := Success(());
    }
  }
}
