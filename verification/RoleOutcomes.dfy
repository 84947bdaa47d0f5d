/** When saving, deleting, granting and assigning a role succeed, and what is true then. */
module RoleOutcomes {
  import opened Wrappers
  import opened Access
  import opened Text
  import opened Entities
  import opened Store
  import opened UseCases
  import opened WorkspaceTheorems
  import opened WorkspaceOutcomes
  import opened Authority

  /** A role of the workspace that is not its owner's. */
  predicate Ordinary(t: Tables, w: Id, r: Id) {
    r in t.roles && t.roles[r].workspaceId == w && !t.roles[r].isProtected
  }

  ghost predicate NameHeld(t: Tables, w: Id, name: string, other: Id) {
    exists r :: r in t.roles && r != other && t.roles[r].workspaceId == w && t.roles[r].name == name
  }

  /** No role of the workspace at all. */
  predicate Unknown(t: Tables, w: Id, r: Id) {
    r !in t.roles || t.roles[r].workspaceId != w
  }

  // --- saving -----------------------------------------------------------------------

  lemma NewRoleExactly(t: Tables, now: Time, w: Id, name: string, u: Id)
    requires Reachable(t, now)
    ensures SaveRole(t, w, None, name, u).Success?
       <==> May(t, u, RolesManage, w) && Strip(name) != "owner" && !NameHeld(t, w, Strip(name), t.nextId)
    ensures SaveRole(t, w, None, name, u) == Failure(OwnerNameIsReserved)
       <==> May(t, u, RolesManage, w) && Strip(name) == "owner"
    ensures SaveRole(t, w, None, name, u) == Failure(RoleNameTaken)
       <==> May(t, u, RolesManage, w) && Strip(name) != "owner" && NameHeld(t, w, Strip(name), t.nextId)
  {
    RequireExactly(t, now, u, RolesManage, w);
  }

  /** A new role carries the trimmed name and grants nothing yet. */
  lemma NewRoleLeaves(t: Tables, now: Time, w: Id, name: string, u: Id)
    requires Reachable(t, now) && SaveRole(t, w, None, name, u).Success?
    ensures var t', r := SaveRole(t, w, None, name, u).value, t.nextId;
            && r !in t.roles && r !in t.grants
            && t'.roles == t.roles[r := Role(w, Strip(name), false, false)] && t'.grants == t.grants[r := {}]
            && t' == t.(roles := t'.roles, grants := t'.grants, nextId := t.nextId + 1)
  {
    FoundedIsNew(t, now);
  }

  lemma RenameRoleExactly(t: Tables, now: Time, w: Id, r: Id, name: string, u: Id)
    requires Reachable(t, now)
    ensures SaveRole(t, w, Some(r), name, u).Success?
       <==> && May(t, u, RolesManage, w) && Strip(name) != "owner" && Ordinary(t, w, r)
            && !NameHeld(t, w, Strip(name), r)
    ensures SaveRole(t, w, Some(r), name, u) == Failure(RoleNameTaken)
       <==> && May(t, u, RolesManage, w) && Strip(name) != "owner" && Ordinary(t, w, r)
            && NameHeld(t, w, Strip(name), r)
    ensures SaveRole(t, w, Some(r), name, u) == Failure(OwnerIsProtected)
       <==> && May(t, u, RolesManage, w) && Strip(name) != "owner"
            && r in t.roles && t.roles[r].workspaceId == w && t.roles[r].isProtected
    ensures SaveRole(t, w, Some(r), name, u) == Failure(RoleNotFound)
       <==> May(t, u, RolesManage, w) && Strip(name) != "owner" && Unknown(t, w, r)
  {
    RequireExactly(t, now, u, RolesManage, w);
  }

  /** Renaming changes the name and nothing else. */
  lemma RenameRoleLeaves(t: Tables, w: Id, r: Id, name: string, u: Id)
    requires SaveRole(t, w, Some(r), name, u).Success?
    ensures var t' := SaveRole(t, w, Some(r), name, u).value;
            && t' == t.(roles := t'.roles) && t'.roles.Keys == t.roles.Keys
            && t'.roles[r].name == Strip(name) && t'.roles[r] == t.roles[r].(name := t'.roles[r].name)
            && forall o <- t.roles :: o != r ==> t'.roles[o] == t.roles[o]
  {}

  // --- deleting ---------------------------------------------------------------------

  /** A member holds the role, or an invitation that can still be accepted offers it. */
  ghost predicate Needed(t: Tables, r: Id, clock: Time) {
    || (exists m :: m in t.members && t.members[m].roleId == r)
    || (exists i :: i in t.invitations && t.invitations[i].roleId == r && t.invitations[i].status == Pending
                    && clock < t.invitations[i].expiresAt)
  }

  lemma DeleteRoleExactly(t: Tables, now: Time, w: Id, r: Id, u: Id, clock: Time)
    requires Reachable(t, now)
    ensures DeleteRole(t, w, r, u, clock).Success?
       <==> May(t, u, RolesManage, w) && Ordinary(t, w, r) && !Needed(t, r, clock)
    ensures DeleteRole(t, w, r, u, clock) == Failure(RoleInUse)
       <==> May(t, u, RolesManage, w) && Ordinary(t, w, r) && Needed(t, r, clock)
    ensures DeleteRole(t, w, r, u, clock) == Failure(RoleNotFound) <==> May(t, u, RolesManage, w) && Unknown(t, w, r)
    ensures DeleteRole(t, w, r, u, clock) == Failure(OwnerIsProtected)
       <==> May(t, u, RolesManage, w) && !Unknown(t, w, r) && t.roles[r].isProtected
  {
    RequireExactly(t, now, u, RolesManage, w);
  }

  /** The role goes with its grants and the invitations that offered it. */
  lemma DeleteRoleLeaves(t: Tables, w: Id, r: Id, u: Id, clock: Time)
    requires DeleteRole(t, w, r, u, clock).Success?
    ensures var t' := DeleteRole(t, w, r, u, clock).value;
            && t' == t.(roles := t'.roles, grants := t'.grants, invitations := t'.invitations)
            && (forall o :: o in t'.roles <==> o in t.roles && o != r)
            && (forall o <- t'.roles :: t'.roles[o] == t.roles[o])
            && (forall o :: o in t'.grants <==> o in t.grants && o != r)
            && (forall o <- t'.grants :: t'.grants[o] == t.grants[o])
            && (forall i :: i in t'.invitations <==> i in t.invitations && t.invitations[i].roleId != r)
            && (forall i <- t'.invitations :: t'.invitations[i] == t.invitations[i])
  {}

  // --- granting ---------------------------------------------------------------------

  lemma SetPermissionsExactly(t: Tables, now: Time, w: Id, r: Id, permissions: set<Action>, u: Id)
    requires Reachable(t, now)
    ensures SetPermissions(t, w, r, permissions, u).Success?
       <==> && May(t, u, RolesManage, w) && Ordinary(t, w, r)
            && permissions <= {WorkspaceUpdate, MembersInvite, MembersRemove, InvitationsRevoke, RolesManage,
                               ProductsCreate, ProductsUpdate, ProductsDelete}
    ensures SetPermissions(t, w, r, permissions, u) == Failure(OwnerOnlyPermission)
       <==> && May(t, u, RolesManage, w) && Ordinary(t, w, r)
            && (WorkspaceDelete in permissions || WorkspaceTransfer in permissions)
    ensures SetPermissions(t, w, r, permissions, u) == Failure(UnknownPermission)
       <==> && May(t, u, RolesManage, w) && Ordinary(t, w, r)
            && WorkspaceDelete !in permissions && WorkspaceTransfer !in permissions
            && !(permissions <= {WorkspaceUpdate, MembersInvite, MembersRemove, InvitationsRevoke, RolesManage,
                                 ProductsCreate, ProductsUpdate, ProductsDelete})
    ensures SetPermissions(t, w, r, permissions, u) == Failure(RoleNotFound)
       <==> May(t, u, RolesManage, w) && Unknown(t, w, r)
    ensures SetPermissions(t, w, r, permissions, u) == Failure(OwnerIsProtected)
       <==> May(t, u, RolesManage, w) && !Unknown(t, w, r) && t.roles[r].isProtected
  {
    RequireExactly(t, now, u, RolesManage, w);
  }

  /** Afterwards the list of every member with that role is the set that was sent, owners apart,
      and nobody else's list has changed. */
  lemma SetPermissionsShows(t: Tables, now: Time, w: Id, r: Id, permissions: set<Action>, u: Id)
    requires Reachable(t, now) && SetPermissions(t, w, r, permissions, u).Success?
    ensures var t' := SetPermissions(t, w, r, permissions, u).value;
            && t' == t.(grants := t'.grants)
            && forall m <- t.members | m.0 in t.workspaces ::
                 View(t', m.0, m.1).value.permissions
                 == if t.members[m].roleId == r then permissions else View(t, m.0, m.1).value.permissions
  {
    var t' := SetPermissions(t, w, r, permissions, u).value;
    forall m <- t.members | m.0 in t.workspaces
      ensures View(t', m.0, m.1).value.permissions
           == if t.members[m].roleId == r then permissions else View(t, m.0, m.1).value.permissions
    {
      if t.members[m].roleId == r {
        OwnersHoldProtectedRoles(t, now, m);
      }
    }
  }

  lemma OwnersHoldProtectedRoles(t: Tables, now: Time, m: (Id, Id))
    requires Reachable(t, now) && m in t.members
    ensures m.0 in t.workspaces && t.members[m].roleId in t.roles
    ensures t.roles[t.members[m].roleId].isProtected <==> t.workspaces[m.0].ownerId == m.1
  {
    ReferencesHold(t, now);
    SingleOwnerAlways(t, now, m.0);
    assert m.1 in OwnerIds(t, m.0) <==> m.1 == t.workspaces[m.0].ownerId;
    if t.roles[t.members[m].roleId].isProtected {
      assert m.1 in OwnerIds(t, m.0);
    }
  }

  // --- assigning --------------------------------------------------------------------

  lemma SetMemberRoleExactly(t: Tables, now: Time, w: Id, memberId: Id, r: Id, u: Id)
    requires Reachable(t, now)
    ensures SetMemberRole(t, w, memberId, r, u).Success?
       <==> && May(t, u, RolesManage, w) && Ordinary(t, w, r)
            && (w, memberId) in t.members && memberId != t.workspaces[w].ownerId
    ensures SetMemberRole(t, w, memberId, r, u) == Failure(OwnerIsProtected)
       <==> && May(t, u, RolesManage, w) && r in t.roles && t.roles[r].workspaceId == w
            && (t.roles[r].isProtected || memberId == t.workspaces[w].ownerId)
    ensures SetMemberRole(t, w, memberId, r, u) == Failure(MemberNotFound)
       <==> && May(t, u, RolesManage, w) && Ordinary(t, w, r)
            && (w, memberId) !in t.members && memberId != t.workspaces[w].ownerId
    ensures SetMemberRole(t, w, memberId, r, u) == Failure(RoleNotFound)
       <==> May(t, u, RolesManage, w) && Unknown(t, w, r)
  {
    RequireExactly(t, now, u, RolesManage, w);
    SingleOwnerCheckNeverFires(t, now, w, memberId, r, "", "", u);
  }

  /** The member's list is then what the role grants; no other member row differs. */
  lemma SetMemberRoleShows(t: Tables, now: Time, w: Id, memberId: Id, r: Id, u: Id)
    requires Reachable(t, now) && SetMemberRole(t, w, memberId, r, u).Success?
    ensures var t' := SetMemberRole(t, w, memberId, r, u).value;
            && t' == t.(members := t'.members) && t'.members.Keys == t.members.Keys
            && (forall m <- t.members :: m != (w, memberId) ==> t'.members[m] == t.members[m])
            && t'.members[(w, memberId)].roleId == r
            && View(t', w, memberId).Success? && View(t', w, memberId).value.permissions == Granted(t, r)
  {}
}
