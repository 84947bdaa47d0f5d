/** When founding, editing and deleting a workspace succeed, and what is true of the rows then. */
module WorkspaceOutcomes {
  import opened Wrappers
  import opened Access
  import opened Text
  import opened Entities
  import opened Store
  import opened UseCases
  import opened Invariant
  import opened Runs
  import opened WorkspaceTheorems
  import opened Authority

  /** Another workspace has the slug. */
  ghost predicate SlugHeld(t: Tables, slug: string, other: Id) {
    exists v :: v in t.workspaces && v != other && t.workspaces[v].slug == Address(slug)
  }

  // --- founding ---------------------------------------------------------------------

  /** The system role `name` of workspace `w` has id `r` and grants `permissions`. */
  predicate HasSystemRole(t: Tables, w: Id, r: Id, name: string, permissions: set<Action>) {
    && r in t.roles && t.roles[r] == Role(w, name, true, name == "owner")
    && r in t.grants && t.grants[r] == permissions
  }

  /** Every row of `t` is in `t'` as it was, the account `u` aside. */
  predicate OnlyAdds(t: Tables, t': Tables, u: Id) {
    && t.workspaces.Keys <= t'.workspaces.Keys && t.roles.Keys <= t'.roles.Keys && t.grants.Keys <= t'.grants.Keys
    && t.members.Keys <= t'.members.Keys && t'.users.Keys == t.users.Keys
    && (forall w <- t.workspaces :: t'.workspaces[w] == t.workspaces[w])
    && (forall r <- t.roles :: t'.roles[r] == t.roles[r])
    && (forall r <- t.grants :: t'.grants[r] == t.grants[r])
    && (forall m <- t.members :: t'.members[m] == t.members[m])
    && (forall o <- t.users :: o != u ==> t'.users[o] == t.users[o])
    && t'.invitations == t.invitations && t'.products == t.products
  }

  lemma HeldIsInUse(t: Tables, t': Tables, slug: string, w: Id, row: Workspace)
    requires t'.workspaces == t.workspaces[w := row]
    ensures SlugInUse(t', Address(slug), w) <==> SlugHeld(t, slug, w)
  {
    if v :| v in t'.workspaces && v != w && t'.workspaces[v].slug == Address(slug) {
      assert v in t.workspaces && t.workspaces[v].slug == Address(slug);
    }
    if v :| v in t.workspaces && v != w && t.workspaces[v].slug == Address(slug) {
      assert v in t'.workspaces && t'.workspaces[v].slug == Address(slug);
    }
  }

  /** Founding is a matter of the account, the name and the slug alone. */
  ghost predicate MayFound(t: Tables, name: string, u: Id) {
    u in t.users && t.users[u].status != ProfilePending && Strip(name) != []
  }

  lemma FoundingPasses(t: Tables, name: string, slug: Slug, u: Id)
    requires Create(t, name, slug, u) != Failure(NotASingleOwner)
    ensures Create(t, name, slug, u).Success?
       <==> MayFound(t, name, u) && !SlugInUse(Founded(t, name, slug, u), slug, t.nextId)
    ensures Create(t, name, slug, u) == Failure(SlugTaken)
       <==> MayFound(t, name, u) && SlugInUse(Founded(t, name, slug, u), slug, t.nextId)
    ensures Create(t, name, slug, u) == Failure(EmptyName)
       <==> u in t.users && t.users[u].status != ProfilePending && Strip(name) == []
  {}

  lemma CreateSucceedsExactly(t: Tables, now: Time, name: string, slug: string, u: Id)
    requires Reachable(t, now)
    ensures Create(t, name, Address(slug), u).Success? <==> MayFound(t, name, u) && !SlugHeld(t, slug, t.nextId)
    ensures Create(t, name, Address(slug), u) == Failure(SlugTaken)
       <==> MayFound(t, name, u) && SlugHeld(t, slug, t.nextId)
    ensures Create(t, name, Address(slug), u) == Failure(EmptyName)
       <==> u in t.users && t.users[u].status != ProfilePending && Strip(name) == []
  {
    SingleOwnerCheckNeverFires(t, now, 0, 0, 0, name, slug, u);
    FoundingPasses(t, name, Address(slug), u);
    if u in t.users {
      var t' := Founded(t, name, Address(slug), u);
      HeldIsInUse(t, t', slug, t.nextId, t'.workspaces[t.nextId]);
    }
  }

  lemma FoundedLeaves(t: Tables, name: string, slug: Slug, u: Id)
    requires u in t.users && t.nextId !in t.workspaces
    requires (forall r <- t.roles :: r < t.nextId) && (forall r <- t.grants :: r < t.nextId)
    requires forall m <- t.members :: m.0 != t.nextId
    ensures var t', w := Founded(t, name, slug, u), t.nextId;
            && t'.workspaces.Keys == t.workspaces.Keys + {w}
            && t'.workspaces[w] == Workspace(Strip(name), slug, u, None, None)
            && OnlyAdds(t, t', u) && t'.users[u] == t.users[u].(status := Completed)
            && t'.members.Keys == t.members.Keys + {(w, u)} && t'.members[(w, u)].roleId == w + 1
            && forall r <- t'.roles :: r in t.roles || r in {w + 1, w + 2, w + 3, w + 4}
  {}

  lemma FoundedRole(t: Tables, name: string, slug: Slug, u: Id, n: nat)
    requires u in t.users && n < SYSTEM_ROLES
    ensures HasSystemRole(Founded(t, name, slug, u), t.nextId, t.nextId + 1 + n, SystemRole(n), SystemPermissions(SystemRole(n)))
  {
    var r := t.nextId + 1 + n;
    assert r in SystemRoles(t.nextId, 4) && r in SystemGrants(t.nextId, 4);
  }

  /** The system roles by name, and what each grants. */
  lemma SystemRolesPromise()
    ensures SystemRole(0) == "owner" && SystemRole(1) == "admin" && SystemRole(2) == "member" && SystemRole(3) == "viewer"
    ensures SystemPermissions("owner") == {} && SystemPermissions("viewer") == {}
    ensures SystemPermissions("admin") == {WorkspaceUpdate, MembersInvite, MembersRemove, InvitationsRevoke, RolesManage,
                                           ProductsCreate, ProductsUpdate, ProductsDelete}
    ensures SystemPermissions("member") == {ProductsCreate, ProductsUpdate, ProductsDelete}
  {
    assert "owner"[0] != "admin"[0] && "owner"[0] != "member"[0] && "viewer"[0] != "admin"[0] && "viewer"[0] != "member"[0]
      && "member"[0] != "admin"[0];
  }

  /** The founder owns the new workspace and is its only member; its four roles grant what their
      names promise. Every other row is as it was, but the founder's onboarding is complete. */
  lemma CreateLeaves(t: Tables, now: Time, name: string, slug: string, u: Id)
    requires Reachable(t, now) && Create(t, name, Address(slug), u).Success?
    ensures var t', w := Create(t, name, Address(slug), u).value, t.nextId;
            && w !in t.workspaces && t'.workspaces.Keys == t.workspaces.Keys + {w}
            && t'.workspaces[w] == Workspace(Strip(name), Address(slug), u, None, None)
            && OnlyAdds(t, t', u) && t'.users[u] == t.users[u].(status := Completed)
            && t'.members.Keys == t.members.Keys + {(w, u)}
            && HasSystemRole(t', w, t'.members[(w, u)].roleId, "owner", {})
    ensures var t', w := Create(t, name, Address(slug), u).value, t.nextId;
            && HasSystemRole(t', w, w + 2, "admin",
                             {WorkspaceUpdate, MembersInvite, MembersRemove, InvitationsRevoke, RolesManage,
                              ProductsCreate, ProductsUpdate, ProductsDelete})
            && HasSystemRole(t', w, w + 3, "member", {ProductsCreate, ProductsUpdate, ProductsDelete})
            && HasSystemRole(t', w, w + 4, "viewer", {})
            && forall r <- t'.roles :: r in t.roles || r in {w + 1, w + 2, w + 3, w + 4}
  {
    FoundedIsNew(t, now);
    Created(t, name, Address(slug), u, Create(t, name, Address(slug), u).value);
    FoundedLeaves(t, name, Address(slug), u);
    SystemRolesPromise();
    FoundedRole(t, name, Address(slug), u, 0);
    FoundedRole(t, name, Address(slug), u, 1);
    FoundedRole(t, name, Address(slug), u, 2);
    FoundedRole(t, name, Address(slug), u, 3);
  }

  /** The ids from the next one on are in no table. */
  lemma FoundedIsNew(t: Tables, now: Time)
    requires Reachable(t, now)
    ensures t.nextId !in t.workspaces && t.nextId !in t.invitations
    ensures (forall r <- t.roles :: r < t.nextId) && (forall r <- t.grants :: r < t.nextId)
    ensures forall m <- t.members :: m.0 != t.nextId
  {
    ReachableIsOk(t, now);
    ReferencesHold(t, now);
    assert t.nextId in t.workspaces ==> Below(t.nextId, t.nextId);
    assert t.nextId in t.invitations ==> Below(t.nextId, t.nextId);
    forall r <- t.roles ensures r < t.nextId {
      assert Below(r, t.nextId);
    }
  }

  // --- editing ----------------------------------------------------------------------

  lemma UpdateSucceedsExactly(t: Tables, now: Time, w: Id, name: string, slug: string, u: Id)
    requires Reachable(t, now)
    ensures Update(t, w, name, Address(slug), u).Success? <==> May(t, u, WorkspaceUpdate, w) && !SlugHeld(t, slug, w)
    ensures Update(t, w, name, Address(slug), u) == Failure(SlugTaken)
       <==> May(t, u, WorkspaceUpdate, w) && SlugHeld(t, slug, w)
    ensures Update(t, w, name, Address(slug), u) == Failure(WorkspaceNotFound) <==> !IsLive(t.workspaces, w)
  {
    RequireExactly(t, now, u, WorkspaceUpdate, w);
    if w in t.workspaces {
      var row := t.workspaces[w].(name := Strip(name), slug := Address(slug));
      HeldIsInUse(t, t.(workspaces := t.workspaces[w := row]), slug, w, row);
    }
  }

  /** Nothing but one workspace row differs. */
  predicate OnlyWorkspace(t: Tables, t': Tables, w: Id) {
    && t' == t.(workspaces := t'.workspaces) && t'.workspaces.Keys == t.workspaces.Keys
    && forall v <- t.workspaces :: v != w ==> t'.workspaces[v] == t.workspaces[v]
  }

  lemma UpdateLeaves(t: Tables, w: Id, name: string, slug: string, u: Id)
    requires Update(t, w, name, Address(slug), u).Success?
    ensures var t' := Update(t, w, name, Address(slug), u).value;
            && OnlyWorkspace(t, t', w)
            && t'.workspaces[w].name == Strip(name) && t'.workspaces[w].slug == Address(slug)
            && t'.workspaces[w].ownerId == t.workspaces[w].ownerId && t'.workspaces[w].Live()
            && t'.workspaces[w].logoKey == t.workspaces[w].logoKey
  {}

  lemma SetLogoSucceedsExactly(t: Tables, now: Time, w: Id, logoKey: Option<Key>, u: Id)
    requires Reachable(t, now)
    ensures SetLogo(t, w, logoKey, u).Success? <==> May(t, u, WorkspaceUpdate, w)
    ensures SetLogo(t, w, logoKey, u) == Failure(WorkspaceNotFound) <==> !IsLive(t.workspaces, w)
    ensures SetLogo(t, w, logoKey, u).Success? ==>
              var t' := SetLogo(t, w, logoKey, u).value;
              && OnlyWorkspace(t, t', w)
              && t'.workspaces[w].logoKey == logoKey && t'.workspaces[w].name == t.workspaces[w].name
              && t'.workspaces[w].slug == t.workspaces[w].slug && t'.workspaces[w].ownerId == t.workspaces[w].ownerId
              && t'.workspaces[w].Live()
  {
    RequireExactly(t, now, u, WorkspaceUpdate, w);
  }

  // --- deleting ---------------------------------------------------------------------

  lemma DeleteSucceedsExactly(t: Tables, now: Time, w: Id, u: Id, clock: Time)
    requires Reachable(t, now)
    ensures Delete(t, w, u, clock).Success? <==> Owns(t, u, w)
    ensures Delete(t, w, u, clock) == Failure(WorkspaceNotFound) <==> !IsLive(t.workspaces, w)
    ensures Delete(t, w, u, clock) == Failure(PermissionDenied)
       <==> IsLive(t.workspaces, w) && u in t.users && t.users[u].status == Completed && !Owns(t, u, w)
  {
    RequireExactly(t, now, u, WorkspaceDelete, w);
    OwnerActionsTakeOwnership(t, now, u, w);
  }

  /** A member of `w` and of nothing else. */
  ghost predicate OnlyIn(t: Tables, u: Id, w: Id) {
    (w, u) in t.members && forall m <- t.members :: m.1 == u ==> m.0 == w
  }

  /** The members of the workspace are gone, its pending invitations revoked and its slug free;
      whoever was a member of nothing else is back at the workspace step. Everything else is as
      it was. */
  lemma DeleteLeaves(t: Tables, now: Time, w: Id, u: Id, clock: Time)
    requires Reachable(t, now) && Delete(t, w, u, clock).Success?
    ensures var t' := Delete(t, w, u, clock).value;
            && t'.workspaces.Keys == t.workspaces.Keys
            && (forall v <- t.workspaces :: v != w ==> t'.workspaces[v] == t.workspaces[v])
            && t'.workspaces[w].deletedAt == Some(clock) && t'.workspaces[w].slug.Tombstone?
            && t'.workspaces[w].name == t.workspaces[w].name && t'.workspaces[w].ownerId == t.workspaces[w].ownerId
            && t'.workspaces[w].logoKey == t.workspaces[w].logoKey
            && t'.roles == t.roles && t'.grants == t.grants && t'.products == t.products
    ensures var t' := Delete(t, w, u, clock).value;
            && (forall m :: m in t'.members <==> m in t.members && m.0 != w)
            && (forall m <- t'.members :: t'.members[m] == t.members[m])
            && t'.invitations.Keys == t.invitations.Keys
            && (forall i <- t.invitations ::
                  var x := t.invitations[i];
                  t'.invitations[i] == if x.workspaceId == w && x.status == Pending then x.(status := Revoked) else x)
    ensures var t' := Delete(t, w, u, clock).value;
            && t'.users.Keys == t.users.Keys
            && (forall o <- t.users ::
                  t'.users[o] == if OnlyIn(t, o, w) && t.users[o].status == Completed
                                 then t.users[o].(status := WorkspacePending) else t.users[o])
  {
    var t' := Delete(t, w, u, clock).value;
    forall o <- t.users
      ensures o in UserIds(t.members, w) && !BelongsToAny(t'.members, o) <==> OnlyIn(t, o, w)
    {
      if o in UserIds(t.members, w) && !BelongsToAny(t'.members, o) {
        forall m <- t.members | m.1 == o ensures m.0 == w {
          assert m.0 != w ==> m in t'.members;
        }
      }
      if OnlyIn(t, o, w) {
        assert o in UserIds(t.members, w);
      }
    }
  }
}
