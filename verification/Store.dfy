/** The tables of the database and the queries the use cases make of them
    (app/infrastructure/db/repositories.py). */
module Store {
  import opened Wrappers
  import opened Access
  import opened Text
  import opened Entities
  import opened ProductRows

  datatype Tables = Tables(
    users: map<Id, User>,
    workspaces: map<Id, Workspace>,
    roles: map<Id, Role>,
    grants: map<Id, set<Action>>,
    members: map<(Id, Id), Member>,  // by workspace and user
    invitations: map<Id, Invitation>,
    products: map<Id, ProductRow>,
    nextId: Id)

  const EMPTY := Tables(map[], map[], map[], map[], map[], map[], map[], 0)

  predicate IsLive(workspaces: map<Id, Workspace>, w: Id) {
    w in workspaces && workspaces[w].Live()
  }

  /** `workspaces.get` and `workspaces.lock`: a live workspace or none. */
  function LiveWorkspace(t: Tables, w: Id): Result<Workspace, Error> {
    if IsLive(t.workspaces, w) then Success(t.workspaces[w]) else Failure(WorkspaceNotFound)
  }

  function ExistingUser(t: Tables, u: Id): Result<User, Error> {
    if u in t.users then Success(t.users[u]) else Failure(AccountNotFound)
  }

  function FoundMember(t: Tables, w: Id, u: Id): Result<Member, Error> {
    if (w, u) in t.members then Success(t.members[(w, u)]) else Failure(MemberNotFound)
  }

  predicate SlugInUse(t: Tables, slug: Slug, other: Id) {
    exists w <- t.workspaces :: w != other && t.workspaces[w].slug == slug
  }

  predicate AnyOwnedBy(t: Tables, u: Id) {
    exists w <- t.workspaces :: t.workspaces[w].Live() && t.workspaces[w].ownerId == u
  }

  // --- roles ------------------------------------------------------------------------

  function Permissions(t: Tables, roleId: Id): set<Action> {
    if roleId in t.grants then t.grants[roleId] else {}
  }

  predicate RoleNameInUse(t: Tables, w: Id, name: string, other: Id) {
    exists r <- t.roles :: r != other && t.roles[r].workspaceId == w && t.roles[r].name == name
  }

  predicate HasRole(t: Tables, w: Id, name: string, r: Id) {
    r in t.roles && t.roles[r].workspaceId == w && t.roles[r].name == name
  }

  /** `roles.is_in_use`: some member row or open invitation names the role. */
  predicate IsRoleInUse(t: Tables, roleId: Id, now: Time) {
    || (exists m <- t.members :: t.members[m].roleId == roleId)
    || (exists i <- t.invitations :: t.invitations[i].roleId == roleId && t.invitations[i].Open(now))
  }

  // --- members ----------------------------------------------------------------------

  function UserIds(members: map<(Id, Id), Member>, w: Id): set<Id> {
    set m <- members | m.0 == w :: m.1
  }

  /** `members.owner_ids`: who holds a protected role in the workspace. */
  function OwnerIds(t: Tables, w: Id): set<Id> {
    set m <- t.members
      | m.0 == w && t.members[m].roleId in t.roles && t.roles[t.members[m].roleId].isProtected
      :: m.1
  }

  predicate BelongsToAny(members: map<(Id, Id), Member>, u: Id) {
    exists m <- members :: m.1 == u
  }

  predicate MemberHasEmail(t: Tables, w: Id, email: string) {
    exists m <- t.members :: m.0 == w && m.1 in t.users && t.users[m.1].email == Lower(email)
  }

  // --- invitations ------------------------------------------------------------------

  predicate HasPending(t: Tables, w: Id, email: string, now: Time) {
    exists i <- t.invitations ::
      && t.invitations[i].workspaceId == w
      && t.invitations[i].email == Lower(email)
      && t.invitations[i].Open(now)
  }

  predicate HasToken(t: Tables, i: Id, token: Token) {
    i in t.invitations && t.invitations[i].token == token
  }
}
