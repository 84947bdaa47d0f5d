/** The invariant of the workspace and account tables: what every use case must keep by hand
    because the database enforces no foreign keys (README.md, "Database notes"). */
module Invariant {
  import opened Wrappers
  import opened Access
  import opened Text
  import opened Entities
  import opened Store
  import opened UseCases

  // --- uniqueness -------------------------------------------------------------------

  predicate Same<T(==)>(x: T, y: T) {
    x == y
  }

  /** No two keys have the same value. */
  ghost predicate Injective<K, V>(m: map<K, V>) {
    forall i <- m, j <- m {:trigger Same(m[i], m[j])} :: Same(m[i], m[j]) ==> i == j
  }

  /** No key of `m` other than `k` has the value `v`. */
  ghost predicate Unused<K, V>(m: map<K, V>, k: K, v: V) {
    forall i <- m {:trigger Same(m[i], v)} | i != k :: !Same(m[i], v)
  }

  lemma InjectiveUpdate<K, V>(m: map<K, V>, k: K, v: V)
    requires Injective(m) && Unused(m, k, v)
    ensures Injective(m[k := v])
  {
    var m' := m[k := v];
    forall i <- m', j <- m' | Same(m'[i], m'[j])
      ensures i == j
    {
      assert i != k && j != k ==> Same(m[i], m[j]);
      assert i != k ==> !Same(m[i], v);
      assert j != k ==> !Same(m[j], v);
    }
  }

  lemma InjectiveSub<K, V>(m: map<K, V>, sub: map<K, V>)
    requires Injective(m) && forall i <- sub :: i in m && m[i] == sub[i]
    ensures Injective(sub)
  {
    forall i <- sub, j <- sub | Same(sub[i], sub[j])
      ensures i == j
    {
      assert Same(m[i], m[j]);
    }
  }

  // --- what the parts of the invariant look at --------------------------------------

  ghost function Emails(users: map<Id, User>): map<Id, string> {
    map u <- users :: users[u].email
  }

  ghost function Slugs(workspaces: map<Id, Workspace>): map<Id, Slug> {
    map w <- workspaces :: workspaces[w].slug
  }

  /** The live workspaces, each with its owner. */
  ghost function Owners(workspaces: map<Id, Workspace>): map<Id, Id> {
    map w <- workspaces | workspaces[w].Live() :: workspaces[w].ownerId
  }

  ghost function RoleNames(roles: map<Id, Role>): map<Id, (Id, string)> {
    map r <- roles :: (roles[r].workspaceId, roles[r].name)
  }

  datatype Standing = Standing(workspaceId: Id, isProtected: bool)

  ghost function Standings(roles: map<Id, Role>): map<Id, Standing> {
    map r <- roles :: Standing(roles[r].workspaceId, roles[r].isProtected)
  }

  ghost function Tokens(invitations: map<Id, Invitation>): map<Id, Token> {
    map i <- invitations :: invitations[i].token
  }

  /** The invitations that can still be accepted, each with its workspace and email. */
  ghost function OpenAddresses(invitations: map<Id, Invitation>, now: Time): map<Id, (Id, string)> {
    map i <- invitations | invitations[i].Open(now) :: (invitations[i].workspaceId, invitations[i].email)
  }

  /** The workspace and email of every member. */
  ghost function MemberAddresses(members: set<(Id, Id)>, emails: map<Id, string>): set<(Id, string)> {
    set m <- members | m.1 in emails :: (m.0, emails[m.1])
  }

  // --- the parts --------------------------------------------------------------------
  // Each part is a quantifier over one predicate about one row, so a proof names the rows
  // it is about.

  ghost predicate EmailOk(email: string) {
    Lower(email) == email
  }

  /** Every account has a lower-case email of its own. */
  ghost predicate EmailsOk(emails: map<Id, string>) {
    && (forall u <- emails {:trigger EmailOk(emails[u])} :: EmailOk(emails[u]))
    && Injective(emails)
  }

  /** A user past the profile step has a name, and is done onboarding exactly when some
      workspace has them. */
  ghost predicate UserOk(user: User, belongs: bool) {
    user.status != ProfilePending ==> Strip(user.displayName) != [] && (user.status == Completed <==> belongs)
  }

  ghost predicate OnboardingOk(users: map<Id, User>, members: map<(Id, Id), Member>) {
    forall u <- users {:trigger UserOk(users[u], BelongsToAny(members, u))} ::
      UserOk(users[u], BelongsToAny(members, u))
  }

  /** A role is protected exactly when it is the one named `owner`. */
  ghost predicate RoleOk(role: Role, workspaceIds: set<Id>) {
    && role.workspaceId in workspaceIds
    && (role.isProtected <==> role.name == OWNER_ROLE)
  }

  ghost predicate RolesOk(roles: map<Id, Role>, workspaceIds: set<Id>) {
    forall r <- roles {:trigger RoleOk(roles[r], workspaceIds)} :: RoleOk(roles[r], workspaceIds)
  }

  /** No role ever grants an owner action or an unknown permission. */
  ghost predicate GrantOk(r: Id, permissions: set<Action>, roleIds: set<Id>) {
    r in roleIds && permissions <= CATALOG - OWNER_ACTIONS
  }

  ghost predicate GrantsOk(grants: map<Id, set<Action>>, roleIds: set<Id>) {
    forall r <- grants {:trigger GrantOk(r, grants[r], roleIds)} :: GrantOk(r, grants[r], roleIds)
  }

  /** A live workspace is owned by a member of it. */
  ghost predicate OwnerOk(w: Id, owner: Id, members: set<(Id, Id)>) {
    (w, owner) in members
  }

  ghost predicate OwnersOk(owners: map<Id, Id>, members: set<(Id, Id)>) {
    forall w <- owners {:trigger OwnerOk(w, owners[w], members)} :: OwnerOk(w, owners[w], members)
  }

  /** A member names an existing user, a live workspace and a role of it; the protected role
      is the owner's and nobody else's. */
  ghost predicate MemberOk(m: (Id, Id), member: Member, userIds: set<Id>, owners: map<Id, Id>,
                           roles: map<Id, Standing>)
  {
    && m.1 in userIds
    && m.0 in owners
    && member.roleId in roles
    && roles[member.roleId] == Standing(m.0, m.1 == owners[m.0])
  }

  ghost predicate MembersOk(members: map<(Id, Id), Member>, userIds: set<Id>, owners: map<Id, Id>,
                            roles: map<Id, Standing>)
  {
    forall m <- members {:trigger MemberOk(m, members[m], userIds, owners, roles)} ::
      MemberOk(m, members[m], userIds, owners, roles)
  }

  /** An invitation names an existing workspace, an unprotected role of it and an existing
      inviter; while pending its workspace is live, and only an acceptance names who accepted. */
  ghost predicate InvitationOk(x: Invitation, userIds: set<Id>, workspaceIds: set<Id>, liveIds: set<Id>,
                               roles: map<Id, Standing>)
  {
    && EmailOk(x.email)
    && x.workspaceId in workspaceIds
    && x.roleId in roles
    && roles[x.roleId] == Standing(x.workspaceId, false)
    && x.invitedBy in userIds
    && (x.status == Pending ==> x.workspaceId in liveIds)
    && (x.status == Accepted <==> x.acceptedBy.Some?)
  }

  ghost predicate InvitationsOk(invitations: map<Id, Invitation>, userIds: set<Id>, workspaceIds: set<Id>,
                                liveIds: set<Id>, roles: map<Id, Standing>)
  {
    forall i <- invitations {:trigger InvitationOk(invitations[i], userIds, workspaceIds, liveIds, roles)} ::
      InvitationOk(invitations[i], userIds, workspaceIds, liveIds, roles)
  }

  ghost predicate Vacant(address: (Id, string), members: set<(Id, string)>) {
    address !in members
  }

  /** At most one open invitation per workspace and email, and none for a current member. */
  ghost predicate OpenOk(open: map<Id, (Id, string)>, members: set<(Id, string)>) {
    && Injective(open)
    && forall i <- open {:trigger Vacant(open[i], members)} :: Vacant(open[i], members)
  }

  ghost predicate Below(id: Id, nextId: Id) {
    id < nextId
  }

  ghost predicate SlugBelow(slug: Slug, nextId: Id) {
    slug.Tombstone? ==> slug.id < nextId
  }

  /** Every id in use was drawn from the source before its next one. */
  ghost predicate IdsOk(slugs: map<Id, Slug>, roleIds: set<Id>, tokens: map<Id, Token>, nextId: Id) {
    && (forall w <- slugs {:trigger Below(w, nextId)} :: Below(w, nextId))
    && (forall w <- slugs {:trigger SlugBelow(slugs[w], nextId)} :: SlugBelow(slugs[w], nextId))
    && (forall r <- roleIds {:trigger Below(r, nextId)} :: Below(r, nextId))
    && (forall i <- tokens {:trigger Below(i, nextId)} :: Below(i, nextId))
    && (forall i <- tokens {:trigger Below(tokens[i], nextId)} :: Below(tokens[i], nextId))
  }

  ghost predicate Inv(t: Tables, now: Time) {
    && EmailsOk(Emails(t.users))
    && OnboardingOk(t.users, t.members)
    && Injective(Slugs(t.workspaces))
    && RolesOk(t.roles, t.workspaces.Keys)
    && Injective(RoleNames(t.roles))
    && GrantsOk(t.grants, t.roles.Keys)
    && OwnersOk(Owners(t.workspaces), t.members.Keys)
    && MembersOk(t.members, t.users.Keys, Owners(t.workspaces), Standings(t.roles))
    && InvitationsOk(t.invitations, t.users.Keys, t.workspaces.Keys, Owners(t.workspaces).Keys, Standings(t.roles))
    && Injective(Tokens(t.invitations))
    && OpenOk(OpenAddresses(t.invitations, now), MemberAddresses(t.members.Keys, Emails(t.users)))
    && IdsOk(Slugs(t.workspaces), t.roles.Keys, Tokens(t.invitations), t.nextId)
  }

  lemma EmptyIsOk(now: Time)
    ensures Inv(EMPTY, now)
  {
  }

  // --- parts as time passes or their surroundings grow --------------------------------

  ghost predicate Extends<K, V>(m: map<K, V>, m': map<K, V>) {
    forall k <- m :: k in m' && m'[k] == m[k]
  }

  lemma EmailsWith(emails: map<Id, string>, u: Id, email: string)
    requires EmailsOk(emails) && EmailOk(email) && Unused(emails, u, email)
    ensures EmailsOk(emails[u := email])
  {
    InjectiveUpdate(emails, u, email);
    var emails' := emails[u := email];
    forall o <- emails' ensures EmailOk(emails'[o]) {
      assert o != u ==> EmailOk(emails[o]);
    }
  }

  lemma OnboardingWith(users: map<Id, User>, members: map<(Id, Id), Member>, u: Id, user: User)
    requires OnboardingOk(users, members) && UserOk(user, BelongsToAny(members, u))
    ensures OnboardingOk(users[u := user], members)
  {
    forall o <- users[u := user] ensures UserOk(users[u := user][o], BelongsToAny(members, o)) {
      assert o != u ==> UserOk(users[o], BelongsToAny(members, o));
    }
  }

  /** Users whose standing towards workspaces is the same under `members'` stay as they are. */
  lemma OnboardingStays(users: map<Id, User>, members: map<(Id, Id), Member>, members': map<(Id, Id), Member>)
    requires OnboardingOk(users, members) && members'.Keys == members.Keys
    ensures OnboardingOk(users, members')
  {
    forall u <- users ensures UserOk(users[u], BelongsToAny(members', u)) {
      assert UserOk(users[u], BelongsToAny(members, u));
      assert BelongsToAny(members', u) <==> BelongsToAny(members, u);
    }
  }

  lemma RolesWith(roles: map<Id, Role>, workspaceIds: set<Id>, r: Id, role: Role)
    requires RolesOk(roles, workspaceIds) && RoleOk(role, workspaceIds)
    ensures RolesOk(roles[r := role], workspaceIds)
  {
    var roles' := roles[r := role];
    forall q <- roles' ensures RoleOk(roles'[q], workspaceIds) {
      assert q != r ==> RoleOk(roles[q], workspaceIds);
    }
  }

  lemma GrantsWith(grants: map<Id, set<Action>>, roleIds: set<Id>, r: Id, permissions: set<Action>)
    requires GrantsOk(grants, roleIds) && permissions <= CATALOG - OWNER_ACTIONS
    ensures GrantsOk(grants[r := permissions], roleIds + {r})
  {
    var grants' := grants[r := permissions];
    forall q <- grants' ensures GrantOk(q, grants'[q], roleIds + {r}) {
      assert q != r ==> GrantOk(q, grants[q], roleIds);
    }
  }

  lemma MembersStay(members: map<(Id, Id), Member>, userIds: set<Id>, owners: map<Id, Id>, roles: map<Id, Standing>,
                    userIds': set<Id>, owners': map<Id, Id>, roles': map<Id, Standing>)
    requires MembersOk(members, userIds, owners, roles)
    requires userIds <= userIds' && Extends(owners, owners') && Extends(roles, roles')
    ensures MembersOk(members, userIds', owners', roles')
  {
    forall m <- members ensures MemberOk(m, members[m], userIds', owners', roles') {
      assert MemberOk(m, members[m], userIds, owners, roles);
    }
  }

  lemma MembersWith(members: map<(Id, Id), Member>, userIds: set<Id>, owners: map<Id, Id>, roles: map<Id, Standing>,
                    m: (Id, Id), member: Member)
    requires MembersOk(members, userIds, owners, roles) && MemberOk(m, member, userIds, owners, roles)
    ensures MembersOk(members[m := member], userIds, owners, roles)
  {
    var members' := members[m := member];
    forall k <- members' ensures MemberOk(k, members'[k], userIds, owners, roles) {
      assert k != m ==> MemberOk(k, members[k], userIds, owners, roles);
    }
  }

  /** The owner role and the ownership move together from `from` to `to`. */
  lemma MembersSwap(members: map<(Id, Id), Member>, userIds: set<Id>, owners: map<Id, Id>, roles: map<Id, Standing>,
                    w: Id, from: Id, to: Id, adminId: Id)
    requires MembersOk(members, userIds, owners, roles)
    requires w in owners && owners[w] == from && from != to && (w, from) in members && (w, to) in members
    requires adminId in roles && roles[adminId] == Standing(w, false)
    ensures MembersOk(members[(w, to) := members[(w, from)]][(w, from) := Member(adminId)], userIds,
                      owners[w := to], roles)
  {
    var members' := members[(w, to) := members[(w, from)]][(w, from) := Member(adminId)];
    assert MemberOk((w, from), members[(w, from)], userIds, owners, roles);
    assert MemberOk((w, to), members[(w, to)], userIds, owners, roles);
    forall m <- members' ensures MemberOk(m, members'[m], userIds, owners[w := to], roles) {
      assert MemberOk(m, members[m], userIds, owners, roles);
    }
  }

  lemma OwnersWith(owners: map<Id, Id>, members: set<(Id, Id)>, w: Id, u: Id)
    requires OwnersOk(owners, members) && (w, u) in members
    ensures OwnersOk(owners[w := u], members)
  {
    var owners' := owners[w := u];
    forall v <- owners' ensures OwnerOk(v, owners'[v], members) {
      assert v != w ==> OwnerOk(v, owners[v], members);
    }
  }

  lemma OwnersStay(owners: map<Id, Id>, members: set<(Id, Id)>, members': set<(Id, Id)>)
    requires OwnersOk(owners, members) && forall w <- owners :: (w, owners[w]) in members ==> (w, owners[w]) in members'
    ensures OwnersOk(owners, members')
  {
    forall w <- owners ensures OwnerOk(w, owners[w], members') {
      assert OwnerOk(w, owners[w], members);
    }
  }

  lemma InvitationsStay(invitations: map<Id, Invitation>,
                        userIds: set<Id>, workspaceIds: set<Id>, liveIds: set<Id>, roles: map<Id, Standing>,
                        userIds': set<Id>, workspaceIds': set<Id>, liveIds': set<Id>, roles': map<Id, Standing>)
    requires InvitationsOk(invitations, userIds, workspaceIds, liveIds, roles)
    requires userIds <= userIds' && workspaceIds <= workspaceIds' && liveIds <= liveIds' && Extends(roles, roles')
    ensures InvitationsOk(invitations, userIds', workspaceIds', liveIds', roles')
  {
    forall i <- invitations ensures InvitationOk(invitations[i], userIds', workspaceIds', liveIds', roles') {
      assert InvitationOk(invitations[i], userIds, workspaceIds, liveIds, roles);
    }
  }

  lemma InvitationsWith(invitations: map<Id, Invitation>, userIds: set<Id>, workspaceIds: set<Id>,
                        liveIds: set<Id>, roles: map<Id, Standing>, i: Id, x: Invitation)
    requires InvitationsOk(invitations, userIds, workspaceIds, liveIds, roles)
    requires InvitationOk(x, userIds, workspaceIds, liveIds, roles)
    ensures InvitationsOk(invitations[i := x], userIds, workspaceIds, liveIds, roles)
  {
    var invitations' := invitations[i := x];
    forall j <- invitations' ensures InvitationOk(invitations'[j], userIds, workspaceIds, liveIds, roles) {
      assert j != i ==> InvitationOk(invitations[j], userIds, workspaceIds, liveIds, roles);
    }
  }

  lemma OpenWith(open: map<Id, (Id, string)>, members: set<(Id, string)>, i: Id, address: (Id, string))
    requires OpenOk(open, members) && address !in members && Unused(open, i, address)
    ensures OpenOk(open[i := address], members)
  {
    InjectiveUpdate(open, i, address);
    var open' := open[i := address];
    forall j <- open' ensures Vacant(open'[j], members) {
      assert j != i ==> Vacant(open[j], members);
    }
  }

  /** Fewer open invitations and fewer members keep the addresses apart. */
  lemma OpenSub(open: map<Id, (Id, string)>, members: set<(Id, string)>,
                open': map<Id, (Id, string)>, members': set<(Id, string)>)
    requires OpenOk(open, members) && Extends(open', open) && members' <= members
    ensures OpenOk(open', members')
  {
    InjectiveSub(open, open');
    forall j <- open' ensures Vacant(open'[j], members') {
      assert Vacant(open[j], members);
    }
  }

  lemma IdsStay(slugs: map<Id, Slug>, roleIds: set<Id>, tokens: map<Id, Token>, nextId: Id,
                slugs': map<Id, Slug>, roleIds': set<Id>, tokens': map<Id, Token>, nextId': Id)
    requires IdsOk(slugs, roleIds, tokens, nextId) && nextId <= nextId'
    requires forall w <- slugs' :: (w in slugs && slugs[w] == slugs'[w]) || (w < nextId' && SlugBelow(slugs'[w], nextId'))
    requires forall r <- roleIds' :: r in roleIds || r < nextId'
    requires forall i <- tokens' :: (i in tokens && tokens[i] == tokens'[i]) || (i < nextId' && tokens'[i] < nextId')
    ensures IdsOk(slugs', roleIds', tokens', nextId')
  {
    forall w <- slugs' ensures Below(w, nextId') && SlugBelow(slugs'[w], nextId') {
      assert w in slugs ==> Below(w, nextId) && SlugBelow(slugs[w], nextId);
    }
    forall r <- roleIds' ensures Below(r, nextId') {
      assert r in roleIds ==> Below(r, nextId);
    }
    forall i <- tokens' ensures Below(i, nextId') && Below(tokens'[i], nextId') {
      assert i in tokens ==> Below(i, nextId) && Below(tokens[i], nextId);
    }
  }

  lemma InvAges(t: Tables, now: Time, later: Time)
    requires Inv(t, now) && now <= later
    ensures Inv(t, later)
  {
    var members := MemberAddresses(t.members.Keys, Emails(t.users));
    OpenSub(OpenAddresses(t.invitations, now), members, OpenAddresses(t.invitations, later), members);
  }

  // --- how one change of a row shows in the parts -----------------------------------

  lemma UserProjected(users: map<Id, User>, u: Id, user: User)
    ensures Emails(users[u := user]) == Emails(users)[u := user.email]
    ensures u in users && users[u].email == user.email ==>
              Emails(users[u := user]) == Emails(users) && users[u := user].Keys == users.Keys
  {
  }

  lemma WorkspaceProjected(workspaces: map<Id, Workspace>, w: Id, workspace: Workspace)
    ensures Slugs(workspaces[w := workspace]) == Slugs(workspaces)[w := workspace.slug]
    ensures Owners(workspaces[w := workspace])
         == if workspace.Live() then Owners(workspaces)[w := workspace.ownerId] else Owners(workspaces) - {w}
  {
  }

  lemma RoleProjected(roles: map<Id, Role>, r: Id, role: Role)
    ensures RoleNames(roles[r := role]) == RoleNames(roles)[r := (role.workspaceId, role.name)]
    ensures Standings(roles[r := role]) == Standings(roles)[r := Standing(role.workspaceId, role.isProtected)]
  {
  }

  lemma InvitationProjected(invitations: map<Id, Invitation>, i: Id, x: Invitation, now: Time)
    ensures Tokens(invitations[i := x]) == Tokens(invitations)[i := x.token]
    ensures OpenAddresses(invitations[i := x], now)
         == if x.Open(now) then OpenAddresses(invitations, now)[i := (x.workspaceId, x.email)]
            else OpenAddresses(invitations, now) - {i}
  {
  }

  // --- single changes ---------------------------------------------------------------

  lemma WorkspaceEdited(t: Tables, w: Id, workspace: Workspace, now: Time)
    requires Inv(t, now) && IsLive(t.workspaces, w)
    requires workspace.Live() && workspace.ownerId == t.workspaces[w].ownerId
    requires workspace.slug == t.workspaces[w].slug || (workspace.slug.Address? && !SlugInUse(t, workspace.slug, w))
    ensures Inv(t.(workspaces := t.workspaces[w := workspace]), now)
  {
    var slugs := Slugs(t.workspaces);
    WorkspaceProjected(t.workspaces, w, workspace);
    assert Owners(t.workspaces)[w := workspace.ownerId] == Owners(t.workspaces);
    assert t.workspaces[w := workspace].Keys == t.workspaces.Keys;
    if workspace.slug == t.workspaces[w].slug {
      assert slugs[w := workspace.slug] == slugs;
    } else {
      InjectiveUpdate(slugs, w, workspace.slug);
      assert Below(w, t.nextId);
      IdsStay(slugs, t.roles.Keys, Tokens(t.invitations), t.nextId,
              slugs[w := workspace.slug], t.roles.Keys, Tokens(t.invitations), t.nextId);
    }
  }

  lemma UserEdited(t: Tables, u: Id, user: User, now: Time)
    requires Inv(t, now) && u in t.users && user.email == t.users[u].email
    requires UserOk(user, BelongsToAny(t.members, u))
    ensures Inv(t.(users := t.users[u := user]), now)
  {
    UserProjected(t.users, u, user);
    OnboardingWith(t.users, t.members, u, user);
  }

  /** A new account belongs to no workspace yet. */
  lemma NewcomerBelongsNowhere(t: Tables, u: Id, email: string)
    requires MembersOk(t.members, t.users.Keys, Owners(t.workspaces), Standings(t.roles)) && u !in t.users
    ensures !BelongsToAny(t.members, u)
    ensures MemberAddresses(t.members.Keys, Emails(t.users)[u := email])
         == MemberAddresses(t.members.Keys, Emails(t.users))
  {
    forall m <- t.members ensures m.1 != u {
      assert MemberOk(m, t.members[m], t.users.Keys, Owners(t.workspaces), Standings(t.roles));
    }
  }

  lemma UserAdded(t: Tables, u: Id, user: User, now: Time)
    requires Inv(t, now) && u !in t.users
    requires EmailOk(user.email) && forall o <- t.users :: t.users[o].email != user.email
    requires UserOk(user, false)
    ensures Inv(t.(users := t.users[u := user]), now)
  {
    UserProjected(t.users, u, user);
    EmailsWith(Emails(t.users), u, user.email);
    NewcomerBelongsNowhere(t, u, user.email);
    OnboardingWith(t.users, t.members, u, user);
    MembersStay(t.members, t.users.Keys, Owners(t.workspaces), Standings(t.roles),
                t.users[u := user].Keys, Owners(t.workspaces), Standings(t.roles));
    InvitationsStay(t.invitations, t.users.Keys, t.workspaces.Keys, Owners(t.workspaces).Keys, Standings(t.roles),
                    t.users[u := user].Keys, t.workspaces.Keys, Owners(t.workspaces).Keys, Standings(t.roles));
  }

  lemma GrantsSet(t: Tables, r: Id, permissions: set<Action>, now: Time)
    requires Inv(t, now) && r in t.roles && permissions <= CATALOG - OWNER_ACTIONS
    ensures Inv(t.(grants := t.grants[r := permissions]), now)
  {
    GrantsWith(t.grants, t.roles.Keys, r, permissions);
    assert t.roles.Keys + {r} == t.roles.Keys;
  }

  lemma RoleAdded(t: Tables, role: Role, permissions: set<Action>, now: Time)
    requires Inv(t, now) && RoleOk(role, t.workspaces.Keys)
    requires !RoleNameInUse(t, role.workspaceId, role.name, t.nextId)
    requires permissions <= CATALOG - OWNER_ACTIONS
    ensures Inv(t.(roles := t.roles[t.nextId := role], grants := t.grants[t.nextId := permissions],
                nextId := t.nextId + 1), now)
  {
    var roles := t.roles[t.nextId := role];
    assert t.nextId in t.roles ==> Below(t.nextId, t.nextId);
    RoleProjected(t.roles, t.nextId, role);
    RolesWith(t.roles, t.workspaces.Keys, t.nextId, role);
    InjectiveUpdate(RoleNames(t.roles), t.nextId, (role.workspaceId, role.name));
    GrantsWith(t.grants, t.roles.Keys, t.nextId, permissions);
    assert roles.Keys == t.roles.Keys + {t.nextId};
    MembersStay(t.members, t.users.Keys, Owners(t.workspaces), Standings(t.roles),
                t.users.Keys, Owners(t.workspaces), Standings(roles));
    InvitationsStay(t.invitations, t.users.Keys, t.workspaces.Keys, Owners(t.workspaces).Keys, Standings(t.roles),
                    t.users.Keys, t.workspaces.Keys, Owners(t.workspaces).Keys, Standings(roles));
    IdsStay(Slugs(t.workspaces), t.roles.Keys, Tokens(t.invitations), t.nextId,
            Slugs(t.workspaces), roles.Keys, Tokens(t.invitations), t.nextId + 1);
  }

  lemma RoleRenamed(t: Tables, r: Id, name: string, now: Time)
    requires Inv(t, now) && r in t.roles && !t.roles[r].isProtected && name != OWNER_ROLE
    requires !RoleNameInUse(t, t.roles[r].workspaceId, name, r)
    ensures Inv(t.(roles := t.roles[r := t.roles[r].(name := name)]), now)
  {
    var role := t.roles[r].(name := name);
    assert RoleOk(t.roles[r], t.workspaces.Keys);
    RoleProjected(t.roles, r, role);
    RolesWith(t.roles, t.workspaces.Keys, r, role);
    InjectiveUpdate(RoleNames(t.roles), r, (role.workspaceId, name));
    assert Standings(t.roles)[r := Standing(role.workspaceId, false)] == Standings(t.roles);
    assert t.roles[r := role].Keys == t.roles.Keys;
  }

  lemma MemberRoleSet(t: Tables, w: Id, u: Id, r: Id, now: Time)
    requires Inv(t, now) && (w, u) in t.members && IsLive(t.workspaces, w) && u != t.workspaces[w].ownerId
    requires r in t.roles && t.roles[r].workspaceId == w && !t.roles[r].isProtected
    ensures Inv(t.(members := t.members[(w, u) := Member(r)]), now)
  {
    var members := t.members[(w, u) := Member(r)];
    assert MemberOk((w, u), t.members[(w, u)], t.users.Keys, Owners(t.workspaces), Standings(t.roles));
    assert members.Keys == t.members.Keys;
    OnboardingStays(t.users, t.members, members);
    MembersWith(t.members, t.users.Keys, Owners(t.workspaces), Standings(t.roles), (w, u), Member(r));
  }

  lemma OwnershipMoved(t: Tables, w: Id, from: Id, to: Id, adminId: Id, now: Time)
    requires Inv(t, now) && IsLive(t.workspaces, w) && t.workspaces[w].ownerId == from && from != to
    requires (w, from) in t.members && (w, to) in t.members
    requires adminId in t.roles && t.roles[adminId].workspaceId == w && !t.roles[adminId].isProtected
    ensures Inv(t.(members := t.members[(w, to) := t.members[(w, from)]][(w, from) := Member(adminId)],
                workspaces := t.workspaces[w := t.workspaces[w].(ownerId := to)]), now)
  {
    var members := t.members[(w, to) := t.members[(w, from)]][(w, from) := Member(adminId)];
    var workspaces := t.workspaces[w := t.workspaces[w].(ownerId := to)];
    assert members.Keys == t.members.Keys;
    WorkspaceProjected(t.workspaces, w, t.workspaces[w].(ownerId := to));
    assert Slugs(workspaces) == Slugs(t.workspaces);
    assert Owners(workspaces).Keys == Owners(t.workspaces).Keys;
    assert workspaces.Keys == t.workspaces.Keys;
    OnboardingStays(t.users, t.members, members);
    OwnersWith(Owners(t.workspaces), t.members.Keys, w, to);
    MembersSwap(t.members, t.users.Keys, Owners(t.workspaces), Standings(t.roles), w, from, to, adminId);
  }

  lemma NothingToRemove<K, V>(m: map<K, V>, k: K)
    requires k !in m
    ensures m - {k} == m
  {}

  lemma InvitationAdded(t: Tables, x: Invitation, now: Time)
    requires Inv(t, now) && x.token == t.nextId && EmailOk(x.email) && x.status == Pending
    requires x.acceptedBy.None? && x.invitedBy in t.users
    requires IsLive(t.workspaces, x.workspaceId)
    requires x.roleId in t.roles && t.roles[x.roleId].workspaceId == x.workspaceId && !t.roles[x.roleId].isProtected
    requires !HasPending(t, x.workspaceId, x.email, now) && !MemberHasEmail(t, x.workspaceId, x.email)
    ensures Inv(t.(invitations := t.invitations[t.nextId := x], nextId := t.nextId + 1), now)
  {
    var tokens, open := Tokens(t.invitations), OpenAddresses(t.invitations, now);
    var i := t.nextId;
    assert i in t.invitations ==> Below(i, i);
    forall j <- tokens ensures tokens[j] != i {
      assert Below(tokens[j], i);
    }
    InvitationProjected(t.invitations, i, x, now);
    InjectiveUpdate(tokens, i, i);
    if x.Open(now) {
      OpenWith(open, MemberAddresses(t.members.Keys, Emails(t.users)), i, (x.workspaceId, x.email));
    } else {
      NothingToRemove(open, i);
    }
    InvitationsWith(t.invitations, t.users.Keys, t.workspaces.Keys, Owners(t.workspaces).Keys, Standings(t.roles), i, x);
    IdsStay(Slugs(t.workspaces), t.roles.Keys, tokens, i, Slugs(t.workspaces), t.roles.Keys, tokens[i := i], i + 1);
  }

  lemma InvitationRevoked(t: Tables, i: Id, now: Time)
    requires Inv(t, now) && i in t.invitations && t.invitations[i].status == Pending
    ensures Inv(t.(invitations := t.invitations[i := t.invitations[i].Revoke()]), now)
  {
    var open, members := OpenAddresses(t.invitations, now), MemberAddresses(t.members.Keys, Emails(t.users));
    var x := t.invitations[i];
    assert InvitationOk(x, t.users.Keys, t.workspaces.Keys, Owners(t.workspaces).Keys, Standings(t.roles));
    InvitationProjected(t.invitations, i, x.Revoke(), now);
    OpenSub(open, members, open - {i}, members);
    assert Tokens(t.invitations)[i := x.token] == Tokens(t.invitations);
    InvitationsWith(t.invitations, t.users.Keys, t.workspaces.Keys, Owners(t.workspaces).Keys, Standings(t.roles),
                    i, x.Revoke());
  }

  // --- changes of many rows ---------------------------------------------------------

  lemma AddressesSub(members: set<(Id, Id)>, emails: map<Id, string>, members': set<(Id, Id)>, emails': map<Id, string>)
    requires members' <= members && Extends(emails', emails)
    ensures MemberAddresses(members', emails') <= MemberAddresses(members, emails)
  {
  }

  lemma AddressesWith(members: set<(Id, Id)>, emails: map<Id, string>, w: Id, u: Id)
    requires u in emails
    ensures MemberAddresses(members + {(w, u)}, emails) == MemberAddresses(members, emails) + {(w, emails[u])}
  {
    assert (w, u) in members + {(w, u)};
  }

  lemma MembersKeep(members: map<(Id, Id), Member>, userIds: set<Id>, owners: map<Id, Id>, roles: map<Id, Standing>,
                    members': map<(Id, Id), Member>, userIds': set<Id>, owners': map<Id, Id>, roles': map<Id, Standing>)
    requires MembersOk(members, userIds, owners, roles) && Extends(members', members)
    requires forall m <- members' ::
               && (m.1 in userIds ==> m.1 in userIds')
               && (m.0 in owners ==> m.0 in owners' && owners'[m.0] == owners[m.0])
               && (members'[m].roleId in roles ==>
                     members'[m].roleId in roles' && roles'[members'[m].roleId] == roles[members'[m].roleId])
    ensures MembersOk(members', userIds', owners', roles')
  {
    forall m <- members' ensures MemberOk(m, members'[m], userIds', owners', roles') {
      assert MemberOk(m, members[m], userIds, owners, roles);
    }
  }

  /** When members leave and everyone who left is sent back a step, onboarding still agrees. */
  lemma OnboardingReturns(users: map<Id, User>, members: map<(Id, Id), Member>, members': map<(Id, Id), Member>,
                          left: set<Id>)
    requires OnboardingOk(users, members) && members'.Keys <= members.Keys
    requires forall m <- members | m !in members' :: m.1 in left
    ensures OnboardingOk(ReturnToWorkspaceStep(users, members', left), members')
  {
    var users' := ReturnToWorkspaceStep(users, members', left);
    forall u <- users' ensures UserOk(users'[u], BelongsToAny(members', u)) {
      assert UserOk(users[u], BelongsToAny(members, u));
      if BelongsToAny(members, u) && u !in left {
        var m :| m in members && m.1 == u;
        assert m in members';
      }
    }
  }

  lemma ReturnKeepsEmails(users: map<Id, User>, members: map<(Id, Id), Member>, left: set<Id>)
    ensures Emails(ReturnToWorkspaceStep(users, members, left)) == Emails(users)
    ensures ReturnToWorkspaceStep(users, members, left).Keys == users.Keys
  {
  }

  lemma MemberRemoved(t: Tables, w: Id, u: Id, now: Time)
    requires Inv(t, now) && (w, u) in t.members && IsLive(t.workspaces, w) && u != t.workspaces[w].ownerId
    ensures var members := t.members - {(w, u)};
            Inv(t.(members := members, users := ReturnToWorkspaceStep(t.users, members, {u})), now)
  {
    var members := t.members - {(w, u)};
    var emails, open := Emails(t.users), OpenAddresses(t.invitations, now);
    ReturnKeepsEmails(t.users, members, {u});
    OnboardingReturns(t.users, t.members, members, {u});
    MembersKeep(t.members, t.users.Keys, Owners(t.workspaces), Standings(t.roles),
                members, t.users.Keys, Owners(t.workspaces), Standings(t.roles));
    OwnersStay(Owners(t.workspaces), t.members.Keys, members.Keys);
    AddressesSub(t.members.Keys, emails, members.Keys, emails);
    OpenSub(open, MemberAddresses(t.members.Keys, emails), open, MemberAddresses(members.Keys, emails));
  }

  lemma RevokedProjected(invitations: map<Id, Invitation>, w: Id, now: Time)
    ensures Tokens(RevokePending(invitations, w)) == Tokens(invitations)
    ensures Extends(OpenAddresses(RevokePending(invitations, w), now), OpenAddresses(invitations, now))
  {
  }

  lemma InvitationsRevoked(invitations: map<Id, Invitation>, userIds: set<Id>, workspaceIds: set<Id>,
                           liveIds: set<Id>, roles: map<Id, Standing>, w: Id)
    requires InvitationsOk(invitations, userIds, workspaceIds, liveIds, roles)
    ensures InvitationsOk(RevokePending(invitations, w), userIds, workspaceIds, liveIds - {w}, roles)
  {
    var invitations' := RevokePending(invitations, w);
    forall i <- invitations' ensures InvitationOk(invitations'[i], userIds, workspaceIds, liveIds - {w}, roles) {
      assert InvitationOk(invitations[i], userIds, workspaceIds, liveIds, roles);
    }
  }

  lemma MembersLeave(members: map<(Id, Id), Member>, userIds: set<Id>, owners: map<Id, Id>, roles: map<Id, Standing>, w: Id)
    requires MembersOk(members, userIds, owners, roles) && OwnersOk(owners, members.Keys)
    ensures MembersOk(WithoutMembersOf(members, w), userIds, owners - {w}, roles)
    ensures OwnersOk(owners - {w}, WithoutMembersOf(members, w).Keys)
  {
    MembersKeep(members, userIds, owners, roles, WithoutMembersOf(members, w), userIds, owners - {w}, roles);
    OwnersWithout(owners, members, w);
  }

  lemma WorkspaceDeleted(t: Tables, w: Id, now: Time)
    requires Inv(t, now) && IsLive(t.workspaces, w)
    ensures var members := WithoutMembersOf(t.members, w);
            Inv(t.(members := members,
                invitations := RevokePending(t.invitations, w),
                workspaces := t.workspaces[w := t.workspaces[w].(deletedAt := Some(now), slug := Tombstone(t.nextId))],
                users := ReturnToWorkspaceStep(t.users, members, UserIds(t.members, w)),
                nextId := t.nextId + 1), now)
  {
    var members, left := WithoutMembersOf(t.members, w), UserIds(t.members, w);
    var workspace := t.workspaces[w].(deletedAt := Some(now), slug := Tombstone(t.nextId));
    var emails, open, slugs := Emails(t.users), OpenAddresses(t.invitations, now), Slugs(t.workspaces);
    var owners, tokens := Owners(t.workspaces), Tokens(t.invitations);
    var invitations := RevokePending(t.invitations, w);
    WorkspaceProjected(t.workspaces, w, workspace);
    ReturnKeepsEmails(t.users, members, left);
    OnboardingReturns(t.users, t.members, members, left);
    MembersLeave(t.members, t.users.Keys, owners, Standings(t.roles), w);
    AddressesSub(t.members.Keys, emails, members.Keys, emails);
    RevokedProjected(t.invitations, w, now);
    OpenSub(open, MemberAddresses(t.members.Keys, emails),
            OpenAddresses(invitations, now), MemberAddresses(members.Keys, emails));
    InvitationsRevoked(t.invitations, t.users.Keys, t.workspaces.Keys, owners.Keys, Standings(t.roles), w);
    assert (owners - {w}).Keys == owners.Keys - {w};
    assert t.workspaces[w := workspace].Keys == t.workspaces.Keys;
    SlugFreed(slugs, t.roles.Keys, tokens, t.nextId, w);
  }

  lemma OwnersWithout(owners: map<Id, Id>, members: map<(Id, Id), Member>, w: Id)
    requires OwnersOk(owners, members.Keys)
    ensures OwnersOk(owners - {w}, WithoutMembersOf(members, w).Keys)
  {
    var owners' := owners - {w};
    forall v <- owners' ensures OwnerOk(v, owners'[v], WithoutMembersOf(members, w).Keys) {
      assert OwnerOk(v, owners[v], members.Keys);
    }
  }

  /** The slug of a deleted workspace becomes one no other workspace has. */
  lemma SlugFreed(slugs: map<Id, Slug>, roleIds: set<Id>, tokens: map<Id, Token>, nextId: Id, w: Id)
    requires IdsOk(slugs, roleIds, tokens, nextId) && Injective(slugs) && w in slugs
    ensures IdsOk(slugs[w := Tombstone(nextId)], roleIds, tokens, nextId + 1)
    ensures Injective(slugs[w := Tombstone(nextId)])
  {
    forall v <- slugs ensures slugs[v] != Tombstone(nextId) {
      assert SlugBelow(slugs[v], nextId);
    }
    assert Below(w, nextId);
    InjectiveUpdate(slugs, w, Tombstone(nextId));
    IdsStay(slugs, roleIds, tokens, nextId, slugs[w := Tombstone(nextId)], roleIds, tokens, nextId + 1);
  }

  lemma InvitationsKeep(invitations: map<Id, Invitation>,
                        userIds: set<Id>, workspaceIds: set<Id>, liveIds: set<Id>, roles: map<Id, Standing>,
                        invitations': map<Id, Invitation>,
                        userIds': set<Id>, workspaceIds': set<Id>, roles': map<Id, Standing>)
    requires InvitationsOk(invitations, userIds, workspaceIds, liveIds, roles) && Extends(invitations', invitations)
    requires forall i <- invitations' ::
               var x := invitations'[i];
               && (x.invitedBy in userIds ==> x.invitedBy in userIds')
               && (x.workspaceId in workspaceIds ==> x.workspaceId in workspaceIds')
               && (x.roleId in roles && roles[x.roleId].workspaceId == x.workspaceId ==>
                     x.roleId in roles' && roles'[x.roleId] == roles[x.roleId])
    ensures InvitationsOk(invitations', userIds', workspaceIds', liveIds, roles')
  {
    forall i <- invitations' ensures InvitationOk(invitations'[i], userIds', workspaceIds', liveIds, roles') {
      assert InvitationOk(invitations[i], userIds, workspaceIds, liveIds, roles);
    }
  }

  /** Dropping invitations leaves fewer tokens and fewer open addresses. */
  lemma InvitationsDropped(invitations: map<Id, Invitation>, invitations': map<Id, Invitation>, now: Time)
    requires Extends(invitations', invitations)
    ensures Extends(Tokens(invitations'), Tokens(invitations))
    ensures Extends(OpenAddresses(invitations', now), OpenAddresses(invitations, now))
  {
  }

  lemma RolesDropped(roles: map<Id, Role>, grants: map<Id, set<Action>>, workspaceIds: set<Id>,
                     gone: set<Id>, workspaceIds': set<Id>)
    requires RolesOk(roles, workspaceIds) && Injective(RoleNames(roles)) && GrantsOk(grants, roles.Keys)
    requires forall r <- roles | r !in gone && roles[r].workspaceId in workspaceIds :: roles[r].workspaceId in workspaceIds'
    ensures RolesOk(roles - gone, workspaceIds') && Injective(RoleNames(roles - gone))
    ensures GrantsOk(grants - gone, (roles - gone).Keys)
    ensures Standings(roles - gone) == Standings(roles) - gone
  {
    var roles', grants' := roles - gone, grants - gone;
    forall r <- roles' ensures RoleOk(roles'[r], workspaceIds') {
      assert RoleOk(roles[r], workspaceIds);
    }
    forall r <- grants' ensures GrantOk(r, grants'[r], roles'.Keys) {
      assert GrantOk(r, grants[r], roles.Keys);
    }
    InjectiveSub(RoleNames(roles), RoleNames(roles'));
  }

  lemma RoleDeleted(t: Tables, r: Id, now: Time)
    requires Inv(t, now) && r in t.roles && forall m <- t.members :: t.members[m].roleId != r
    ensures Inv(t.(invitations := WithoutInvitationsFor(t.invitations, r), grants := t.grants - {r},
                roles := t.roles - {r}), now)
  {
    var invitations, roles := WithoutInvitationsFor(t.invitations, r), t.roles - {r};
    var owners, standings, members := Owners(t.workspaces), Standings(t.roles), MemberAddresses(t.members.Keys, Emails(t.users));
    RolesDropped(t.roles, t.grants, t.workspaces.Keys, {r}, t.workspaces.Keys);
    MembersKeep(t.members, t.users.Keys, owners, standings, t.members, t.users.Keys, owners, standings - {r});
    InvitationsKeep(t.invitations, t.users.Keys, t.workspaces.Keys, owners.Keys, standings,
                    invitations, t.users.Keys, t.workspaces.Keys, standings - {r});
    InvitationsDropped(t.invitations, invitations, now);
    InjectiveSub(Tokens(t.invitations), Tokens(invitations));
    OpenSub(OpenAddresses(t.invitations, now), members, OpenAddresses(invitations, now), members);
    IdsStay(Slugs(t.workspaces), t.roles.Keys, Tokens(t.invitations), t.nextId,
            Slugs(t.workspaces), roles.Keys, Tokens(invitations), t.nextId);
  }

  lemma AccountDeleted(t: Tables, u: Id, now: Time)
    requires Inv(t, now) && u in t.users && !AnyOwnedBy(t, u)
    ensures Inv(t.(members := map m <- t.members | m.1 != u :: t.members[m],
                invitations := map i <- t.invitations | t.invitations[i].invitedBy != u :: t.invitations[i],
                users := t.users - {u}), now)
  {
    EmailsWithout(t.users, u);
    OnboardingWithout(t.users, t.members, u);
    MembersWithout(t, u);
    InvitationsWithout(t, u, now);
  }

  lemma InvitationsWithout(t: Tables, u: Id, now: Time)
    requires Inv(t, now)
    ensures var members := map m <- t.members | m.1 != u :: t.members[m];
            var rest := map i <- t.invitations | t.invitations[i].invitedBy != u :: t.invitations[i];
            && InvitationsOk(rest, (t.users - {u}).Keys, t.workspaces.Keys, Owners(t.workspaces).Keys, Standings(t.roles))
            && Injective(Tokens(rest))
            && OpenOk(OpenAddresses(rest, now), MemberAddresses(members.Keys, Emails(t.users - {u})))
            && IdsOk(Slugs(t.workspaces), t.roles.Keys, Tokens(rest), t.nextId)
  {
    var members := map m <- t.members | m.1 != u :: t.members[m];
    var rest := map i <- t.invitations | t.invitations[i].invitedBy != u :: t.invitations[i];
    var users, standings, emails := t.users - {u}, Standings(t.roles), Emails(t.users);
    EmailsWithout(t.users, u);
    InvitationsKeep(t.invitations, t.users.Keys, t.workspaces.Keys, Owners(t.workspaces).Keys, standings,
                    rest, users.Keys, t.workspaces.Keys, standings);
    SentInvitationsDropped(t.invitations, u, now);
    AddressesSub(t.members.Keys, emails, members.Keys, Emails(users));
    OpenSub(OpenAddresses(t.invitations, now), MemberAddresses(t.members.Keys, emails),
            OpenAddresses(rest, now), MemberAddresses(members.Keys, Emails(users)));
    IdsStay(Slugs(t.workspaces), t.roles.Keys, Tokens(t.invitations), t.nextId,
            Slugs(t.workspaces), t.roles.Keys, Tokens(rest), t.nextId);
  }

  lemma MembersWithout(t: Tables, u: Id)
    requires OwnersOk(Owners(t.workspaces), t.members.Keys) && !AnyOwnedBy(t, u)
    requires MembersOk(t.members, t.users.Keys, Owners(t.workspaces), Standings(t.roles))
    ensures var members := map m <- t.members | m.1 != u :: t.members[m];
            && OwnersOk(Owners(t.workspaces), members.Keys)
            && MembersOk(members, (t.users - {u}).Keys, Owners(t.workspaces), Standings(t.roles))
            && forall w <- Owners(t.workspaces) :: Owners(t.workspaces)[w] != u
  {
    var members := map m <- t.members | m.1 != u :: t.members[m];
    var owners := Owners(t.workspaces);
    forall w <- owners ensures owners[w] != u && (w, owners[w]) in members {
      assert OwnerOk(w, owners[w], t.members.Keys);
      assert t.workspaces[w].Live();
    }
    OwnersStay(owners, t.members.Keys, members.Keys);
    MembersKeep(t.members, t.users.Keys, owners, Standings(t.roles), members, (t.users - {u}).Keys, owners, Standings(t.roles));
  }

  lemma SentInvitationsDropped(invitations: map<Id, Invitation>, u: Id, now: Time)
    requires Injective(Tokens(invitations))
    ensures var rest := map i <- invitations | invitations[i].invitedBy != u :: invitations[i];
            && Injective(Tokens(rest)) && Extends(Tokens(rest), Tokens(invitations))
            && Extends(OpenAddresses(rest, now), OpenAddresses(invitations, now))
  {
    var rest := map i <- invitations | invitations[i].invitedBy != u :: invitations[i];
    InvitationsDropped(invitations, rest, now);
    InjectiveSub(Tokens(invitations), Tokens(rest));
  }

  lemma EmailsWithout(users: map<Id, User>, u: Id)
    requires EmailsOk(Emails(users))
    ensures EmailsOk(Emails(users - {u})) && Extends(Emails(users - {u}), Emails(users))
  {
    var emails, emails' := Emails(users), Emails(users - {u});
    InjectiveSub(emails, emails');
    forall o <- emails' ensures EmailOk(emails'[o]) {
      assert EmailOk(emails[o]);
    }
  }

  lemma OnboardingWithout(users: map<Id, User>, members: map<(Id, Id), Member>, u: Id)
    requires OnboardingOk(users, members)
    ensures OnboardingOk(users - {u}, map m <- members | m.1 != u :: members[m])
  {
    var users', members' := users - {u}, map m <- members | m.1 != u :: members[m];
    forall o <- users' ensures UserOk(users'[o], BelongsToAny(members', o)) {
      assert UserOk(users[o], BelongsToAny(members, o));
      if BelongsToAny(members, o) {
        var m :| m in members && m.1 == o;
        assert m in members';
      }
    }
  }

  lemma RowsPurged(t: Tables, w: Id, now: Time)
    requires Inv(t, now) && w in t.workspaces && !t.workspaces[w].Live()
    ensures Inv(PurgeRows(t, w), now)
  {
    var t' := PurgeRows(t, w);
    var gone, owners, standings := RoleIdsOf(t, w), Owners(t.workspaces), Standings(t.roles);
    var addresses := MemberAddresses(t.members.Keys, Emails(t.users));
    NoMembersOf(t, w);
    DeletedWorkspaceDropped(t.workspaces, w);
    RolesDropped(t.roles, t.grants, t.workspaces.Keys, gone, t'.workspaces.Keys);
    forall m <- t.members ensures t.members[m].roleId !in gone {
      assert MemberOk(m, t.members[m], t.users.Keys, owners, standings);
    }
    MembersKeep(t.members, t.users.Keys, owners, standings, t.members, t.users.Keys, owners, standings - gone);
    InvitationsKeep(t.invitations, t.users.Keys, t.workspaces.Keys, owners.Keys, standings,
                    t'.invitations, t.users.Keys, t'.workspaces.Keys, standings - gone);
    InvitationsDropped(t.invitations, t'.invitations, now);
    InjectiveSub(Tokens(t.invitations), Tokens(t'.invitations));
    OpenSub(OpenAddresses(t.invitations, now), addresses, OpenAddresses(t'.invitations, now), addresses);
    IdsStay(Slugs(t.workspaces), t.roles.Keys, Tokens(t.invitations), t.nextId,
            Slugs(t'.workspaces), t'.roles.Keys, Tokens(t'.invitations), t.nextId);
  }

  lemma DeletedWorkspaceDropped(workspaces: map<Id, Workspace>, w: Id)
    requires w in workspaces && !workspaces[w].Live() && Injective(Slugs(workspaces))
    ensures Owners(workspaces - {w}) == Owners(workspaces)
    ensures Slugs(workspaces - {w}) == Slugs(workspaces) - {w}
    ensures Injective(Slugs(workspaces - {w}))
  {
    InjectiveSub(Slugs(workspaces), Slugs(workspaces - {w}));
  }

  /** A deleted workspace has no members left. */
  lemma NoMembersOf(t: Tables, w: Id)
    requires MembersOk(t.members, t.users.Keys, Owners(t.workspaces), Standings(t.roles)) && !IsLive(t.workspaces, w)
    ensures WithoutMembersOf(t.members, w) == t.members
  {
    forall m <- t.members ensures m.0 != w {
      assert MemberOk(m, t.members[m], t.users.Keys, Owners(t.workspaces), Standings(t.roles));
    }
  }

  /** The address an open invitation is for is free for its member once it is accepted. */
  lemma OpenAccepted(open: map<Id, (Id, string)>, members: set<(Id, string)>, i: Id)
    requires OpenOk(open, members) && i in open
    ensures OpenOk(open - {i}, members + {open[i]})
  {
    var open', members' := open - {i}, members + {open[i]};
    InjectiveSub(open, open');
    forall j <- open' ensures Vacant(open'[j], members') {
      assert Vacant(open[j], members);
      assert Same(open[j], open[i]) ==> i == j;
    }
  }

  lemma MemberJoined(users: map<Id, User>, members: map<(Id, Id), Member>, w: Id, u: Id, member: Member)
    requires OnboardingOk(users, members) && u in users
    ensures OnboardingOk(users[u := users[u].JoinedAWorkspace()], members[(w, u) := member])
  {
    var users', members' := users[u := users[u].JoinedAWorkspace()], members[(w, u) := member];
    forall o <- users' ensures UserOk(users'[o], BelongsToAny(members', o)) {
      assert UserOk(users[o], BelongsToAny(members, o));
      if BelongsToAny(members, o) {
        var m :| m in members && m.1 == o;
        assert m in members';
      }
      assert (w, u) in members';
    }
  }

  lemma InvitationAccepted(t: Tables, i: Id, u: Id, now: Time)
    requires Inv(t, now) && i in t.invitations && t.invitations[i].Open(now) && u in t.users
    requires t.users[u].email == t.invitations[i].email
    requires (t.invitations[i].workspaceId, u) !in t.members
    ensures Inv(Joined(t, i, u), now)
  {
    var t', x := Joined(t, i, u), t.invitations[i];
    var w, owners, standings := x.workspaceId, Owners(t.workspaces), Standings(t.roles);
    var emails, open := Emails(t.users), OpenAddresses(t.invitations, now);
    assert InvitationOk(x, t.users.Keys, t.workspaces.Keys, owners.Keys, standings);
    assert OwnerOk(w, owners[w], t.members.Keys);
    assert t'.users.Keys == t.users.Keys && t'.members.Keys == t.members.Keys + {(w, u)};
    UserProjected(t.users, u, t'.users[u]);
    MemberJoined(t.users, t.members, w, u, Member(x.roleId));
    OwnersStay(owners, t.members.Keys, t'.members.Keys);
    MembersWith(t.members, t.users.Keys, owners, standings, (w, u), Member(x.roleId));
    InvitationProjected(t.invitations, i, x.Accept(u), now);
    InvitationsWith(t.invitations, t.users.Keys, t.workspaces.Keys, owners.Keys, standings, i, x.Accept(u));
    assert Tokens(t.invitations)[i := x.token] == Tokens(t.invitations);
    AddressesWith(t.members.Keys, emails, w, u);
    OpenAccepted(open, MemberAddresses(t.members.Keys, emails), i);
  }

  // --- a new workspace --------------------------------------------------------------

  lemma SystemRoleNamesDiffer(w: Id, id: Id, other: Id)
    requires w < id < other <= w + 4
    ensures SystemRoleName(w, id) != SystemRoleName(w, other)
  {
    assert OWNER_ROLE[0] == 'o' && ADMIN_ROLE[0] == 'a' && DEFAULT_MEMBER_ROLE[0] == 'm' && VIEWER_ROLE[0] == 'v';
  }

  lemma SystemRolesOk(roles: map<Id, Role>, workspaceIds: set<Id>, w: Id)
    requires RolesOk(roles, workspaceIds) && Injective(RoleNames(roles)) && w !in workspaceIds
    requires forall r <- roles :: r < w
    ensures RolesOk(roles + SystemRoles(w, 4), workspaceIds + {w})
    ensures Injective(RoleNames(roles + SystemRoles(w, 4)))
    ensures Extends(Standings(roles), Standings(roles + SystemRoles(w, 4)))
    ensures Standings(roles + SystemRoles(w, 4))[w + 1] == Standing(w, true)
  {
    var roles' := roles + SystemRoles(w, 4);
    var names, names' := RoleNames(roles), RoleNames(roles');
    forall r <- roles' ensures RoleOk(roles'[r], workspaceIds + {w}) {
      assert r in roles ==> RoleOk(roles[r], workspaceIds);
    }
    forall r <- roles ensures names[r].0 != w {
      assert RoleOk(roles[r], workspaceIds);
    }
    forall i <- names', j <- names' | Same(names'[i], names'[j]) ensures i == j {
      if i in roles && j in roles {
        assert Same(names[i], names[j]);
      } else if i !in roles && j !in roles {
        if i < j { SystemRoleNamesDiffer(w, i, j); } else if j < i { SystemRoleNamesDiffer(w, j, i); }
      }
    }
  }

  lemma SystemGrantsOk(grants: map<Id, set<Action>>, roleIds: set<Id>, w: Id)
    requires GrantsOk(grants, roleIds)
    ensures GrantsOk(grants + SystemGrants(w, 4), roleIds + SystemRoles(w, 4).Keys)
  {
    var grants', roleIds' := grants + SystemGrants(w, 4), roleIds + SystemRoles(w, 4).Keys;
    forall r <- grants' ensures GrantOk(r, grants'[r], roleIds') {
      assert r !in SystemGrants(w, 4) ==> GrantOk(r, grants[r], roleIds);
    }
  }

  lemma NoAddressesAt(t: Tables, w: Id, now: Time)
    requires InvitationsOk(t.invitations, t.users.Keys, t.workspaces.Keys, Owners(t.workspaces).Keys, Standings(t.roles))
    requires w !in t.workspaces
    ensures forall i <- OpenAddresses(t.invitations, now) :: OpenAddresses(t.invitations, now)[i].0 != w
  {
    forall i <- t.invitations ensures t.invitations[i].workspaceId != w {
      assert InvitationOk(t.invitations[i], t.users.Keys, t.workspaces.Keys, Owners(t.workspaces).Keys, Standings(t.roles));
    }
  }

  lemma OpenStays(open: map<Id, (Id, string)>, members: set<(Id, string)>, address: (Id, string))
    requires OpenOk(open, members) && forall i <- open :: open[i].0 != address.0
    ensures OpenOk(open, members + {address})
  {
    forall i <- open ensures Vacant(open[i], members + {address}) {
      assert Vacant(open[i], members);
    }
  }

  lemma Fresh(slugs: map<Id, Slug>, roleIds: set<Id>, tokens: map<Id, Token>, nextId: Id)
    requires IdsOk(slugs, roleIds, tokens, nextId)
    ensures nextId !in slugs && forall r <- roleIds :: r < nextId
  {
    assert nextId in slugs ==> Below(nextId, nextId);
    forall r <- roleIds ensures r < nextId {
      assert Below(r, nextId);
    }
  }

  /** `roles` are the roles there are and those of workspace `t.nextId`, the first one its owner's. */
  ghost predicate RolesFor(t: Tables, roles: map<Id, Role>, grants: map<Id, set<Action>>, nextId: Id) {
    && RolesOk(roles, t.workspaces.Keys + {t.nextId})
    && Injective(RoleNames(roles))
    && GrantsOk(grants, roles.Keys)
    && Extends(Standings(t.roles), Standings(roles))
    && t.nextId + 1 in roles
    && Standings(roles)[t.nextId + 1] == Standing(t.nextId, true)
    && forall r <- roles {:trigger Below(r, nextId)} :: r in t.roles || (t.nextId < r && Below(r, nextId))
  }

  lemma SystemRolesFor(t: Tables)
    requires RolesOk(t.roles, t.workspaces.Keys) && Injective(RoleNames(t.roles)) && GrantsOk(t.grants, t.roles.Keys)
    requires IdsOk(Slugs(t.workspaces), t.roles.Keys, Tokens(t.invitations), t.nextId)
    ensures RolesFor(t, t.roles + SystemRoles(t.nextId, 4), t.grants + SystemGrants(t.nextId, 4), t.nextId + 5)
  {
    var w := t.nextId;
    Fresh(Slugs(t.workspaces), t.roles.Keys, Tokens(t.invitations), w);
    SystemRolesOk(t.roles, t.workspaces.Keys, w);
    SystemGrantsOk(t.grants, t.roles.Keys, w);
    assert (t.roles + SystemRoles(w, 4)).Keys == t.roles.Keys + SystemRoles(w, 4).Keys;
  }

  /** What adding workspace `t.nextId`, its roles and its owner does to the people in the tables. */
  lemma PeopleAdded(t: Tables, workspaces: map<Id, Workspace>, roles: map<Id, Role>, u: Id, now: Time)
    requires Inv(t, now) && u in t.users && t.users[u].status != ProfilePending && t.nextId !in t.workspaces
    requires Owners(workspaces) == Owners(t.workspaces)[t.nextId := u]
    requires Extends(Standings(t.roles), Standings(roles))
    requires t.nextId + 1 in roles && Standings(roles)[t.nextId + 1] == Standing(t.nextId, true)
    ensures var users := t.users[u := t.users[u].CreatedAWorkspace()];
            var members := WithFounder(t.members, t.nextId, u);
            && users.Keys == t.users.Keys
            && EmailsOk(Emails(users))
            && OnboardingOk(users, members)
            && OwnersOk(Owners(workspaces), members.Keys)
            && MembersOk(members, t.users.Keys, Owners(workspaces), Standings(roles))
            && OpenOk(OpenAddresses(t.invitations, now), MemberAddresses(members.Keys, Emails(users)))
  {
    var w, member := t.nextId, Member(t.nextId + 1);
    assert t.members[(w, u) := member].Keys == t.members.Keys + {(w, u)};
    UserProjected(t.users, u, t.users[u].CreatedAWorkspace());
    FounderOnboarded(t.users, t.members, w, u, member);
    FounderIsMember(t.members, t.users.Keys, Owners(t.workspaces), Standings(t.roles), Standings(roles), w, u);
    FoundedApart(t, u, now);
  }

  /** What it does to everything else. */
  lemma SurroundingsAdded(t: Tables, workspace: Workspace, roles: map<Id, Role>, grants: map<Id, set<Action>>, nextId: Id)
    requires Injective(Slugs(t.workspaces)) && IdsOk(Slugs(t.workspaces), t.roles.Keys, Tokens(t.invitations), t.nextId)
    requires InvitationsOk(t.invitations, t.users.Keys, t.workspaces.Keys, Owners(t.workspaces).Keys, Standings(t.roles))
    requires workspace.Live() && workspace.slug.Address? && Unused(Slugs(t.workspaces), t.nextId, workspace.slug)
    requires RolesFor(t, roles, grants, nextId)
    ensures t.nextId !in t.workspaces
    ensures var workspaces := t.workspaces[t.nextId := workspace];
            && Owners(workspaces) == Owners(t.workspaces)[t.nextId := workspace.ownerId]
            && Injective(Slugs(workspaces))
            && RolesOk(roles, workspaces.Keys)
            && InvitationsOk(t.invitations, t.users.Keys, workspaces.Keys, Owners(workspaces).Keys, Standings(roles))
            && IdsOk(Slugs(workspaces), roles.Keys, Tokens(t.invitations), nextId)
  {
    var workspaces := t.workspaces[t.nextId := workspace];
    assert workspaces.Keys == t.workspaces.Keys + {t.nextId};
    WorkspaceProjected(t.workspaces, t.nextId, workspace);
    FoundedIds(t, workspace.slug, roles, grants, nextId);
    InvitationsStay(t.invitations, t.users.Keys, t.workspaces.Keys, Owners(t.workspaces).Keys, Standings(t.roles),
                    t.users.Keys, workspaces.Keys, Owners(workspaces).Keys, Standings(roles));
  }

  /** Adding a live workspace, its roles and its first member, the owner. */
  lemma WorkspaceAdded(t: Tables, workspace: Workspace, roles: map<Id, Role>, grants: map<Id, set<Action>>, u: Id,
                       nextId: Id, t': Tables, now: Time)
    requires Inv(t, now) && u in t.users && t' == WithWorkspace(t, workspace, roles, grants, u, nextId)
    requires t.users[u].status != ProfilePending && workspace.Live() && workspace.ownerId == u && workspace.slug.Address?
    requires Unused(Slugs(t.workspaces), t.nextId, workspace.slug)
    requires RolesFor(t, roles, grants, nextId)
    ensures Inv(t', now)
  {
    SurroundingsAdded(t, workspace, roles, grants, nextId);
    PeopleAdded(t, t.workspaces[t.nextId := workspace], roles, u, now);
  }

  lemma FoundedIds(t: Tables, slug: Slug, roles: map<Id, Role>, grants: map<Id, set<Action>>, nextId: Id)
    requires IdsOk(Slugs(t.workspaces), t.roles.Keys, Tokens(t.invitations), t.nextId) && Injective(Slugs(t.workspaces))
    requires RolesFor(t, roles, grants, nextId) && slug.Address?
    requires Unused(Slugs(t.workspaces), t.nextId, slug)
    ensures t.nextId !in t.workspaces
    ensures IdsOk(Slugs(t.workspaces)[t.nextId := slug], roles.Keys, Tokens(t.invitations), nextId)
    ensures Injective(Slugs(t.workspaces)[t.nextId := slug])
  {
    var slugs := Slugs(t.workspaces);
    Fresh(slugs, t.roles.Keys, Tokens(t.invitations), t.nextId);
    InjectiveUpdate(slugs, t.nextId, slug);
    assert Below(t.nextId + 1, nextId);
    forall r <- roles ensures r in t.roles || r < nextId {
      assert Below(r, nextId) || r in t.roles;
    }
    IdsStay(slugs, t.roles.Keys, Tokens(t.invitations), t.nextId, slugs[t.nextId := slug], roles.Keys, Tokens(t.invitations), nextId);
  }

  lemma FounderIsMember(members: map<(Id, Id), Member>, userIds: set<Id>, owners: map<Id, Id>,
                        roles: map<Id, Standing>, roles': map<Id, Standing>, w: Id, u: Id)
    requires MembersOk(members, userIds, owners, roles) && OwnersOk(owners, members.Keys)
    requires Extends(roles, roles') && w + 1 in roles' && roles'[w + 1] == Standing(w, true)
    requires w !in owners && u in userIds
    ensures OwnersOk(owners[w := u], members.Keys + {(w, u)})
    ensures MembersOk(members[(w, u) := Member(w + 1)], userIds, owners[w := u], roles')
  {
    OwnersStay(owners, members.Keys, members.Keys + {(w, u)});
    OwnersWith(owners, members.Keys + {(w, u)}, w, u);
    MembersStay(members, userIds, owners, roles, userIds, owners[w := u], roles');
    MembersWith(members, userIds, owners[w := u], roles', (w, u), Member(w + 1));
  }

  lemma WorkspaceFounded(t: Tables, name: string, slug: Slug, u: Id, t': Tables, now: Time)
    requires Inv(t, now) && u in t.users && t' == Founded(t, name, slug, u)
    requires t.users[u].status != ProfilePending
    requires slug.Address? && Unused(Slugs(t.workspaces), t.nextId, slug)
    ensures Inv(t', now)
  {
    var roles, grants := t.roles + SystemRoles(t.nextId, 4), t.grants + SystemGrants(t.nextId, 4);
    var workspace := Workspace(Strip(name), slug, u, None, None);
    SystemRolesFor(t);
    WorkspaceAdded(t, workspace, roles, grants, u, t.nextId + 5, t', now);
  }

  lemma FoundedApart(t: Tables, u: Id, now: Time)
    requires Inv(t, now) && u in t.users && t.nextId !in t.workspaces
    ensures OpenOk(OpenAddresses(t.invitations, now),
                   MemberAddresses(t.members.Keys + {(t.nextId, u)}, Emails(t.users)))
  {
    NoAddressesAt(t, t.nextId, now);
    AddressesWith(t.members.Keys, Emails(t.users), t.nextId, u);
    OpenStays(OpenAddresses(t.invitations, now), MemberAddresses(t.members.Keys, Emails(t.users)),
              (t.nextId, Emails(t.users)[u]));
  }

  lemma FounderOnboarded(users: map<Id, User>, members: map<(Id, Id), Member>, w: Id, u: Id, member: Member)
    requires OnboardingOk(users, members) && u in users && users[u].status != ProfilePending
    ensures OnboardingOk(users[u := users[u].CreatedAWorkspace()], members[(w, u) := member])
  {
    assert UserOk(users[u], BelongsToAny(members, u));
    MemberJoined(users, members, w, u, member);
    assert users[u].JoinedAWorkspace() == users[u].CreatedAWorkspace();
  }
}
