/** The use cases of `UseCases` as transactions of `Catalog`: which ones each command makes, that
    run alone they do the same to the rows both have, and that the catalog has such runs. */
module Projection {
  import opened Wrappers
  import opened Access
  import opened Text
  import opened Entities
  import opened Store
  import opened UseCases
  import opened Runs
  import C = Catalog
  import CatalogRuns

  /** The rows of the tables that `Catalog` has too. */
  function Seen(t: Tables): C.DB {
    C.DB(t.workspaces, t.users, t.members, t.products)
  }

  /** The work `outcome`, read from `a`, makes `b` of it. */
  ghost predicate Makes(a: C.DB, outcome: C.Outcome, b: C.DB) {
    outcome.Success? && b == C.Apply(a, outcome.value.delta)
  }

  /** A request to the catalog, with the keys of the files it stores. */
  datatype Request = Request(op: C.Op, stored: seq<Key>)

  /** What requests make of `a`, one after the other, if each succeeds. */
  ghost function After(a: C.DB, rs: seq<Request>, q: C.Quotas, now: Time, newId: Id): Option<C.DB>
    decreases rs
  {
    if rs == [] then Some(a)
    else if |rs[0].stored| != C.Uploads(rs[0].op) then None
    else
      match C.Work(a, q, rs[0].op, rs[0].stored, now, newId, {})
      case Success(e) => After(C.Apply(a, e.delta), rs[1..], q, now, newId)
      case Failure(_) => None
  }

  lemma OneRequest(a: C.DB, r: Request, q: C.Quotas, now: Time, newId: Id, b: C.DB)
    requires |r.stored| == C.Uploads(r.op) && Makes(a, C.Work(a, q, r.op, r.stored, now, newId, {}), b)
    ensures After(a, [r], q, now, newId) == Some(b)
  {}

  lemma TwoRequests(a: C.DB, r: Request, r': Request, q: C.Quotas, now: Time, newId: Id, b: C.DB, c: C.DB)
    requires After(a, [r], q, now, newId) == Some(b) && After(b, [r'], q, now, newId) == Some(c)
    ensures After(a, [r, r'], q, now, newId) == Some(c)
  {
    assert [r, r'][1..] == [r'];
  }

  // --- deltas as updates ------------------------------------------------------------

  lemma Unpatched(db: C.DB)
    ensures C.Patch(db.workspaces, map[]) == db.workspaces && C.Patch(db.accounts, map[]) == db.accounts
    ensures C.Patch(db.members, map[]) == db.members && C.Patch(db.products, map[]) == db.products
  {
    C.PatchNone(db.workspaces);
    C.PatchNone(db.accounts);
    C.PatchNone(db.members);
    C.PatchNone(db.products);
  }

  // --- workspaces -------------------------------------------------------------------

  lemma FoundingMakes(db: C.DB, op: C.Op, w: Id)
    requires op.FoundWorkspace? && op.founder in db.accounts && db.accounts[op.founder].status != ProfilePending
    requires Strip(op.newName) != []
    ensures Makes(db, C.WorkFound(db, op, w),
                  db.(workspaces := db.workspaces[w := Workspace(Strip(op.newName), op.slug, op.founder, None, None)],
                      members := WithFounder(db.members, w, op.founder),
                      accounts := db.accounts[op.founder := db.accounts[op.founder].CreatedAWorkspace()]))
  {
    var u := op.founder;
    Unpatched(db);
    C.PatchOne(db.workspaces, w, Workspace(Strip(op.newName), op.slug, u, None, None));
    C.PatchOne(db.members, (w, u), Member(w + 1));
    C.PatchOne(db.accounts, u, db.accounts[u].CreatedAWorkspace());
    assert db.accounts[u].CreatedAWorkspace() == db.accounts[u] ==> db.accounts[u := db.accounts[u]] == db.accounts;
  }

  lemma FoundedMakes(t: Tables, name: string, slug: Slug, u: Id)
    requires u in t.users && t.users[u].status != ProfilePending && Strip(name) != []
    ensures var op := C.FoundWorkspace(u, name, slug);
            Makes(Seen(t), C.WorkFound(Seen(t), op, t.nextId), Seen(Founded(t, name, slug, u)))
  {
    FoundingMakes(Seen(t), C.FoundWorkspace(u, name, slug), t.nextId);
  }

  lemma UpdateMakes(t: Tables, w: Id, name: string, slug: Slug, u: Id, t': Tables)
    requires Update(t, w, name, slug, u) == Success(t')
    ensures var op := C.RenameWorkspace(w, name, slug);
            Makes(Seen(t), C.WorkRenameWorkspace(Seen(t), op), Seen(t'))
  {
    Unpatched(Seen(t));
    C.PatchOne(t.workspaces, w, t'.workspaces[w]);
  }

  lemma SetLogoMakes(t: Tables, w: Id, logoKey: Option<Key>, u: Id, t': Tables)
    requires SetLogo(t, w, logoKey, u) == Success(t')
    ensures var stored := if logoKey.Some? then [logoKey.value] else [];
            var op := C.SetLogo(w, logoKey.Some?);
            Makes(Seen(t), C.WorkSetLogo(Seen(t), op, stored), Seen(t'))
  {
    Unpatched(Seen(t));
    C.PatchOne(t.workspaces, w, t'.workspaces[w]);
  }

  /** Sending people back to the workspace step is writing the accounts of the homeless. */
  lemma HomelessReturn(t: Tables, members: map<(Id, Id), Member>, gone: set<(Id, Id)>, left: set<Id>)
    requires gone <= t.members.Keys && members == t.members - gone && left == set m <- gone :: m.1
    ensures var homeless := C.Homeless(Seen(t), gone);
            ReturnToWorkspaceStep(t.users, members, left)
            == C.Patch(t.users, map u <- homeless :: Some(t.users[u].LeftEveryWorkspace()))
  {
    forall u <- t.users ensures u in C.Homeless(Seen(t), gone)
                           <==> u in left && !BelongsToAny(members, u) && t.users[u].status == Completed {
      assert BelongsToAny(members, u) <==> !(C.MembershipsOf(Seen(t), u) <= gone) by {
        if m :| m in members && m.1 == u {
          assert m in C.MembershipsOf(Seen(t), u);
        }
      }
    }
  }

  lemma OneHomeless(t: Tables, w: Id, u: Id)
    ensures var homeless := C.Homeless(Seen(t), {(w, u)});
            var d := map v <- homeless :: Some(t.users[v].LeftEveryWorkspace());
            if u in homeless then homeless == {u} && d == map[u := Some(t.users[u].LeftEveryWorkspace())]
            else homeless == {} && d == map[]
  {}

  lemma DeleteMakes(t: Tables, w: Id, u: Id, now: Time, t': Tables)
    requires Delete(t, w, u, now) == Success(t')
    ensures var op := C.DeleteWorkspace(w);
            Makes(Seen(t), C.WorkDeleteWorkspace(Seen(t), op, now, t.nextId), Seen(t'))
  {
    var gone := C.MembersIn(Seen(t), w);
    assert t'.members == t.members - gone;
    HomelessReturn(t, t'.members, gone, UserIds(t.members, w));
    Unpatched(Seen(t));
    C.PatchOne(t.workspaces, w, t'.workspaces[w]);
    C.PatchAway(t.members, gone);
  }

  // --- members ----------------------------------------------------------------------

  lemma AssignMakes(t: Tables, w: Id, memberId: Id, roleId: Id, u: Id, t': Tables)
    requires SetMemberRole(t, w, memberId, roleId, u) == Success(t')
    ensures var op := C.AssignRole(w, memberId, roleId);
            Makes(Seen(t), C.WorkAssign(Seen(t), op), Seen(t'))
  {
    Unpatched(Seen(t));
    C.PatchOne(t.members, (w, memberId), Member(roleId));
  }

  lemma DropWrites(t: Tables, w: Id, u: Id)
    requires IsLive(t.workspaces, w) && u != t.workspaces[w].ownerId && (w, u) in t.members
    ensures var work := C.WorkDrop(Seen(t), C.DropMember(w, u));
            var homeless := C.Homeless(Seen(t), {(w, u)});
            && work.Success?
            && work.value.delta == C.Delta(map[], map v <- homeless :: Some(t.users[v].LeftEveryWorkspace()),
                                           map[(w, u) := None], map[])
  {
    OneHomeless(t, w, u);
  }

  lemma RemoveMakes(t: Tables, w: Id, memberId: Id, u: Id, t': Tables)
    requires RemoveMember(t, w, memberId, u) == Success(t')
    ensures var op := C.DropMember(w, memberId);
            Makes(Seen(t), C.WorkDrop(Seen(t), op), Seen(t'))
  {
    DropWrites(t, w, memberId);
    HomelessReturn(t, t'.members, {(w, memberId)}, {memberId});
    Unpatched(Seen(t));
    assert C.Deleted({(w, memberId)}) == map[(w, memberId) := None];
    C.PatchAway(t.members, {(w, memberId)});
  }

  lemma TransferMakes(t: Tables, w: Id, targetId: Id, u: Id, t': Tables)
    requires Transfer(t, w, targetId, u) == Success(t')
    ensures var found := RoleByName(t, w, ADMIN_ROLE);
            var adminId := if found.Some? then found.value else t.nextId;
            var op := C.TransferWorkspace(w, targetId, adminId);
            Makes(Seen(t), C.WorkTransfer(Seen(t), op), Seen(t'))
  {
    Transferred(t, w, targetId, u, t');
    Unpatched(Seen(t));
    C.PatchOne(t.workspaces, w, t'.workspaces[w]);
    C.PatchTwo(t.members, (w, targetId), t'.members[(w, targetId)], (w, u), t'.members[(w, u)]);
  }

  lemma JoinMakes(t: Tables, token: Token, u: Id, now: Time, later: Time, t': Tables)
    requires Join(t, token, u, now, later) == Success(t')
    ensures var i := Joinable(t, token, u, now).value;
            var invitation := t.invitations[i];
            var op := C.JoinWorkspace(invitation.workspaceId, u, invitation.roleId);
            Makes(Seen(t), C.WorkJoin(Seen(t), op), Seen(t'))
  {
    var invitation := t.invitations[Joinable(t, token, u, now).value];
    Unpatched(Seen(t));
    C.PatchOne(t.members, (invitation.workspaceId, u), Member(invitation.roleId));
    C.PatchOne(t.users, u, t'.users[u]);
  }

  // --- accounts ---------------------------------------------------------------------

  lemma OpenMakes(t: Tables, u: Id, email: string, name: string)
    ensures var op := C.OpenAccount(u, email, name);
            Makes(Seen(t), C.WorkOpen(Seen(t), op), Seen(AddUnlessTaken(t, u, User.New(email, name))))
  {
    Unpatched(Seen(t));
    C.PatchOne(t.users, u, User.New(email, name));
  }

  lemma RenameMakes(t: Tables, u: Id, name: string, t': Tables)
    requires Rename(t, u, name) == Success(t')
    ensures var op := C.RenameAccount(u, name);
            Makes(Seen(t), C.WorkRenameAccount(Seen(t), op), Seen(t'))
  {
    assert BelongsToAny(t.members, u) <==> C.MembershipsOf(Seen(t), u) != {} by {
      if m :| m in t.members && m.1 == u {
        assert m in C.MembershipsOf(Seen(t), u);
      }
    }
    Unpatched(Seen(t));
    C.PatchOne(t.users, u, t'.users[u]);
  }

  lemma SetAvatarMakes(t: Tables, u: Id, avatarKey: Option<Key>, t': Tables)
    requires SetAvatar(t, u, avatarKey) == Success(t')
    ensures var stored := if avatarKey.Some? then [avatarKey.value] else [];
            var op := C.SetAvatar(u, avatarKey.Some?);
            Makes(Seen(t), C.WorkSetAvatar(Seen(t), op, stored), Seen(t'))
  {
    Unpatched(Seen(t));
    C.PatchOne(t.users, u, t'.users[u]);
  }

  lemma CloseMakes(t: Tables, u: Id)
    requires u in t.users && !AnyOwnedBy(t, u)
    ensures var op := C.CloseAccount(u);
            var members := map m <- t.members | m.1 != u :: t.members[m];
            Makes(Seen(t), C.WorkClose(Seen(t), op), C.DB(t.workspaces, t.users - {u}, members, t.products))
  {
    assert !C.OwnsLive(Seen(t), u);
    var gone := C.MembershipsOf(Seen(t), u);
    assert (map m <- t.members | m.1 != u :: t.members[m]) == t.members - gone;
    Unpatched(Seen(t));
    C.PatchOneAway(t.users, u);
    C.PatchAway(t.members, gone);
  }

  lemma PurgeRowsMakes(t: Tables, w: Id)
    ensures var op := C.PurgeRows(w);
            Makes(Seen(t), C.WorkPurgeRows(Seen(t), op), Seen(PurgeRows(t, w)))
  {
    var gone := C.MembersIn(Seen(t), w);
    assert WithoutMembersOf(t.members, w) == t.members - gone;
    Unpatched(Seen(t));
    C.PatchOneAway(t.workspaces, w);
    C.PatchAway(t.members, gone);
  }

  // --- every command ----------------------------------------------------------------

  /** The role the previous owner is given by a transfer. */
  ghost function AdminRoleIn(t: Tables, w: Id): Id {
    var found := RoleByName(t, w, ADMIN_ROLE);
    if found.Some? then found.value else t.nextId
  }

  function OnlyKey(key: Option<Key>): seq<Key> {
    if key.Some? then [key.value] else []
  }

  ghost function Joining(t: Tables, token: Token, u: Id, now: Time): seq<Request> {
    var i := Joinable(t, token, u, now);
    if i.Failure? then [] else
    [Request(C.JoinWorkspace(t.invitations[i.value].workspaceId, u, t.invitations[i.value].roleId), [])]
  }

  ghost function Registering(t: Tables, u: Id, email: string, name: string, token: Option<Token>, now: Time, later: Time):
    seq<Request>
  {
    var added := AddUnlessTaken(t, u, User.New(email, name));
    [Request(C.OpenAccount(u, email, name), [])]
    + if token.Some? && Join(added, token.value, u, now, later).Success? then Joining(added, token.value, u, now) else []
  }

  function WorkspaceRequests(c: WorkspaceCommand, u: Id): seq<Request> {
    match c
    case CreateWorkspace(name, slug) => [Request(C.FoundWorkspace(u, name, Address(slug)), [])]
    case UpdateWorkspace(w, name, slug) => [Request(C.RenameWorkspace(w, name, Address(slug)), [])]
    case ReplaceLogo(w, logoKey) => [Request(C.SetLogo(w, logoKey.Some?), OnlyKey(logoKey))]
    case DeleteWorkspace(w) => [Request(C.DeleteWorkspace(w), [])]
  }

  function RoleRequests(c: RoleCommand, w: Id): seq<Request> {
    match c
    case AssignRole(memberId, role) => [Request(C.AssignRole(w, memberId, role), [])]
    case _ => []
  }

  ghost function MemberRequests(t: Tables, c: MemberCommand, u: Id, now: Time): seq<Request> {
    match c
    case DropMember(w, memberId) => [Request(C.DropMember(w, memberId), [])]
    case TransferOwnership(w, targetId) => [Request(C.TransferWorkspace(w, targetId, AdminRoleIn(t, w)), [])]
    case AcceptInvite(token) => Joining(t, token, u, now)
    case _ => []
  }

  ghost function AccountRequests(t: Tables, c: AccountCommand, u: Id, now: Time, later: Time): seq<Request> {
    match c
    case RegisterAccount(email, name, token) => Registering(t, u, email, name, token, now, later)
    case FirstRequest(email) => [Request(C.OpenAccount(u, email, ""), [])]
    case RenameProfile(name) => [Request(C.RenameAccount(u, name), [])]
    case ReplaceAvatar(avatarKey) => [Request(C.SetAvatar(u, avatarKey.Some?), OnlyKey(avatarKey))]
    case CloseAccount => [Request(C.CloseAccount(u), [])]
  }

  /** The catalog requests of a command that succeeds on `t`. Commands on roles, grants and
      invitations alone make none. */
  ghost function RequestsOf(t: Tables, e: Event): seq<Request> {
    match e.command
    case OnWorkspace(c, u) => WorkspaceRequests(c, u)
    case OnRole(c, w, _) => RoleRequests(c, w)
    case OnMember(c, u) => MemberRequests(t, c, u, e.now)
    case OnAccount(c, u) => AccountRequests(t, c, u, e.now, e.later)
    case PurgeWorkspace(w) => [Request(C.PurgeRows(w), [])]
  }

  lemma FoundedMatches(t: Tables, name: string, slug: Slug, u: Id, now: Time, q: C.Quotas)
    requires u in t.users && t.users[u].status != ProfilePending && Strip(name) != []
    ensures After(Seen(t), [Request(C.FoundWorkspace(u, name, slug), [])], q, now, t.nextId)
         == Some(Seen(Founded(t, name, slug, u)))
  {
    FoundedMakes(t, name, slug, u);
    OneRequest(Seen(t), Request(C.FoundWorkspace(u, name, slug), []), q, now, t.nextId, Seen(Founded(t, name, slug, u)));
  }

  lemma CreateMatches(t: Tables, name: string, slug: Slug, u: Id, now: Time, q: C.Quotas, t': Tables)
    requires Create(t, name, slug, u) == Success(t')
    ensures After(Seen(t), [Request(C.FoundWorkspace(u, name, slug), [])], q, now, t.nextId) == Some(Seen(t'))
  {
    Created(t, name, slug, u, t');
    FoundedMatches(t, name, slug, u, now, q);
  }

  lemma UpdateMatches(t: Tables, w: Id, name: string, slug: Slug, u: Id, now: Time, q: C.Quotas, t': Tables)
    requires Update(t, w, name, slug, u) == Success(t')
    ensures After(Seen(t), [Request(C.RenameWorkspace(w, name, slug), [])], q, now, t.nextId) == Some(Seen(t'))
  {
    UpdateMakes(t, w, name, slug, u, t');
    OneRequest(Seen(t), Request(C.RenameWorkspace(w, name, slug), []), q, now, t.nextId, Seen(t'));
  }

  lemma SetLogoMatches(t: Tables, w: Id, logoKey: Option<Key>, u: Id, now: Time, q: C.Quotas, t': Tables)
    requires SetLogo(t, w, logoKey, u) == Success(t')
    ensures After(Seen(t), [Request(C.SetLogo(w, logoKey.Some?), OnlyKey(logoKey))], q, now, t.nextId) == Some(Seen(t'))
  {
    SetLogoMakes(t, w, logoKey, u, t');
    OneRequest(Seen(t), Request(C.SetLogo(w, logoKey.Some?), OnlyKey(logoKey)), q, now, t.nextId, Seen(t'));
  }

  lemma DeleteMatches(t: Tables, w: Id, u: Id, now: Time, q: C.Quotas, t': Tables)
    requires Delete(t, w, u, now) == Success(t')
    ensures After(Seen(t), [Request(C.DeleteWorkspace(w), [])], q, now, t.nextId) == Some(Seen(t'))
  {
    DeleteMakes(t, w, u, now, t');
    OneRequest(Seen(t), Request(C.DeleteWorkspace(w), []), q, now, t.nextId, Seen(t'));
  }

  lemma WorkspaceCommandMatches(t: Tables, c: WorkspaceCommand, u: Id, now: Time, q: C.Quotas, t': Tables)
    requires ApplyToWorkspace(t, c, u, now) == Success(t')
    ensures After(Seen(t), WorkspaceRequests(c, u), q, now, t.nextId) == Some(Seen(t'))
  {
    match c
    case CreateWorkspace(name, slug) => CreateMatches(t, name, Address(slug), u, now, q, t');
    case UpdateWorkspace(w, name, slug) => UpdateMatches(t, w, name, Address(slug), u, now, q, t');
    case ReplaceLogo(w, logoKey) => SetLogoMatches(t, w, logoKey, u, now, q, t');
    case DeleteWorkspace(w) => DeleteMatches(t, w, u, now, q, t');
  }

  lemma AssignMatches(t: Tables, w: Id, memberId: Id, roleId: Id, u: Id, now: Time, q: C.Quotas, t': Tables)
    requires SetMemberRole(t, w, memberId, roleId, u) == Success(t')
    ensures After(Seen(t), [Request(C.AssignRole(w, memberId, roleId), [])], q, now, t.nextId) == Some(Seen(t'))
  {
    AssignMakes(t, w, memberId, roleId, u, t');
    OneRequest(Seen(t), Request(C.AssignRole(w, memberId, roleId), []), q, now, t.nextId, Seen(t'));
  }

  lemma RoleCommandMatches(t: Tables, c: RoleCommand, w: Id, u: Id, now: Time, q: C.Quotas, t': Tables)
    requires ApplyToRole(t, c, w, u, now) == Success(t')
    ensures After(Seen(t), RoleRequests(c, w), q, now, t.nextId) == Some(Seen(t'))
  {
    if c.AssignRole? {
      AssignMatches(t, w, c.memberId, c.role, u, now, q, t');
    } else {
      RolesAreUnseen(t, c, w, u, now, t');
    }
  }

  lemma RolesAreUnseen(t: Tables, c: RoleCommand, w: Id, u: Id, now: Time, t': Tables)
    requires !c.AssignRole? && ApplyToRole(t, c, w, u, now) == Success(t')
    ensures Seen(t') == Seen(t)
  {}

  lemma JoiningMatches(t: Tables, token: Token, u: Id, now: Time, later: Time, q: C.Quotas, newId: Id, t': Tables)
    requires Join(t, token, u, now, later) == Success(t')
    ensures After(Seen(t), Joining(t, token, u, now), q, now, newId) == Some(Seen(t'))
    ensures |Joining(t, token, u, now)| == 1
  {
    JoinMakes(t, token, u, now, later, t');
    OneRequest(Seen(t), Joining(t, token, u, now)[0], q, now, newId, Seen(t'));
  }

  lemma RemoveMatches(t: Tables, w: Id, memberId: Id, u: Id, now: Time, q: C.Quotas, t': Tables)
    requires RemoveMember(t, w, memberId, u) == Success(t')
    ensures After(Seen(t), [Request(C.DropMember(w, memberId), [])], q, now, t.nextId) == Some(Seen(t'))
  {
    RemoveMakes(t, w, memberId, u, t');
    OneRequest(Seen(t), Request(C.DropMember(w, memberId), []), q, now, t.nextId, Seen(t'));
  }

  lemma TransferMatches(t: Tables, w: Id, targetId: Id, u: Id, now: Time, q: C.Quotas, t': Tables)
    requires Transfer(t, w, targetId, u) == Success(t')
    ensures After(Seen(t), [Request(C.TransferWorkspace(w, targetId, AdminRoleIn(t, w)), [])], q, now, t.nextId) == Some(Seen(t'))
  {
    TransferMakes(t, w, targetId, u, t');
    OneRequest(Seen(t), Request(C.TransferWorkspace(w, targetId, AdminRoleIn(t, w)), []), q, now, t.nextId, Seen(t'));
  }

  lemma InvitationsAreUnseen(t: Tables, c: MemberCommand, u: Id, now: Time, later: Time, t': Tables)
    requires c.InviteByEmail? || c.RevokeInvite?
    requires ApplyToMember(t, c, u, now, later) == Success(t')
    ensures Seen(t') == Seen(t)
  {}

  lemma MemberCommandMatches(t: Tables, c: MemberCommand, u: Id, now: Time, later: Time, q: C.Quotas, t': Tables)
    requires ApplyToMember(t, c, u, now, later) == Success(t')
    ensures After(Seen(t), MemberRequests(t, c, u, now), q, now, t.nextId) == Some(Seen(t'))
  {
    match c
    case DropMember(w, memberId) => RemoveMatches(t, w, memberId, u, now, q, t');
    case TransferOwnership(w, targetId) => TransferMatches(t, w, targetId, u, now, q, t');
    case AcceptInvite(token) => JoiningMatches(t, token, u, now, later, q, t.nextId, t');
    case InviteByEmail(_, _, _) => InvitationsAreUnseen(t, c, u, now, later, t');
    case RevokeInvite(_, _) => InvitationsAreUnseen(t, c, u, now, later, t');
  }

  lemma OpenMatches(t: Tables, u: Id, email: string, name: string, now: Time, q: C.Quotas, newId: Id)
    ensures After(Seen(t), [Request(C.OpenAccount(u, email, name), [])], q, now, newId)
         == Some(Seen(AddUnlessTaken(t, u, User.New(email, name))))
  {
    var r, b := Request(C.OpenAccount(u, email, name), []), Seen(AddUnlessTaken(t, u, User.New(email, name)));
    assert Makes(Seen(t), C.Work(Seen(t), q, r.op, r.stored, now, newId, {}), b) by {
      OpenMakes(t, u, email, name);
    }
    OneRequest(Seen(t), r, q, now, newId, b);
  }

  lemma RegisteringMatches(t: Tables, u: Id, email: string, name: string, token: Option<Token>, now: Time, later: Time,
                           q: C.Quotas, newId: Id)
    ensures After(Seen(t), Registering(t, u, email, name, token, now, later), q, now, newId)
         == Some(Seen(Register(t, u, email, name, token, now, later)))
  {
    var added := AddUnlessTaken(t, u, User.New(email, name));
    var open := Request(C.OpenAccount(u, email, name), []);
    OpenMatches(t, u, email, name, now, q, newId);
    if token.Some? && Join(added, token.value, u, now, later).Success? {
      var t' := Register(t, u, email, name, token, now, later);
      JoiningMatches(added, token.value, u, now, later, q, newId, t');
      var join := Joining(added, token.value, u, now)[0];
      assert [join] == Joining(added, token.value, u, now) && [open] + [join] == [open, join];
      TwoRequests(Seen(t), open, join, q, now, newId, Seen(added), Seen(t'));
    } else {
      assert [open] + [] == [open];
    }
  }

  lemma RenameMatches(t: Tables, u: Id, name: string, now: Time, q: C.Quotas, t': Tables)
    requires Rename(t, u, name) == Success(t')
    ensures After(Seen(t), [Request(C.RenameAccount(u, name), [])], q, now, t.nextId) == Some(Seen(t'))
  {
    RenameMakes(t, u, name, t');
    OneRequest(Seen(t), Request(C.RenameAccount(u, name), []), q, now, t.nextId, Seen(t'));
  }

  lemma SetAvatarMatches(t: Tables, u: Id, avatarKey: Option<Key>, now: Time, q: C.Quotas, t': Tables)
    requires SetAvatar(t, u, avatarKey) == Success(t')
    ensures After(Seen(t), [Request(C.SetAvatar(u, avatarKey.Some?), OnlyKey(avatarKey))], q, now, t.nextId) == Some(Seen(t'))
  {
    SetAvatarMakes(t, u, avatarKey, t');
    OneRequest(Seen(t), Request(C.SetAvatar(u, avatarKey.Some?), OnlyKey(avatarKey)), q, now, t.nextId, Seen(t'));
  }

  lemma DeleteAccountMatches(t: Tables, u: Id, now: Time, q: C.Quotas, t': Tables)
    requires DeleteAccount(t, u) == Success(t')
    ensures After(Seen(t), [Request(C.CloseAccount(u), [])], q, now, t.nextId) == Some(Seen(t'))
  {
    CloseMakes(t, u);
    OneRequest(Seen(t), Request(C.CloseAccount(u), []), q, now, t.nextId, Seen(t'));
  }

  lemma AccountCommandMatches(t: Tables, c: AccountCommand, u: Id, now: Time, later: Time, q: C.Quotas, t': Tables)
    requires ApplyToAccount(t, c, u, now, later) == Success(t')
    ensures After(Seen(t), AccountRequests(t, c, u, now, later), q, now, t.nextId) == Some(Seen(t'))
  {
    match c
    case RegisterAccount(email, name, token) => RegisteringMatches(t, u, email, name, token, now, later, q, t.nextId);
    case FirstRequest(email) => OpenMatches(t, u, email, "", now, q, t.nextId);
    case RenameProfile(name) => RenameMatches(t, u, name, now, q, t');
    case ReplaceAvatar(avatarKey) => SetAvatarMatches(t, u, avatarKey, now, q, t');
    case CloseAccount => DeleteAccountMatches(t, u, now, q, t');
  }

  /** A command that succeeds does to the rows the catalog shares exactly what its requests do
      there, run alone with the time, the next id and the keys the command had. */
  lemma CommandsAreTransactions(t: Tables, e: Event, q: C.Quotas)
    requires Apply(t, e).Success?
    ensures After(Seen(t), RequestsOf(t, e), q, e.now, t.nextId) == Some(Seen(Step(t, e)))
  {
    var t' := Step(t, e);
    match e.command {
      case OnWorkspace(c, u) => WorkspaceCommandMatches(t, c, u, e.now, q, t');
      case OnRole(c, w, u) => RoleCommandMatches(t, c, w, u, e.now, q, t');
      case OnMember(c, u) => MemberCommandMatches(t, c, u, e.now, e.later, q, t');
      case OnAccount(c, u) => AccountCommandMatches(t, c, u, e.now, e.later, q, t');
      case PurgeWorkspace(w) =>
        PurgeRowsMakes(t, w);
        OneRequest(Seen(t), RequestsOf(t, e)[0], q, e.now, t.nextId, Seen(t'));
    }
  }

  // --- on the machine ---------------------------------------------------------------

  /** The next time, id and key the machine gives out are those of the command. */
  ghost predicate InStep(s: C.State, t: Tables, e: Event) {
    && s.db == Seen(t) && s.clock + 1 == e.now && s.nextId == t.nextId
    && forall r <- RequestsOf(t, e) :: r.stored == [] || r.stored == [s.nextKey]
  }

  /** Requests of no product that store at most one file: one, or an account opening with a
      joining behind it. Those two look neither at the time nor at the new id. */
  ghost predicate Simple(rs: seq<Request>) {
    && |rs| <= 2
    && (forall r <- rs :: C.WorkspaceOf(r.op).None? && !r.op.PurgeBatch? && |r.stored| == C.Uploads(r.op))
    && (|rs| == 2 ==> rs[1].op.JoinWorkspace?)
  }

  lemma MemberRequestsAreSimple(t: Tables, c: MemberCommand, u: Id, now: Time)
    ensures Simple(MemberRequests(t, c, u, now))
  {}

  lemma AccountRequestsAreSimple(t: Tables, c: AccountCommand, u: Id, now: Time, later: Time)
    ensures Simple(AccountRequests(t, c, u, now, later))
  {}

  lemma RequestsAreSimple(t: Tables, e: Event)
    ensures Simple(RequestsOf(t, e))
  {
    match e.command {
      case OnWorkspace(_, _) =>
      case OnRole(_, _, _) =>
      case OnMember(c, u) => MemberRequestsAreSimple(t, c, u, e.now);
      case OnAccount(c, u) => AccountRequestsAreSimple(t, c, u, e.now, e.later);
      case PurgeWorkspace(_) =>
    }
  }

  lemma OneRequestRuns(o: C.State, s: C.State, c: Id, r: Request, q: C.Quotas, now: Time, newId: Id, b: C.DB)
    returns (s': C.State)
    requires CatalogRuns.Leads(o, s, q) && Simple([r]) && c !in s.clients
    requires r.stored == [] || r.stored == [s.nextKey]
    requires r.op.JoinWorkspace? || (now == s.clock + 1 && newId == s.nextId)
    requires After(s.db, [r], q, now, newId) == Some(b)
    ensures CatalogRuns.Leads(o, s', q) && s'.db == b && s'.clients.Keys == s.clients.Keys + {c}
    ensures forall d <- s.clients :: s'.clients[d] == s.clients[d]
  {
    assert r in [r];
    assert C.Work(s.db, q, r.op, r.stored, now, newId, {})
        == C.Work(s.db, q, r.op, r.stored, s.clock + 1, s.nextId, {});
    s' := CatalogRuns.RunsStoring(o, s, c, r.op, r.stored, q);
  }

  lemma SplitRequests(a: C.DB, r: Request, r': Request, q: C.Quotas, now: Time, newId: Id, b: C.DB) returns (m: C.DB)
    requires After(a, [r, r'], q, now, newId) == Some(b)
    ensures After(a, [r], q, now, newId) == Some(m) && After(m, [r'], q, now, newId) == Some(b)
  {
    assert [r, r'][1..] == [r'];
    m := C.Apply(a, C.Work(a, q, r.op, r.stored, now, newId, {}).value.delta);
  }

  lemma RequestsRun(s: C.State, rs: seq<Request>, q: C.Quotas, c: Id, d: Id, b: C.DB) returns (s': C.State)
    requires Simple(rs) && c !in s.clients && d !in s.clients && c != d
    requires forall r <- rs :: r.stored == [] || r.stored == [s.nextKey]
    requires After(s.db, rs, q, s.clock + 1, s.nextId) == Some(b)
    ensures CatalogRuns.Leads(s, s', q) && s'.db == b
    ensures forall o <- s.clients :: o in s'.clients && s'.clients[o] == s.clients[o]
  {
    CatalogRuns.LeadsNowhere(s, q);
    var now, newId := s.clock + 1, s.nextId;
    if rs == [] {
      s' := s;
    } else if |rs| == 1 {
      assert rs == [rs[0]];
      s' := OneRequestRuns(s, s, c, rs[0], q, now, newId, b);
    } else {
      assert rs == [rs[0], rs[1]];
      var m := SplitRequests(s.db, rs[0], rs[1], q, now, newId, b);
      assert Simple([rs[0]]) && Simple([rs[1]]);
      s' := OneRequestRuns(s, s, c, rs[0], q, now, newId, m);
      s' := OneRequestRuns(s, s', d, rs[1], q, now, newId, b);
    }
  }

  /** Wherever the machine shows the tables, whatever other requests are on their way, it has a
      run that does what the command does: its requests arrive one after the other as clients
      `c` and `d`, and nothing comes between. */
  lemma CommandsAreRuns(s: C.State, t: Tables, e: Event, q: C.Quotas, c: Id, d: Id) returns (s': C.State)
    requires Apply(t, e).Success? && InStep(s, t, e) && c !in s.clients && d !in s.clients && c != d
    ensures CatalogRuns.Leads(s, s', q) && s'.db == Seen(Step(t, e))
    ensures forall o <- s.clients :: o in s'.clients && s'.clients[o] == s.clients[o]
  {
    CommandsAreTransactions(t, e, q);
    RequestsAreSimple(t, e);
    s' := RequestsRun(s, RequestsOf(t, e), q, c, d, Seen(Step(t, e)));
  }
}
