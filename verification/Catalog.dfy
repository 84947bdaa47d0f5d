/** Concurrent requests on products and their images, and on workspaces, members and accounts as
    far as they share rows with each other (app/application/products.py, workspaces.py,
    accounts.py, purge.py, app/infrastructure/db/unit_of_work.py).

    A request runs one transaction in up to three attempts, may store files during the first,
    and cleans up files after the last. A transaction reads a snapshot; its commit is validated:
    it fails when a row it wrote or locked was written or locked by a transaction that committed
    since the snapshot. The steps of different requests interleave in any order. */
module Catalog {
  import opened Wrappers
  import opened Access
  import opened Text
  import opened Entities
  import opened ProductRows

  // --- the database -----------------------------------------------------------------

  datatype RowId = WorkspaceRow(w: Id) | AccountRow(u: Id) | MemberRow(w: Id, u: Id) | CatalogRow(p: Id)

  /** The rows requests share: workspaces, accounts, who is a member where, and products. */
  datatype DB = DB(
    workspaces: map<Id, Workspace>,
    accounts: map<Id, User>,
    members: map<(Id, Id), Member>,
    products: map<Id, ProductRow>)

  /** New values of rows; `None` deletes the row. */
  datatype Delta = Delta(
    workspaces: map<Id, Option<Workspace>>,
    accounts: map<Id, Option<User>>,
    members: map<(Id, Id), Option<Member>>,
    products: map<Id, Option<ProductRow>>)

  const NOTHING := Delta(map[], map[], map[], map[])

  function At<K, V>(m: map<K, V>, k: K): Option<V> {
    if k in m then Some(m[k]) else None
  }

  function Patch<K, V>(m: map<K, V>, d: map<K, Option<V>>): map<K, V> {
    map k | k in m.Keys + d.Keys && (k in d ==> d[k].Some?) :: if k in d then d[k].value else m[k]
  }

  lemma PatchNone<K, V>(m: map<K, V>)
    ensures Patch(m, map[]) == m
  {}

  lemma PatchOne<K, V>(m: map<K, V>, k: K, v: V)
    ensures Patch(m, map[k := Some(v)]) == m[k := v]
  {}

  lemma PatchTwo<K, V>(m: map<K, V>, k: K, v: V, l: K, u: V)
    requires k != l
    ensures Patch(m, map[k := Some(v), l := Some(u)]) == m[k := v][l := u]
  {}

  lemma PatchOneAway<K, V>(m: map<K, V>, k: K)
    ensures Patch(m, map[k := None]) == m - {k}
  {}

  lemma PatchAway<K, V>(m: map<K, V>, gone: set<K>)
    ensures Patch(m, map k <- gone :: None) == m - gone
  {}

  function Apply(db: DB, d: Delta): DB {
    DB(Patch(db.workspaces, d.workspaces), Patch(db.accounts, d.accounts), Patch(db.members, d.members),
       Patch(db.products, d.products))
  }

  predicate Writes(d: Delta, r: RowId) {
    match r
    case WorkspaceRow(w) => w in d.workspaces
    case AccountRow(u) => u in d.accounts
    case MemberRow(w, u) => (w, u) in d.members
    case CatalogRow(p) => p in d.products
  }

  predicate SameRow(a: DB, b: DB, r: RowId) {
    match r
    case WorkspaceRow(w) => At(a.workspaces, w) == At(b.workspaces, w)
    case AccountRow(u) => At(a.accounts, u) == At(b.accounts, u)
    case MemberRow(w, u) => At(a.members, (w, u)) == At(b.members, (w, u))
    case CatalogRow(p) => At(a.products, p) == At(b.products, p)
  }

  function KeySet(keys: seq<Key>): set<Key> {
    set k | k in keys
  }

  /** The stored objects a row points at: a logo, an avatar, or a product's images. */
  function RowKeys(db: DB, r: RowId): set<Key> {
    match r
    case WorkspaceRow(w) => if w in db.workspaces then Maybe(db.workspaces[w].logoKey) else {}
    case AccountRow(u) => if u in db.accounts then Maybe(db.accounts[u].avatarKey) else {}
    case MemberRow(_, _) => {}
    case CatalogRow(p) => if p in db.products then StorageKeys(db.products[p].images) else {}
  }

  predicate Live(db: DB, w: Id) {
    w in db.workspaces && db.workspaces[w].Live()
  }

  function ProductsIn(db: DB, w: Id): set<Id> {
    ProductsOf(db.products, w)
  }

  function ImageBytes(images: seq<ProductImage>): nat {
    if images == [] then 0 else ImageBytes(images[..|images| - 1]) + images[|images| - 1].sizeBytes
  }

  ghost function BytesOf(products: map<Id, ProductRow>, ids: set<Id>): nat
    requires ids <= products.Keys
  {
    if ids == {} then 0
    else
      var p :| p in ids;
      ImageBytes(products[p].images) + BytesOf(products, ids - {p})
  }

  /** `products.storage_bytes`. */
  ghost function StorageBytes(db: DB, w: Id): nat {
    BytesOf(db.products, ProductsIn(db, w))
  }

  // --- what a request's transaction does --------------------------------------------

  datatype Quotas = Quotas(maxProducts: nat, maxStorageBytes: nat)

  const ATTEMPTS := 3

  datatype Op =
    | CreateProduct(w: Id, name: string, sku: Option<string>, price: int, status: ProductStatus,
                    description: Option<string>)
    | UpdateProduct(w: Id, p: Id, changes: seq<Change>, ifMatch: Option<Time>)
    | DeleteProduct(w: Id, p: Id)
    | ConfirmImage(w: Id, p: Id, uploadKey: Id, sizeBytes: nat)
    | RemoveImage(w: Id, p: Id, imageId: Id)
    | ReorderImages(w: Id, p: Id, imageIds: seq<Id>)
    | PurgeBatch(w: Id)
    | PurgeRows(w: Id)
    | SetLogo(w: Id, upload: bool)
    | DeleteWorkspace(w: Id)
    | RenameWorkspace(w: Id, newName: string, slug: Slug)
    | FoundWorkspace(founder: Id, newName: string, slug: Slug)
    | JoinWorkspace(w: Id, u: Id, roleId: Id)
    | AssignRole(w: Id, u: Id, roleId: Id)
    | DropMember(w: Id, u: Id)
    | TransferWorkspace(w: Id, target: Id, adminRole: Id)
    | OpenAccount(u: Id, email: string, displayName: string)
    | RenameAccount(u: Id, displayName: string)
    | SetAvatar(u: Id, upload: bool)
    | CloseAccount(u: Id)

  datatype Answer =
    | Plain
    | Image(image: ProductImage)
    | Error(error: ProductError)
    | ConcurrencyConflict
    | Broken

  /** What follows the deletion of files. */
  datatype Next = Reply(answer: Answer) | Continue(op: Op) | LookUp

  /** A transaction that reached its commit: the rows it wrote or locked, their new values, the
      objects they no longer point at, and a versioned edit it made. */
  datatype Effect = Effect(
    conflicts: set<RowId>,
    delta: Delta,
    released: set<Key>,
    edit: Option<(Id, Time)>,
    next: Next)

  /** `workspaces.lock`: a missing or deleted workspace locks nothing. */
  function LockOf(db: DB, w: Id): set<RowId> {
    if Live(db, w) then {WorkspaceRow(w)} else {}
  }

  function FoundProduct(db: DB, w: Id, p: Id): Result<ProductRow, ProductError> {
    if p in db.products && db.products[p].workspaceId == w then Success(db.products[p]) else Failure(ProductNotFound)
  }

  function OnProduct(p: Id, row: Option<ProductRow>): Delta {
    NOTHING.(products := map[p := row])
  }

  function OnWorkspace(w: Id, row: Option<Workspace>): Delta {
    NOTHING.(workspaces := map[w := row])
  }

  function OnAccount(u: Id, row: Option<User>): Delta {
    NOTHING.(accounts := map[u := row])
  }

  type Outcome = Result<Effect, ProductError>

  /** Writing a row back unchanged writes nothing, but these use cases lock the workspace. */
  function WorkspaceWritten(db: DB, w: Id, row: Workspace, released: set<Key>): Effect {
    if At(db.workspaces, w) == Some(row) then Effect({WorkspaceRow(w)}, NOTHING, {}, None, Reply(Plain))
    else Effect({WorkspaceRow(w)}, OnWorkspace(w, Some(row)), released, None, Reply(Plain))
  }

  /** Accounts are not locked: one written back unchanged leaves no trace. */
  function AccountWritten(db: DB, u: Id, row: User, released: set<Key>): Effect {
    if At(db.accounts, u) == Some(row) then Effect({}, NOTHING, {}, None, Reply(Plain))
    else Effect({AccountRow(u)}, OnAccount(u, Some(row)), released, None, Reply(Plain))
  }

  /** The effect `e`, with account `u` written as well when that changes its row. */
  function AndAccount(db: DB, e: Effect, u: Id, row: User): Effect {
    if At(db.accounts, u) == Some(row) then e
    else e.(conflicts := e.conflicts + {AccountRow(u)}, delta := e.delta.(accounts := e.delta.accounts[u := Some(row)]))
  }

  function Deleted(gone: set<(Id, Id)>): map<(Id, Id), Option<Member>> {
    map m <- gone :: None
  }

  function MemberRows(which: set<(Id, Id)>): set<RowId> {
    set m <- which :: MemberRow(m.0, m.1)
  }

  /** The memberships in a workspace. */
  function MembersIn(db: DB, w: Id): set<(Id, Id)> {
    set m <- db.members | m.0 == w
  }

  /** The memberships of an account. */
  function MembershipsOf(db: DB, u: Id): set<(Id, Id)> {
    set m <- db.members | m.1 == u
  }

  /** Of the people losing the memberships `gone`, those past onboarding who keep no other. */
  function Homeless(db: DB, gone: set<(Id, Id)>): set<Id> {
    set m <- gone | m.1 in db.accounts && db.accounts[m.1].status == Completed && MembershipsOf(db, m.1) <= gone :: m.1
  }

  ghost predicate OwnsLive(db: DB, u: Id) {
    exists w :: Live(db, w) && db.workspaces[w].ownerId == u
  }

  ghost function WorkCreate(db: DB, q: Quotas, op: Op, now: Time, newId: Id): Outcome
    requires op.CreateProduct?
  {
    var row := ProductRow(op.w, op.name, op.sku, op.price, op.status, op.description, now, now, []);
    if |ProductsIn(db, op.w)| >= q.maxProducts then Failure(ProductQuotaReached)
    else if InvariantError(row).Some? then Failure(InvariantError(row).value)
    else Success(Effect(LockOf(db, op.w) + {CatalogRow(newId)}, OnProduct(newId, Some(row)), {}, None, Reply(Plain)))
  }

  ghost function WorkUpdate(db: DB, op: Op, now: Time): Outcome
    requires op.UpdateProduct?
  {
    var row :- FoundProduct(db, op.w, op.p);
    if op.ifMatch.Some? && op.ifMatch.value != row.updatedAt then Failure(ModifiedSinceLoaded)
    else
      var row' :- Updated(row, op.changes, now);
      Success(Effect({CatalogRow(op.p)}, if row' == row then NOTHING else OnProduct(op.p, Some(row')), {},
                     if op.ifMatch.Some? && row' != row then Some((op.p, op.ifMatch.value)) else None, Reply(Plain)))
  }

  ghost function WorkDelete(db: DB, op: Op): Outcome
    requires op.DeleteProduct?
  {
    var row :- FoundProduct(db, op.w, op.p);
    Success(Effect({CatalogRow(op.p)}, OnProduct(op.p, None), StorageKeys(row.images), None, Reply(Plain)))
  }

  /** `_attach`; the database refuses a second image with the same upload key. */
  ghost function WorkConfirm(db: DB, q: Quotas, op: Op, stored: seq<Key>, newId: Id): Outcome
    requires op.ConfirmImage? && |stored| == 2
  {
    var row :- FoundProduct(db, op.w, op.p);
    var image := ProductImage(newId, stored[0], Some(stored[1]), Some(op.uploadKey), op.sizeBytes, |row.images|);
    if |row.images| >= MAX_IMAGES_PER_PRODUCT then Failure(TooManyImages)
    else if StorageBytes(db, op.w) + op.sizeBytes > q.maxStorageBytes then Failure(StorageQuotaReached)
    else
      var row' :- WithImage(row, image);
      if HasUpload(row.images, op.uploadKey) then Failure(DuplicateUpload)
      else Success(Effect(LockOf(db, op.w) + {CatalogRow(op.p)}, OnProduct(op.p, Some(row')), {}, None,
                          Reply(Image(image))))
  }

  ghost function WorkRemove(db: DB, op: Op): Outcome
    requires op.RemoveImage?
  {
    var row :- FoundProduct(db, op.w, op.p);
    var row' :- WithoutImage(row, op.imageId);
    Success(Effect({CatalogRow(op.p)}, OnProduct(op.p, Some(row')),
                   row.images[IndexOf(row.images, op.imageId)].StorageKeys(), None, Reply(Plain)))
  }

  ghost function WorkReorder(db: DB, op: Op): Outcome
    requires op.ReorderImages?
  {
    var row :- FoundProduct(db, op.w, op.p);
    var row' :- Reordered(row, op.imageIds);
    Success(Effect({CatalogRow(op.p)}, OnProduct(op.p, Some(row')), {}, None, Reply(Plain)))
  }

  /** `delete_batch` with the products the database happened to return. */
  ghost function WorkPurgeBatch(db: DB, op: Op, batch: set<Id>): Outcome
    requires op.PurgeBatch?
  {
    Success(Effect(set p <- batch :: CatalogRow(p),
                   NOTHING.(products := map p <- batch :: None),
                   set p, k | p in batch && k in RowKeys(db, CatalogRow(p)) :: k,
                   None,
                   Continue(if |batch| < PRODUCT_BATCH then PurgeRows(op.w) else op)))
  }

  ghost function WorkPurgeRows(db: DB, op: Op): Outcome
    requires op.PurgeRows?
  {
    if op.w !in db.workspaces || db.workspaces[op.w].Live() then Success(Effect({}, NOTHING, {}, None, Reply(Plain)))
    else
      var members := MembersIn(db, op.w);
      Success(Effect({WorkspaceRow(op.w)} + MemberRows(members),
                     OnWorkspace(op.w, None).(members := Deleted(members)),
                     Maybe(db.workspaces[op.w].logoKey), None, Reply(Plain)))
  }

  // --- workspaces, members and accounts ---------------------------------------------

  ghost function WorkSetLogo(db: DB, op: Op, stored: seq<Key>): Outcome
    requires op.SetLogo?
  {
    if !Live(db, op.w) then Failure(NoSuchWorkspace)
    else
      var key := if stored == [] then None else Some(stored[0]);
      Success(WorkspaceWritten(db, op.w, db.workspaces[op.w].(logoKey := key), Maybe(db.workspaces[op.w].logoKey)))
  }

  /** The members of a deleted workspace leave it; its row stays until the purge. */
  ghost function WorkDeleteWorkspace(db: DB, op: Op, now: Time, newId: Id): Outcome
    requires op.DeleteWorkspace?
  {
    if !Live(db, op.w) then Failure(NoSuchWorkspace)
    else
      var row := db.workspaces[op.w].(deletedAt := Some(now), slug := Tombstone(newId));
      var gone := MembersIn(db, op.w);
      var homeless := Homeless(db, gone);
      Success(Effect({WorkspaceRow(op.w)} + MemberRows(gone) + (set u <- homeless :: AccountRow(u)),
                     Delta(map[op.w := Some(row)],
                           map u <- homeless :: Some(db.accounts[u].LeftEveryWorkspace()),
                           Deleted(gone), map[]),
                     {}, None, Reply(Plain)))
  }

  ghost function WorkRenameWorkspace(db: DB, op: Op): Outcome
    requires op.RenameWorkspace?
  {
    if !Live(db, op.w) then Failure(NoSuchWorkspace)
    else Success(WorkspaceWritten(db, op.w, db.workspaces[op.w].(name := Strip(op.newName), slug := op.slug), {}))
  }

  /** The founder becomes the first member, under the new workspace's first role. Their row is
      written only when founding completes their onboarding. */
  ghost function WorkFound(db: DB, op: Op, newId: Id): Outcome
    requires op.FoundWorkspace?
  {
    if op.founder !in db.accounts then Failure(NoSuchAccount)
    else if db.accounts[op.founder].status == ProfilePending then Failure(ProfileUnfinished)
    else if Strip(op.newName) == [] then Failure(NameMissing)
    else
      var founded := OnWorkspace(newId, Some(Workspace(Strip(op.newName), op.slug, op.founder, None, None)))
                       .(members := map[(newId, op.founder) := Some(Member(newId + 1))]);
      var e := Effect({WorkspaceRow(newId), MemberRow(newId, op.founder)}, founded, {}, None, Reply(Plain));
      Success(AndAccount(db, e, op.founder, db.accounts[op.founder].CreatedAWorkspace()))
  }

  /** Accepting an invitation locks the workspace; the account's row is written only when
      joining completes its onboarding. */
  ghost function WorkJoin(db: DB, op: Op): Outcome
    requires op.JoinWorkspace?
  {
    if op.u !in db.accounts then Failure(NoSuchAccount)
    else if !Live(db, op.w) then Failure(NoSuchWorkspace)
    else if (op.w, op.u) in db.members then Failure(MemberAlready)
    else
      var e := Effect({WorkspaceRow(op.w), MemberRow(op.w, op.u)},
                      NOTHING.(members := map[(op.w, op.u) := Some(Member(op.roleId))]), {}, None, Reply(Plain));
      Success(AndAccount(db, e, op.u, db.accounts[op.u].JoinedAWorkspace()))
  }

  ghost function WorkAssign(db: DB, op: Op): Outcome
    requires op.AssignRole?
  {
    if !Live(db, op.w) then Failure(NoSuchWorkspace)
    else if op.u == db.workspaces[op.w].ownerId then Failure(OwnerStays)
    else if (op.w, op.u) !in db.members then Failure(NoSuchMember)
    else if db.members[(op.w, op.u)] == Member(op.roleId) then
      Success(Effect({WorkspaceRow(op.w)}, NOTHING, {}, None, Reply(Plain)))
    else
      Success(Effect({WorkspaceRow(op.w), MemberRow(op.w, op.u)},
                     NOTHING.(members := map[(op.w, op.u) := Some(Member(op.roleId))]), {}, None, Reply(Plain)))
  }

  ghost function WorkDrop(db: DB, op: Op): Outcome
    requires op.DropMember?
  {
    if !Live(db, op.w) then Failure(NoSuchWorkspace)
    else if op.u == db.workspaces[op.w].ownerId then Failure(OwnerStays)
    else if (op.w, op.u) !in db.members then Failure(NoSuchMember)
    else
      var e := Effect({WorkspaceRow(op.w), MemberRow(op.w, op.u)},
                      NOTHING.(members := map[(op.w, op.u) := None]), {}, None, Reply(Plain));
      if op.u in Homeless(db, {(op.w, op.u)}) then
        Success(AndAccount(db, e, op.u, db.accounts[op.u].LeftEveryWorkspace()))
      else Success(e)
  }

  /** The target takes the owner's role, the owner the admin role. Both member rows change,
      because nobody else holds the owner's role (`WorkspaceTheorems.SingleOwnerAlways`). */
  ghost function WorkTransfer(db: DB, op: Op): Outcome
    requires op.TransferWorkspace?
  {
    if !Live(db, op.w) then Failure(NoSuchWorkspace)
    else
      var owner := db.workspaces[op.w].ownerId;
      if op.target == owner || (op.w, op.target) !in db.members || (op.w, owner) !in db.members then Failure(NoSuchMember)
      else
        Success(Effect({WorkspaceRow(op.w), MemberRow(op.w, op.target), MemberRow(op.w, owner)},
                       OnWorkspace(op.w, Some(db.workspaces[op.w].(ownerId := op.target)))
                         .(members := map[(op.w, op.target) := Some(db.members[(op.w, owner)]),
                                          (op.w, owner) := Some(Member(op.adminRole))]),
                       {}, None, Reply(Plain)))
  }

  /** An id or an address that is taken adds nothing. */
  ghost function WorkOpen(db: DB, op: Op): Outcome
    requires op.OpenAccount?
  {
    var user := User.New(op.email, op.displayName);
    if op.u in db.accounts || EmailTaken(db, user.email) then Success(Effect({}, NOTHING, {}, None, Reply(Plain)))
    else Success(Effect({AccountRow(op.u)}, OnAccount(op.u, Some(user)), {}, None, Reply(Plain)))
  }

  predicate EmailTaken(db: DB, email: string) {
    exists u <- db.accounts :: db.accounts[u].email == email
  }

  ghost function WorkRenameAccount(db: DB, op: Op): Outcome
    requires op.RenameAccount?
  {
    if op.u !in db.accounts then Failure(NoSuchAccount)
    else Success(AccountWritten(db, op.u, db.accounts[op.u].Rename(op.displayName, MembershipsOf(db, op.u) != {}), {}))
  }

  ghost function WorkSetAvatar(db: DB, op: Op, stored: seq<Key>): Outcome
    requires op.SetAvatar?
  {
    if op.u !in db.accounts then Failure(NoSuchAccount)
    else
      var key := if stored == [] then None else Some(stored[0]);
      Success(AccountWritten(db, op.u, db.accounts[op.u].(avatarKey := key), Maybe(db.accounts[op.u].avatarKey)))
  }

  /** The last transaction of an account deletion: its memberships go with it. */
  ghost function WorkClose(db: DB, op: Op): Outcome
    requires op.CloseAccount?
  {
    if op.u !in db.accounts then Failure(NoSuchAccount)
    else if OwnsLive(db, op.u) then Failure(OwnsWorkspaces)
    else
      var gone := MembershipsOf(db, op.u);
      Success(Effect({AccountRow(op.u)} + MemberRows(gone), OnAccount(op.u, None).(members := Deleted(gone)),
                     Maybe(db.accounts[op.u].avatarKey), None, Reply(Plain)))
  }

  /** How many objects an operation stores before its transaction. */
  function Uploads(op: Op): nat {
    match op
    case ConfirmImage(_, _, _, _) => 2
    case SetLogo(_, upload) => if upload then 1 else 0
    case SetAvatar(_, upload) => if upload then 1 else 0
    case _ => 0
  }

  /** The transaction of an operation, run on the snapshot `db`. */
  ghost function Work(db: DB, q: Quotas, op: Op, stored: seq<Key>, now: Time, newId: Id, batch: set<Id>): Outcome
    requires |stored| == Uploads(op)
  {
    match op
    case CreateProduct(_, _, _, _, _, _) => WorkCreate(db, q, op, now, newId)
    case UpdateProduct(_, _, _, _) => WorkUpdate(db, op, now)
    case DeleteProduct(_, _) => WorkDelete(db, op)
    case ConfirmImage(_, _, _, _) => WorkConfirm(db, q, op, stored, newId)
    case RemoveImage(_, _, _) => WorkRemove(db, op)
    case ReorderImages(_, _, _) => WorkReorder(db, op)
    case PurgeBatch(_) => WorkPurgeBatch(db, op, batch)
    case PurgeRows(_) => WorkPurgeRows(db, op)
    case SetLogo(_, _) => WorkSetLogo(db, op, stored)
    case DeleteWorkspace(_) => WorkDeleteWorkspace(db, op, now, newId)
    case RenameWorkspace(_, _, _) => WorkRenameWorkspace(db, op)
    case FoundWorkspace(_, _, _) => WorkFound(db, op, newId)
    case JoinWorkspace(_, _, _) => WorkJoin(db, op)
    case AssignRole(_, _, _) => WorkAssign(db, op)
    case DropMember(_, _) => WorkDrop(db, op)
    case TransferWorkspace(_, _, _) => WorkTransfer(db, op)
    case OpenAccount(_, _, _) => WorkOpen(db, op)
    case RenameAccount(_, _) => WorkRenameAccount(db, op)
    case SetAvatar(_, _) => WorkSetAvatar(db, op, stored)
    case CloseAccount(_) => WorkClose(db, op)
  }

  // --- requests and their steps -----------------------------------------------------

  /** A request between its attempts, in one of them, past the last, or answered. */
  datatype Client =
    | Ready(op: Op, stored: seq<Key>, attempt: nat)
    | Running(op: Op, stored: seq<Key>, attempt: nat, base: DB, at: nat, now: Time, newId: Id, batch: set<Id>)
    | Cleaning(op: Op, doomed: set<Key>, next: Next)
    | Done(op: Op, answer: Answer)

  /** One committed transaction: the rows it wrote or locked, and a versioned edit it made. */
  datatype Entry = Entry(conflicts: set<RowId>, edit: Option<(Id, Time)>)

  datatype State = State(
    db: DB,
    bucket: set<Key>,
    log: seq<Entry>,
    clients: map<Id, Client>,
    born: set<Id>,  // every workspace that was ever committed
    clock: Time,
    nextId: Id,
    nextKey: Key)

  const START := State(DB(map[], map[], map[], map[]), {}, [], map[], {}, 0, 0, 0)

  ghost predicate Conflicted(log: seq<Entry>, at: nat, r: RowId) {
    exists i :: at <= i < |log| && r in log[i].conflicts
  }

  /** The commit-time validation: no row of `conflicts` was written or locked since `at`. */
  ghost predicate Valid(log: seq<Entry>, at: nat, conflicts: set<RowId>) {
    forall r <- conflicts :: !Conflicted(log, at, r)
  }

  /** The workspace of a product request. */
  function WorkspaceOf(op: Op): Option<Id> {
    match op
    case CreateProduct(w, _, _, _, _, _) => Some(w)
    case UpdateProduct(w, _, _, _) => Some(w)
    case DeleteProduct(w, _) => Some(w)
    case ConfirmImage(w, _, _, _) => Some(w)
    case RemoveImage(w, _, _) => Some(w)
    case ReorderImages(w, _, _) => Some(w)
    case _ => None
  }

  /** The products a purge batch found: as many as there are, up to the batch size. */
  ghost predicate BatchFound(db: DB, w: Id, batch: set<Id>) {
    batch <= ProductsIn(db, w) && |batch| == if |ProductsIn(db, w)| < PRODUCT_BATCH then |ProductsIn(db, w)| else PRODUCT_BATCH
  }

  /** Client `c` opens a transaction: everything it reads comes from the database as it is now. */
  ghost predicate Opens(s: State, s': State, c: Id, op: Op, stored: seq<Key>, attempt: nat, batch: set<Id>) {
    && (op.PurgeBatch? ==> BatchFound(s.db, op.w, batch))
    && s' == s.(clock := s.clock + 1, nextId := s.nextId + 1,
             clients := s.clients[c := Running(op, stored, attempt, s.db, |s.log|, s.clock + 1, s.nextId, batch)])
  }

  /** A request arrives. Its first read, which opens the transaction of its first attempt, is the
      route's: a product request is let in when its workspace is live. */
  ghost predicate Arrives(s: State, s': State, c: Id, op: Op, batch: set<Id>) {
    && c !in s.clients
    && (WorkspaceOf(op).Some? ==> Live(s.db, WorkspaceOf(op).value))
    && Opens(s, s', c, op, [], 0, batch)
  }

  ghost predicate IsChecking(s: State, c: Id) {
    c in s.clients && s.clients[c].Running? && s.clients[c].attempt == 0 && s.clients[c].stored == []
  }

  /** The checks before any change: they only read, and may answer at once. */
  ghost predicate Answers(s: State, s': State, c: Id, answer: Answer) {
    && IsChecking(s, c)
    && var x := s.clients[c];
       && (answer.Image? ==> x.op.ConfirmImage? && HasWinner(x.base, x.op, answer.image))
       && s' == s.(clients := s.clients[c := Done(x.op, answer)])
  }

  /** Files are stored under new keys, all of them or none, while the first transaction is open. */
  ghost predicate Stores(s: State, s': State, c: Id) {
    && IsChecking(s, c)
    && var x := s.clients[c];
       var n := Uploads(x.op);
       var stored := seq(n, i requires 0 <= i < n => s.nextKey + i);
       s' == s.(bucket := s.bucket + KeySet(stored), nextKey := s.nextKey + n,
             clients := s.clients[c := Running(x.op, stored, 0, x.base, x.at, x.now, x.newId, x.batch)])
  }

  /** A later attempt, or a purge going on, opens a transaction of its own. */
  ghost predicate Begins(s: State, s': State, c: Id, batch: set<Id>) {
    && c in s.clients && s.clients[c].Ready?
    && Opens(s, s', c, s.clients[c].op, s.clients[c].stored, s.clients[c].attempt, batch)
  }

  ghost function WorkOf(q: Quotas, x: Client): Outcome
    requires x.Running? && |x.stored| == Uploads(x.op)
  {
    Work(x.base, q, x.op, x.stored, x.now, x.newId, x.batch)
  }

  ghost predicate IsRunning(s: State, c: Id) {
    c in s.clients && s.clients[c].Running? && |s.clients[c].stored| == Uploads(s.clients[c].op)
  }

  ghost predicate Commits(s: State, s': State, q: Quotas, c: Id) {
    && IsRunning(s, c)
    && var x := s.clients[c];
       && WorkOf(q, x).Success?
       && var e := WorkOf(q, x).value;
          && Valid(s.log, x.at, e.conflicts)
          && s' == s.(db := Apply(s.db, e.delta),
                   log := s.log + [Entry(e.conflicts, e.edit)],
                   born := s.born + Apply(s.db, e.delta).workspaces.Keys,
                   clients := s.clients[c := Cleaning(x.op, e.released, e.next)])
  }

  /** A lost race: the work reruns from the top, or the request gives up and undoes its files. */
  ghost predicate Loses(s: State, s': State, q: Quotas, c: Id) {
    && IsRunning(s, c)
    && var x := s.clients[c];
       && WorkOf(q, x).Success?
       && !Valid(s.log, x.at, WorkOf(q, x).value.conflicts)
       && s' == s.(clients := s.clients[c :=
                   if x.attempt + 1 < ATTEMPTS then Ready(x.op, x.stored, x.attempt + 1)
                   else Cleaning(x.op, KeySet(x.stored), Reply(ConcurrencyConflict))])
  }

  /** The work raised: no row changes, and the files stored for it go. After a duplicate upload
      key the client then looks for the image that has it. */
  ghost predicate Refuses(s: State, s': State, q: Quotas, c: Id) {
    && IsRunning(s, c)
    && var x := s.clients[c];
       && WorkOf(q, x).Failure?
       && var error := WorkOf(q, x).error;
          s' == s.(clients := s.clients[c :=
                Cleaning(x.op, KeySet(x.stored), if error == DuplicateUpload then LookUp else Reply(Error(error)))])
  }

  /** Any other failure of the transaction, such as a permission check or a lost database. A
      confirm may also learn from its commit that its upload key is taken. */
  ghost predicate Breaks(s: State, s': State, c: Id, next: Next) {
    && IsRunning(s, c)
    && (next == Reply(Broken) || (next == LookUp && s.clients[c].op.ConfirmImage?))
    && s' == s.(clients := s.clients[c := Cleaning(s.clients[c].op, KeySet(s.clients[c].stored), next)])
  }

  ghost predicate DeletesFile(s: State, s': State, c: Id, key: Key) {
    && c in s.clients && s.clients[c].Cleaning? && key in s.clients[c].doomed
    && s' == s.(bucket := s.bucket - {key},
             clients := s.clients[c := s.clients[c].(doomed := s.clients[c].doomed - {key})])
  }

  /** `image` is an image of the product with the confirmed upload key. */
  predicate HasWinner(db: DB, op: Op, image: ProductImage)
    requires op.ConfirmImage?
  {
    op.p in db.products && image in db.products[op.p].images && image.uploadKey == Some(op.uploadKey)
  }

  ghost predicate Finishes(s: State, s': State, c: Id) {
    && c in s.clients && s.clients[c].Cleaning? && s.clients[c].doomed == {}
    && var x := s.clients[c];
       match x.next
       case Reply(answer) => s' == s.(clients := s.clients[c := Done(x.op, answer)])
       case Continue(op) => s' == s.(clients := s.clients[c := Ready(op, [], 0)])
       case LookUp =>
         && x.op.ConfirmImage?
         && if image :| HasWinner(s.db, x.op, image)
            then exists winner :: HasWinner(s.db, x.op, winner)
                               && s' == s.(clients := s.clients[c := Done(x.op, Image(winner))])
            else s' == s.(clients := s.clients[c := Done(x.op, Error(DuplicateUpload))])
  }

  ghost predicate Steps(s: State, s': State, q: Quotas) {
    || (exists c, op, batch :: Arrives(s, s', c, op, batch))
    || (exists c, answer :: Answers(s, s', c, answer))
    || (exists c :: Stores(s, s', c))
    || (exists c, batch :: Begins(s, s', c, batch))
    || (exists c :: Commits(s, s', q, c))
    || (exists c :: Loses(s, s', q, c))
    || (exists c :: Refuses(s, s', q, c))
    || (exists c, next :: Breaks(s, s', c, next))
    || (exists c, key :: DeletesFile(s, s', c, key))
    || (exists c :: Finishes(s, s', c))
  }

  /** A run of the system: from nothing, one step after another, in any interleaving. */
  ghost predicate IsRun(states: seq<State>, q: Quotas) {
    && states != [] && states[0] == START
    && forall i | 0 <= i < |states| - 1 :: Steps(states[i], states[i + 1], q)
  }
}
