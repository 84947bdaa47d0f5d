/** What every transaction of the catalog does to the database it read, one lemma for each
    use case: it locks what it writes, moves storage keys without losing or sharing one, keeps
    each product well formed, and stays within the quotas. */
module CatalogEffects {
  import opened Wrappers
  import opened Text
  import opened Entities
  import opened ProductRows
  import opened Catalog
  import opened CatalogBytes

  // --- what holds of a snapshot -----------------------------------------------------

  ghost predicate ProductFits(row: ProductRow, p: Id, now: Time, newId: Id) {
    && p < newId
    && ImagesOk(row.images)
    && row.updatedAt < now
    && forall i | 0 <= i < |row.images| :: row.images[i].id < newId
  }

  ghost predicate Distinct(stored: seq<Key>) {
    forall i, j | 0 <= i < j < |stored| :: stored[i] != stored[j]
  }

  /** Ids and times are below the new ones, and no row points at the files just stored. */
  ghost predicate Snapshot(a: DB, stored: seq<Key>, now: Time, newId: Id) {
    && (forall p <- a.products :: ProductFits(a.products[p], p, now, newId))
    && (forall w <- a.workspaces :: w < newId)
    && (forall r :: RowKeys(a, r) !! KeySet(stored))
    && Distinct(stored)
  }

  // --- what a transaction owes ------------------------------------------------------

  ghost predicate Guarded(e: Effect) {
    forall r :: Writes(e.delta, r) ==> r in e.conflicts
  }

  /** A written row keeps its keys, takes stored ones, or gives some up as released. */
  ghost predicate Flows(a: DB, b: DB, released: set<Key>, stored: set<Key>, r: RowId) {
    && RowKeys(b, r) <= RowKeys(a, r) + stored
    && RowKeys(a, r) <= RowKeys(b, r) + released
    && RowKeys(b, r) !! released
  }

  ghost predicate Lands(b: DB, d: Delta, stored: set<Key>, r: RowId) {
    && Writes(d, r)
    && stored <= RowKeys(b, r)
    && forall o :: Writes(d, o) ==> o == r
  }

  ghost predicate KeysMove(a: DB, b: DB, d: Delta, released: set<Key>, stored: set<Key>) {
    && (forall r :: Writes(d, r) ==> Flows(a, b, released, stored, r))
    && (forall k <- released :: exists r :: Writes(d, r) && k in RowKeys(a, r))
    && (stored == {} || exists r :: Lands(b, d, stored, r))
  }

  ghost predicate RowMoves(before: Option<ProductRow>, p: Id, row: ProductRow, op: Op, now: Time, newId: Id) {
    && ImagesOk(row.images)
    && (forall i | 0 <= i < |row.images| :: row.images[i].id <= newId)
    && row.updatedAt <= now
    && match before
       case Some(prior) => prior.workspaceId == row.workspaceId && prior.updatedAt <= row.updatedAt
       case None => p == newId && WorkspaceOf(op) == Some(row.workspaceId)
  }

  ghost predicate ProductsMove(a: DB, d: Delta, op: Op, now: Time, newId: Id) {
    forall p <- d.products ::
      d.products[p].Some? ==> RowMoves(At(a.products, p), p, d.products[p].value, op, now, newId)
  }

  ghost predicate WorkspacesMove(a: DB, d: Delta, newId: Id) {
    forall w <- d.workspaces ::
      d.workspaces[w].Some? ==>
        || w == newId
        || (w in a.workspaces && (d.workspaces[w].value.Live() ==> Live(a, w)))
  }

  ghost predicate Shrinks(a: DB, d: Delta) {
    forall p <- d.products ::
      d.products[p].Some? ==>
        p in a.products && ImageBytes(d.products[p].value.images) <= ImageBytes(a.products[p].images)
  }

  /** One product added or grown, within the quotas as the snapshot shows them, under the lock
      of its workspace. */
  ghost predicate Grows(a: DB, e: Effect, q: Quotas, op: Op, p: Id, row: ProductRow) {
    && e.delta == OnProduct(p, Some(row))
    && WorkspaceOf(op) == Some(row.workspaceId)
    && LockOf(a, row.workspaceId) <= e.conflicts
    && (if p in a.products then
          && a.products[p].workspaceId == row.workspaceId
          && StorageBytes(a, row.workspaceId) + ImageBytes(row.images) <= q.maxStorageBytes + ImageBytes(a.products[p].images)
        else
          |ProductsIn(a, row.workspaceId)| < q.maxProducts && row.images == [])
  }

  ghost predicate WithinQuotas(a: DB, e: Effect, q: Quotas, op: Op) {
    Shrinks(a, e.delta) || exists p, row :: Grows(a, e, q, op, p, row)
  }

  ghost predicate EditMade(a: DB, e: Effect, now: Time) {
    e.edit.Some? ==>
      var (p, version) := e.edit.value;
      && p in a.products && a.products[p].updatedAt == version && version < now
      && CatalogRow(p) in e.conflicts
      && p in e.delta.products && e.delta.products[p].Some? && e.delta.products[p].value.updatedAt == now
  }

  ghost predicate NextFits(op: Op, next: Next) {
    match next
    case Reply(answer) => AnswerFits(op, answer)
    case Continue(op') => WorkspaceOf(op').None? && Uploads(op') == 0
    case LookUp => op.ConfirmImage?
  }

  /** Only a confirm answers with an image, and then one of its own upload. */
  ghost predicate AnswerFits(op: Op, answer: Answer) {
    answer.Image? ==> op.ConfirmImage? && answer.image.uploadKey == Some(op.uploadKey)
  }

  ghost predicate Owed(a: DB, e: Effect, q: Quotas, op: Op, stored: seq<Key>, now: Time, newId: Id) {
    && Guarded(e)
    && KeysMove(a, Apply(a, e.delta), e.delta, e.released, KeySet(stored))
    && ProductsMove(a, e.delta, op, now, newId)
    && WorkspacesMove(a, e.delta, newId)
    && WithinQuotas(a, e, q, op)
    && EditMade(a, e, now)
    && NextFits(op, e.next)
  }

  // --- transactions that write one row ----------------------------------------------

  lemma OneRowMoves(a: DB, b: DB, e: Effect, stored: set<Key>, r: RowId)
    requires b == Apply(a, e.delta)
    requires Writes(e.delta, r) && forall o :: Writes(e.delta, o) ==> o == r
    requires RowKeys(b, r) == RowKeys(a, r) - e.released + stored
    requires e.released <= RowKeys(a, r) && stored !! RowKeys(a, r)
    ensures KeysMove(a, b, e.delta, e.released, stored)
  {
    assert Lands(b, e.delta, stored, r);
  }

  lemma NoRowMoves(a: DB, e: Effect, q: Quotas, op: Op, now: Time, newId: Id)
    requires e.delta == NOTHING && e.released == {} && e.edit.None? && NextFits(op, e.next)
    ensures Owed(a, e, q, op, [], now, newId)
  {}

  lemma OneProductMoves(a: DB, e: Effect, q: Quotas, op: Op, stored: seq<Key>, now: Time, newId: Id, p: Id, row: ProductRow)
    requires e.delta == OnProduct(p, Some(row)) && CatalogRow(p) in e.conflicts
    requires var held := RowKeys(a, CatalogRow(p));
             StorageKeys(row.images) == held - e.released + KeySet(stored) && e.released <= held && KeySet(stored) !! held
    requires RowMoves(At(a.products, p), p, row, op, now, newId)
    requires WithinQuotas(a, e, q, op) && EditMade(a, e, now) && NextFits(op, e.next)
    ensures Owed(a, e, q, op, stored, now, newId)
  {
    OneProductsKeysMove(a, e, KeySet(stored), p, row);
  }

  lemma OneProductsKeysMove(a: DB, e: Effect, stored: set<Key>, p: Id, row: ProductRow)
    requires e.delta == OnProduct(p, Some(row))
    requires var held := RowKeys(a, CatalogRow(p));
             StorageKeys(row.images) == held - e.released + stored && e.released <= held && stored !! held
    ensures forall r :: Writes(e.delta, r) ==> r == CatalogRow(p)
    ensures KeysMove(a, Apply(a, e.delta), e.delta, e.released, stored)
  {
    OneRowMoves(a, Apply(a, e.delta), e, stored, CatalogRow(p));
  }

  lemma UpdateOwes(a: DB, q: Quotas, op: Op, now: Time, newId: Id)
    requires Snapshot(a, [], now, newId) && op.UpdateProduct? && WorkUpdate(a, op, now).Success?
    ensures Owed(a, WorkUpdate(a, op, now).value, q, op, [], now, newId)
  {
    var e := WorkUpdate(a, op, now).value;
    var row := a.products[op.p];
    assert ProductFits(row, op.p, now, newId);
    VersionMovesExactlyOnChange(row, op.changes, now);
    var row' := Updated(row, op.changes, now).value;
    if row' == row {
      NoRowMoves(a, e, q, op, now, newId);
    } else {
      OneProductMoves(a, e, q, op, [], now, newId, op.p, row');
    }
  }

  lemma RemovedFits(row: ProductRow, imageId: Id, newId: Id)
    requires ImagesOk(row.images) && WithoutImage(row, imageId).Success?
    requires forall i | 0 <= i < |row.images| :: row.images[i].id < newId
    ensures var images := WithoutImage(row, imageId).value.images;
            && ImagesOk(images)
            && StorageKeys(images) == StorageKeys(row.images) - row.images[IndexOf(row.images, imageId)].StorageKeys()
            && forall i | 0 <= i < |images| :: images[i].id < newId
  {
    RemoveKeepsImages(row, imageId);
    RemovedImages(row, imageId);
  }

  /** Images taken away or put in another order. */
  lemma ImagesMove(a: DB, q: Quotas, op: Op, now: Time, newId: Id, p: Id, row': ProductRow, released: set<Key>)
    requires Snapshot(a, [], now, newId) && p in a.products
    requires row' == a.products[p].(images := row'.images) && ImagesOk(row'.images)
    requires forall i | 0 <= i < |row'.images| :: row'.images[i].id < newId
    requires ImageBytes(row'.images) <= ImageBytes(a.products[p].images)
    requires StorageKeys(row'.images) == StorageKeys(a.products[p].images) - released
    requires released <= StorageKeys(a.products[p].images)
    ensures Owed(a, Effect({CatalogRow(p)}, OnProduct(p, Some(row')), released, None, Reply(Plain)), q, op, [], now, newId)
  {
    var e := Effect({CatalogRow(p)}, OnProduct(p, Some(row')), released, None, Reply(Plain));
    assert ProductFits(a.products[p], p, now, newId);
    OneProductMoves(a, e, q, op, [], now, newId, p, row');
  }

  lemma RemoveOwes(a: DB, q: Quotas, op: Op, now: Time, newId: Id)
    requires Snapshot(a, [], now, newId) && op.RemoveImage? && WorkRemove(a, op).Success?
    ensures Owed(a, WorkRemove(a, op).value, q, op, [], now, newId)
  {
    var row := a.products[op.p];
    assert ProductFits(row, op.p, now, newId);
    RemovedFits(row, op.imageId, newId);
    RemovingFreesBytes(row, op.imageId);
    var released := row.images[IndexOf(row.images, op.imageId)].StorageKeys();
    ImagesMove(a, q, op, now, newId, op.p, WithoutImage(row, op.imageId).value, released);
  }

  lemma ReorderedFits(row: ProductRow, ids: seq<Id>, newId: Id)
    requires ImagesOk(row.images) && Reordered(row, ids).Success?
    requires forall i | 0 <= i < |row.images| :: row.images[i].id < newId
    ensures var row' := Reordered(row, ids).value;
            && ImagesOk(row'.images) && StorageKeys(row'.images) == StorageKeys(row.images)
            && row' == row.(images := row'.images)
            && forall i | 0 <= i < |row'.images| :: row'.images[i].id < newId
  {
    ReorderExactly(row, ids);
  }

  lemma ReorderOwes(a: DB, q: Quotas, op: Op, now: Time, newId: Id)
    requires Snapshot(a, [], now, newId) && op.ReorderImages? && WorkReorder(a, op).Success?
    ensures Owed(a, WorkReorder(a, op).value, q, op, [], now, newId)
  {
    var row := a.products[op.p];
    assert ProductFits(row, op.p, now, newId);
    ReorderedFits(row, op.imageIds, newId);
    ReorderingKeepsBytes(row, op.imageIds);
    ImagesMove(a, q, op, now, newId, op.p, Reordered(row, op.imageIds).value, {});
  }

  lemma DeleteOwes(a: DB, q: Quotas, op: Op, now: Time, newId: Id)
    requires op.DeleteProduct? && WorkDelete(a, op).Success?
    ensures Owed(a, WorkDelete(a, op).value, q, op, [], now, newId)
  {
    var e := WorkDelete(a, op).value;
    OneRowMoves(a, Apply(a, e.delta), e, {}, CatalogRow(op.p));
  }

  lemma CreateOwes(a: DB, q: Quotas, op: Op, now: Time, newId: Id)
    requires Snapshot(a, [], now, newId) && op.CreateProduct? && WorkCreate(a, q, op, now, newId).Success?
    ensures Owed(a, WorkCreate(a, q, op, now, newId).value, q, op, [], now, newId)
  {
    var e := WorkCreate(a, q, op, now, newId).value;
    var row := e.delta.products[newId].value;
    assert newId in a.products ==> ProductFits(a.products[newId], newId, now, newId);
    assert Grows(a, e, q, op, newId, row);
    OneProductMoves(a, e, q, op, [], now, newId, newId, row);
  }

  /** The image a confirm adds is apart from every other one of its product. */
  lemma NewImageFits(row: ProductRow, p: Id, image: ProductImage, now: Time, newId: Id)
    requires ProductFits(row, p, now, newId) && WithImage(row, image).Success?
    requires image.id == newId && image.thumbKey != Some(image.key) && image.StorageKeys() !! StorageKeys(row.images)
    requires image.uploadKey.Some? && !HasUpload(row.images, image.uploadKey.value)
    ensures var row' := WithImage(row, image).value;
            && ImagesOk(row'.images)
            && (forall i | 0 <= i < |row'.images| :: row'.images[i].id <= newId)
            && StorageKeys(row'.images) == StorageKeys(row.images) + image.StorageKeys()
            && ImageBytes(row'.images) == ImageBytes(row.images) + image.sizeBytes
  {
    forall i | 0 <= i < |row.images| ensures Apart(row.images[i], image) {
      assert row.images[i].StorageKeys() <= StorageKeys(row.images);
    }
    AddKeepsImages(row, image);
  }

  lemma ConfirmMoves(a: DB, e: Effect, q: Quotas, op: Op, stored: seq<Key>, now: Time, newId: Id,
                     image: ProductImage, row': ProductRow)
    requires Snapshot(a, stored, now, newId) && op.ConfirmImage? && |stored| == 2
    requires image.StorageKeys() == KeySet(stored)
    requires op.p in a.products && a.products[op.p].workspaceId == op.w
    requires ImagesOk(row'.images) && (forall i | 0 <= i < |row'.images| :: row'.images[i].id <= newId)
    requires StorageKeys(row'.images) == StorageKeys(a.products[op.p].images) + image.StorageKeys()
    requires row' == a.products[op.p].(images := row'.images)
    requires StorageBytes(a, op.w) + ImageBytes(row'.images) <= q.maxStorageBytes + ImageBytes(a.products[op.p].images)
    requires image.uploadKey == Some(op.uploadKey)
    requires e == Effect(LockOf(a, op.w) + {CatalogRow(op.p)}, OnProduct(op.p, Some(row')), {}, None, Reply(Image(image)))
    ensures Owed(a, e, q, op, stored, now, newId)
  {
    assert KeySet(stored) !! RowKeys(a, CatalogRow(op.p));
    assert RowMoves(At(a.products, op.p), op.p, row', op, now, newId) by {
      assert ProductFits(a.products[op.p], op.p, now, newId);
    }
    assert WithinQuotas(a, e, q, op) by {
      assert Grows(a, e, q, op, op.p, row');
    }
    OneProductMoves(a, e, q, op, stored, now, newId, op.p, row');
  }

  lemma ConfirmOwes(a: DB, q: Quotas, op: Op, stored: seq<Key>, now: Time, newId: Id)
    requires Snapshot(a, stored, now, newId) && op.ConfirmImage? && |stored| == 2
    requires WorkConfirm(a, q, op, stored, newId).Success?
    ensures Owed(a, WorkConfirm(a, q, op, stored, newId).value, q, op, stored, now, newId)
  {
    var row := a.products[op.p];
    var image := ProductImage(newId, stored[0], Some(stored[1]), Some(op.uploadKey), op.sizeBytes, |row.images|);
    assert image.StorageKeys() == KeySet(stored);
    assert RowKeys(a, CatalogRow(op.p)) !! KeySet(stored);
    assert ProductFits(row, op.p, now, newId);
    NewImageFits(row, op.p, image, now, newId);
    ConfirmMoves(a, WorkConfirm(a, q, op, stored, newId).value, q, op, stored, now, newId, image, WithImage(row, image).value);
  }

  lemma PurgeBatchOwes(a: DB, q: Quotas, op: Op, now: Time, newId: Id, batch: set<Id>)
    requires op.PurgeBatch?
    ensures Owed(a, WorkPurgeBatch(a, op, batch).value, q, op, [], now, newId)
  {
    var e := WorkPurgeBatch(a, op, batch).value;
    forall k <- e.released ensures exists r :: Writes(e.delta, r) && k in RowKeys(a, r) {
      var p :| p in batch && k in RowKeys(a, CatalogRow(p));
      assert Writes(e.delta, CatalogRow(p));
    }
  }

  // --- workspaces and accounts ------------------------------------------------------

  lemma WorkspaceWrittenOwes(a: DB, q: Quotas, op: Op, stored: seq<Key>, now: Time, newId: Id,
                             w: Id, row: Workspace, released: set<Key>)
    requires Snapshot(a, stored, now, newId) && Live(a, w)
    requires if stored == [] && released == {} then row.logoKey == a.workspaces[w].logoKey
             else released == Maybe(a.workspaces[w].logoKey) && Maybe(row.logoKey) == KeySet(stored)
    ensures Owed(a, WorkspaceWritten(a, w, row, released), q, op, stored, now, newId)
  {
    var e := WorkspaceWritten(a, w, row, released);
    assert RowKeys(a, WorkspaceRow(w)) !! KeySet(stored);
    assert stored != [] ==> stored[0] in KeySet(stored);
    if At(a.workspaces, w) == Some(row) {
      NoRowMoves(a, e, q, op, now, newId);
    } else {
      OneRowMoves(a, Apply(a, e.delta), e, KeySet(stored), WorkspaceRow(w));
    }
  }

  lemma AccountWrittenOwes(a: DB, q: Quotas, op: Op, stored: seq<Key>, now: Time, newId: Id,
                           u: Id, row: User, released: set<Key>)
    requires Snapshot(a, stored, now, newId) && u in a.accounts
    requires if stored == [] && released == {} then row.avatarKey == a.accounts[u].avatarKey
             else released == Maybe(a.accounts[u].avatarKey) && Maybe(row.avatarKey) == KeySet(stored)
    ensures Owed(a, AccountWritten(a, u, row, released), q, op, stored, now, newId)
  {
    var e := AccountWritten(a, u, row, released);
    assert RowKeys(a, AccountRow(u)) !! KeySet(stored);
    assert stored != [] ==> stored[0] in KeySet(stored);
    if At(a.accounts, u) == Some(row) {
      NoRowMoves(a, e, q, op, now, newId);
    } else {
      OneRowMoves(a, Apply(a, e.delta), e, KeySet(stored), AccountRow(u));
    }
  }

  lemma MediaOwes(a: DB, q: Quotas, op: Op, stored: seq<Key>, now: Time, newId: Id)
    requires Snapshot(a, stored, now, newId) && (op.SetLogo? || op.SetAvatar?) && |stored| == Uploads(op)
    ensures op.SetLogo? && WorkSetLogo(a, op, stored).Success? ==>
              Owed(a, WorkSetLogo(a, op, stored).value, q, op, stored, now, newId)
    ensures op.SetAvatar? && WorkSetAvatar(a, op, stored).Success? ==>
              Owed(a, WorkSetAvatar(a, op, stored).value, q, op, stored, now, newId)
  {
    var key := if stored == [] then None else Some(stored[0]);
    assert Maybe(key) == KeySet(stored);
    if op.SetLogo? && WorkSetLogo(a, op, stored).Success? {
      var prior := a.workspaces[op.w];
      WorkspaceWrittenOwes(a, q, op, stored, now, newId, op.w, prior.(logoKey := key), Maybe(prior.logoKey));
    }
    if op.SetAvatar? && WorkSetAvatar(a, op, stored).Success? {
      var prior := a.accounts[op.u];
      AccountWrittenOwes(a, q, op, stored, now, newId, op.u, prior.(avatarKey := key), Maybe(prior.avatarKey));
    }
  }

  // --- transactions that write several rows -----------------------------------------

  /** No written row changes its keys. */
  lemma QuietRowsMove(a: DB, e: Effect, q: Quotas, op: Op, now: Time, newId: Id)
    requires Guarded(e) && e.released == {} && e.edit.None? && e.next == Reply(Plain) && e.delta.products == map[]
    requires forall r :: Writes(e.delta, r) ==> RowKeys(Apply(a, e.delta), r) == RowKeys(a, r)
    requires WorkspacesMove(a, e.delta, newId)
    ensures Owed(a, e, q, op, [], now, newId)
  {}

  /** Row `r` goes, and with it rows that hold no keys. */
  lemma RowGoes(a: DB, e: Effect, q: Quotas, op: Op, now: Time, newId: Id, r: RowId)
    requires Guarded(e) && e.edit.None? && e.next == Reply(Plain) && e.delta.products == map[]
    requires Writes(e.delta, r) && RowKeys(Apply(a, e.delta), r) == {} && e.released == RowKeys(a, r)
    requires forall o :: Writes(e.delta, o) && o != r ==> o.MemberRow?
    requires WorkspacesMove(a, e.delta, newId)
    ensures Owed(a, e, q, op, [], now, newId)
  {
    forall k <- e.released ensures exists o :: Writes(e.delta, o) && k in RowKeys(a, o) {
      assert Writes(e.delta, r) && k in RowKeys(a, r);
    }
  }

  lemma MemberRowsListed(gone: set<(Id, Id)>, w: Id, u: Id)
    ensures MemberRow(w, u) in MemberRows(gone) <==> (w, u) in gone
  {
    assert (w, u) in gone ==> MemberRow((w, u).0, (w, u).1) in MemberRows(gone);
  }

  lemma DeleteWorkspaceOwes(a: DB, q: Quotas, op: Op, now: Time, newId: Id)
    requires op.DeleteWorkspace? && WorkDeleteWorkspace(a, op, now, newId).Success?
    ensures Owed(a, WorkDeleteWorkspace(a, op, now, newId).value, q, op, [], now, newId)
  {
    var e := WorkDeleteWorkspace(a, op, now, newId).value;
    forall r | Writes(e.delta, r) ensures r in e.conflicts {
      if r.MemberRow? {
        MemberRowsListed(MembersIn(a, op.w), r.w, r.u);
      }
    }
    QuietRowsMove(a, e, q, op, now, newId);
  }

  lemma FoundOwes(a: DB, q: Quotas, op: Op, now: Time, newId: Id)
    requires Snapshot(a, [], now, newId) && op.FoundWorkspace? && WorkFound(a, op, newId).Success?
    ensures Owed(a, WorkFound(a, op, newId).value, q, op, [], now, newId)
  {
    assert newId !in a.workspaces;
    QuietRowsMove(a, WorkFound(a, op, newId).value, q, op, now, newId);
  }

  lemma JoinOwes(a: DB, q: Quotas, op: Op, now: Time, newId: Id)
    requires op.JoinWorkspace? && WorkJoin(a, op).Success?
    ensures Owed(a, WorkJoin(a, op).value, q, op, [], now, newId)
  {
    QuietRowsMove(a, WorkJoin(a, op).value, q, op, now, newId);
  }

  lemma AssignOwes(a: DB, q: Quotas, op: Op, now: Time, newId: Id)
    requires op.AssignRole? && WorkAssign(a, op).Success?
    ensures Owed(a, WorkAssign(a, op).value, q, op, [], now, newId)
  {
    QuietRowsMove(a, WorkAssign(a, op).value, q, op, now, newId);
  }

  lemma DropOwes(a: DB, q: Quotas, op: Op, now: Time, newId: Id)
    requires op.DropMember? && WorkDrop(a, op).Success?
    ensures Owed(a, WorkDrop(a, op).value, q, op, [], now, newId)
  {
    QuietRowsMove(a, WorkDrop(a, op).value, q, op, now, newId);
  }

  lemma TransferOwes(a: DB, q: Quotas, op: Op, now: Time, newId: Id)
    requires op.TransferWorkspace? && WorkTransfer(a, op).Success?
    ensures Owed(a, WorkTransfer(a, op).value, q, op, [], now, newId)
  {
    QuietRowsMove(a, WorkTransfer(a, op).value, q, op, now, newId);
  }

  lemma RenameOwes(a: DB, q: Quotas, op: Op, now: Time, newId: Id)
    requires Snapshot(a, [], now, newId)
    ensures op.RenameWorkspace? && WorkRenameWorkspace(a, op).Success? ==>
              Owed(a, WorkRenameWorkspace(a, op).value, q, op, [], now, newId)
    ensures op.RenameAccount? && WorkRenameAccount(a, op).Success? ==>
              Owed(a, WorkRenameAccount(a, op).value, q, op, [], now, newId)
    ensures op.OpenAccount? ==> Owed(a, WorkOpen(a, op).value, q, op, [], now, newId)
  {
    if op.RenameWorkspace? && Live(a, op.w) {
      WorkspaceWrittenOwes(a, q, op, [], now, newId, op.w, a.workspaces[op.w].(name := Strip(op.newName), slug := op.slug), {});
    }
    if op.RenameAccount? && op.u in a.accounts {
      var row := a.accounts[op.u].Rename(op.displayName, MembershipsOf(a, op.u) != {});
      AccountWrittenOwes(a, q, op, [], now, newId, op.u, row, {});
    }
    if op.OpenAccount? {
      QuietRowsMove(a, WorkOpen(a, op).value, q, op, now, newId);
    }
  }

  lemma VanishOwes(a: DB, q: Quotas, op: Op, now: Time, newId: Id)
    ensures op.PurgeRows? ==> Owed(a, WorkPurgeRows(a, op).value, q, op, [], now, newId)
    ensures op.CloseAccount? && WorkClose(a, op).Success? ==> Owed(a, WorkClose(a, op).value, q, op, [], now, newId)
  {
    forall gone, w, u ensures MemberRow(w, u) in MemberRows(gone) <==> (w, u) in gone {
      MemberRowsListed(gone, w, u);
    }
    if op.PurgeRows? {
      var e := WorkPurgeRows(a, op).value;
      if op.w !in a.workspaces || a.workspaces[op.w].Live() {
        NoRowMoves(a, e, q, op, now, newId);
      } else {
        RowGoes(a, e, q, op, now, newId, WorkspaceRow(op.w));
      }
    }
    if op.CloseAccount? && WorkClose(a, op).Success? {
      RowGoes(a, WorkClose(a, op).value, q, op, now, newId, AccountRow(op.u));
    }
  }

  /** Every transaction that reaches its commit owes, and pays, all of it. */
  lemma EveryTransactionOwes(a: DB, q: Quotas, op: Op, stored: seq<Key>, now: Time, newId: Id, batch: set<Id>)
    requires Snapshot(a, stored, now, newId) && |stored| == Uploads(op)
    requires Work(a, q, op, stored, now, newId, batch).Success?
    ensures Owed(a, Work(a, q, op, stored, now, newId, batch).value, q, op, stored, now, newId)
  {
    assert Uploads(op) == 0 ==> stored == [];
    match op {
      case CreateProduct(_, _, _, _, _, _) => CreateOwes(a, q, op, now, newId);
      case UpdateProduct(_, _, _, _) => UpdateOwes(a, q, op, now, newId);
      case DeleteProduct(_, _) => DeleteOwes(a, q, op, now, newId);
      case ConfirmImage(_, _, _, _) => ConfirmOwes(a, q, op, stored, now, newId);
      case RemoveImage(_, _, _) => RemoveOwes(a, q, op, now, newId);
      case ReorderImages(_, _, _) => ReorderOwes(a, q, op, now, newId);
      case PurgeBatch(_) => PurgeBatchOwes(a, q, op, now, newId, batch);
      case PurgeRows(_) => VanishOwes(a, q, op, now, newId);
      case SetLogo(_, _) => MediaOwes(a, q, op, stored, now, newId);
      case DeleteWorkspace(_) => DeleteWorkspaceOwes(a, q, op, now, newId);
      case RenameWorkspace(_, _, _) => RenameOwes(a, q, op, now, newId);
      case FoundWorkspace(_, _, _) => FoundOwes(a, q, op, now, newId);
      case JoinWorkspace(_, _, _) => JoinOwes(a, q, op, now, newId);
      case AssignRole(_, _, _) => AssignOwes(a, q, op, now, newId);
      case DropMember(_, _) => DropOwes(a, q, op, now, newId);
      case TransferWorkspace(_, _, _) => TransferOwes(a, q, op, now, newId);
      case OpenAccount(_, _, _) => RenameOwes(a, q, op, now, newId);
      case RenameAccount(_, _) => RenameOwes(a, q, op, now, newId);
      case SetAvatar(_, _) => MediaOwes(a, q, op, stored, now, newId);
      case CloseAccount(_) => VanishOwes(a, q, op, now, newId);
    }
  }
}
