/** When the quotas hold of every workspace, deleted ones included. Room is checked under the lock
    of the workspace, and that lock is void once the workspace is deleted. */
module CatalogQuotas {
  import opened Wrappers
  import opened Entities
  import opened ProductRows
  import opened Catalog
  import opened CatalogBytes
  import opened CatalogEffects
  import opened CatalogInvariant
  import opened CatalogCommit

  ghost predicate AllWithin(db: DB, q: Quotas) {
    forall w :: QuotaOk(db, q, w)
  }

  /** There is no room for what the commit adds in the database as it is now, though there was
      in its snapshot. */
  ghost predicate Overfills(db: DB, q: Quotas, op: Op) {
    match op
    case CreateProduct(w, _, _, _, _, _) => |ProductsIn(db, w)| >= q.maxProducts
    case ConfirmImage(w, _, _, sizeBytes) => StorageBytes(db, w) + sizeBytes > q.maxStorageBytes
    case _ => false
  }

  // --- one commit -------------------------------------------------------------------

  lemma ProductWorkShrinks(a: DB, q: Quotas, op: Op, stored: seq<Key>, now: Time, newId: Id, batch: set<Id>)
    requires Snapshot(a, stored, now, newId) && |stored| == Uploads(op)
    requires op.UpdateProduct? || op.DeleteProduct? || op.RemoveImage? || op.ReorderImages?
    requires Work(a, q, op, stored, now, newId, batch).Success?
    ensures Shrinks(a, Work(a, q, op, stored, now, newId, batch).value.delta)
  {
    var row := a.products[op.p];
    assert ProductFits(row, op.p, now, newId);
    match op {
      case UpdateProduct(_, _, changes, _) => WithAllKeepsTheRest(row, changes);
      case DeleteProduct(_, _) =>
      case RemoveImage(_, _, imageId) => RemovingFreesBytes(row, imageId);
      case ReorderImages(_, _, imageIds) => ReorderingKeepsBytes(row, imageIds);
    }
  }

  /** Only creating a product and confirming an image make a workspace larger. */
  lemma OtherWorkShrinks(a: DB, q: Quotas, op: Op, stored: seq<Key>, now: Time, newId: Id, batch: set<Id>)
    requires Snapshot(a, stored, now, newId) && |stored| == Uploads(op)
    requires !op.CreateProduct? && !op.ConfirmImage? && Work(a, q, op, stored, now, newId, batch).Success?
    ensures Shrinks(a, Work(a, q, op, stored, now, newId, batch).value.delta)
  {
    if op.UpdateProduct? || op.DeleteProduct? || op.RemoveImage? || op.ReorderImages? {
      ProductWorkShrinks(a, q, op, stored, now, newId, batch);
    }
  }

  lemma ShrinkingStaysWithin(s: State, q: Quotas, c: Id, e: Effect)
    requires Committing(s, q, c, e) && AllWithin(s.db, q)
    requires !s.clients[c].op.CreateProduct? && !s.clients[c].op.ConfirmImage?
    ensures AllWithin(Apply(s.db, e.delta), q)
  {
    var x := s.clients[c];
    Pays(s, q, c, e);
    OtherWorkShrinks(x.base, q, x.op, x.stored, x.now, x.newId, x.batch);
    forall w ensures QuotaOk(Apply(s.db, e.delta), q, w) {
      assert QuotaOk(s.db, q, w);
      ShrinkingIsNoGrowth(s, q, c, e, w);
      NoGrowthMeansNoMore(s.db, Apply(s.db, e.delta), w);
    }
  }

  /** Only workspace `w` has more: one product added, or one replaced. */
  lemma OthersStayWithin(a: DB, b: DB, q: Quotas, w: Id, p: Id)
    requires AllWithin(a, q) && p in b.products && b.products[p].workspaceId == w
    requires p in a.products ==> a.products[p].workspaceId == w
    requires forall o :: o != p ==> At(a.products, o) == At(b.products, o)
    ensures AllWithin(b, q) <==> QuotaOk(b, q, w)
  {
    forall v | v != w ensures QuotaOk(b, q, v) {
      forall o <- ProductsIn(b, v) ensures o in a.products && a.products[o] == b.products[o] {
        assert At(a.products, o) == At(b.products, o);
      }
      assert NoGrowth(a, b, v) && QuotaOk(a, q, v);
      NoGrowthMeansNoMore(a, b, v);
    }
  }

  lemma CreationOverfillsExactly(s: State, q: Quotas, c: Id, e: Effect)
    requires Committing(s, q, c, e) && AllWithin(s.db, q) && s.clients[c].op.CreateProduct?
    ensures AllWithin(Apply(s.db, e.delta), q) <==> !Overfills(s.db, q, s.clients[c].op)
  {
    var x := s.clients[c];
    NewIdIsNew(s, q, c, e);
    var db := Apply(s.db, e.delta);
    assert QuotaOk(s.db, q, x.op.w);
    OneProductMore(s.db, db, x.op.w, x.newId);
    OthersStayWithin(s.db, db, q, x.op.w, x.newId);
  }

  /** What a confirm writes: the product it read, with one image of the given size more. */
  lemma ConfirmWrites(a: DB, q: Quotas, op: Op, stored: seq<Key>, newId: Id)
    requires op.ConfirmImage? && |stored| == 2 && WorkConfirm(a, q, op, stored, newId).Success?
    ensures var e := WorkConfirm(a, q, op, stored, newId).value;
            && op.p in a.products && a.products[op.p].workspaceId == op.w && CatalogRow(op.p) in e.conflicts
            && e.delta.products.Keys == {op.p} && e.delta.products[op.p].Some?
            && Grows(a, e, q, op, op.p, e.delta.products[op.p].value)
            && e.delta.products[op.p].value.workspaceId == op.w
            && ImageBytes(e.delta.products[op.p].value.images) == ImageBytes(a.products[op.p].images) + op.sizeBytes
  {
    var image := ProductImage(newId, stored[0], Some(stored[1]), Some(op.uploadKey), op.sizeBytes, |a.products[op.p].images|);
    var images := WithImage(a.products[op.p], image).value.images;
    assert images[..|images| - 1] == a.products[op.p].images;
  }

  lemma ImageFitsExactly(db: DB, d: Delta, q: Quotas, op: Op)
    requires AllWithin(db, q) && op.ConfirmImage? && op.p in db.products && db.products[op.p].workspaceId == op.w
    requires d.products.Keys == {op.p} && d.products[op.p].Some? && d.products[op.p].value.workspaceId == op.w
    requires ImageBytes(d.products[op.p].value.images) == ImageBytes(db.products[op.p].images) + op.sizeBytes
    ensures AllWithin(Apply(db, d), q) <==> !Overfills(db, q, op)
  {
    assert QuotaOk(db, q, op.w);
    OneProductMore(db, Apply(db, d), op.w, op.p);
    OthersStayWithin(db, Apply(db, d), q, op.w, op.p);
  }

  lemma ConfirmOverfillsExactly(s: State, q: Quotas, c: Id, e: Effect)
    requires Committing(s, q, c, e) && AllWithin(s.db, q) && s.clients[c].op.ConfirmImage?
    ensures AllWithin(Apply(s.db, e.delta), q) <==> !Overfills(s.db, q, s.clients[c].op)
  {
    var x := s.clients[c];
    Pays(s, q, c, e);
    ConfirmWrites(x.base, q, x.op, x.stored, x.newId);
    assert SameRow(x.base, s.db, CatalogRow(x.op.p));
    ImageFitsExactly(s.db, e.delta, q, x.op);
  }

  /** From a database where every workspace is within its quotas, a commit leaves one if and
      only if it is not a creation in a workspace that is full by now, and not a confirm whose
      bytes no longer fit. */
  lemma CommitKeepsQuotasExactly(s: State, s': State, q: Quotas, c: Id)
    requires Inv(s, q) && Commits(s, s', q, c) && AllWithin(s.db, q)
    ensures AllWithin(s'.db, q) <==> !Overfills(s.db, q, s.clients[c].op)
  {
    var e := WorkOf(q, s.clients[c]).value;
    if s.clients[c].op.CreateProduct? {
      CreationOverfillsExactly(s, q, c, e);
    } else if s.clients[c].op.ConfirmImage? {
      ConfirmOverfillsExactly(s, q, c, e);
    } else {
      ShrinkingStaysWithin(s, q, c, e);
    }
  }

  // --- under the lock ---------------------------------------------------------------

  /** The snapshot shows the workspace live, so that the transaction locks its row. */
  ghost predicate Locks(x: Client)
    requires x.Running?
  {
    WorkspaceOf(x.op).Some? ==> LockOf(x.base, WorkspaceOf(x.op).value) != {}
  }

  lemma CreationGrows(a: DB, q: Quotas, op: Op, now: Time, newId: Id)
    requires op.CreateProduct? && newId !in a.products && WorkCreate(a, q, op, now, newId).Success?
    ensures var e := WorkCreate(a, q, op, now, newId).value;
            && newId in e.delta.products && e.delta.products[newId].Some?
            && e.delta.products[newId].value.workspaceId == op.w
            && Grows(a, e, q, op, newId, e.delta.products[newId].value)
  {}

  lemma LockedCreationFits(s: State, q: Quotas, c: Id, e: Effect)
    requires Committing(s, q, c, e) && Locks(s.clients[c]) && s.clients[c].op.CreateProduct?
    ensures !Overfills(s.db, q, s.clients[c].op)
  {
    var x := s.clients[c];
    Pays(s, q, c, e);
    NewIdIsNew(s, q, c, e);
    assert SameRow(x.base, s.db, CatalogRow(x.newId)) && SameRow(x.base, s.db, WorkspaceRow(x.op.w));
    CreationGrows(x.base, q, x.op, x.now, x.newId);
    RoomIsThere(s, q, c, e, x.newId, e.delta.products[x.newId].value);
  }

  lemma LockedConfirmFits(s: State, q: Quotas, c: Id, e: Effect)
    requires Committing(s, q, c, e) && Locks(s.clients[c]) && s.clients[c].op.ConfirmImage?
    ensures !Overfills(s.db, q, s.clients[c].op)
  {
    var x := s.clients[c];
    Pays(s, q, c, e);
    ConfirmWrites(x.base, q, x.op, x.stored, x.newId);
    assert SameRow(x.base, s.db, CatalogRow(x.op.p)) && SameRow(x.base, s.db, WorkspaceRow(x.op.w));
    RoomIsThere(s, q, c, e, x.op.p, e.delta.products[x.op.p].value);
  }

  /** A transaction that locked its workspace still finds room at its commit. */
  lemma LockedCommitsFit(s: State, s': State, q: Quotas, c: Id)
    requires Inv(s, q) && Commits(s, s', q, c) && Locks(s.clients[c])
    ensures !Overfills(s.db, q, s.clients[c].op)
  {
    var x := s.clients[c];
    var e := WorkOf(q, x).value;
    if x.op.CreateProduct? {
      LockedCreationFits(s, q, c, e);
    } else if x.op.ConfirmImage? {
      LockedConfirmFits(s, q, c, e);
    }
  }

  /** It takes a retry to overfill a workspace, and a workspace deleted by then: the first
      attempt reads the snapshot in which the route found the workspace live. */
  lemma OverfillingIsARetry(s: State, s': State, q: Quotas, c: Id)
    requires Inv(s, q) && Commits(s, s', q, c) && Overfills(s.db, q, s.clients[c].op)
    ensures s.clients[c].attempt > 0 && !Live(s.db, s.clients[c].op.w)
  {
    var x := s.clients[c];
    assert ClientOk(s, x);
    if Locks(x) {
      LockedCommitsFit(s, s', q, c);
    }
  }

  // --- whole runs -------------------------------------------------------------------

  lemma {:induction false} WithinUntil(states: seq<State>, q: Quotas, i: nat)
    requires IsRun(states, q) && i < |states|
    requires forall j: nat, c | CommitAt(states, q, j, c) :: !Overfills(states[j].db, q, states[j].clients[c].op)
    ensures AllWithin(states[i].db, q)
    decreases i
  {
    if i == 0 {
      assert forall w :: ProductsIn(START.db, w) == {};
    } else {
      var j := i - 1;
      WithinUntil(states, q, j);
      assert Steps(states[j], states[j + 1], q);
      OnlyCommitsChangeRows(states[j], states[j + 1], q);
      if states[j + 1].db != states[j].db {
        var c :| Commits(states[j], states[j + 1], q, c);
        assert CommitAt(states, q, j, c);
        InvAlways(states, q, j);
        CommitKeepsQuotasExactly(states[j], states[j + 1], q, c);
      }
    }
  }

  /** In a whole run every workspace, live or deleted, is within its quotas at every moment if
      and only if no commit overfills one. */
  lemma QuotasHoldExactly(states: seq<State>, q: Quotas)
    requires IsRun(states, q)
    ensures (forall i: nat | i < |states| :: AllWithin(states[i].db, q))
       <==> forall i: nat, c | CommitAt(states, q, i, c) :: !Overfills(states[i].db, q, states[i].clients[c].op)
  {
    if forall i: nat | i < |states| :: AllWithin(states[i].db, q) {
      forall i: nat, c | CommitAt(states, q, i, c) ensures !Overfills(states[i].db, q, states[i].clients[c].op) {
        InvAlways(states, q, i);
        CommitKeepsQuotasExactly(states[i], states[i + 1], q, c);
      }
    }
    if forall i: nat, c | CommitAt(states, q, i, c) :: !Overfills(states[i].db, q, states[i].clients[c].op) {
      forall i: nat | i < |states| ensures AllWithin(states[i].db, q) {
        WithinUntil(states, q, i);
      }
    }
  }

  /** In particular as long as every product transaction that commits found its workspace live. */
  lemma QuotasHoldUnderTheLock(states: seq<State>, q: Quotas, i: nat)
    requires IsRun(states, q) && i < |states|
    requires forall j: nat, c | CommitAt(states, q, j, c) :: Locks(states[j].clients[c])
    ensures AllWithin(states[i].db, q)
  {
    forall j: nat, c | CommitAt(states, q, j, c) ensures !Overfills(states[j].db, q, states[j].clients[c].op) {
      InvAlways(states, q, j);
      LockedCommitsFit(states[j], states[j + 1], q, c);
    }
    WithinUntil(states, q, i);
  }
}
