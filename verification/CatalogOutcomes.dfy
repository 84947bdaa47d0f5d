/** What interleaved requests come to: when each is refused, and what a committed one leaves. */
module CatalogOutcomes {
  import opened Wrappers
  import opened Access
  import opened Text
  import opened Entities
  import opened ProductRows
  import opened Catalog
  import opened CatalogInvariant
  import opened CatalogCommit
  import opened ProductOutcomes
  import Purge

  // --- stored products are sound ----------------------------------------------------

  ghost predicate AllSound(db: DB) {
    forall p <- db.products :: Sound(db.products[p])
  }

  /** Every product row written is sound, or has the name and price it had. */
  ghost predicate WritesSound(a: DB, d: Delta) {
    forall p <- d.products ::
      d.products[p].Some? ==>
        || Sound(d.products[p].value)
        || (p in a.products && d.products[p].value.name == a.products[p].name && d.products[p].value.price == a.products[p].price)
  }

  lemma EveryWorkWritesSound(a: DB, q: Quotas, op: Op, stored: seq<Key>, now: Time, newId: Id, batch: set<Id>)
    requires |stored| == Uploads(op) && Work(a, q, op, stored, now, newId, batch).Success?
    ensures WritesSound(a, Work(a, q, op, stored, now, newId, batch).value.delta)
  {}

  lemma CommitStaysSound(s: State, s': State, q: Quotas, c: Id)
    requires Inv(s, q) && Commits(s, s', q, c) && AllSound(s.db)
    ensures AllSound(s'.db)
  {
    var x := s.clients[c];
    var e := WorkOf(q, x).value;
    Pays(s, q, c, e);
    EveryWorkWritesSound(x.base, q, x.op, x.stored, x.now, x.newId, x.batch);
    forall p <- s'.db.products ensures Sound(s'.db.products[p]) {
      if p in e.delta.products {
        assert Writes(e.delta, CatalogRow(p));
        assert SameRow(x.base, s.db, CatalogRow(p));
      }
    }
  }

  /** In every state of every run each product has a name and no negative price. */
  lemma {:induction false} ProductsAreSound(states: seq<State>, q: Quotas, i: nat)
    requires IsRun(states, q) && i < |states|
    ensures AllSound(states[i].db)
    decreases i
  {
    if i > 0 {
      var j := i - 1;
      ProductsAreSound(states, q, j);
      InvAlways(states, q, j);
      assert Steps(states[j], states[j + 1], q);
      OnlyCommitsChangeRows(states[j], states[j + 1], q);
      if states[j + 1].db != states[j].db {
        var c :| Commits(states[j], states[j + 1], q, c);
        CommitStaysSound(states[j], states[j + 1], q, c);
      }
    }
  }

  // --- refusals ---------------------------------------------------------------------

  /** A confirm whose snapshot meets the conditions is never refused: it commits, loses a race or
      fails for a reason outside its work. One that is refused says which condition fails. */
  lemma ConfirmsAreRefusedExactly(s: State, s': State, q: Quotas, c: Id)
    requires IsRunning(s, c) && s.clients[c].op.ConfirmImage?
    ensures Confirmable(s.clients[c].base, q, s.clients[c].op) ==> !Refuses(s, s', q, c)
    ensures Refuses(s, s', q, c) ==>
              var x := s.clients[c];
              && c in s'.clients && s'.clients[c].Cleaning? && KeySet(x.stored) <= s'.clients[c].doomed && s'.db == s.db
              && match s'.clients[c].next
                 case Reply(Error(ProductNotFound)) => !IsIn(x.base, x.op.w, x.op.p)
                 case Reply(Error(TooManyImages)) =>
                   IsIn(x.base, x.op.w, x.op.p) && |x.base.products[x.op.p].images| >= 10
                 case Reply(Error(StorageQuotaReached)) =>
                   StorageBytes(x.base, x.op.w) + x.op.sizeBytes > q.maxStorageBytes
                 case LookUp =>
                   && IsIn(x.base, x.op.w, x.op.p)
                   && exists image :: image in x.base.products[x.op.p].images && image.uploadKey == Some(x.op.uploadKey)
                 case _ => false
  {
    var x := s.clients[c];
    ConfirmExactly(x.base, q, x.op, x.stored, x.newId);
  }

  /** Likewise a creation. */
  lemma CreationsAreRefusedExactly(s: State, s': State, q: Quotas, c: Id)
    requires IsRunning(s, c) && s.clients[c].op.CreateProduct?
    ensures var x := s.clients[c];
            |ProductsIn(x.base, x.op.w)| < q.maxProducts && x.op.name != "" && x.op.price >= 0 ==> !Refuses(s, s', q, c)
    ensures Refuses(s, s', q, c) ==>
              var x := s.clients[c];
              && c in s'.clients && s'.clients[c].Cleaning? && s'.db == s.db
              && match s'.clients[c].next
                 case Reply(Error(ProductQuotaReached)) => |ProductsIn(x.base, x.op.w)| >= q.maxProducts
                 case Reply(Error(NameMissing)) => x.op.name == ""
                 case Reply(Error(NegativePrice)) => x.op.price < 0
                 case _ => false
  {
    var x := s.clients[c];
    CreateProductExactly(x.base, q, x.op, x.now, x.newId);
  }

  // --- what a commit leaves ---------------------------------------------------------

  /** No product but `p` differs, and nothing but products. */
  ghost predicate OnlyProduct(a: DB, b: DB, p: Id) {
    && b == a.(products := b.products)
    && forall o :: o != p ==> At(b.products, o) == At(a.products, o)
  }

  lemma OnlyProductWritten(db: DB, d: Delta, p: Id, row: Option<ProductRow>)
    requires d == NOTHING || WritesOnly(d, p, row)
    ensures OnlyProduct(db, Apply(db, d), p)
  {
    PatchNone(db.workspaces);
    PatchNone(db.accounts);
    PatchNone(db.members);
  }

  /** A committed update leaves the product with the values sent and the rest as it was. */
  lemma UpdatesLeaveTheValuesSent(s: State, s': State, q: Quotas, c: Id)
    requires Inv(s, q) && Commits(s, s', q, c) && s.clients[c].op.UpdateProduct?
    requires OncePerField(s.clients[c].op.changes) && AllSound(s.db)
    ensures var op := s.clients[c].op;
            && IsIn(s.db, op.w, op.p) && IsIn(s'.db, op.w, op.p) && OnlyProduct(s.db, s'.db, op.p)
            && Carries(s'.db.products[op.p], op.changes)
            && KeepsTheRest(s.db.products[op.p], s'.db.products[op.p], op.changes)
            && (op.ifMatch.Some? ==> op.ifMatch.value == s.db.products[op.p].updatedAt)
  {
    var x := s.clients[c];
    var e := WorkOf(q, x).value;
    Pays(s, q, c, e);
    assert CatalogRow(x.op.p) in e.conflicts && SameRow(x.base, s.db, CatalogRow(x.op.p));
    assert At(x.base.products, x.op.p) == At(s.db.products, x.op.p);
    UpdateProductExactly(x.base, x.op, x.now);
    OnlyProductWritten(s.db, e.delta, x.op.p, Some(Apply(x.base, e.delta).products[x.op.p]));
  }

  /** A committed confirm leaves the images there were, followed by the one it answers. */
  lemma ConfirmsLeaveTheImage(s: State, s': State, q: Quotas, c: Id)
    requires Inv(s, q) && Commits(s, s', q, c) && s.clients[c].op.ConfirmImage?
    ensures var x := s.clients[c];
            && IsIn(s.db, x.op.w, x.op.p) && IsIn(s'.db, x.op.w, x.op.p) && OnlyProduct(s.db, s'.db, x.op.p)
            && s'.clients[c].Cleaning? && s'.clients[c].next.Reply? && s'.clients[c].next.answer.Image?
            && var image := s'.clients[c].next.answer.image;
               && s'.db.products[x.op.p].images == s.db.products[x.op.p].images + [image]
               && image.uploadKey == Some(x.op.uploadKey) && image.sizeBytes == x.op.sizeBytes
               && image.key == x.stored[0] && image.thumbKey == Some(x.stored[1])
  {
    var x := s.clients[c];
    var e := WorkOf(q, x).value;
    Pays(s, q, c, e);
    assert CatalogRow(x.op.p) in e.conflicts && SameRow(x.base, s.db, CatalogRow(x.op.p));
    assert At(x.base.products, x.op.p) == At(s.db.products, x.op.p);
    ConfirmAppendsHere(x.base, s.db, q, x.op, x.stored, x.newId);
  }

  lemma ConfirmAppendsHere(a: DB, b: DB, q: Quotas, op: Op, stored: seq<Key>, newId: Id)
    requires op.ConfirmImage? && |stored| == 2 && WorkConfirm(a, q, op, stored, newId).Success?
    requires At(a.products, op.p) == At(b.products, op.p)
    ensures var e := WorkConfirm(a, q, op, stored, newId).value;
            var b' := Apply(b, e.delta);
            && IsIn(b, op.w, op.p) && IsIn(b', op.w, op.p) && OnlyProduct(b, b', op.p)
            && e.next.Reply? && e.next.answer.Image?
            && var image := e.next.answer.image;
               && b'.products[op.p].images == b.products[op.p].images + [image]
               && image.uploadKey == Some(op.uploadKey) && image.sizeBytes == op.sizeBytes
               && image.key == stored[0] && image.thumbKey == Some(stored[1])
  {
    var e := WorkConfirm(a, q, op, stored, newId).value;
    ConfirmAppends(a, q, op, stored, newId);
    OnlyProductWritten(b, e.delta, op.p, Some(Apply(a, e.delta).products[op.p]));
    var images := Apply(a, e.delta).products[op.p].images;
    assert images == images[..|images| - 1] + [images[|images| - 1]];
  }

  /** A committed creation leaves one product more, with the values sent. */
  lemma CreationsLeaveTheProduct(s: State, s': State, q: Quotas, c: Id)
    requires Inv(s, q) && Commits(s, s', q, c) && s.clients[c].op.CreateProduct?
    ensures var x := s.clients[c];
            && x.newId !in s.db.products && x.newId in s'.db.products && OnlyProduct(s.db, s'.db, x.newId)
            && var row := s'.db.products[x.newId];
               && row.workspaceId == x.op.w && row.name == x.op.name && row.sku == x.op.sku && row.price == x.op.price
               && row.status == x.op.status && row.description == x.op.description && row.images == []
  {
    var x := s.clients[c];
    var e := WorkOf(q, x).value;
    NewIdIsNew(s, q, c, e);
    CreateProductExactly(x.base, q, x.op, x.now, x.newId);
    OnlyProductWritten(s.db, e.delta, x.newId, e.delta.products[x.newId]);
  }

  // --- purging ----------------------------------------------------------------------

  /** A batch takes the products it found with all their files. The purge goes on to the other
      rows when the batch held every product there was; after 200 it looks for more. */
  lemma PurgeBatchExactly(db: DB, op: Op, batch: set<Id>)
    requires op.PurgeBatch? && BatchFound(db, op.w, batch)
    ensures var r := WorkPurgeBatch(db, op, batch);
            && r.Success? && r.value.delta == NOTHING.(products := r.value.delta.products)
            && r.value.delta.products.Keys == batch && (forall p <- batch :: r.value.delta.products[p] == None)
            && r.value.next == (if |batch| == 200 then Continue(op) else Continue(PurgeRows(op.w)))
            && (|batch| != 200 ==> forall p :: IsIn(db, op.w, p) <==> p in batch)
    ensures forall k :: k in WorkPurgeBatch(db, op, batch).value.released
                        <==> exists p, image :: p in batch && image in db.products[p].images
                                                && (image.key == k || image.thumbKey == Some(k))
  {
    if |batch| != 200 {
      Purge.FullSubset(batch, ProductsIn(db, op.w));
    }
    forall k ensures k in WorkPurgeBatch(db, op, batch).value.released
                     <==> exists p, image :: p in batch && image in db.products[p].images
                                             && (image.key == k || image.thumbKey == Some(k))
    {
      forall p <- batch {
        Purge.ImageFilesExactly(db.products[p].images, k);
      }
      if p, image :| p in batch && image in db.products[p].images && (image.key == k || image.thumbKey == Some(k)) {
        assert k in RowKeys(db, CatalogRow(p));
      }
      if p :| p in batch && k in RowKeys(db, CatalogRow(p)) {
        assert k in StorageKeys(db.products[p].images);
      }
    }
  }

  /** No product that `a` shows in the workspace is left in `b`. */
  ghost predicate NoneLeft(a: DB, b: DB, w: Id) {
    forall p <- a.products :: a.products[p].workspaceId == w ==> p !in b.products
  }

  lemma BatchApplies(a: DB, b: DB, op: Op, batch: set<Id>)
    requires op.PurgeBatch?
    ensures Apply(b, WorkPurgeBatch(a, op, batch).value.delta) == b.(products := b.products - batch)
  {
    PatchNone(b.workspaces);
    PatchNone(b.accounts);
    PatchNone(b.members);
    PatchAway(b.products, batch);
  }

  lemma BatchLeavesTheRest(a: DB, b: DB, op: Op, batch: set<Id>)
    requires op.PurgeBatch? && BatchFound(a, op.w, batch)
    ensures var e := WorkPurgeBatch(a, op, batch).value;
            var b' := Apply(b, e.delta);
            && b' == b.(products := b.products - batch)
            && (e.next == Continue(op) || (e.next == Continue(PurgeRows(op.w)) && NoneLeft(a, b', op.w)))
  {
    BatchApplies(a, b, op, batch);
    PurgeBatchExactly(a, op, batch);
    assert |batch| != 200 ==> forall p <- a.products :: a.products[p].workspaceId == op.w ==> IsIn(a, op.w, p);
  }

  lemma BatchWasFound(s: State, q: Quotas, c: Id)
    requires Inv(s, q) && IsRunning(s, c) && s.clients[c].op.PurgeBatch?
    ensures BatchFound(s.clients[c].base, s.clients[c].op.w, s.clients[c].batch)
  {
    assert ClientOk(s, s.clients[c]);
  }

  /** A committed batch leaves all products but its own; one the purge goes on from leaves none
      that its snapshot showed in the workspace. */
  lemma BatchesLeaveTheRest(s: State, s': State, q: Quotas, c: Id)
    requires Inv(s, q) && Commits(s, s', q, c) && s.clients[c].op.PurgeBatch?
    ensures var x := s.clients[c];
            && s'.db == s.db.(products := s.db.products - x.batch)
            && c in s'.clients && s'.clients[c].Cleaning?
            && (|| s'.clients[c].next == Continue(x.op)
                || (s'.clients[c].next == Continue(PurgeRows(x.op.w)) && NoneLeft(x.base, s'.db, x.op.w)))
  {
    var x := s.clients[c];
    BatchWasFound(s, q, c);
    BatchLeavesTheRest(x.base, s.db, x.op, x.batch);
  }

  // --- workspaces, members and accounts ---------------------------------------------

  /** The conditions under which the transactions on workspaces go through. */
  lemma WorkspaceWorkExactly(db: DB, op: Op, stored: seq<Key>, now: Time, newId: Id)
    ensures op.SetLogo? ==> (WorkSetLogo(db, op, stored).Success? <==> Live(db, op.w))
    ensures op.DeleteWorkspace? ==> (WorkDeleteWorkspace(db, op, now, newId).Success? <==> Live(db, op.w))
    ensures op.RenameWorkspace? ==> (WorkRenameWorkspace(db, op).Success? <==> Live(db, op.w))
    ensures op.FoundWorkspace? ==>
              (WorkFound(db, op, newId).Success?
               <==> op.founder in db.accounts && db.accounts[op.founder].status != ProfilePending && Strip(op.newName) != "")
    ensures op.TransferWorkspace? ==>
              (WorkTransfer(db, op).Success?
               <==> && Live(db, op.w) && op.target != db.workspaces[op.w].ownerId && (op.w, op.target) in db.members
                    && (op.w, db.workspaces[op.w].ownerId) in db.members)
  {}

  /** Those on members. */
  lemma MemberWorkExactly(db: DB, op: Op)
    ensures op.JoinWorkspace? ==>
              (WorkJoin(db, op).Success? <==> op.u in db.accounts && Live(db, op.w) && (op.w, op.u) !in db.members)
    ensures op.AssignRole? ==>
              (WorkAssign(db, op).Success?
               <==> Live(db, op.w) && op.u != db.workspaces[op.w].ownerId && (op.w, op.u) in db.members)
    ensures op.DropMember? ==>
              (WorkDrop(db, op).Success?
               <==> Live(db, op.w) && op.u != db.workspaces[op.w].ownerId && (op.w, op.u) in db.members)
  {}

  lemma AddressTaken(db: DB, email: string)
    ensures EmailTaken(db, email) <==> exists o :: o in db.accounts && db.accounts[o].email == email
  {
    if o :| o in db.accounts && db.accounts[o].email == email {
      assert EmailTaken(db, email);
    }
  }

  /** Those on accounts. */
  lemma AccountWorkExactly(db: DB, op: Op, stored: seq<Key>)
    ensures op.OpenAccount? ==> WorkOpen(db, op).Success?
    ensures op.OpenAccount? ==>
              (WorkOpen(db, op).value.delta == NOTHING
               <==> op.u in db.accounts || exists o :: o in db.accounts && db.accounts[o].email == Lower(op.email))
    ensures op.RenameAccount? ==> (WorkRenameAccount(db, op).Success? <==> op.u in db.accounts)
    ensures op.SetAvatar? ==> (WorkSetAvatar(db, op, stored).Success? <==> op.u in db.accounts)
    ensures op.CloseAccount? ==>
              (WorkClose(db, op).Success?
               <==> op.u in db.accounts && forall w :: Live(db, w) ==> db.workspaces[w].ownerId != op.u)
  {
    if op.OpenAccount? {
      AddressTaken(db, Lower(op.email));
      assert WorkOpen(db, op).value.delta != NOTHING ==> op.u in WorkOpen(db, op).value.delta.accounts;
      assert op.u !in NOTHING.accounts;
    }
  }
}
