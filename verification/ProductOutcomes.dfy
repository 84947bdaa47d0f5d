/** When changing a product succeeds, which error stands for which missing condition, and what is
    true of the product's fields then. */
module ProductOutcomes {
  import opened Wrappers
  import opened Entities
  import opened ProductRows
  import opened Catalog

  // --- fields -----------------------------------------------------------------------

  /** Each field has the value a change names for it. */
  ghost predicate Carries(q: ProductRow, changes: seq<Change>) {
    && (forall v :: SetName(v) in changes ==> q.name == v)
    && (forall v :: SetSku(v) in changes ==> q.sku == v)
    && (forall v :: SetPrice(v) in changes ==> q.price == v)
    && (forall v :: SetStatus(v) in changes ==> q.status == v)
    && (forall v :: SetDescription(v) in changes ==> q.description == v)
  }

  /** A field that no change names keeps its value. */
  ghost predicate KeepsTheRest(p: ProductRow, q: ProductRow, changes: seq<Change>) {
    && ((forall v :: SetName(v) !in changes) ==> q.name == p.name)
    && ((forall v :: SetSku(v) !in changes) ==> q.sku == p.sku)
    && ((forall v :: SetPrice(v) !in changes) ==> q.price == p.price)
    && ((forall v :: SetStatus(v) !in changes) ==> q.status == p.status)
    && ((forall v :: SetDescription(v) !in changes) ==> q.description == p.description)
    && q.workspaceId == p.workspaceId && q.createdAt == p.createdAt && q.images == p.images
  }

  lemma OneMoreCarries(q: ProductRow, changes: seq<Change>, c: Change)
    requires Carries(q, changes) && forall d <- changes :: !SameField(d, c)
    ensures Carries(With(q, c), changes + [c])
  {
    forall d <- changes + [c] ensures d == c || d in changes {}
  }

  lemma OneMoreKeeps(p: ProductRow, q: ProductRow, changes: seq<Change>, c: Change)
    requires KeepsTheRest(p, q, changes)
    ensures KeepsTheRest(p, With(q, c), changes + [c])
  {
    assert c in changes + [c];
    forall d <- changes ensures d in changes + [c] {}
  }

  lemma {:induction false} WithAllCarries(p: ProductRow, changes: seq<Change>)
    requires OncePerField(changes)
    ensures Carries(WithAll(p, changes), changes) && KeepsTheRest(p, WithAll(p, changes), changes)
  {
    if changes != [] {
      var n := |changes| - 1;
      WithAllCarries(p, changes[..n]);
      assert changes == changes[..n] + [changes[n]];
      forall c <- changes[..n] ensures !SameField(c, changes[n]) {
        var i :| 0 <= i < n && changes[i] == c;
      }
      OneMoreCarries(WithAll(p, changes[..n]), changes[..n], changes[n]);
      OneMoreKeeps(p, WithAll(p, changes[..n]), changes[..n], changes[n]);
    }
  }

  /** A product as it is stored: it has a name and no negative price. */
  predicate Sound(p: ProductRow) {
    p.name != "" && p.price >= 0
  }

  /** An update of a stored product fails only for a blank name or a negative price that was
      sent; otherwise the product has exactly the values sent, and a new version if one differs. */
  lemma UpdateExactly(p: ProductRow, changes: seq<Change>, now: Time)
    requires OncePerField(changes) && Sound(p)
    ensures Updated(p, changes, now).Success? <==> SetName("") !in changes && forall v :: SetPrice(v) in changes ==> v >= 0
    ensures Updated(p, changes, now) == Failure(NameMissing) <==> SetName("") in changes
    ensures Updated(p, changes, now) == Failure(NegativePrice)
       <==> SetName("") !in changes && exists v :: SetPrice(v) in changes && v < 0
    ensures Updated(p, changes, now).Success? ==>
              var q := Updated(p, changes, now).value;
              && Carries(q, changes) && KeepsTheRest(p, q, changes) && Sound(q)
              && q.updatedAt == if Carries(p, changes) then p.updatedAt else now
  {
    WithAllCarries(p, changes);
    WithAllKeepsTheRest(p, changes);
    var q := WithAll(p, changes);
    NamedOrKept(p, q, changes);
  }

  lemma NamedOrKept(p: ProductRow, q: ProductRow, changes: seq<Change>)
    requires Carries(q, changes) && KeepsTheRest(p, q, changes) && Sound(p)
    ensures q.name == "" <==> SetName("") in changes
    ensures q.price < 0 <==> exists v :: SetPrice(v) in changes && v < 0
    ensures Carries(p, changes)
       <==> q.name == p.name && q.sku == p.sku && q.price == p.price && q.status == p.status && q.description == p.description
  {
    if v :| SetName(v) in changes { assert q.name == v; }
    if v :| SetPrice(v) in changes { assert q.price == v; }
  }

  // --- one transaction --------------------------------------------------------------

  /** `p` is a product of the workspace. */
  predicate IsIn(db: DB, w: Id, p: Id) {
    p in db.products && db.products[p].workspaceId == w
  }

  /** Product `p` is written as `row`, and nothing else. */
  predicate WritesOnly(d: Delta, p: Id, row: Option<ProductRow>) {
    d.workspaces == map[] && d.accounts == map[] && d.members == map[] && d.products == map[p := row]
  }

  /** A product is created whenever there is room for one more and it has a name and no negative
      price; it has the values sent and no images. */
  lemma CreateProductExactly(db: DB, q: Quotas, op: Op, now: Time, newId: Id)
    requires op.CreateProduct?
    ensures var r := WorkCreate(db, q, op, now, newId);
            && (r.Success? <==> |ProductsIn(db, op.w)| < q.maxProducts && op.name != "" && op.price >= 0)
            && (r == Failure(ProductQuotaReached) <==> |ProductsIn(db, op.w)| >= q.maxProducts)
            && (r == Failure(NameMissing) <==> |ProductsIn(db, op.w)| < q.maxProducts && op.name == "")
            && (r == Failure(NegativePrice) <==> |ProductsIn(db, op.w)| < q.maxProducts && op.name != "" && op.price < 0)
    ensures var r := WorkCreate(db, q, op, now, newId);
            r.Success? ==>
              && newId in r.value.delta.products && r.value.delta.products[newId].Some?
              && var row := r.value.delta.products[newId].value;
                 && WritesOnly(r.value.delta, newId, Some(row)) && r.value.released == {}
                 && row.workspaceId == op.w && row.name == op.name && row.sku == op.sku && row.price == op.price
                 && row.status == op.status && row.description == op.description
                 && row.createdAt == now && row.updatedAt == now && row.images == []
  {}

  /** An update goes through on a product of the workspace, in the version the client saw if it
      named one, with values a product can have. */
  lemma UpdateProductExactly(db: DB, op: Op, now: Time)
    requires op.UpdateProduct? && OncePerField(op.changes) && (IsIn(db, op.w, op.p) ==> Sound(db.products[op.p]))
    ensures var r := WorkUpdate(db, op, now);
            && (r == Failure(ProductNotFound) <==> !IsIn(db, op.w, op.p))
            && (r == Failure(ModifiedSinceLoaded)
                <==> IsIn(db, op.w, op.p) && op.ifMatch.Some? && op.ifMatch.value != db.products[op.p].updatedAt)
            && (r.Success?
                <==> && IsIn(db, op.w, op.p) && (op.ifMatch.Some? ==> op.ifMatch.value == db.products[op.p].updatedAt)
                     && SetName("") !in op.changes && forall v :: SetPrice(v) in op.changes ==> v >= 0)
    ensures var r := WorkUpdate(db, op, now);
            r.Success? ==>
              var row := Apply(db, r.value.delta).products[op.p];
              && (r.value.delta == NOTHING || WritesOnly(r.value.delta, op.p, Some(row)))
              && Carries(row, op.changes) && KeepsTheRest(db.products[op.p], row, op.changes)
              && row.updatedAt == if Carries(db.products[op.p], op.changes) then db.products[op.p].updatedAt else now
  {
    if IsIn(db, op.w, op.p) {
      UpdateExactly(db.products[op.p], op.changes, now);
    }
  }

  lemma DeleteProductExactly(db: DB, op: Op)
    requires op.DeleteProduct?
    ensures var r := WorkDelete(db, op);
            && (r.Success? <==> IsIn(db, op.w, op.p)) && (r == Failure(ProductNotFound) <==> !IsIn(db, op.w, op.p))
            && (r.Success? ==> WritesOnly(r.value.delta, op.p, None)
                               && forall k :: k in r.value.released <==> k in StorageKeys(db.products[op.p].images))
  {}

  /** What a confirm takes: a product of the workspace with fewer than ten images, room for the
      bytes, and an upload that is no image of it yet. */
  ghost predicate Confirmable(db: DB, q: Quotas, op: Op)
    requires op.ConfirmImage?
  {
    && IsIn(db, op.w, op.p) && |db.products[op.p].images| < 10
    && StorageBytes(db, op.w) + op.sizeBytes <= q.maxStorageBytes
    && forall image <- db.products[op.p].images :: image.uploadKey != Some(op.uploadKey)
  }

  /** A confirm succeeds exactly then, and otherwise says which condition fails, in this order. */
  lemma ConfirmExactly(db: DB, q: Quotas, op: Op, stored: seq<Key>, newId: Id)
    requires op.ConfirmImage? && |stored| == 2
    ensures var r := WorkConfirm(db, q, op, stored, newId);
            && (r.Success? <==> Confirmable(db, q, op))
            && (r == Failure(ProductNotFound) <==> !IsIn(db, op.w, op.p))
            && (r == Failure(TooManyImages) <==> IsIn(db, op.w, op.p) && |db.products[op.p].images| >= 10)
            && (r == Failure(StorageQuotaReached)
                <==> && IsIn(db, op.w, op.p) && |db.products[op.p].images| < 10
                     && StorageBytes(db, op.w) + op.sizeBytes > q.maxStorageBytes)
    ensures var r := WorkConfirm(db, q, op, stored, newId);
            r == Failure(DuplicateUpload)
            <==> && IsIn(db, op.w, op.p) && |db.products[op.p].images| < 10
                 && StorageBytes(db, op.w) + op.sizeBytes <= q.maxStorageBytes
                 && exists image :: image in db.products[op.p].images && image.uploadKey == Some(op.uploadKey)
  {
    if IsIn(db, op.w, op.p) {
      var images := db.products[op.p].images;
      if image :| image in images && image.uploadKey == Some(op.uploadKey) {
        var i :| 0 <= i < |images| && images[i] == image;
        assert HasUpload(images, op.uploadKey);
      }
    }
  }

  /** The product's images are then the ones it had, followed by the new one. */
  lemma ConfirmAppends(db: DB, q: Quotas, op: Op, stored: seq<Key>, newId: Id)
    requires op.ConfirmImage? && |stored| == 2 && WorkConfirm(db, q, op, stored, newId).Success?
    ensures var e := WorkConfirm(db, q, op, stored, newId).value;
            var row := Apply(db, e.delta).products[op.p];
            && WritesOnly(e.delta, op.p, Some(row)) && e.released == {}
            && row == db.products[op.p].(images := row.images)
            && |row.images| == |db.products[op.p].images| + 1 && row.images[..|row.images| - 1] == db.products[op.p].images
            && var image := row.images[|row.images| - 1];
               && image.id == newId && image.key == stored[0] && image.thumbKey == Some(stored[1])
               && image.uploadKey == Some(op.uploadKey) && image.sizeBytes == op.sizeBytes
               && image.position == |row.images| - 1 && e.next == Reply(Image(image))
  {}

  lemma RemoveImageExactly(db: DB, op: Op)
    requires op.RemoveImage?
    ensures var r := WorkRemove(db, op);
            && (r == Failure(ProductNotFound) <==> !IsIn(db, op.w, op.p))
            && (r == Failure(ImageNotFound)
                <==> IsIn(db, op.w, op.p) && forall image <- db.products[op.p].images :: image.id != op.imageId)
            && (r.Success?
                <==> IsIn(db, op.w, op.p) && exists image :: image in db.products[op.p].images && image.id == op.imageId)
  {
    if IsIn(db, op.w, op.p) {
      var images := db.products[op.p].images;
      var n := IndexOf(images, op.imageId);
      if n < |images| {
        assert images[n] in images;
      }
    }
  }

  /** The other images stay, in their order, and close the gap. */
  lemma RemoveImageCloses(db: DB, op: Op)
    requires op.RemoveImage? && WorkRemove(db, op).Success?
    ensures var e := WorkRemove(db, op).value;
            var row, n := Apply(db, e.delta).products[op.p], IndexOf(db.products[op.p].images, op.imageId);
            var images := db.products[op.p].images;
            && WritesOnly(e.delta, op.p, Some(row)) && row == db.products[op.p].(images := row.images)
            && n < |images| && images[n].id == op.imageId && e.released == images[n].StorageKeys()
            && |row.images| == |images| - 1
            && forall i | 0 <= i < |row.images| :: row.images[i] == images[if i < n then i else i + 1].(position := i)
  {}

  lemma ReorderImagesExactly(db: DB, op: Op)
    requires op.ReorderImages? && (IsIn(db, op.w, op.p) ==> ImagesOk(db.products[op.p].images))
    ensures var r := WorkReorder(db, op);
            && (r == Failure(ProductNotFound) <==> !IsIn(db, op.w, op.p))
            && (r == Failure(NotEveryImageOnce)
                <==> IsIn(db, op.w, op.p) && multiset(op.imageIds) != multiset(Ids(db.products[op.p].images)))
            && (r.Success? <==> IsIn(db, op.w, op.p) && multiset(op.imageIds) == multiset(Ids(db.products[op.p].images)))
            && (r.Success? ==>
                  && WritesOnly(r.value.delta, op.p, Some(Apply(db, r.value.delta).products[op.p]))
                  && Ids(Apply(db, r.value.delta).products[op.p].images) == op.imageIds)
  {
    if IsIn(db, op.w, op.p) {
      ReorderExactly(db.products[op.p], op.imageIds);
    }
  }
}
