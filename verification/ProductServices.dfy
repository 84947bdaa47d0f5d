/** The product use cases as they run (app/application/products.py): transactions that change
    the session step by step, files stored before and deleted after them. Each transaction is
    proved to do what `Catalog` says it does. */
module ProductServices {
  import opened Wrappers
  import opened Entities
  import opened ProductRows
  import opened ProductAggregate
  import opened Catalog
  import opened CatalogBytes
  import opened Purge

  // --- deltas as assignments --------------------------------------------------------

  lemma NothingApplied(db: DB)
    ensures Apply(db, NOTHING) == db
  {
    PatchNone(db.workspaces);
    PatchNone(db.accounts);
    PatchNone(db.members);
    PatchNone(db.products);
  }

  lemma ProductApplied(db: DB, p: Id, row: ProductRow)
    ensures Apply(db, OnProduct(p, Some(row))) == db.(products := db.products[p := row])
    ensures Apply(db, OnProduct(p, None)) == db.(products := db.products - {p})
  {
    PatchNone(db.workspaces);
    PatchNone(db.accounts);
    PatchNone(db.members);
    PatchOne(db.products, p, row);
    PatchOneAway(db.products, p);
  }

  /** One transaction's view of the database, and the rows it wrote or locked. */
  class Session {
    var db: DB
    var locked: set<RowId>

    constructor (db: DB)
      ensures this.db == db && locked == {}
    {
      this.db, locked := db, {};
    }

    /** A transaction opens, reads the database as it is now, and has locked nothing. */
    method Begin(latest: DB)
      modifies this
      ensures db == latest && locked == {}
    {
      db, locked := latest, {};
    }

    /** `workspaces.lock`: only a live workspace's row is there to be locked. */
    method Lock(w: Id)
      modifies this`locked
      ensures locked == old(locked) + LockOf(db, w)
    {
      if Live(db, w) {
        locked := locked + {WorkspaceRow(w)};
      }
    }

    /** `products.get`, which locks the product's row. */
    method Get(w: Id, p: Id) returns (r: Result<Product, ProductError>)
      modifies this`locked
      ensures match FoundProduct(db, w, p)
              case Success(row) => r.Success? && fresh(r.value) && r.value.Row() == row
                                && locked == old(locked) + {CatalogRow(p)}
              case Failure(e) => r == Failure(e) && locked == old(locked)
    {
      if p !in db.products || db.products[p].workspaceId != w {
        return Failure(ProductNotFound);
      }
      locked := locked + {CatalogRow(p)};
      var product := new Product(db.products[p]);
      r := Success(product);
    }

    method Put(p: Id, product: Product)
      modifies this
      ensures db == old(db).(products := old(db).products[p := product.Row()])
      ensures locked == old(locked) + {CatalogRow(p)}
    {
      db := db.(products := db.products[p := product.Row()]);
      locked := locked + {CatalogRow(p)};
    }

    method Delete(p: Id)
      modifies this
      ensures db == old(db).(products := old(db).products - {p})
      ensures locked == old(locked) + {CatalogRow(p)}
    {
      db := db.(products := db.products - {p});
      locked := locked + {CatalogRow(p)};
    }

    /** `products.storage_bytes`. */
    method StorageUsed(w: Id) returns (used: nat)
      ensures used == StorageBytes(db, w)
    {
      used := 0;
      var left := ProductsIn(db, w);
      while left != {}
        invariant left <= ProductsIn(db, w)
        invariant used + BytesOf(db.products, left) == StorageBytes(db, w)
      {
        var p :| p in left;
        BytesSplit(db.products, left, p);
        used := used + ImageBytes(db.products[p].images);
        left := left - {p};
      }
    }
  }

  /** A transaction's work did what `outcome` says: its rows, its locks, or its error. */
  ghost predicate Did(outcome: Outcome, was: DB, db: DB, locked: set<RowId>, error: Option<ProductError>) {
    match outcome
    case Success(e) => error.None? && db == Apply(was, e.delta) && locked == e.conflicts
    case Failure(x) => error == Some(x) && db == was
  }

  class ProductService {
    const session: Session
    const media: MediaStorage
    const quotas: Quotas

    constructor (session: Session, media: MediaStorage, quotas: Quotas)
      ensures this.session == session && this.media == media && this.quotas == quotas
    {
      this.session, this.media, this.quotas := session, media, quotas;
    }

    // --- the transactions -------------------------------------------------------------

    method Create(op: Op, now: Time, newId: Id) returns (error: Option<ProductError>)
      requires op.CreateProduct? && session.locked == {}
      modifies session
      ensures Did(WorkCreate(old(session.db), quotas, op, now, newId), old(session.db), session.db, session.locked, error)
    {
      session.Lock(op.w);
      if |ProductsIn(session.db, op.w)| >= quotas.maxProducts {
        return Some(ProductQuotaReached);
      }
      var row := ProductRow(op.w, op.name, op.sku, op.price, op.status, op.description, now, now, []);
      if InvariantError(row).Some? {
        return InvariantError(row);
      }
      ProductApplied(session.db, newId, row);
      var product := new Product(row);
      session.Put(newId, product);
      error := None;
    }

    method Update(op: Op, now: Time) returns (error: Option<ProductError>)
      requires op.UpdateProduct? && session.locked == {} && OncePerField(op.changes)
      modifies session
      ensures Did(WorkUpdate(old(session.db), op, now), old(session.db), session.db, session.locked, error)
    {
      var found := session.Get(op.w, op.p);
      if found.Failure? {
        return Some(found.error);
      }
      var product := found.value;
      if op.ifMatch.Some? && op.ifMatch.value != product.updatedAt {
        return Some(ModifiedSinceLoaded);
      }
      var changed := product.Update(op.changes, now);
      if changed.Failure? {
        return Some(changed.error);
      }
      NothingApplied(session.db);
      ProductApplied(session.db, op.p, product.Row());
      assert session.db.products[op.p := session.db.products[op.p]] == session.db.products;
      session.Put(op.p, product);
      error := None;
    }

    method Remove(op: Op) returns (error: Option<ProductError>, keys: set<Key>)
      requires op.RemoveImage? && session.locked == {}
      modifies session
      ensures Did(WorkRemove(old(session.db), op), old(session.db), session.db, session.locked, error)
      ensures error.None? ==> keys == WorkRemove(old(session.db), op).value.released
    {
      keys := {};
      var found := session.Get(op.w, op.p);
      if found.Failure? {
        return Some(found.error), keys;
      }
      var product := found.value;
      var image := product.RemoveImage(op.imageId);
      if image.Failure? {
        return Some(image.error), keys;
      }
      ProductApplied(session.db, op.p, product.Row());
      session.Put(op.p, product);
      error, keys := None, image.value.StorageKeys();
    }

    method Reorder(op: Op) returns (error: Option<ProductError>)
      requires op.ReorderImages? && session.locked == {}
      modifies session
      ensures Did(WorkReorder(old(session.db), op), old(session.db), session.db, session.locked, error)
    {
      var found := session.Get(op.w, op.p);
      if found.Failure? {
        return Some(found.error);
      }
      var product := found.value;
      var done := product.ReorderImages(op.imageIds);
      if done.Failure? {
        return Some(done.error);
      }
      ProductApplied(session.db, op.p, product.Row());
      session.Put(op.p, product);
      error := None;
    }

    method DeleteRow(op: Op) returns (error: Option<ProductError>, keys: set<Key>)
      requires op.DeleteProduct? && session.locked == {}
      modifies session
      ensures Did(WorkDelete(old(session.db), op), old(session.db), session.db, session.locked, error)
      ensures error.None? ==> keys == WorkDelete(old(session.db), op).value.released
    {
      keys := {};
      var found := session.Get(op.w, op.p);
      if found.Failure? {
        return Some(found.error), keys;
      }
      ProductApplied(session.db, op.p, found.value.Row());
      session.Delete(op.p);
      error, keys := None, StorageKeys(found.value.images);
    }

    /** `_attach`. The unique upload key is checked when the new row is written. */
    method Attach(op: Op, stored: seq<Key>, newId: Id) returns (r: Result<ProductImage, ProductError>)
      requires op.ConfirmImage? && |stored| == 2 && session.locked == {}
      modifies session
      ensures var outcome := WorkConfirm(old(session.db), quotas, op, stored, newId);
              && Did(outcome, old(session.db), session.db, session.locked, if r.Failure? then Some(r.error) else None)
              && (r.Success? ==> outcome.value.next == Reply(Image(r.value)))
    {
      session.Lock(op.w);
      var found := session.Get(op.w, op.p);
      if found.Failure? {
        return Failure(found.error);
      }
      var product := found.value;
      if |product.images| >= MAX_IMAGES_PER_PRODUCT {
        return Failure(TooManyImages);
      }
      var used := session.StorageUsed(op.w);
      if used + op.sizeBytes > quotas.maxStorageBytes {
        return Failure(StorageQuotaReached);
      }
      var image := ProductImage(newId, stored[0], Some(stored[1]), Some(op.uploadKey), op.sizeBytes, |product.images|);
      var duplicate := HasUpload(product.images, op.uploadKey);
      var added := product.AddImage(image);
      if duplicate {
        return Failure(DuplicateUpload);
      }
      ProductApplied(session.db, op.p, product.Row());
      session.Put(op.p, product);
      r := Success(image);
    }

    // --- the use cases around them ----------------------------------------------------

    /** `delete`: the files go after the commit. */
    method Delete(op: Op) returns (error: Option<ProductError>)
      requires op.DeleteProduct? && session.locked == {}
      modifies session, media
      ensures var work := WorkDelete(old(session.db), op);
              && Did(work, old(session.db), session.db, session.locked, error)
              && media.objects == old(media.objects) - (if work.Success? then work.value.released else {})
    {
      var keys;
      error, keys := DeleteRow(op);
      if error.None? {
        media.DeleteAll(keys);
      }
    }

    /** `remove_image`. */
    method RemoveImage(op: Op) returns (error: Option<ProductError>)
      requires op.RemoveImage? && session.locked == {}
      modifies session, media
      ensures var work := WorkRemove(old(session.db), op);
              && Did(work, old(session.db), session.db, session.locked, error)
              && media.objects == old(media.objects) - (if work.Success? then work.value.released else {})
    {
      var keys;
      error, keys := Remove(op);
      if error.None? {
        media.DeleteAll(keys);
      }
    }

    /** `image_by_upload_key`. */
    method ImageByUpload(p: Id, upload: Id) returns (found: Option<ProductImage>)
      ensures found == Winner(session.db, p, upload)
    {
      found := None;
      if p in session.db.products {
        var images := session.db.products[p].images;
        for i := 0 to |images|
          invariant forall j | 0 <= j < i :: images[j].uploadKey != Some(upload)
          invariant found.None?
        {
          if images[i].uploadKey == Some(upload) {
            FirstIsWinner(images, upload, i);
            return Some(images[i]);
          }
        }
        NoWinner(images, upload);
      }
    }

    /** `confirm_image`, while others commit: the checks read the database as it was, the
        transaction reads `meanwhile`, and its commit may fail for good (`lost`). By the time the
        files are discarded and the winner is looked up, the database is `later`. */
    method ConfirmImage(op: Op, pendingSize: nat, stored: seq<Key>, newId: Id, meanwhile: DB,
                        lost: Option<ProductError>, later: DB)
      returns (r: Result<ProductImage, ProductError>)
      requires op.ConfirmImage? && |stored| == 2 && KeySet(stored) !! media.objects
      modifies session, media
      ensures ConfirmDid(old(session.db), old(media.objects), quotas, op, pendingSize, stored, newId, meanwhile, lost,
                         later, session.db, media.objects, r)
    {
      ghost var objects := media.objects;
      if op.p !in session.db.products || session.db.products[op.p].workspaceId != op.w {
        return Failure(ProductNotFound);
      }
      var existing := ImageByUpload(op.p, op.uploadKey);
      if existing.Some? {
        return Success(existing.value);
      }
      var used := session.StorageUsed(op.w);
      if used + pendingSize > quotas.maxStorageBytes {
        return Failure(StorageQuotaReached);
      }
      if |session.db.products[op.p].images| >= MAX_IMAGES_PER_PRODUCT {
        return Failure(TooManyImages);
      }
      media.objects := media.objects + KeySet(stored);
      session.Begin(meanwhile);
      r := Attach(op, stored, newId);
      if r.Success? && lost.Some? {
        r := Failure(lost.value);
      }
      if r.Failure? {
        session.Begin(later);
        media.Delete(stored[0]);
        media.Delete(stored[1]);
        assert media.objects == objects;
        if r.error == DuplicateUpload {
          var winner := ImageByUpload(op.p, op.uploadKey);
          if winner.Some? {
            r := Success(winner.value);
          }
        }
      }
    }
  }

  /** The image of a product that came from an upload, if any. */
  function Winner(db: DB, p: Id, upload: Id): Option<ProductImage> {
    if p in db.products then FirstOfUpload(db.products[p].images, upload) else None
  }

  function FirstOfUpload(images: seq<ProductImage>, upload: Id): Option<ProductImage> {
    if images == [] then None
    else if images[0].uploadKey == Some(upload) then Some(images[0])
    else FirstOfUpload(images[1..], upload)
  }

  lemma {:induction false} FirstIsWinner(images: seq<ProductImage>, upload: Id, i: nat)
    requires i < |images| && images[i].uploadKey == Some(upload)
    requires forall j | 0 <= j < i :: images[j].uploadKey != Some(upload)
    ensures FirstOfUpload(images, upload) == Some(images[i])
  {
    if i > 0 {
      FirstIsWinner(images[1..], upload, i - 1);
    }
  }

  lemma {:induction false} NoWinner(images: seq<ProductImage>, upload: Id)
    requires forall j | 0 <= j < |images| :: images[j].uploadKey != Some(upload)
    ensures FirstOfUpload(images, upload) == None
  {
    if images != [] {
      NoWinner(images[1..], upload);
    }
  }

  /** What a confirm leaves: either it attached its own two files, or nothing of it is left in
      the bucket or the database. A confirm refused because its upload key is taken, by its work
      or at its commit, answers the image of that upload there is when it looks, if any. */
  ghost predicate ConfirmDid(was: DB, objects: set<Key>, q: Quotas, op: Op, pendingSize: nat, stored: seq<Key>,
                             newId: Id, meanwhile: DB, lost: Option<ProductError>, later: DB,
                             db: DB, objects': set<Key>, r: Result<ProductImage, ProductError>)
    requires op.ConfirmImage? && |stored| == 2
  {
    var work := WorkConfirm(meanwhile, q, op, stored, newId);
    if FoundProduct(was, op.w, op.p).Failure? then
      r == Failure(ProductNotFound) && db == was && objects' == objects
    else if Winner(was, op.p, op.uploadKey).Some? then
      r == Success(Winner(was, op.p, op.uploadKey).value) && db == was && objects' == objects
    else if StorageBytes(was, op.w) + pendingSize > q.maxStorageBytes then
      r == Failure(StorageQuotaReached) && db == was && objects' == objects
    else if |was.products[op.p].images| >= MAX_IMAGES_PER_PRODUCT then
      r == Failure(TooManyImages) && db == was && objects' == objects
    else if work.Success? && lost.None? then
      && work.value.next == (if r.Success? then Reply(Image(r.value)) else LookUp)
      && db == Apply(meanwhile, work.value.delta) && objects' == objects + KeySet(stored)
    else
      && db == later && objects' == objects
      && var error := if work.Failure? then work.error else lost.value;
         var winner := Winner(later, op.p, op.uploadKey);
         r == if error == DuplicateUpload && winner.Some? then Success(winner.value) else Failure(error)
  }

  /** A confirm that lost the race for its upload key answers with the winner's image. */
  lemma {:induction false} LoserAnswersWithTheWinner(images: seq<ProductImage>, upload: Id)
    ensures FirstOfUpload(images, upload).Some? <==> HasUpload(images, upload)
    ensures FirstOfUpload(images, upload).Some? ==>
              FirstOfUpload(images, upload).value in images
              && FirstOfUpload(images, upload).value.uploadKey == Some(upload)
  {
    if images != [] {
      LoserAnswersWithTheWinner(images[1..], upload);
      assert images == [images[0]] + images[1..];
      if HasUpload(images, upload) && images[0].uploadKey != Some(upload) {
        var i :| 0 <= i < |images| && images[i].uploadKey == Some(upload);
        assert images[1..][i - 1].uploadKey == Some(upload);
      }
      if HasUpload(images[1..], upload) {
        var i :| 0 <= i < |images[1..]| && images[1..][i].uploadKey == Some(upload);
        assert images[i + 1].uploadKey == Some(upload);
      }
    }
  }
}
