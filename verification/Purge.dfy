/** The end of deleted workspaces (app/application/purge.py): products in batches
    with their files, then the other rows and the logo. Each batch commits on its own. */
module Purge {
  import opened Wrappers
  import opened Entities
  import opened ProductRows
  import opened Store
  import opened UseCases
  import opened Services

  const ROWS_PER_TRANSACTION := 3000

  function KeysOfProducts(products: map<Id, ProductRow>, ids: set<Id>): set<Key> {
    set p, k | p in ids && p in products && k in StorageKeys(products[p].images) :: k
  }

  // --- what a batch touches ---------------------------------------------------------

  /** The image rows of the given products, one per product and place. */
  function ImageRows(products: map<Id, ProductRow>, ids: set<Id>): set<(Id, int)>
    requires ids <= products.Keys
  {
    set p, i: int | p in ids && 0 <= i < |products[p].images| :: (p, i)
  }

  ghost predicate ImagesBounded(products: map<Id, ProductRow>) {
    forall p <- products :: |products[p].images| <= MAX_IMAGES_PER_PRODUCT
  }

  lemma {:induction false} ImageRowsOfOne(products: map<Id, ProductRow>, p: Id, n: nat)
    requires p in products && n <= |products[p].images|
    ensures |set i: int | 0 <= i < n :: (p, i)| == n
  {
    var rows := set i: int | 0 <= i < n :: (p, i);
    if n == 0 {
      assert rows == {};
    } else {
      ImageRowsOfOne(products, p, n - 1);
      assert rows == (set i: int | 0 <= i < n - 1 :: (p, i)) + {(p, n - 1)};
    }
  }

  lemma {:induction false} ImageRowsBounded(products: map<Id, ProductRow>, ids: set<Id>)
    requires ids <= products.Keys && ImagesBounded(products)
    ensures |ImageRows(products, ids)| <= MAX_IMAGES_PER_PRODUCT * |ids|
    decreases ids
  {
    if ids == {} {
      assert ImageRows(products, ids) == {};
    } else {
      var p :| p in ids;
      var mine := set i: int | 0 <= i < |products[p].images| :: (p, i);
      ImageRowsOfOne(products, p, |products[p].images|);
      ImageRowsBounded(products, ids - {p});
      assert ImageRows(products, ids) == ImageRows(products, ids - {p}) + mine;
    }
  }

  /** A batch with its images stays under the rows one transaction may modify, because no
      product has more than ten images. */
  lemma BatchFitsATransaction(products: map<Id, ProductRow>, ids: set<Id>)
    requires ids <= products.Keys && ImagesBounded(products) && |ids| <= PRODUCT_BATCH
    ensures |ids| + |ImageRows(products, ids)| <= 2200 < ROWS_PER_TRANSACTION
  {
    ImageRowsBounded(products, ids);
  }

  // --- what a purge leaves ----------------------------------------------------------

  function RolesIn(t: Tables, ws: set<Id>): set<Id> {
    set r <- t.roles | t.roles[r].workspaceId in ws
  }

  /** The tables without anything that belongs to the workspaces `ws`. */
  function Without(t: Tables, ws: set<Id>): Tables {
    t.(products := map p <- t.products | t.products[p].workspaceId !in ws :: t.products[p],
    grants := t.grants - RolesIn(t, ws),
    roles := t.roles - RolesIn(t, ws),
    members := map m <- t.members | m.0 !in ws :: t.members[m],
    invitations := map i <- t.invitations | t.invitations[i].workspaceId !in ws :: t.invitations[i],
    workspaces := t.workspaces - ws)
  }

  /** The files of the workspaces `ws`: their products' images and their logos. */
  function KeysOf(t: Tables, ws: set<Id>): set<Key> {
    (set p, k | p in t.products && t.products[p].workspaceId in ws && k in StorageKeys(t.products[p].images) :: k)
    + (set w | w in ws && w in t.workspaces && t.workspaces[w].logoKey.Some? :: t.workspaces[w].logoKey.value)
  }

  /** An image points at its object and, if it has one, its thumbnail. */
  lemma ImageFilesExactly(images: seq<ProductImage>, k: Key)
    ensures k in StorageKeys(images) <==> exists image :: image in images && (image.key == k || image.thumbKey == Some(k))
  {
    if k in StorageKeys(images) {
      var i :| 0 <= i < |images| && k in images[i].StorageKeys();
      assert images[i] in images && (images[i].key == k || images[i].thumbKey == Some(k));
    }
    if image :| image in images && (image.key == k || image.thumbKey == Some(k)) {
      var i :| 0 <= i < |images| && images[i] == image;
      assert k in images[i].StorageKeys();
    }
  }

  /** The files of purged workspaces: every object an image of theirs points at, and their logos. */
  lemma PurgedFilesExactly(t: Tables, ws: set<Id>, k: Key)
    ensures k in KeysOf(t, ws)
       <==> || (exists p, image :: p in t.products && t.products[p].workspaceId in ws && image in t.products[p].images
                                    && (image.key == k || image.thumbKey == Some(k)))
            || exists w :: w in ws && w in t.workspaces && t.workspaces[w].logoKey == Some(k)
  {
    forall p <- t.products {
      ImageFilesExactly(t.products[p].images, k);
    }
  }

  /** Nothing of the workspaces is left, and every row that is not theirs is as it was. */
  lemma PurgeFinishesAndFrames(t: Tables, ws: set<Id>)
    ensures var t' := Without(t, ws);
            && (forall p <- t'.products :: t'.products[p].workspaceId !in ws)
            && (forall r <- t'.roles :: t'.roles[r].workspaceId !in ws)
            && (forall r <- t'.grants :: r in t'.roles || r !in t.roles)
            && (forall m <- t'.members :: m.0 !in ws)
            && (forall i <- t'.invitations :: t'.invitations[i].workspaceId !in ws)
            && t'.workspaces.Keys !! ws
    ensures var t' := Without(t, ws);
            && (forall p <- t.products :: t.products[p].workspaceId !in ws ==> p in t'.products && t'.products[p] == t.products[p])
            && (forall r <- t.roles :: t.roles[r].workspaceId !in ws ==>
                  r in t'.roles && t'.roles[r] == t.roles[r] && Permissions(t', r) == Permissions(t, r))
            && (forall m <- t.members :: m.0 !in ws ==> m in t'.members && t'.members[m] == t.members[m])
            && (forall i <- t.invitations :: t.invitations[i].workspaceId !in ws ==>
                  i in t'.invitations && t'.invitations[i] == t.invitations[i])
            && (forall w <- t.workspaces :: w !in ws ==> w in t'.workspaces && t'.workspaces[w] == t.workspaces[w])
            && t'.users == t.users
  {
  }

  /** A purge that stopped after deleting some of the products, and is run again, leaves the
      same rows as one that ran through. */
  lemma RerunReachesTheSameRows(t: Tables, w: Id, gone: set<Id>)
    requires gone <= ProductsOf(t.products, w)
    ensures Without(t.(products := t.products - gone), {w}) == Without(t, {w})
    ensures Without(Without(t, {w}), {w}) == Without(t, {w})
  {
  }

  lemma RolePurgesCompose(t: Tables, ws: set<Id>, w: Id)
    ensures Without(Without(t, ws), {w}).roles == Without(t, ws + {w}).roles
    ensures Without(Without(t, ws), {w}).grants == Without(t, ws + {w}).grants
  {
    assert RolesIn(t, ws + {w}) == RolesIn(t, ws) + RolesIn(Without(t, ws), {w});
  }

  lemma PurgesCompose(t: Tables, ws: set<Id>, w: Id)
    ensures Without(Without(t, ws), {w}) == Without(t, ws + {w})
  {
    var a, b := Without(Without(t, ws), {w}), Without(t, ws + {w});
    RolePurgesCompose(t, ws, w);
    assert a.products == b.products && a.members == b.members;
    assert a.invitations == b.invitations && a.workspaces == b.workspaces;
  }

  lemma KeysCompose(t: Tables, ws: set<Id>, w: Id)
    ensures KeysOf(t, ws) + KeysOf(Without(t, ws), {w}) == KeysOf(t, ws + {w})
  {
    var t1 := Without(t, ws);
    forall k <- KeysOf(t, ws + {w}) ensures k in KeysOf(t, ws) + KeysOf(t1, {w}) {
      if p :| p in t.products && t.products[p].workspaceId in ws + {w} && k in StorageKeys(t.products[p].images) {
        assert p in t1.products || t.products[p].workspaceId in ws;
      } else {
        var v :| v in ws + {w} && v in t.workspaces && t.workspaces[v].logoKey.Some? && t.workspaces[v].logoKey.value == k;
        assert v in t1.workspaces || v in ws;
      }
    }
  }

  /** `purge_rows` on tables whose products of `w` are gone completes the purge of `w`. */
  lemma RowsThenWithout(t: Tables, w: Id)
    requires w in t.workspaces && !t.workspaces[w].Live()
    ensures PurgeRows(t.(products := t.products - ProductsOf(t.products, w)), w) == Without(t, {w})
  {
    assert RoleIdsOf(t, w) == RolesIn(t, {w});
    assert t.products - ProductsOf(t.products, w) == Without(t, {w}).products;
  }

  // --- the loop ---------------------------------------------------------------------

  /** The bucket: deleting an object that is not there changes nothing. */
  class MediaStorage {
    var objects: set<Key>

    constructor (objects: set<Key>)
      ensures this.objects == objects
    {
      this.objects := objects;
    }

    method Delete(key: Key)
      modifies this
      ensures objects == old(objects) - {key}
    {
      objects := objects - {key};
    }

    method DeleteAll(keys: set<Key>)
      modifies this
      ensures objects == old(objects) - keys
    {
      var left := keys;
      while left != {}
        invariant left <= keys
        invariant objects == old(objects) - (keys - left)
      {
        var key :| key in left;
        Delete(key);
        left := left - {key};
      }
    }
  }

  class WorkspacePurge {
    const uow: UnitOfWork
    const media: MediaStorage

    constructor (uow: UnitOfWork, media: MediaStorage)
      ensures this.uow == uow && this.media == media
    {
      this.uow := uow;
      this.media := media;
    }

    /** Up to `limit` products of `w`, whichever the database returns, go with their images. */
    method DeleteBatch(w: Id, limit: nat) returns (deleted: nat, keys: set<Key>, ghost ids: set<Id>)
      modifies uow
      ensures ids <= ProductsOf(old(uow.products), w) && |ids| == deleted
      ensures deleted == Min(limit, |ProductsOf(old(uow.products), w)|)
      ensures uow.Tables() == old(uow.Tables()).(products := old(uow.products) - ids)
      ensures keys == KeysOfProducts(old(uow.products), ids)
      ensures ImagesBounded(old(uow.products)) && limit <= PRODUCT_BATCH ==>
                |ids| + |ImageRows(old(uow.products), ids)| <= 2200 < ROWS_PER_TRANSACTION
    {
      var mine := ProductsOf(uow.products, w);
      var chosen := {};
      while |chosen| < limit && chosen != mine
        invariant chosen <= mine && |chosen| <= limit
        decreases mine - chosen
      {
        assert mine - chosen != {};
        var p :| p in mine - chosen;
        chosen := chosen + {p};
      }
      ids := chosen;
      FullSubset(chosen, mine);
      if ImagesBounded(uow.products) && limit <= PRODUCT_BATCH {
        BatchFitsATransaction(uow.products, chosen);
      }
      keys := KeysOfProducts(uow.products, chosen);
      uow.products := uow.products - chosen;
      deleted := |chosen|;
    }

    /** One round of the loop: a batch goes with its files; a short one was the last. */
    method PurgeBatch(w: Id) returns (more: bool, ghost ids: set<Id>)
      modifies uow, media
      ensures ids <= ProductsOf(old(uow.products), w)
      ensures if more then ids != {} else ids == ProductsOf(old(uow.products), w)
      ensures uow.Tables() == old(uow.Tables()).(products := old(uow.products) - ids)
      ensures media.objects == old(media.objects) - KeysOfProducts(old(uow.products), ids)
    {
      ghost var left := ProductsOf(uow.products, w);
      var deleted, keys;
      deleted, keys, ids := DeleteBatch(w, PRODUCT_BATCH);
      media.DeleteAll(keys);
      more := deleted >= PRODUCT_BATCH;
      if !more {
        FullSubset(ids, left);
      }
    }

    /** All products of `w` go, in batches that each fit one transaction. */
    method PurgeProducts(w: Id)
      modifies uow, media
      ensures uow.Tables() == old(uow.Tables()).(products := old(uow.products) - ProductsOf(old(uow.products), w))
      ensures media.objects == old(media.objects) - KeysOfProducts(old(uow.products), ProductsOf(old(uow.products), w))
    {
      ghost var before := uow.Tables();
      ghost var all, gone := ProductsOf(before.products, w), {};
      assert before.products - gone == before.products;
      var more := true;
      while more
        invariant gone <= all && (!more ==> gone == all)
        invariant uow.Tables() == before.(products := before.products - gone)
        invariant media.objects == old(media.objects) - KeysOfProducts(before.products, gone)
        decreases all - gone, more
      {
        assert ProductsOf(uow.products, w) == all - gone;
        ghost var ids;
        more, ids := PurgeBatch(w);
        BatchAdds(before.products, w, gone, ids);
        gone := gone + ids;
      }
    }

    /** The rows of a soft-deleted workspace, and the key of its logo. */
    method PurgeTheRows(w: Id) returns (logoKey: Option<Key>)
      modifies uow
      ensures uow.Tables() == PurgeRows(old(uow.Tables()), w)
      ensures logoKey == if w in old(uow.workspaces) && !old(uow.workspaces)[w].Live()
                         then old(uow.workspaces)[w].logoKey else None
    {
      logoKey := None;
      if w in uow.workspaces && !uow.workspaces[w].Live() {
        logoKey := uow.workspaces[w].logoKey;
        var roleIds := RoleIdsOf(uow.Tables(), w);
        uow.grants := uow.grants - roleIds;
        uow.roles := uow.roles - roleIds;
        uow.members := WithoutMembersOf(uow.members, w);
        uow.invitations := map i <- uow.invitations | uow.invitations[i].workspaceId != w :: uow.invitations[i];
        uow.workspaces := uow.workspaces - {w};
      }
    }

    /** Everything a soft-deleted workspace holds goes; one that is not soft-deleted only loses
        its products. */
    method Purge(w: Id)
      modifies uow, media
      ensures var t, objects := old(uow.Tables()), old(media.objects);
              if w in t.workspaces && !t.workspaces[w].Live()
              then uow.Tables() == Without(t, {w}) && media.objects == objects - KeysOf(t, {w})
              else && uow.Tables() == t.(products := t.products - ProductsOf(t.products, w))
                   && media.objects == objects - KeysOfProducts(t.products, ProductsOf(t.products, w))
    {
      ghost var t := uow.Tables();
      PurgeProducts(w);
      var logoKey := PurgeTheRows(w);
      if logoKey.Some? {
        media.Delete(logoKey.value);
      }
      if w in t.workspaces && !t.workspaces[w].Live() {
        RowsThenWithout(t, w);
        KeysThenLogo(t, w);
      }
    }

    /** The scheduled job: afterwards no soft-deleted workspace is left, and nothing else went. */
    method PurgeAll() returns (purged: nat)
      modifies uow, media
      ensures var ws := set w <- old(uow.workspaces) | !old(uow.workspaces)[w].Live();
              && purged == |ws|
              && uow.Tables() == Without(old(uow.Tables()), ws)
              && media.objects == old(media.objects) - KeysOf(old(uow.Tables()), ws)
    {
      ghost var before := uow.Tables();
      var ids := set w <- uow.workspaces | !uow.workspaces[w].Live();
      var left := ids;
      NothingGone(before);
      while left != {}
        invariant left <= ids
        invariant uow.Tables() == Without(before, ids - left)
        invariant media.objects == old(media.objects) - KeysOf(before, ids - left)
      {
        var w :| w in left;
        ghost var done := ids - left;
        PurgesCompose(before, done, w);
        KeysCompose(before, done, w);
        Purge(w);
        left := left - {w};
        assert ids - left == done + {w};
      }
      purged := |ids|;
      assert ids - left == ids;
    }
  }

  lemma KeysThenLogo(t: Tables, w: Id)
    requires w in t.workspaces
    ensures KeysOf(t, {w}) == KeysOfProducts(t.products, ProductsOf(t.products, w))
                              + (if t.workspaces[w].logoKey.Some? then {t.workspaces[w].logoKey.value} else {})
  {
  }

  lemma NothingGone(t: Tables)
    ensures Without(t, {}) == t && KeysOf(t, {}) == {}
  {
  }

  lemma FullSubset(some: set<Id>, ids: set<Id>)
    requires some <= ids
    ensures |some| <= |ids| && (|some| == |ids| ==> some == ids)
  {
    assert ids == some + (ids - some);
  }

  lemma BatchAdds(products: map<Id, ProductRow>, w: Id, gone: set<Id>, ids: set<Id>)
    requires gone <= ProductsOf(products, w) && ids <= ProductsOf(products - gone, w)
    ensures KeysOfProducts(products, gone) + KeysOfProducts(products - gone, ids) == KeysOfProducts(products, gone + ids)
    ensures products - gone - ids == products - (gone + ids)
  {
  }
}
