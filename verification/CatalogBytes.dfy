/** Sums of image sizes: what a change of one product does to a workspace's storage. */
module CatalogBytes {
  import opened Entities
  import opened ProductRows
  import opened Catalog

  // --- one product ------------------------------------------------------------------

  lemma {:induction false} BytesOfConcat(a: seq<ProductImage>, b: seq<ProductImage>)
    ensures ImageBytes(a + b) == ImageBytes(a) + ImageBytes(b)
    decreases b
  {
    if b == [] {
      assert a + b == a;
    } else {
      assert (a + b)[..|a + b| - 1] == a + b[..|b| - 1];
      BytesOfConcat(a, b[..|b| - 1]);
    }
  }

  lemma {:induction false} PositionsCarryNoBytes(images: seq<ProductImage>)
    ensures ImageBytes(Renumbered(images)) == ImageBytes(images)
  {
    if images != [] {
      var n := |images| - 1;
      assert Renumbered(images)[..n] == Renumbered(images[..n]);
      PositionsCarryNoBytes(images[..n]);
    }
  }

  lemma RemovingFreesBytes(p: ProductRow, imageId: Id)
    requires WithoutImage(p, imageId).Success?
    ensures ImageBytes(WithoutImage(p, imageId).value.images) + p.images[IndexOf(p.images, imageId)].sizeBytes
         == ImageBytes(p.images)
  {
    var n := IndexOf(p.images, imageId);
    var front, back := p.images[..n], p.images[n + 1..];
    PositionsCarryNoBytes(front + back);
    BytesOfConcat(front, back);
    assert p.images[..n + 1][..n] == front;
    BytesOfConcat(p.images[..n + 1], back);
    assert p.images == p.images[..n + 1] + back;
  }

  /** The sizes of the images with these ids. */
  function BytesAt(images: seq<ProductImage>, ids: seq<Id>): nat
    requires forall id <- ids :: IndexOf(images, id) < |images|
  {
    if ids == [] then 0 else images[IndexOf(images, ids[0])].sizeBytes + BytesAt(images, ids[1..])
  }

  lemma {:induction false} BytesAtConcat(images: seq<ProductImage>, a: seq<Id>, b: seq<Id>)
    requires forall id <- a + b :: IndexOf(images, id) < |images|
    ensures (forall id <- a :: id in a + b) && (forall id <- b :: id in a + b)
    ensures BytesAt(images, a + b) == BytesAt(images, a) + BytesAt(images, b)
  {
    if a == [] {
      assert a + b == b;
    } else {
      assert (a + b)[1..] == a[1..] + b;
      BytesAtConcat(images, a[1..], b);
    }
  }

  lemma WithoutOne(s: seq<Id>, i: nat)
    requires i < |s|
    ensures multiset(s[..i] + s[i + 1..]) == multiset(s) - multiset{s[i]}
  {
    assert s == s[..i] + [s[i]] + s[i + 1..];
  }

  lemma BytesWithoutOne(images: seq<ProductImage>, ids: seq<Id>, i: nat)
    requires i < |ids| && forall id <- ids :: IndexOf(images, id) < |images|
    ensures forall id <- ids[..i] + ids[i + 1..] :: id in ids
    ensures BytesAt(images, ids) == images[IndexOf(images, ids[i])].sizeBytes + BytesAt(images, ids[..i] + ids[i + 1..])
  {
    BytesAtConcat(images, ids[..i], ids[i + 1..]);
    BytesAtConcat(images, ids[..i], ids[i..]);
    assert ids == ids[..i] + ids[i..] && ids[i..][1..] == ids[i + 1..];
  }

  lemma {:induction false} BytesIgnoreOrder(images: seq<ProductImage>, a: seq<Id>, b: seq<Id>)
    requires multiset(a) == multiset(b)
    requires (forall id <- a :: IndexOf(images, id) < |images|) && forall id <- b :: IndexOf(images, id) < |images|
    ensures BytesAt(images, a) == BytesAt(images, b)
    decreases a
  {
    if a == [] {
      assert |b| == |multiset(b)|;
    } else {
      assert a[0] in multiset(b);
      var i :| 0 <= i < |b| && b[i] == a[0];
      TailOf(a);
      WithoutOne(b, i);
      BytesWithoutOne(images, b, i);
      BytesIgnoreOrder(images, a[1..], b[..i] + b[i + 1..]);
    }
  }

  lemma {:induction false} BytesInOrder(images: seq<ProductImage>, ids: seq<Id>)
    requires forall id <- ids :: IndexOf(images, id) < |images|
    ensures ImageBytes(InOrder(images, ids)) == BytesAt(images, ids)
  {
    if ids == [] {
    } else {
      var n := |ids| - 1;
      assert ids == ids[..n] + [ids[n]];
      BytesInOrder(images, ids[..n]);
      BytesAtConcat(images, ids[..n], [ids[n]]);
      assert InOrder(images, ids)[..n] == InOrder(images, ids[..n]);
    }
  }

  lemma OwnOrder(images: seq<ProductImage>)
    requires ImagesOk(images)
    ensures forall id <- Ids(images) :: IndexOf(images, id) < |images|
    ensures InOrder(images, Ids(images)) == images
  {
    forall i | 0 <= i < |images| ensures IndexOf(images, images[i].id) == i {
      var a := IndexOf(images, images[i].id);
      assert a < i ==> Apart(images[a], images[i]);
    }
  }

  lemma ReorderingKeepsBytes(p: ProductRow, ids: seq<Id>)
    requires ImagesOk(p.images) && Reordered(p, ids).Success?
    ensures ImageBytes(Reordered(p, ids).value.images) == ImageBytes(p.images)
  {
    SortedMeansHeld(p.images, ids);
    SortedListsDecidePermutation(ids, Ids(p.images));
    OwnOrder(p.images);
    BytesInOrder(p.images, ids);
    BytesInOrder(p.images, Ids(p.images));
    BytesIgnoreOrder(p.images, ids, Ids(p.images));
  }

  // --- a set of products ------------------------------------------------------------

  /** The sum does not depend on the order it is taken in. */
  lemma {:induction false} BytesSplit(products: map<Id, ProductRow>, ids: set<Id>, p: Id)
    requires ids <= products.Keys && p in ids
    ensures BytesOf(products, ids) == ImageBytes(products[p].images) + BytesOf(products, ids - {p})
    decreases ids
  {
    var first :| first in ids && BytesOf(products, ids) == ImageBytes(products[first].images) + BytesOf(products, ids - {first});
    if first != p {
      BytesSplit(products, ids - {first}, p);
      BytesSplit(products, ids - {p}, first);
      assert ids - {first} - {p} == ids - {p} - {first};
    }
  }

  /** Fewer products, none of them larger: fewer bytes. */
  lemma {:induction false} BytesShrink(a: map<Id, ProductRow>, b: map<Id, ProductRow>, more: set<Id>, fewer: set<Id>)
    requires fewer <= more <= a.Keys && fewer <= b.Keys
    requires forall p <- fewer :: ImageBytes(b[p].images) <= ImageBytes(a[p].images)
    ensures BytesOf(b, fewer) <= BytesOf(a, more)
    decreases more
  {
    if more == {} {
    } else {
      var p :| p in more;
      BytesSplit(a, more, p);
      if p in fewer {
        BytesSplit(b, fewer, p);
      }
      assert p !in fewer ==> fewer - {p} == fewer;
      BytesShrink(a, b, more - {p}, fewer - {p});
    }
  }

  /** `b` has no more of workspace `w` than `a`: no new product, and no larger one. */
  ghost predicate NoGrowth(a: DB, b: DB, w: Id) {
    && ProductsIn(b, w) <= ProductsIn(a, w)
    && forall p <- ProductsIn(b, w) :: ImageBytes(b.products[p].images) <= ImageBytes(a.products[p].images)
  }

  lemma {:induction false} SmallerSet(a: set<Id>, b: set<Id>)
    requires a <= b
    ensures |a| <= |b|
  {
    if a != {} {
      var x :| x in a;
      SmallerSet(a - {x}, b - {x});
    }
  }

  lemma NoGrowthMeansNoMore(a: DB, b: DB, w: Id)
    requires NoGrowth(a, b, w)
    ensures |ProductsIn(b, w)| <= |ProductsIn(a, w)|
    ensures StorageBytes(b, w) <= StorageBytes(a, w)
  {
    SmallerSet(ProductsIn(b, w), ProductsIn(a, w));
    BytesShrink(a.products, b.products, ProductsIn(a, w), ProductsIn(b, w));
  }

  lemma NoGrowthComposes(a: DB, b: DB, c: DB, w: Id)
    requires NoGrowth(a, b, w) && NoGrowth(b, c, w)
    ensures NoGrowth(a, c, w)
  {}

  /** One product of the workspace replaced or added, every other one as it was. */
  lemma OneProductMore(a: DB, b: DB, w: Id, p: Id)
    requires p in b.products && b.products[p].workspaceId == w
    requires p in a.products ==> a.products[p].workspaceId == w
    requires forall o :: o != p ==> At(a.products, o) == At(b.products, o)
    ensures |ProductsIn(b, w)| == |ProductsIn(a, w)| + if p in a.products then 0 else 1
    ensures StorageBytes(b, w) + (if p in a.products then ImageBytes(a.products[p].images) else 0)
         == StorageBytes(a, w) + ImageBytes(b.products[p].images)
  {
    var others := ProductsIn(b, w) - {p};
    forall o ensures o in ProductsIn(b, w) && o != p <==> o in ProductsIn(a, w) && o != p {
      assert o != p ==> At(a.products, o) == At(b.products, o);
    }
    assert others == ProductsIn(a, w) - {p};
    assert ProductsIn(b, w) == others + {p};
    assert p in a.products ==> ProductsIn(a, w) == others + {p};
    assert p !in a.products ==> ProductsIn(a, w) == others;
    BytesSplit(b.products, ProductsIn(b, w), p);
    if p in a.products {
      BytesSplit(a.products, ProductsIn(a, w), p);
    }
    SameProducts(a, b, others);
  }

  lemma SameProducts(a: DB, b: DB, ids: set<Id>)
    requires ids <= a.products.Keys && ids <= b.products.Keys
    requires forall o <- ids :: At(a.products, o) == At(b.products, o)
    ensures BytesOf(a.products, ids) == BytesOf(b.products, ids)
  {
    forall o <- ids ensures a.products[o] == b.products[o] {
      assert At(a.products, o) == At(b.products, o);
    }
    BytesShrink(a.products, b.products, ids, ids);
    BytesShrink(b.products, a.products, ids, ids);
  }
}
