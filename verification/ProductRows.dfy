/** Products as stored values, with their ordered images, and what each change makes of one
    (app/domain/product.py). The object that changes in place is `ProductAggregate.Product`. */
module ProductRows {
  import opened Wrappers
  import opened Entities

  const MAX_IMAGES_PER_PRODUCT := 10

  /** How many products a purge deletes in one transaction. */
  const PRODUCT_BATCH := 200

  datatype ProductError =
    | ProductNotFound
    | ImageNotFound
    | TooManyImages
    | NotEveryImageOnce
    | NameMissing
    | NegativePrice
    | ModifiedSinceLoaded
    | ProductQuotaReached
    | StorageQuotaReached
    | DuplicateUpload
    | NoSuchWorkspace
    | NoSuchAccount
    | NoSuchMember
    | MemberAlready
    | ProfileUnfinished
    | OwnerStays
    | OwnsWorkspaces

  datatype ProductStatus = Active | Draft | Archived

  datatype ProductImage = ProductImage(
    id: Id,
    key: Key,
    thumbKey: Option<Key>,
    uploadKey: Option<Id>,
    sizeBytes: nat,
    position: nat) {

    /** The objects in the media bucket this image points at. */
    function StorageKeys(): set<Key> {
      {key} + (if thumbKey.Some? then {thumbKey.value} else {})
    }
  }

  datatype ProductRow = ProductRow(
    workspaceId: Id,
    name: string,
    sku: Option<string>,
    price: int,  // in hundredths
    status: ProductStatus,
    description: Option<string>,
    createdAt: Time,
    updatedAt: Time,
    images: seq<ProductImage>)

  /** The keys of every image of a product. */
  function StorageKeys(images: seq<ProductImage>): set<Key> {
    set i: int, k | 0 <= i < |images| && k in images[i].StorageKeys() :: k
  }

  /** The products of a workspace. */
  function ProductsOf(products: map<Id, ProductRow>, w: Id): set<Id> {
    set p <- products | products[p].workspaceId == w
  }

  function Ids(images: seq<ProductImage>): seq<Id> {
    seq(|images|, i requires 0 <= i < |images| => images[i].id)
  }

  // --- the image list ---------------------------------------------------------------

  /** Positions are 0..n-1 in list order, and no id, upload or stored object occurs twice. */
  ghost predicate ImagesOk(images: seq<ProductImage>) {
    && |images| <= MAX_IMAGES_PER_PRODUCT
    && (forall i | 0 <= i < |images| :: images[i].position == i && images[i].thumbKey != Some(images[i].key))
    && (forall i, j | 0 <= i < j < |images| :: Apart(images[i], images[j]))
  }

  ghost predicate Apart(a: ProductImage, b: ProductImage) {
    && a.id != b.id
    && (a.uploadKey.Some? ==> a.uploadKey != b.uploadKey)
    && a.StorageKeys() !! b.StorageKeys()
  }

  function IndexOf(images: seq<ProductImage>, id: Id): (n: nat)
    ensures n <= |images|
    ensures n < |images| ==> images[n].id == id
    ensures forall i | 0 <= i < n :: images[i].id != id
  {
    if images == [] || images[0].id == id then 0 else 1 + IndexOf(images[1..], id)
  }

  function Renumbered(images: seq<ProductImage>): (r: seq<ProductImage>)
    ensures |r| == |images| && forall i | 0 <= i < |r| :: r[i] == images[i].(position := i)
  {
    seq(|images|, i requires 0 <= i < |images| => images[i].(position := i))
  }

  predicate HasUpload(images: seq<ProductImage>, uploadKey: Id) {
    exists i | 0 <= i < |images| :: images[i].uploadKey == Some(uploadKey)
  }

  /** `add_image`: at the end, while there is room. */
  function WithImage(p: ProductRow, image: ProductImage): Result<ProductRow, ProductError> {
    if |p.images| >= MAX_IMAGES_PER_PRODUCT then Failure(TooManyImages)
    else Success(p.(images := p.images + [image.(position := |p.images|)]))
  }

  /** `remove_image`: the image goes and the gap closes. */
  function WithoutImage(p: ProductRow, imageId: Id): Result<ProductRow, ProductError> {
    var n := IndexOf(p.images, imageId);
    if n == |p.images| then Failure(ImageNotFound)
    else Success(p.(images := Renumbered(p.images[..n] + p.images[n + 1..])))
  }

  // --- the display order ------------------------------------------------------------

  function Insert(x: Id, s: seq<Id>): seq<Id> {
    if s == [] || x <= s[0] then [x] + s else [s[0]] + Insert(x, s[1..])
  }

  function Sort(s: seq<Id>): seq<Id> {
    if s == [] then [] else Insert(s[0], Sort(s[1..]))
  }

  predicate Floor(x: Id, s: seq<Id>) {
    forall i | 0 <= i < |s| :: x <= s[i]
  }

  predicate Ascending(s: seq<Id>) {
    s == [] || (Floor(s[0], s[1..]) && Ascending(s[1..]))
  }

  lemma {:induction false} InsertKeepsFloor(z: Id, x: Id, s: seq<Id>)
    requires Floor(z, s) && z <= x
    ensures Floor(z, Insert(x, s))
  {
    if s != [] && x > s[0] {
      InsertKeepsFloor(z, x, s[1..]);
    }
  }

  lemma {:induction false} InsertSorts(x: Id, s: seq<Id>)
    requires Ascending(s)
    ensures Ascending(Insert(x, s))
  {
    if s == [] || x <= s[0] {
      assert ([x] + s)[1..] == s;
      assert s != [] ==> s == [s[0]] + s[1..];
    } else {
      InsertSorts(x, s[1..]);
      InsertKeepsFloor(s[0], x, s[1..]);
      assert ([s[0]] + Insert(x, s[1..]))[1..] == Insert(x, s[1..]);
    }
  }

  lemma {:induction false} InsertAdds(x: Id, s: seq<Id>)
    ensures multiset(Insert(x, s)) == multiset(s) + multiset{x}
  {
    if s != [] && x > s[0] {
      InsertAdds(x, s[1..]);
      assert s == [s[0]] + s[1..];
    }
  }

  lemma {:induction false} SortSorts(s: seq<Id>)
    ensures Ascending(Sort(s)) && multiset(Sort(s)) == multiset(s)
  {
    if s != [] {
      SortSorts(s[1..]);
      InsertSorts(s[0], Sort(s[1..]));
      InsertAdds(s[0], Sort(s[1..]));
      assert s == [s[0]] + s[1..];
    }
  }

  lemma SmallestFirst(a: seq<Id>, x: Id)
    requires Ascending(a) && x in multiset(a)
    ensures a != [] && a[0] <= x
  {
    var i :| 0 <= i < |a| && a[i] == x;
    assert i > 0 ==> a[1..][i - 1] == x;
  }

  lemma TailOf(s: seq<Id>)
    requires s != []
    ensures multiset(s[1..]) == multiset(s) - multiset{s[0]}
  {
    assert s == [s[0]] + s[1..];
  }

  lemma HeadsAgree(a: seq<Id>, b: seq<Id>)
    requires Ascending(a) && Ascending(b) && multiset(a) == multiset(b) && a != []
    ensures b != [] && a[0] == b[0] && multiset(a[1..]) == multiset(b[1..])
  {
    assert a[0] in multiset(a);
    SmallestFirst(b, a[0]);
    assert b[0] in multiset(b);
    SmallestFirst(a, b[0]);
    TailOf(a);
    TailOf(b);
  }

  lemma {:induction false} AscendingIsUnique(a: seq<Id>, b: seq<Id>)
    requires Ascending(a) && Ascending(b) && multiset(a) == multiset(b)
    ensures a == b
    decreases a
  {
    if a == [] {
      assert |b| == |multiset(b)|;
    } else {
      HeadsAgree(a, b);
      AscendingIsUnique(a[1..], b[1..]);
      assert a == [a[0]] + a[1..] && b == [b[0]] + b[1..];
    }
  }

  /** Comparing the sorted lists decides exactly whether one is a permutation of the other. */
  lemma SortedListsDecidePermutation(a: seq<Id>, b: seq<Id>)
    ensures Sort(a) == Sort(b) <==> multiset(a) == multiset(b)
  {
    SortSorts(a);
    SortSorts(b);
    if multiset(a) == multiset(b) {
      AscendingIsUnique(Sort(a), Sort(b));
    }
  }

  /** The images in the order of `ids`, renumbered. */
  function InOrder(images: seq<ProductImage>, ids: seq<Id>): seq<ProductImage>
    requires forall id <- ids :: IndexOf(images, id) < |images|
  {
    Renumbered(seq(|ids|, i requires 0 <= i < |ids| => images[IndexOf(images, ids[i])]))
  }

  lemma SortedMeansHeld(images: seq<ProductImage>, ids: seq<Id>)
    requires Sort(ids) == Sort(Ids(images))
    ensures forall id <- ids :: IndexOf(images, id) < |images|
  {
    SortedListsDecidePermutation(ids, Ids(images));
    forall id <- ids ensures IndexOf(images, id) < |images| {
      assert id in multiset(ids);
      assert id in Ids(images);
    }
  }

  /** `reorder_images`: the ids must list every image exactly once. */
  function Reordered(p: ProductRow, ids: seq<Id>): Result<ProductRow, ProductError> {
    if Sort(ids) != Sort(Ids(p.images)) then Failure(NotEveryImageOnce)
    else
      SortedMeansHeld(p.images, ids);
      Success(p.(images := InOrder(p.images, ids)))
  }

  // --- what the changes keep --------------------------------------------------------

  lemma AddKeepsImages(p: ProductRow, image: ProductImage)
    requires ImagesOk(p.images) && WithImage(p, image).Success?
    requires image.thumbKey != Some(image.key) && forall i | 0 <= i < |p.images| :: Apart(p.images[i], image)
    ensures ImagesOk(WithImage(p, image).value.images)
    ensures StorageKeys(WithImage(p, image).value.images) == StorageKeys(p.images) + image.StorageKeys()
  {
    var images := WithImage(p, image).value.images;
    forall k <- image.StorageKeys() ensures k in StorageKeys(images) {
      assert k in images[|p.images|].StorageKeys();
    }
    forall k <- StorageKeys(p.images) ensures k in StorageKeys(images) {
      var i :| 0 <= i < |p.images| && k in p.images[i].StorageKeys();
      assert k in images[i].StorageKeys();
    }
  }

  /** Where image `i` was before the one at `n` was taken out. */
  function Before(n: nat, i: nat): nat {
    if i < n then i else i + 1
  }

  lemma RemovedImages(p: ProductRow, imageId: Id)
    requires ImagesOk(p.images) && WithoutImage(p, imageId).Success?
    ensures var n, images := IndexOf(p.images, imageId), WithoutImage(p, imageId).value.images;
            && |images| == |p.images| - 1
            && (forall i: nat | i < |images| :: images[i] == p.images[Before(n, i)].(position := i))
            && (forall i: nat | i < |images| :: Apart(p.images[Before(n, i)], p.images[n]))
  {
    var n, images := IndexOf(p.images, imageId), WithoutImage(p, imageId).value.images;
    forall i: nat | i < |images| ensures Apart(p.images[Before(n, i)], p.images[n]) {
      assert if i < n then Apart(p.images[i], p.images[n]) else Apart(p.images[n], p.images[i + 1]);
    }
  }

  lemma OthersKeepTheirKeys(p: ProductRow, imageId: Id)
    requires ImagesOk(p.images) && WithoutImage(p, imageId).Success?
    ensures StorageKeys(p.images) - p.images[IndexOf(p.images, imageId)].StorageKeys()
         <= StorageKeys(WithoutImage(p, imageId).value.images)
  {
    var n, images := IndexOf(p.images, imageId), WithoutImage(p, imageId).value.images;
    RemovedImages(p, imageId);
    forall k <- StorageKeys(p.images) - p.images[n].StorageKeys() ensures k in StorageKeys(images) {
      var j :| 0 <= j < |p.images| && k in p.images[j].StorageKeys();
      var i := if j < n then j else j - 1;
      assert Before(n, i) == j && k in images[i].StorageKeys();
    }
  }

  lemma RemovedGivesUpItsKeys(p: ProductRow, imageId: Id)
    requires ImagesOk(p.images) && WithoutImage(p, imageId).Success?
    ensures StorageKeys(WithoutImage(p, imageId).value.images)
         <= StorageKeys(p.images) - p.images[IndexOf(p.images, imageId)].StorageKeys()
  {
    var n, images := IndexOf(p.images, imageId), WithoutImage(p, imageId).value.images;
    RemovedImages(p, imageId);
    forall k <- StorageKeys(images) ensures k in StorageKeys(p.images) - p.images[n].StorageKeys() {
      var i: nat :| i < |images| && k in images[i].StorageKeys();
      assert Apart(p.images[Before(n, i)], p.images[n]);
      assert k in p.images[Before(n, i)].StorageKeys();
    }
  }

  /** Only the removed image's objects are given up; every other image keeps its own. */
  lemma RemoveKeepsImages(p: ProductRow, imageId: Id)
    requires ImagesOk(p.images) && WithoutImage(p, imageId).Success?
    ensures var images := WithoutImage(p, imageId).value.images;
            var gone := p.images[IndexOf(p.images, imageId)];
            && ImagesOk(images)
            && (forall i | 0 <= i < |images| :: images[i].id != imageId)
            && StorageKeys(images) == StorageKeys(p.images) - gone.StorageKeys()
  {
    var n := IndexOf(p.images, imageId);
    var images := WithoutImage(p, imageId).value.images;
    RemovedImages(p, imageId);
    forall i: nat, j: nat | i < j < |images| ensures Apart(images[i], images[j]) {
      assert Apart(p.images[Before(n, i)], p.images[Before(n, j)]);
    }
    OthersKeepTheirKeys(p, imageId);
    RemovedGivesUpItsKeys(p, imageId);
  }

  /** Reordering succeeds exactly for a permutation of the held ids, and then the images are
      the same ones, in that order: nothing but order and positions changes. */
  lemma ReorderExactly(p: ProductRow, ids: seq<Id>)
    requires ImagesOk(p.images)
    ensures Reordered(p, ids).Success? <==> multiset(ids) == multiset(Ids(p.images))
    ensures Reordered(p, ids).Success? ==>
              var images := Reordered(p, ids).value.images;
              && ImagesOk(images)
              && Ids(images) == ids
              && |images| == |p.images|
              && (forall i | 0 <= i < |images| :: exists j | 0 <= j < |p.images| :: images[i] == p.images[j].(position := i))
              && StorageKeys(images) == StorageKeys(p.images)
              && Reordered(p, ids).value == p.(images := images)
  {
    SortedListsDecidePermutation(ids, Ids(p.images));
    if Reordered(p, ids).Success? {
      SortedMeansHeld(p.images, ids);
      assert |ids| == |multiset(ids)| && |Ids(p.images)| == |multiset(Ids(p.images))|;
      var images := InOrder(p.images, ids);
      forall i | 0 <= i < |images| ensures exists j | 0 <= j < |p.images| :: images[i] == p.images[j].(position := i) {
        assert images[i] == p.images[IndexOf(p.images, ids[i])].(position := i);
      }
      IdsAreDistinct(p.images);
      PermutationsAreDistinct(ids, Ids(p.images));
      forall i, j | 0 <= i < j < |images| ensures Apart(images[i], images[j]) {
        var a, b := IndexOf(p.images, ids[i]), IndexOf(p.images, ids[j]);
        assert if a < b then Apart(p.images[a], p.images[b]) else Apart(p.images[b], p.images[a]);
      }
      OrderKeepsKeys(p.images, ids);
    }
  }

  lemma OrderKeepsKeys(images: seq<ProductImage>, ids: seq<Id>)
    requires ImagesOk(images) && multiset(ids) == multiset(Ids(images))
    requires forall id <- ids :: IndexOf(images, id) < |images|
    ensures StorageKeys(InOrder(images, ids)) == StorageKeys(images)
  {
    var images' := InOrder(images, ids);
    forall k <- StorageKeys(images) ensures k in StorageKeys(images') {
      var j :| 0 <= j < |images| && k in images[j].StorageKeys();
      assert Ids(images)[j] in multiset(ids);
      var i :| 0 <= i < |ids| && ids[i] == images[j].id;
      var a := IndexOf(images, ids[i]);
      assert a == j by {
        assert a < j ==> Apart(images[a], images[j]);
      }
      assert k in images'[i].StorageKeys();
    }
    forall k <- StorageKeys(images') ensures k in StorageKeys(images) {
      var i :| 0 <= i < |ids| && k in images'[i].StorageKeys();
      assert k in images[IndexOf(images, ids[i])].StorageKeys();
    }
  }

  lemma IdsAreDistinct(images: seq<ProductImage>)
    requires ImagesOk(images)
    ensures forall i, j | 0 <= i < j < |images| :: Ids(images)[i] != Ids(images)[j]
  {
    forall i, j | 0 <= i < j < |images| ensures Ids(images)[i] != Ids(images)[j] {
      assert Apart(images[i], images[j]);
    }
  }

  lemma {:induction false} OccursOnce(s: seq<Id>, x: Id)
    requires forall i, j | 0 <= i < j < |s| :: s[i] != s[j]
    ensures multiset(s)[x] <= 1
  {
    if s != [] {
      OccursOnce(s[1..], x);
      assert s == [s[0]] + s[1..];
      assert s[0] !in s[1..];
    }
  }

  lemma PermutationsAreDistinct(a: seq<Id>, b: seq<Id>)
    requires multiset(a) == multiset(b) && forall i, j | 0 <= i < j < |b| :: b[i] != b[j]
    ensures forall i, j | 0 <= i < j < |a| :: a[i] != a[j]
  {
    forall i, j | 0 <= i < j < |a| ensures a[i] != a[j] {
      OccursOnce(b, a[i]);
      assert a == a[..j] + [a[j]] + a[j + 1..];
      assert a[i] in a[..j];
    }
  }

  // --- partial updates --------------------------------------------------------------

  datatype Change =
    | SetName(name: string)
    | SetSku(sku: Option<string>)
    | SetPrice(price: int)
    | SetStatus(status: ProductStatus)
    | SetDescription(description: Option<string>)

  function With(p: ProductRow, c: Change): ProductRow {
    match c
    case SetName(name) => p.(name := name)
    case SetSku(sku) => p.(sku := sku)
    case SetPrice(price) => p.(price := price)
    case SetStatus(status) => p.(status := status)
    case SetDescription(description) => p.(description := description)
  }

  /** The changes applied one after the other. */
  function WithAll(p: ProductRow, changes: seq<Change>): ProductRow {
    if changes == [] then p else With(WithAll(p, changes[..|changes| - 1]), changes[|changes| - 1])
  }

  predicate SameField(a: Change, b: Change) {
    || (a.SetName? && b.SetName?)
    || (a.SetSku? && b.SetSku?)
    || (a.SetPrice? && b.SetPrice?)
    || (a.SetStatus? && b.SetStatus?)
    || (a.SetDescription? && b.SetDescription?)
  }

  /** Changes name each field at most once, as the keys of a dictionary do. */
  ghost predicate OncePerField(changes: seq<Change>) {
    forall i, j | 0 <= i < j < |changes| :: !SameField(changes[i], changes[j])
  }

  function InvariantError(p: ProductRow): Option<ProductError> {
    if p.name == [] then Some(NameMissing) else if p.price < 0 then Some(NegativePrice) else None
  }

  /** `update`: `updated_at` moves only when a value changes. */
  function Updated(p: ProductRow, changes: seq<Change>, now: Time): Result<ProductRow, ProductError> {
    var p' := WithAll(p, changes);
    if p' == p then Success(p)
    else if InvariantError(p').Some? then Failure(InvariantError(p').value)
    else Success(p'.(updatedAt := now))
  }

  lemma {:induction false} WithAllKeepsTheRest(p: ProductRow, changes: seq<Change>)
    ensures var q := WithAll(p, changes);
            && q.workspaceId == p.workspaceId && q.images == p.images
            && q.createdAt == p.createdAt && q.updatedAt == p.updatedAt
  {
    if changes != [] {
      WithAllKeepsTheRest(p, changes[..|changes| - 1]);
    }
  }

  /** With a clock past the last update, the version moves exactly when some field does. */
  lemma VersionMovesExactlyOnChange(p: ProductRow, changes: seq<Change>, now: Time)
    requires p.updatedAt < now && Updated(p, changes, now).Success?
    ensures var q := Updated(p, changes, now).value;
            && (q.updatedAt != p.updatedAt
                <==> q.name != p.name || q.sku != p.sku || q.price != p.price || q.status != p.status
                     || q.description != p.description)
            && p.updatedAt <= q.updatedAt && q.images == p.images && q.workspaceId == p.workspaceId
  {
    WithAllKeepsTheRest(p, changes);
  }
}
