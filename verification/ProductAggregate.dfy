/** The product as an object whose methods change it in place (app/domain/product.py). Each
    method is proved to turn the product into the row `ProductRows` says. */
module ProductAggregate {
  import opened Wrappers
  import opened Entities
  import opened ProductRows

  type Answer = Result<(), ProductError>

  class Product {
    const workspaceId: Id
    const createdAt: Time
    var name: string
    var sku: Option<string>
    var price: int
    var status: ProductStatus
    var description: Option<string>
    var updatedAt: Time
    var images: seq<ProductImage>

    function Row(): ProductRow
      reads this
    {
      ProductRow(workspaceId, name, sku, price, status, description, createdAt, updatedAt, images)
    }

    constructor (row: ProductRow)
      ensures Row() == row
    {
      workspaceId, createdAt := row.workspaceId, row.createdAt;
      name, sku, price, status := row.name, row.sku, row.price, row.status;
      description, updatedAt, images := row.description, row.updatedAt, row.images;
    }

    method Assign(c: Change)
      modifies this
      ensures Row() == With(old(Row()), c)
    {
      match c
      case SetName(value) => name := value;
      case SetSku(value) => sku := value;
      case SetPrice(value) => price := value;
      case SetStatus(value) => status := value;
      case SetDescription(value) => description := value;
    }

    /** A partial update; on failure the transaction around it is rolled back. */
    method Update(changes: seq<Change>, now: Time) returns (r: Answer)
      requires OncePerField(changes)
      modifies this
      ensures match Updated(old(Row()), changes, now)
              case Success(row) => r == Success(()) && Row() == row
              case Failure(e) => r == Failure(e)
    {
      var changed := false;
      assert changes[..|changes|] == changes;
      for i := 0 to |changes|
        invariant Row() == WithAll(old(Row()), changes[..i])
        invariant changed <==> Row() != old(Row())
      {
        ghost var before := Row();
        FieldStillUntouched(old(Row()), changes, i);
        assert changes[..i + 1][..i] == changes[..i];
        if With(Row(), changes[i]) != Row() {
          Assign(changes[i]);
          changed := true;
        }
      }
      if changed {
        if InvariantError(Row()).Some? {
          return Failure(InvariantError(Row()).value);
        }
        updatedAt := now;
      }
      r := Success(());
    }

    method AddImage(image: ProductImage) returns (r: Answer)
      modifies this
      ensures match WithImage(old(Row()), image)
              case Success(row) => r == Success(()) && Row() == row
              case Failure(e) => r == Failure(e) && Row() == old(Row())
    {
      if |images| >= MAX_IMAGES_PER_PRODUCT {
        return Failure(TooManyImages);
      }
      images := images + [image.(position := |images|)];
      r := Success(());
    }

    /** Renumbers the images from 0 in list order. */
    method Renumber()
      modifies this`images
      ensures images == Renumbered(old(images))
    {
      for position := 0 to |images|
        invariant |images| == |old(images)|
        invariant forall i | 0 <= i < |images| :: images[i] == if i < position then old(images)[i].(position := i) else old(images)[i]
      {
        images := images[position := images[position].(position := position)];
      }
    }

    method RemoveImage(imageId: Id) returns (r: Result<ProductImage, ProductError>)
      modifies this
      ensures match WithoutImage(old(Row()), imageId)
              case Success(row) =>
                && Row() == row
                && r == Success(old(images)[IndexOf(old(images), imageId)])
              case Failure(e) => r == Failure(e) && Row() == old(Row())
    {
      var n := IndexOf(images, imageId);
      if n == |images| {
        return Failure(ImageNotFound);
      }
      var image := images[n];
      images := images[..n] + images[n + 1..];
      Renumber();
      r := Success(image);
    }

    method ReorderImages(ids: seq<Id>) returns (r: Answer)
      modifies this
      ensures match Reordered(old(Row()), ids)
              case Success(row) => r == Success(()) && Row() == row
              case Failure(e) => r == Failure(e) && Row() == old(Row())
    {
      if Sort(ids) != Sort(Ids(images)) {
        return Failure(NotEveryImageOnce);
      }
      SortedMeansHeld(images, ids);
      var held := images;
      images := seq(|ids|, i requires 0 <= i < |ids| => held[IndexOf(held, ids[i])]);
      Renumber();
      r := Success(());
    }
  }

  /** The two rows have the same value in the field `c` names. */
  predicate AgreeOn(p: ProductRow, q: ProductRow, c: Change) {
    match c
    case SetName(_) => p.name == q.name
    case SetSku(_) => p.sku == q.sku
    case SetPrice(_) => p.price == q.price
    case SetStatus(_) => p.status == q.status
    case SetDescription(_) => p.description == q.description
  }

  /** Changes of other fields leave the field `c` names alone. */
  lemma {:induction false} OtherFieldsStay(p: ProductRow, changes: seq<Change>, c: Change)
    requires forall i | 0 <= i < |changes| :: !SameField(changes[i], c)
    ensures AgreeOn(p, WithAll(p, changes), c)
  {
    if changes != [] {
      var rest := changes[..|changes| - 1];
      assert forall i | 0 <= i < |rest| :: rest[i] == changes[i];
      OtherFieldsStay(p, rest, c);
      assert !SameField(changes[|changes| - 1], c);
    }
  }

  /** Once some field differs from what it was, assigning a field no earlier change named
      cannot make the row what it was again. */
  lemma FieldStillUntouched(p: ProductRow, changes: seq<Change>, i: nat)
    requires OncePerField(changes) && i < |changes|
    ensures var q := WithAll(p, changes[..i]);
            With(q, changes[i]) == p ==> q == p && With(q, changes[i]) == q
  {
    var q := WithAll(p, changes[..i]);
    OtherFieldsStay(p, changes[..i], changes[i]);
    WithAllKeepsTheRest(p, changes[..i]);
    assert With(q, changes[i]) == p ==> With(p, changes[i]) == p;
  }

  // --- any sequence of image changes ------------------------------------------------

  datatype ImageChange =
    | Add(image: ProductImage)
    | Remove(imageId: Id)
    | Reorder(ids: seq<Id>)

  /** A refused change leaves the product as it was. */
  function Applied(p: ProductRow, c: ImageChange): ProductRow {
    var r := match c
      case Add(image) => WithImage(p, image)
      case Remove(imageId) => WithoutImage(p, imageId)
      case Reorder(ids) => Reordered(p, ids);
    if r.Success? then r.value else p
  }

  function AppliedAll(p: ProductRow, changes: seq<ImageChange>): ProductRow
    decreases changes
  {
    if changes == [] then p else AppliedAll(Applied(p, changes[0]), changes[1..])
  }

  /** Every image added comes under a new id. */
  ghost predicate AddsNew(p: ProductRow, changes: seq<ImageChange>)
    decreases changes
  {
    changes == [] || (
      && (changes[0].Add? ==> forall i | 0 <= i < |p.images| :: p.images[i].id != changes[0].image.id)
      && AddsNew(Applied(p, changes[0]), changes[1..]))
  }

  ghost predicate Numbered(images: seq<ProductImage>) {
    && |images| <= MAX_IMAGES_PER_PRODUCT
    && (forall i | 0 <= i < |images| :: images[i].position == i)
    && (forall i, j | 0 <= i < j < |images| :: images[i].id != images[j].id)
  }

  lemma RemovalKeepsNumbers(p: ProductRow, imageId: Id)
    requires Numbered(p.images) && WithoutImage(p, imageId).Success?
    ensures Numbered(WithoutImage(p, imageId).value.images)
  {
    var n, images := IndexOf(p.images, imageId), WithoutImage(p, imageId).value.images;
    assert forall i | 0 <= i < |images| :: images[i].id == p.images[Before(n, i)].id;
  }

  lemma ReorderingKeepsNumbers(p: ProductRow, ids: seq<Id>)
    requires Numbered(p.images) && Reordered(p, ids).Success?
    ensures Numbered(Reordered(p, ids).value.images)
  {
    SortedMeansHeld(p.images, ids);
    SortedListsDecidePermutation(ids, Ids(p.images));
    assert |ids| == |multiset(ids)| && |Ids(p.images)| == |multiset(Ids(p.images))|;
    PermutationsAreDistinct(ids, Ids(p.images));
    assert Ids(InOrder(p.images, ids)) == ids;
    var images := InOrder(p.images, ids);
    forall i, j | 0 <= i < j < |images| ensures images[i].id != images[j].id {
      assert images[i].id == ids[i] && images[j].id == ids[j];
    }
  }

  /** Whatever is added, removed and reordered, ids stay distinct and positions 0..n-1. */
  lemma {:induction false} ImageOrderAlways(p: ProductRow, changes: seq<ImageChange>)
    requires Numbered(p.images) && AddsNew(p, changes)
    ensures Numbered(AppliedAll(p, changes).images)
    decreases changes
  {
    if changes != [] {
      match changes[0] {
        case Add(image) =>
        case Remove(imageId) => if WithoutImage(p, imageId).Success? { RemovalKeepsNumbers(p, imageId); }
        case Reorder(ids) => if Reordered(p, ids).Success? { ReorderingKeepsNumbers(p, ids); }
      }
      ImageOrderAlways(Applied(p, changes[0]), changes[1..]);
    }
  }
}
