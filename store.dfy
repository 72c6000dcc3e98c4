/**
 * The document store the controllers read and write, kept in memory:
 * products, images, events, ApplicableProduct rows ("mini-events") and
 * like lists, with one counter that hands out fresh identifiers.
 */
module Store {
  import opened Options
  import opened Json
  import opened Ids

  /** A product document; the image list holds Image document ids in order. */
  datatype Product = Product(
    name: Value,
    description: Value,
    price: int,
    discount: int,
    quantity: int,
    categories: set<Id>,
    images: seq<Id>,
    likeCount: nat,
    viewCount: nat,
    sellCount: nat)

  /** An Image document: the stored path or link, and the product that created it when the creator recorded one. */
  datatype Image = Image(image: Value, product: Option<Id>)

  /** An ApplicableProduct row: one product's discount window inside one event. */
  datatype ApplicableProduct = ApplicableProduct(
    id: Id,
    eventId: Option<Id>,
    productId: Id,
    discount: real,
    startDate: int,
    endDate: int)

  /** An event document; `products` lists ApplicableProduct row ids. */
  datatype Event = Event(
    name: Value,
    description: Value,
    startDate: Value,
    endDate: Value,
    location: Value,
    discount: Value,
    images: seq<Value>,
    products: seq<Id>)

  /** A user's list of liked product ids. */
  datatype LikeList = LikeList(user: Id, products: seq<Id>)

  /** Everything the store holds, as one value. */
  datatype DbState = DbState(
    products: map<Id, Product>,
    images: seq<Image>,
    events: map<Id, Event>,
    applicable: seq<ApplicableProduct>,
    likeLists: seq<LikeList>,
    nextId: nat)

  /** `n` consecutive identifiers starting at `start`. */
  function Range(start: nat, n: nat): (r: seq<Id>)
    ensures |r| == n && forall i :: 0 <= i < n ==> r[i] == start + i
  {
    seq(n, i requires 0 <= i < n => start + i)
  }

  /** Image documents for `values`, in order, all pointing at `owner`. */
  function NewImages(values: seq<Value>, owner: Option<Id>): (r: seq<Image>)
    ensures |r| == |values|
    ensures forall i :: 0 <= i < |values| ==> r[i] == Image(values[i], owner)
  {
    seq(|values|, i requires 0 <= i < |values| => Image(values[i], owner))
  }

  lemma RangeAppend(start: nat, m: nat, n: nat)
    ensures Range(start, m) + Range(start + m, n) == Range(start, m + n)
  {
  }

  /** Storing two batches one after the other is storing their concatenation. */
  lemma NewImagesAppend(a: seq<Value>, b: seq<Value>, owner: Option<Id>)
    ensures NewImages(a, owner) + NewImages(b, owner) == NewImages(a + b, owner)
  {
  }

  /** No two rows share an identifier. */
  ghost predicate DistinctIds(rows: seq<ApplicableProduct>) {
    forall i, j :: 0 <= i < j < |rows| ==> rows[i].id != rows[j].id
  }

  class Db {
    var products: map<Id, Product>
    var images: seq<Image>
    var events: map<Id, Event>
    var applicable: seq<ApplicableProduct>
    var likeLists: seq<LikeList>
    var nextId: nat

    /**
     * Every product, event and row identifier was handed out before
     * `nextId`; row identifiers are distinct. An Image document's identifier
     * is its position in `images`.
     */
    ghost predicate Valid()
      reads this
    {
      && (forall id :: id in products ==> id < nextId)
      && (forall id :: id in events ==> id < nextId)
      && (forall i :: 0 <= i < |applicable| ==> applicable[i].id < nextId)
      && DistinctIds(applicable)
    }

    function State(): DbState
      reads this
    {
      DbState(products, images, events, applicable, likeLists, nextId)
    }

    constructor ()
      ensures Valid()
      ensures State() == DbState(map[], [], map[], [], [], 0)
    {
      products, images, events := map[], [], map[];
      applicable, likeLists := [], [];
      nextId := 0;
    }

    /** A new document identifier, distinct from every identifier in use. */
    method FreshId() returns (id: Id)
      requires Valid()
      modifies this`nextId
      ensures Valid()
      ensures id == old(nextId) && nextId == id + 1
    {
      id := nextId;
      nextId := nextId + 1;
    }

    /** Saves one Image document per value, in order, and returns their identifiers in the same order. */
    method AddImages(values: seq<Value>, owner: Option<Id>) returns (ids: seq<Id>)
      requires Valid()
      modifies this`images
      ensures Valid()
      ensures ids == Range(|old(images)|, |values|)
      ensures images == old(images) + NewImages(values, owner)
    {
      ids := [];
      var k := 0;
      while k < |values|
        invariant 0 <= k <= |values|
        invariant ids == Range(|old(images)|, k)
        invariant images == old(images) + NewImages(values[..k], owner)
      {
        ids := ids + [|images|];
        images := images + [Image(values[k], owner)];
        assert NewImages(values[..k + 1], owner) == NewImages(values[..k], owner) + [Image(values[k], owner)];
        k := k + 1;
      }
      assert values[..k] == values;
    }
  }
}
