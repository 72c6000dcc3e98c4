/**
 * The product handlers: each takes the request's parameters, returns the
 * HTTP status it sends, and changes the store as the handler does.
 */
module ProductController {
  import opened Options
  import opened Text
  import opened Json
  import opened Ids
  import opened Seqs
  import opened Requests
  import opened Store

  /** Where uploaded product images are stored. */
  const UploadDir: string := "/uploads/products/"

  /** The requester as the authentication layer leaves it in `req.user`. */
  datatype Session = NoUser | User(id: Option<Id>)

  // ---------------------------------------------------------------- creation

  /** The validation at the top of createProduct: all six fields are truthy. */
  predicate RequiredFieldsPresent(name: Value, price: Value, categories: Value,
                                  description: Value, discount: Value, quantity: Value)
  {
    Truthy(name) && Truthy(price) && Truthy(categories)
    && Truthy(description) && Truthy(discount) && Truthy(quantity)
  }

  /** The identifiers named by an array of category strings; `None` if one of them does not cast. */
  function CategoryArray(items: seq<Value>): (r: Option<set<Id>>)
    ensures r.Some? <==> forall i :: 0 <= i < |items| ==> items[i].Str? && ParseId(items[i].s).Some?
    ensures r.Some? ==> forall i :: 0 <= i < |items| ==> ParseId(items[i].s).value in r.value
    ensures r.Some? ==> forall id :: id in r.value ==> Str(IdString(id)) in items
  {
    if items == [] then Some({})
    else
      var head := if items[0].Str? then ParseId(items[0].s) else None;
      var rest := CategoryArray(items[1..]);
      if head.Some? && rest.Some? then Some({head.value} + rest.value) else None
  }

  /** The `categories` field cast to a set of identifiers: one string or an array of strings. */
  function CategoryIds(v: Value): Option<set<Id>>
  {
    match v
    case Str(s) => (match ParseId(s) case Some(id) => Some({id}) case None => None)
    case Arr(items) => CategoryArray(items)
    case _ => None
  }

  /**
   * The document `Product.create` stores, before images are attached; `None`
   * when a numeric field is NaN or a category does not cast, which makes the
   * create throw.
   */
  function NewProduct(name: Value, price: Value, categories: Value,
                      description: Value, discount: Value, quantity: Value): Option<Product>
  {
    match (ToNumber(price), ToNumber(discount), ToNumber(quantity), CategoryIds(categories))
    case (Some(p), Some(d), Some(q), Some(c)) => Some(Product(name, description, p, d, q, c, [], 0, 0, 0))
    case _ => None
  }

  /** The link images of createProduct: none when the field is falsy, the array's elements, or the lone value. */
  function LinkList(images: Value): seq<Value>
  {
    if !Truthy(images) then [] else if images.Arr? then images.items else [images]
  }

  /**
   * The two image batches of createProduct: one Image document per uploaded
   * file, then one per link, all pointing at `owner`.
   */
  method SaveImages(db: Db, uploads: seq<Value>, links: seq<Value>, owner: Option<Id>) returns (ids: seq<Id>)
    requires db.Valid()
    modifies db`images
    ensures db.Valid()
    ensures ids == Range(|old(db.images)|, |uploads + links|)
    ensures db.images == old(db.images) + NewImages(uploads + links, owner)
  {
    ids := [];
    if |uploads| > 0 {
      ids := db.AddImages(uploads, owner);
    } else {
      assert db.images == old(db.images) + NewImages(uploads, owner);
    }
    if |links| > 0 {
      var linked := db.AddImages(links, owner);
      RangeAppend(|old(db.images)|, |uploads|, |links|);
      NewImagesAppend(uploads, links, owner);
      ids := ids + linked;
    } else {
      assert uploads + links == uploads;
    }
  }

  /** createProduct (POST /products). */
  method CreateProduct(db: Db, name: Value, price: Value, categories: Value, description: Value,
                       discount: Value, quantity: Value, files: seq<string>, images: Value)
    returns (status: int, created: Option<Id>)
    requires db.Valid()
    modifies db
    ensures db.Valid()
    ensures !RequiredFieldsPresent(name, price, categories, description, discount, quantity) ==>
      status == 400 && created == None && db.State() == old(db.State())
    ensures (RequiredFieldsPresent(name, price, categories, description, discount, quantity)
             && NewProduct(name, price, categories, description, discount, quantity).None?) ==>
      status == 500 && created == None && db.State() == old(db.State())
    ensures (RequiredFieldsPresent(name, price, categories, description, discount, quantity)
             && NewProduct(name, price, categories, description, discount, quantity).Some?) ==>
      var id := old(db.nextId);
      var values := UploadPaths(UploadDir, files) + LinkList(images);
      var p := NewProduct(name, price, categories, description, discount, quantity).value;
      && status == 201
      && created == Some(id)
      && db.State() == old(db.State()).(
           products := old(db.products)[id := p.(images := Range(|old(db.images)|, |values|))],
           images := old(db.images) + NewImages(values, Some(id)),
           nextId := id + 1)
  {
    if !RequiredFieldsPresent(name, price, categories, description, discount, quantity) {
      return 400, None;
    }
    var fields := NewProduct(name, price, categories, description, discount, quantity);
    if fields.None? {
      return 500, None;
    }
    // the product's identifier is handed out before those of its images
    var id := db.FreshId();
    var imageIds := SaveImages(db, UploadPaths(UploadDir, files), LinkList(images), Some(id));
    db.products := db.products[id := fields.value.(images := imageIds)];
    status, created := 201, Some(id);
  }

  // ---------------------------------------------------------------- reading

  /** The row is a discount window of `product` and `now` falls inside it. */
  predicate ActiveAt(row: ApplicableProduct, product: Id, now: int) {
    row.productId == product && row.startDate <= now <= row.endDate
  }

  /** `parseInt` applied to a stored number: truncation toward zero. */
  function Truncate(r: real): (t: int)
    ensures 0.0 <= r ==> 0 <= t && t as real <= r < t as real + 1.0
    ensures r < 0.0 ==> t <= 0 && t as real - 1.0 < r <= t as real
  {
    if r >= 0.0 then r.Floor else -((-r).Floor)
  }

  /** getProductById (GET /products/:id): the product's event discount at instant `now`. */
  method GetProductById(db: Db, param: string, now: int)
    returns (status: int, eventDiscount: int, isInEvent: bool)
    ensures param == "" ==> status == 400
    ensures param != "" && ParseId(param).None? ==> status == 500
    ensures param != "" && ParseId(param).Some? && ParseId(param).value !in db.products ==> status == 404
    ensures param != "" && ParseId(param).Some? && ParseId(param).value in db.products ==>
      var id := ParseId(param).value;
      && status == 200
      && (isInEvent <==> exists i :: 0 <= i < |db.applicable| && ActiveAt(db.applicable[i], id, now))
      && (isInEvent ==>
            exists i :: (0 <= i < |db.applicable| && ActiveAt(db.applicable[i], id, now)
                         && eventDiscount == Truncate(db.applicable[i].discount)
                         && forall j :: 0 <= j < i ==> !ActiveAt(db.applicable[j], id, now)))
    ensures !isInEvent ==> eventDiscount == 0
  {
    eventDiscount, isInEvent := 0, false;
    if param == "" {
      return 400, eventDiscount, isInEvent;
    }
    var cast := ParseId(param);
    if cast.None? {
      return 500, eventDiscount, isInEvent;
    }
    var id := cast.value;
    if id !in db.products {
      return 404, eventDiscount, isInEvent;
    }
    var found := FirstIndex(db.applicable, row => ActiveAt(row, id, now));
    if found.Some? {
      eventDiscount := Truncate(db.applicable[found.value].discount);
      isInEvent := true;
    }
    status := 200;
  }

  /** getProductByCategory (GET /products/category/:categoryId). */
  method GetProductByCategory(db: Db, param: string) returns (status: int, found: map<Id, Product>)
    ensures param == "" ==> status == 400 && found == map[]
    ensures param != "" && ParseId(param).None? ==> status == 500 && found == map[]
    ensures param != "" && ParseId(param).Some? ==>
      status == 200
      && forall id :: id in found <==> id in db.products && ParseId(param).value in db.products[id].categories
    ensures forall id :: id in found ==> id in db.products && found[id] == db.products[id]
  {
    found := map[];
    if param == "" {
      return 400, found;
    }
    var cast := ParseId(param);
    if cast.None? {
      return 500, found;
    }
    found := map id | id in db.products && cast.value in db.products[id].categories :: db.products[id];
    status := 200;
  }

  // ---------------------------------------------------------------- update and delete

  /** updateProduct (PUT /products/:id). */
  method UpdateProduct(db: Db, param: string, name: Value, description: Value, price: int,
                       quantity: int, discount: int, image: Value, files: seq<string>)
    returns (status: int)
    requires db.Valid()
    modifies db
    ensures db.Valid()
    ensures ParseId(param).None? ==> status == 500 && db.State() == old(db.State())
    ensures ParseId(param).Some? && ParseId(param).value !in old(db.products) ==>
      status == 404 && db.State() == old(db.State())
    ensures ParseId(param).Some? && ParseId(param).value in old(db.products) ==>
      var id := ParseId(param).value;
      var p := old(db.products)[id];
      && status == 200
      && db.State() == old(db.State()).(
           products := old(db.products)[id := p.(name := name, description := description, price := price,
                                                  quantity := quantity, discount := discount,
                                                  images := p.images + Range(|old(db.images)|, |files|))],
           images := old(db.images) + NewImages(UploadPaths(UploadDir, files), None))
  {
    var cast := ParseId(param);
    if cast.None? {
      return 500;
    }
    var id := cast.value;
    if id !in db.products {
      return 404;
    }
    // The link images are computed and then never stored.
    var links := LinkImages(image);
    var newImageIds: seq<Id> := [];
    if |files| > 0 {
      newImageIds := db.AddImages(UploadPaths(UploadDir, files), None);
    } else {
      assert db.images == old(db.images) + NewImages(UploadPaths(UploadDir, files), None);
    }
    var p := db.products[id];
    db.products := db.products[id := p.(name := name, description := description, price := price,
                                        quantity := quantity, discount := discount,
                                        images := p.images + newImageIds)];
    status := 200;
  }

  /** deleteProduct (DELETE /products/:id): removes the product only. */
  method DeleteProduct(db: Db, param: string) returns (status: int)
    requires db.Valid()
    modifies db
    ensures db.Valid()
    ensures param == "" ==> status == 400 && db.State() == old(db.State())
    ensures param != "" && ParseId(param).None? ==> status == 500 && db.State() == old(db.State())
    ensures param != "" && ParseId(param).Some? && ParseId(param).value !in old(db.products) ==>
      status == 404 && db.State() == old(db.State())
    ensures param != "" && ParseId(param).Some? && ParseId(param).value in old(db.products) ==>
      status == 200 && db.State() == old(db.State()).(products := old(db.products) - {ParseId(param).value})
  {
    if param == "" {
      return 400;
    }
    var cast := ParseId(param);
    if cast.None? {
      return 500;
    }
    if cast.value !in db.products {
      return 404;
    }
    db.products := db.products - {cast.value};
    status := 200;
  }

  // ---------------------------------------------------------------- counters

  /** Some like list of `user` already holds `product`. */
  predicate Liked(lists: seq<LikeList>, user: Id, product: Id) {
    exists i :: 0 <= i < |lists| && lists[i].user == user && product in lists[i].products
  }

  /**
   * like_count (POST /products/:id/like), as written: `req.user.id` is read
   * before the login check and `product._id` before the null check, so an
   * absent user and a missing product both end in the catch (500).
   */
  method LikeCount(db: Db, param: string, session: Session) returns (status: int)
    requires db.Valid()
    modifies db
    ensures db.Valid()
    ensures status != 404
    ensures status != 200 ==> db.State() == old(db.State())
    ensures param == "" ==> status == 400
    ensures param != "" && session.NoUser? ==> status == 500
    ensures param != "" && session.User? && session.id.None? ==> status == 401
    ensures param != "" && session.User? && session.id.Some? && ParseId(param).None? ==> status == 500
    ensures param != "" && session.User? && session.id.Some? && ParseId(param).Some? ==>
      var user := session.id.value;
      var id := ParseId(param).value;
      if id !in old(db.products) then status == 500
      else if Liked(old(db.likeLists), user, id) then status == 400
      else
        var p := old(db.products)[id];
        && status == 200
        && db.State() == old(db.State()).(
             likeLists := old(db.likeLists) + [LikeList(user, [id])],
             products := old(db.products)[id := p.(likeCount := p.likeCount + 1)])
  {
    if param == "" {
      return 400;
    }
    if session.NoUser? {
      // reading req.user.id throws a TypeError
      return 500;
    }
    if session.id.None? {
      return 401;
    }
    var user := session.id.value;
    var cast := ParseId(param);
    if cast.None? {
      return 500;
    }
    var id := cast.value;
    var alreadyLiked := Liked(db.likeLists, user, id);
    if id !in db.products {
      // reading product._id throws a TypeError
      return 500;
    }
    if alreadyLiked {
      return 400;
    }
    // likeList is null here, so the branch that extends an existing list never runs
    db.likeLists := db.likeLists + [LikeList(user, [id])];
    var p := db.products[id];
    db.products := db.products[id := p.(likeCount := p.likeCount + 1)];
    status := 200;
  }

  /**
   * like_count with the checks in the order the handler intends: 401 for an
   * absent user, 404 for a missing product.
   */
  method LikeCountIntended(db: Db, param: string, session: Session) returns (status: int)
    requires db.Valid()
    modifies db
    ensures db.Valid()
    ensures status != 200 ==> db.State() == old(db.State())
    ensures param == "" ==> status == 400
    ensures param != "" && (session.NoUser? || session.id.None?) ==> status == 401
    ensures param != "" && session.User? && session.id.Some? && ParseId(param).None? ==> status == 500
    ensures param != "" && session.User? && session.id.Some? && ParseId(param).Some? ==>
      var user := session.id.value;
      var id := ParseId(param).value;
      if id !in old(db.products) then status == 404
      else if Liked(old(db.likeLists), user, id) then status == 400
      else
        var p := old(db.products)[id];
        && status == 200
        && db.State() == old(db.State()).(
             likeLists := old(db.likeLists) + [LikeList(user, [id])],
             products := old(db.products)[id := p.(likeCount := p.likeCount + 1)])
  {
    if param == "" {
      return 400;
    }
    if session.NoUser? || session.id.None? {
      return 401;
    }
    var user := session.id.value;
    var cast := ParseId(param);
    if cast.None? {
      return 500;
    }
    var id := cast.value;
    if id !in db.products {
      return 404;
    }
    if Liked(db.likeLists, user, id) {
      return 400;
    }
    db.likeLists := db.likeLists + [LikeList(user, [id])];
    var p := db.products[id];
    db.products := db.products[id := p.(likeCount := p.likeCount + 1)];
    status := 200;
  }

  /**
   * Liking twice: a first like that succeeds makes the second one fail with
   * 400 and leaves the like count where the first left it.
   */
  method LikeTwice(db: Db, param: string, session: Session) returns (first: int, second: int)
    requires db.Valid()
    modifies db
    ensures db.Valid()
    ensures first == 200 ==> second == 400
    ensures first == 200 ==>
      && ParseId(param).Some? && ParseId(param).value in db.products
      && ParseId(param).value in old(db.products)
      && db.products[ParseId(param).value].likeCount == old(db.products)[ParseId(param).value].likeCount + 1
  {
    first := LikeCountIntended(db, param, session);
    ghost var between := db.State();
    second := LikeCountIntended(db, param, session);
    if first == 200 {
      var id := ParseId(param).value;
      var user := session.id.value;
      assert between.likeLists[|between.likeLists| - 1] == LikeList(user, [id]);
      assert Liked(between.likeLists, user, id);
    }
  }

  /** view_count (POST /products/:id/view): one more view, nothing else changes. */
  method ViewCount(db: Db, param: string) returns (status: int)
    requires db.Valid()
    modifies db
    ensures db.Valid()
    ensures param == "" ==> status == 400 && db.State() == old(db.State())
    ensures param != "" && ParseId(param).None? ==> status == 500 && db.State() == old(db.State())
    ensures param != "" && ParseId(param).Some? && ParseId(param).value !in old(db.products) ==>
      status == 404 && db.State() == old(db.State())
    ensures param != "" && ParseId(param).Some? && ParseId(param).value in old(db.products) ==>
      var id := ParseId(param).value;
      var p := old(db.products)[id];
      status == 200 && db.State() == old(db.State()).(products := old(db.products)[id := p.(viewCount := p.viewCount + 1)])
  {
    if param == "" {
      return 400;
    }
    var cast := ParseId(param);
    if cast.None? {
      return 500;
    }
    var id := cast.value;
    if id !in db.products {
      return 404;
    }
    var p := db.products[id];
    db.products := db.products[id := p.(viewCount := p.viewCount + 1)];
    status := 200;
  }

  /** sell_count (POST /products/:id/sell): one more sale while stock remains. */
  method SellCount(db: Db, param: string) returns (status: int)
    requires db.Valid()
    modifies db
    ensures db.Valid()
    ensures status != 200 ==> db.State() == old(db.State())
    ensures param == "" ==> status == 400
    ensures param != "" && ParseId(param).None? ==> status == 500
    ensures param != "" && ParseId(param).Some? && ParseId(param).value !in old(db.products) ==> status == 404
    ensures param != "" && ParseId(param).Some? && ParseId(param).value in old(db.products) ==>
      var id := ParseId(param).value;
      var p := old(db.products)[id];
      if p.sellCount >= p.quantity then status == 400
      else status == 200 && db.State() == old(db.State()).(products := old(db.products)[id := p.(sellCount := p.sellCount + 1)])
    // no product that was within its stock leaves it
    ensures forall id :: id in old(db.products) && old(db.products)[id].sellCount <= old(db.products)[id].quantity ==>
      id in db.products && db.products[id].sellCount <= db.products[id].quantity
  {
    if param == "" {
      return 400;
    }
    var cast := ParseId(param);
    if cast.None? {
      return 500;
    }
    var id := cast.value;
    if id !in db.products {
      return 404;
    }
    var p := db.products[id];
    if p.sellCount >= p.quantity {
      return 400;
    }
    db.products := db.products[id := p.(sellCount := p.sellCount + 1)];
    status := 200;
  }

  // ---------------------------------------------------------------- search

  /** `parseInt(raw) || fallback`: the parsed number, or the fallback when that is NaN or 0. */
  function NumberOr(raw: Option<string>, fallback: int): (r: int)
    requires fallback != 0
    ensures r != 0
  {
    match raw
    case None => fallback  // parseInt(undefined) is NaN
    case Some(s) =>
      match ParseInt(s)
      case None => fallback
      case Some(n) => if n == 0 then fallback else n
  }

  /**
   * A page or limit written as a positive numeral is used as given; a
   * missing parameter, or one that reads as 0 or NaN, gives the default.
   */
  lemma NumberOrReads(n: nat, fallback: int, junk: string)
    requires fallback != 0
    requires ParseInt(junk).None?
    ensures n != 0 ==> NumberOr(Some(Decimal(n)), fallback) == n
    ensures NumberOr(Some(Decimal(0)), fallback) == fallback
    ensures NumberOr(Some(junk), fallback) == fallback
    ensures NumberOr(None, fallback) == fallback
  {
    ParseIntDecimal(n, []);
    ParseIntDecimal(0, []);
    assert Decimal(n) + [] == Decimal(n);
    assert Decimal(0) + [] == Decimal(0);
  }

  /**
   * searchProducts (GET /products/search): the paging arithmetic in front of
   * the search call. `searchFails` is the outcome of the external search.
   */
  method SearchProducts(q: Value, pageRaw: Option<string>, limitRaw: Option<string>, searchFails: bool)
    returns (status: int, page: int, limit: int, offset: int)
    ensures page == NumberOr(pageRaw, 1) && limit == NumberOr(limitRaw, 10)
    ensures page != 0 && limit != 0
    ensures offset == (page - 1) * limit
    ensures !Truthy(q) ==> status == 400
    ensures Truthy(q) ==> status == (if searchFails then 500 else 200)
  {
    page := NumberOr(pageRaw, 1);
    limit := NumberOr(limitRaw, 10);
    offset := (page - 1) * limit;
    if !Truthy(q) {
      return 400, page, limit, offset;
    }
    status := if searchFails then 500 else 200;
  }
}
