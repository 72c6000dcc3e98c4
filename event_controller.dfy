/**
 * The event handlers: events, the ApplicableProduct rows ("mini-events")
 * that put a product on discount inside an event's window, and the counts
 * the event listing reports.
 */
module EventController {
  import opened Options
  import opened Json
  import opened Ids
  import opened Seqs
  import opened Substrings
  import opened Requests
  import opened Store

  /** Where uploaded event images are stored. */
  const UploadDir: string := "/uploads/events/"

  // ---------------------------------------------------------------- creation

  /**
   * The link images of createEvent: an array is used as it is; any other
   * truthy value is handed to `JSON.parse` (the `parseJson` parameter),
   * whose failure is caught and leaves no links. The result is spread into
   * the image list: an array gives its elements, a string its characters,
   * and anything else throws (`None`).
   */
  function LinkValues(imageLinks: Value, parseJson: Value -> Option<Value>): (r: Option<seq<Value>>)
    ensures !Truthy(imageLinks) ==> r == Some([])
    ensures imageLinks.Arr? ==> r == Some(imageLinks.items)
    ensures Truthy(imageLinks) && !imageLinks.Arr? && parseJson(imageLinks).None? ==> r == Some([])
    ensures Truthy(imageLinks) && !imageLinks.Arr? && parseJson(imageLinks).Some? && parseJson(imageLinks).value.Arr? ==>
      r == Some(parseJson(imageLinks).value.items)
    ensures Truthy(imageLinks) && !imageLinks.Arr? && parseJson(imageLinks).Some? && parseJson(imageLinks).value.Str? ==>
      var t := parseJson(imageLinks).value.s;
      r.Some? && |r.value| == |t| && forall i :: 0 <= i < |t| ==> r.value[i] == Str([t[i]])
    ensures r.None? <==> Truthy(imageLinks) && !imageLinks.Arr? && parseJson(imageLinks).Some?
                         && !parseJson(imageLinks).value.Arr? && !parseJson(imageLinks).value.Str?
  {
    if !Truthy(imageLinks) then Some([])
    else if imageLinks.Arr? then Some(imageLinks.items)
    else match parseJson(imageLinks)
      case None => Some([])
      case Some(Arr(items)) => Some(items)
      case Some(Str(t)) => Some(seq(|t|, i requires 0 <= i < |t| => Str([t[i]])))
      case Some(_) => None
  }

  /** createEvent (POST /events). The discount in the body is not stored. */
  method CreateEvent(db: Db, name: Value, description: Value, startDate: Value, endDate: Value,
                     location: Value, files: seq<string>, imageLinks: Value,
                     parseJson: Value -> Option<Value>)
    returns (status: int, created: Option<Id>)
    requires db.Valid()
    modifies db
    ensures db.Valid()
    ensures !(Truthy(name) && Truthy(description) && Truthy(startDate) && Truthy(endDate)) ==>
      status == 400 && created == None && db.State() == old(db.State())
    ensures (Truthy(name) && Truthy(description) && Truthy(startDate) && Truthy(endDate)
             && LinkValues(imageLinks, parseJson).None?) ==>
      status == 500 && created == None && db.State() == old(db.State())
    ensures (Truthy(name) && Truthy(description) && Truthy(startDate) && Truthy(endDate)
             && LinkValues(imageLinks, parseJson).Some?) ==>
      var id := old(db.nextId);
      var images := UploadPaths(UploadDir, files) + LinkValues(imageLinks, parseJson).value;
      && status == 201
      && created == Some(id)
      && db.State() == old(db.State()).(
           events := old(db.events)[id := Event(name, description, startDate, endDate, location,
                                                Undefined, images, [])],
           nextId := id + 1)
  {
    if !(Truthy(name) && Truthy(description) && Truthy(startDate) && Truthy(endDate)) {
      return 400, None;
    }
    var uploaded := UploadPaths(UploadDir, files);
    var links := LinkValues(imageLinks, parseJson);
    if links.None? {
      // spreading a value that is not iterable throws a TypeError
      return 500, None;
    }
    var id := db.FreshId();
    db.events := db.events[id := Event(name, description, startDate, endDate, location,
                                       Undefined, uploaded + links.value, [])];
    status, created := 201, Some(id);
  }

  // ---------------------------------------------------------------- reading

  /** The rows of the event `e`. */
  function InEvent(e: Id): ApplicableProduct -> bool {
    (row: ApplicableProduct) => row.eventId == Some(e)
  }

  /** The ApplicableProduct rows that belong to event `e`, in store order. */
  function RowsOf(rows: seq<ApplicableProduct>, e: Id): seq<ApplicableProduct> {
    Filter(rows, InEvent(e))
  }

  /** The product ids grouped under event `e` by getAllEvents, in the order the rows are visited. */
  function AppliedProducts(rows: seq<ApplicableProduct>, e: Id): seq<Id>
  {
    if rows == [] then []
    else
      var last := rows[|rows| - 1];
      AppliedProducts(rows[..|rows| - 1], e) + (if last.eventId == Some(e) then [last.productId] else [])
  }

  /** The grouping has one entry per row of the event. */
  lemma {:induction false} AppliedProductsCount(rows: seq<ApplicableProduct>, e: Id)
    ensures |AppliedProducts(rows, e)| == |RowsOf(rows, e)|
    decreases |rows|
  {
    if rows != [] {
      var init := rows[..|rows| - 1];
      var last := rows[|rows| - 1];
      AppliedProductsCount(init, e);
      assert rows == init + [last];
      FilterAppend(init, [last], InEvent(e));
      assert [last][1..] == [];
    }
  }

  /** `groups` holds, under the text of each event id, the product ids of that event's rows; a key exists exactly for the events that have rows. */
  ghost predicate Grouped(groups: map<string, seq<Id>>, rows: seq<ApplicableProduct>) {
    forall e :: && (IdString(e) in groups <==> AppliedProducts(rows, e) != [])
                && (IdString(e) in groups ==> groups[IdString(e)] == AppliedProducts(rows, e))
  }

  /** One step of the grouping loop: the row's product id is appended under its event's key. */
  lemma GroupStep(groups: map<string, seq<Id>>, rows: seq<ApplicableProduct>, row: ApplicableProduct,
                  after: map<string, seq<Id>>)
    requires Grouped(groups, rows)
    requires row.eventId.None? ==> after == groups
    requires row.eventId.Some? ==>
      var key := IdString(row.eventId.value);
      after == groups[key := (if key in groups then groups[key] else []) + [row.productId]]
    ensures Grouped(after, rows + [row])
  {
    var all := rows + [row];
    assert all[..|all| - 1] == rows;
    forall e
      ensures && (IdString(e) in after <==> AppliedProducts(all, e) != [])
              && (IdString(e) in after ==> after[IdString(e)] == AppliedProducts(all, e))
    {
      if row.eventId.Some? && IdString(e) == IdString(row.eventId.value) {
        IdStringInjective(e, row.eventId.value);
      }
    }
  }

  /** The count read from the grouping is the number of the event's rows. */
  lemma GroupCount(groups: map<string, seq<Id>>, rows: seq<ApplicableProduct>, e: Id)
    requires Grouped(groups, rows)
    ensures (if IdString(e) in groups then |groups[IdString(e)]| else 0) == |RowsOf(rows, e)|
  {
    AppliedProductsCount(rows, e);
  }

  /**
   * getAllEvents (GET /events): every event with its `appliedProductCount`,
   * the number of ApplicableProduct rows whose event it is.
   */
  method GetAllEvents(db: Db) returns (status: int, counts: map<Id, nat>)
    ensures status == 200
    ensures counts.Keys == db.events.Keys
    ensures forall e :: e in counts ==> counts[e] == |RowsOf(db.applicable, e)|
  {
    var rows := db.applicable;
    // product ids grouped by the text form of their event id
    var groups: map<string, seq<Id>> := map[];
    var k := 0;
    while k < |rows|
      invariant 0 <= k <= |rows|
      invariant Grouped(groups, rows[..k])
    {
      var row := rows[k];
      ghost var before := groups;
      if row.eventId.Some? {
        var key := IdString(row.eventId.value);
        var prev := if key in groups then groups[key] else [];
        groups := groups[key := prev + [row.productId]];
      }
      GroupStep(before, rows[..k], row, groups);
      assert rows[..k + 1] == rows[..k] + [row];
      k := k + 1;
    }
    assert rows[..k] == rows;
    counts := map e | e in db.events :: if IdString(e) in groups then |groups[IdString(e)]| else 0;
    forall e | e in counts ensures counts[e] == |RowsOf(db.applicable, e)| {
      GroupCount(groups, rows, e);
    }
    status := 200;
  }

  /** getEventById (GET /events/:id). */
  method GetEventById(db: Db, param: string) returns (status: int, event: Option<Event>)
    ensures ParseId(param).None? ==> status == 500 && event == None
    ensures ParseId(param).Some? && ParseId(param).value !in db.events ==> status == 404 && event == None
    ensures ParseId(param).Some? && ParseId(param).value in db.events ==>
      status == 200 && event == Some(db.events[ParseId(param).value])
  {
    var cast := ParseId(param);
    if cast.None? {
      return 500, None;
    }
    if cast.value !in db.events {
      return 404, None;
    }
    status, event := 200, Some(db.events[cast.value]);
  }

  // ---------------------------------------------------------------- update and delete

  /** A field of a `findByIdAndUpdate`: an undefined value leaves the stored one in place. */
  function Assign(current: Value, given: Value): (r: Value)
    ensures given.Undefined? ==> r == current
    ensures !given.Undefined? ==> r == given
  {
    if given.Undefined? then current else given
  }

  /** The images updateEvent stores: the new links and uploads, or the old images when there are none. */
  function UpdatedImages(current: seq<Value>, image: Value, files: seq<string>): (r: seq<Value>)
    ensures LinkImages(image) + UploadPaths(UploadDir, files) != [] ==> r == LinkImages(image) + UploadPaths(UploadDir, files)
    ensures LinkImages(image) == [] && files == [] ==> r == current
    ensures r != current ==> forall i :: 0 <= i < |r| ==> r[i].Str?
  {
    var added := LinkImages(image) + UploadPaths(UploadDir, files);
    if |added| > 0 then added else current
  }

  /** updateEvent (PUT /events/:id). */
  method UpdateEvent(db: Db, param: string, name: Value, description: Value, startDate: Value,
                     endDate: Value, location: Value, discount: Value, image: Value, files: seq<string>)
    returns (status: int)
    requires db.Valid()
    modifies db
    ensures db.Valid()
    ensures ParseId(param).None? ==> status == 500 && db.State() == old(db.State())
    ensures ParseId(param).Some? && ParseId(param).value !in old(db.events) ==>
      status == 404 && db.State() == old(db.State())
    ensures ParseId(param).Some? && ParseId(param).value in old(db.events) ==>
      var id := ParseId(param).value;
      var e := old(db.events)[id];
      && status == 200
      && db.State() == old(db.State()).(events := old(db.events)[id := Event(
           Assign(e.name, name), Assign(e.description, description),
           Assign(e.startDate, startDate), Assign(e.endDate, endDate),
           Assign(e.location, location), Assign(e.discount, discount),
           UpdatedImages(e.images, image, files), e.products)])
  {
    var cast := ParseId(param);
    if cast.None? {
      return 500;
    }
    var id := cast.value;
    if id !in db.events {
      return 404;
    }
    var e := db.events[id];
    var newImages := LinkImages(image) + UploadPaths(UploadDir, files);
    var finalImages := if |newImages| > 0 then newImages else e.images;
    db.events := db.events[id := Event(
      Assign(e.name, name), Assign(e.description, description),
      Assign(e.startDate, startDate), Assign(e.endDate, endDate),
      Assign(e.location, location), Assign(e.discount, discount),
      finalImages, e.products)];
    status := 200;
  }

  /** deleteEvent (DELETE /events/:id): removes the event; its rows stay. */
  method DeleteEvent(db: Db, param: string) returns (status: int)
    requires db.Valid()
    modifies db
    ensures db.Valid()
    ensures ParseId(param).None? ==> status == 500 && db.State() == old(db.State())
    ensures ParseId(param).Some? && ParseId(param).value !in old(db.events) ==>
      status == 404 && db.State() == old(db.State())
    ensures ParseId(param).Some? && ParseId(param).value in old(db.events) ==>
      status == 200 && db.State() == old(db.State()).(events := old(db.events) - {ParseId(param).value})
  {
    var cast := ParseId(param);
    if cast.None? {
      return 500;
    }
    if cast.value !in db.events {
      return 404;
    }
    db.events := db.events - {cast.value};
    status := 200;
  }

  // ---------------------------------------------------------------- event products

  /** The product id cast from one element of the `products` array. */
  function ItemId(item: Value): Option<Id> {
    if item.Str? then ParseId(item.s) else None
  }

  /** The ids of the leading elements that cast: the products that get a row before a cast fails. */
  function ParsedIds(items: seq<Value>): (r: seq<Id>)
    ensures |r| <= |items|
    ensures forall i :: 0 <= i < |r| ==> ItemId(items[i]) == Some(r[i])
    ensures |r| < |items| ==> ItemId(items[|r|]).None?
  {
    if items == [] || ItemId(items[0]).None? then []
    else [ItemId(items[0]).value] + ParsedIds(items[1..])
  }

  /** The rows addProductToEvent creates for `ids`, under consecutive identifiers from `start`. */
  function NewRows(start: nat, event: Id, ids: seq<Id>, discount: real, startDate: int, endDate: int)
    : (r: seq<ApplicableProduct>)
    ensures |r| == |ids|
    ensures forall i :: 0 <= i < |r| ==>
      r[i] == ApplicableProduct(start + i, Some(event), ids[i], discount, startDate, endDate)
  {
    seq(|ids|, i requires 0 <= i < |ids| => ApplicableProduct(start + i, Some(event), ids[i], discount, startDate, endDate))
  }

  /** The event's product list after the rows `start .. start + n` were pushed onto it, when it exists. */
  function PushedEvents(events: map<Id, Event>, event: Id, start: nat, n: nat): (r: map<Id, Event>)
    ensures r.Keys == events.Keys
    ensures forall e :: e in events && e != event ==> r[e] == events[e]
    ensures event in events ==> r[event] == events[event].(products := events[event].products + Range(start, n))
  {
    if event in events then events[event := events[event].(products := events[event].products + Range(start, n))]
    else events
  }

  /** Pushing no rows leaves the events as they were. */
  lemma PushedNothing(events: map<Id, Event>, event: Id, start: nat)
    ensures PushedEvents(events, event, start, 0) == events
  {
    if event in events {
      var e := events[event];
      assert e.products + Range(start, 0) == e.products;
      assert events[event := e] == events;
    }
  }

  /** One more row pushed onto an event's product list extends the pushed range by one. */
  lemma PushedEventsStep(events: map<Id, Event>, event: Id, start: nat, k: nat,
                         before: map<Id, Event>, after: map<Id, Event>)
    requires before == PushedEvents(events, event, start, k)
    requires after == if event in before
                      then before[event := before[event].(products := before[event].products + [start + k])]
                      else before
    ensures after == PushedEvents(events, event, start, k + 1)
  {
    if event in events {
      var ps := events[event].products;
      assert Range(start, k) + [start + k] == Range(start, k + 1);
      assert (ps + Range(start, k)) + [start + k] == ps + Range(start, k + 1);
    }
  }

  /** One iteration of addProductToEvent: create the row, then push its id onto the event if there is one. */
  method AddRow(db: Db, event: Id, productId: Id, discount: real, startDate: int, endDate: int)
    returns (row: ApplicableProduct)
    requires db.Valid()
    modifies db`applicable, db`events, db`nextId
    ensures db.Valid()
    ensures row == ApplicableProduct(old(db.nextId), Some(event), productId, discount, startDate, endDate)
    ensures db.State() == old(db.State()).(
      applicable := old(db.applicable) + [row],
      events := if event in old(db.events)
                then old(db.events)[event := old(db.events)[event].(products := old(db.events)[event].products + [row.id])]
                else old(db.events),
      nextId := old(db.nextId) + 1)
  {
    var id := db.FreshId();
    row := ApplicableProduct(id, Some(event), productId, discount, startDate, endDate);
    db.applicable := db.applicable + [row];
    if event in db.events {
      var e := db.events[event];
      db.events := db.events[event := e.(products := e.products + [id])];
    }
  }

  /**
   * addProductToEvent (POST /events/:id/products): one row per listed
   * product, each with the same discount and window, pushed onto the event
   * in order. A cast that fails partway leaves the rows created so far.
   */
  method AddProductToEvent(db: Db, param: string, products: Value, discount: real,
                           startDate: int, endDate: int)
    returns (status: int, created: seq<ApplicableProduct>)
    requires db.Valid()
    modifies db
    ensures db.Valid()
    ensures (!Truthy(products) || !products.Arr? || |products.items| == 0) ==>
      status == 400 && created == [] && db.State() == old(db.State())
    ensures (products.Arr? && |products.items| > 0 && ParseId(param).None?) ==>
      status == 500 && created == [] && db.State() == old(db.State())
    ensures (products.Arr? && |products.items| > 0 && ParseId(param).Some?) ==>
      var event := ParseId(param).value;
      var ids := ParsedIds(products.items);
      var start := old(db.nextId);
      var rows := NewRows(start, event, ids, discount, startDate, endDate);
      && status == (if |ids| == |products.items| then 200 else 500)
      && created == (if status == 200 then rows else [])
      && db.State() == old(db.State()).(
           applicable := old(db.applicable) + rows,
           events := PushedEvents(old(db.events), event, start, |ids|),
           nextId := start + |ids|)
  {
    created := [];
    if !Truthy(products) || !products.Arr? || |products.items| == 0 {
      return 400, created;
    }
    var cast := ParseId(param);
    if cast.None? {
      // the first create fails to cast the event id
      return 500, created;
    }
    // each create casts its product id; the loop stops at the first that does not cast
    var items := products.items;
    var ids := ParsedIds(items);
    var rows := AddRows(db, cast.value, ids, discount, startDate, endDate);
    if |ids| < |items| {
      return 500, created;
    }
    status, created := 200, rows;
  }

  /** The loop of addProductToEvent over the product ids that cast: one row each, pushed onto the event. */
  method AddRows(db: Db, event: Id, ids: seq<Id>, discount: real, startDate: int, endDate: int)
    returns (created: seq<ApplicableProduct>)
    requires db.Valid()
    modifies db
    ensures db.Valid()
    ensures created == NewRows(old(db.nextId), event, ids, discount, startDate, endDate)
    ensures db.applicable == old(db.applicable) + created
    ensures db.events == PushedEvents(old(db.events), event, old(db.nextId), |ids|)
    ensures db.nextId == old(db.nextId) + |ids|
    ensures db.products == old(db.products) && db.images == old(db.images) && db.likeLists == old(db.likeLists)
  {
    ghost var start := db.nextId;
    created := [];
    PushedNothing(db.events, event, start);
    var k := 0;
    while k < |ids|
      invariant 0 <= k <= |ids|
      invariant db.Valid()
      invariant created == NewRows(start, event, ids[..k], discount, startDate, endDate)
      invariant db.applicable == old(db.applicable) + created
      invariant db.events == PushedEvents(old(db.events), event, start, k)
      invariant db.nextId == start + k
      invariant db.products == old(db.products) && db.images == old(db.images)
      invariant db.likeLists == old(db.likeLists)
    {
      ghost var before := db.events;
      var row := AddRow(db, event, ids[k], discount, startDate, endDate);
      PushedEventsStep(old(db.events), event, start, k, before, db.events);
      NewRowsSnoc(start, event, ids, k, discount, startDate, endDate, created, row);
      created := created + [row];
      k := k + 1;
    }
    assert ids[..k] == ids;
  }

  /** One more product in the prefix is one more row at the end. */
  lemma NewRowsSnoc(start: nat, event: Id, ids: seq<Id>, k: nat, discount: real, startDate: int, endDate: int,
                    created: seq<ApplicableProduct>, row: ApplicableProduct)
    requires k < |ids|
    requires created == NewRows(start, event, ids[..k], discount, startDate, endDate)
    requires row == ApplicableProduct(start + k, Some(event), ids[k], discount, startDate, endDate)
    ensures created + [row] == NewRows(start, event, ids[..k + 1], discount, startDate, endDate)
  {
    assert ids[..k + 1] == ids[..k] + [ids[k]];
  }

  /** Rows of event `e` after addProductToEvent: the old ones, then the new ones in request order. */
  lemma {:induction false} RowsOfAfterAdd(rows: seq<ApplicableProduct>, start: nat, event: Id, ids: seq<Id>,
                                          discount: real, startDate: int, endDate: int)
    ensures RowsOf(rows + NewRows(start, event, ids, discount, startDate, endDate), event)
         == RowsOf(rows, event) + NewRows(start, event, ids, discount, startDate, endDate)
  {
    var added := NewRows(start, event, ids, discount, startDate, endDate);
    FilterAppend(rows, added, InEvent(event));
    FilterKeepsAll(added, InEvent(event));
  }

  /** The identifiers that survive removeProductFromEvent: those whose text is not inside `needle`. */
  function Survives(needle: string): Id -> bool {
    (id: Id) => !Includes(needle, IdString(id))
  }

  /**
   * removeProductFromEvent (POST /events/:id/products/remove): drops every
   * product id whose text form occurs in the given string.
   */
  method RemoveProductFromEvent(db: Db, param: string, productId: Value) returns (status: int)
    requires db.Valid()
    modifies db
    ensures db.Valid()
    ensures status != 200 ==> db.State() == old(db.State())
    ensures ParseId(param).None? ==> status == 500
    ensures ParseId(param).Some? && ParseId(param).value !in old(db.events) ==> status == 404
    ensures ParseId(param).Some? && ParseId(param).value in old(db.events) ==>
      var id := ParseId(param).value;
      var e := old(db.events)[id];
      if productId.Arr? then status == 400
      else if !productId.Str? && e.products != [] then status == 500
      else if !productId.Str? then status == 200 && db.State() == old(db.State())
      else
        && status == 200
        && db.State() == old(db.State()).(
             events := old(db.events)[id := e.(products := Filter(e.products, Survives(productId.s)))])
  {
    var cast := ParseId(param);
    if cast.None? {
      return 500;
    }
    var id := cast.value;
    if id !in db.events {
      return 404;
    }
    if productId.Arr? {
      return 400;
    }
    var e := db.events[id];
    if !productId.Str? {
      // the filter callback never runs on an empty list; otherwise
      // productId.includes is not a function
      return if e.products != [] then 500 else 200;
    }
    db.events := db.events[id := e.(products := Filter(e.products, Survives(productId.s)))];
    status := 200;
  }

  /**
   * What the filter of removeProductFromEvent keeps: exactly the ids, in
   * order, whose text does not occur in the given string — so the id named
   * goes, and so does every id whose text is part of it.
   */
  lemma RemoveProductKeeps(products: seq<Id>, needle: string)
    ensures forall i :: 0 <= i < |Filter(products, Survives(needle))| ==>
      !Includes(needle, IdString(Filter(products, Survives(needle))[i]))
    ensures forall i :: 0 <= i < |products| && !Includes(needle, IdString(products[i])) ==>
      products[i] in Filter(products, Survives(needle))
    ensures forall p :: ParseId(needle) == Some(p) ==> p !in Filter(products, Survives(needle))
  {
    forall p | ParseId(needle) == Some(p) ensures p !in Filter(products, Survives(needle)) {
      assert IdString(p) <= needle;
    }
  }

  /** Removing "12" from [1, 2, 12, 3] removes 1 and 2 as well, since both occur inside "12". */
  lemma RemoveTwelve()
    ensures Filter<Id>([1, 2, 12, 3], Survives("12")) == [3]
  {
    assert IdString(1) == "1" && IdString(2) == "2" && IdString(12) == "12" && IdString(3) == "3";
    assert Includes("12", "1");
    assert Includes("12", "2") by { assert Includes("2", "2"); }
    assert !Includes("12", "3") by { assert !Includes("2", "3"); assert !Includes("", "3"); }
  }

  /** The row matches both identifiers of removeMiniEvent. */
  predicate MatchesRow(row: ApplicableProduct, app: Id, event: Id) {
    row.id == app && row.eventId == Some(event)
  }

  function Matching(app: Id, event: Id): ApplicableProduct -> bool {
    row => MatchesRow(row, app, event)
  }

  /** Every row except the one with identifier `app`. */
  function OtherThan(app: Id): ApplicableProduct -> bool {
    (row: ApplicableProduct) => row.id != app
  }

  /** Every identifier except `app`. */
  function Differs(app: Id): Id -> bool {
    x => x != app
  }

  /** The rows after the one at index `i` is deleted. */
  function Without(rows: seq<ApplicableProduct>, i: nat): (r: seq<ApplicableProduct>)
    requires i < |rows|
    ensures |r| == |rows| - 1
    ensures forall j :: 0 <= j < i ==> r[j] == rows[j]
    ensures forall j :: i <= j < |r| ==> r[j] == rows[j + 1]
  {
    rows[..i] + rows[i + 1..]
  }

  /** Rows with distinct identifiers: deleting the row with identifier `app` is filtering out that identifier. */
  lemma {:induction false} WithoutIsFilter(rows: seq<ApplicableProduct>, i: nat, app: Id)
    requires DistinctIds(rows)
    requires i < |rows| && rows[i].id == app
    ensures Without(rows, i) == Filter(rows, OtherThan(app))
  {
    var keep := OtherThan(app);
    var pre, gone, post := rows[..i], rows[i], rows[i + 1..];
    forall j | 0 <= j < |pre| ensures keep(pre[j]) {
      assert pre[j] == rows[j];
    }
    forall j | 0 <= j < |post| ensures keep(post[j]) {
      assert post[j] == rows[i + 1 + j];
    }
    FilterDropOne(pre, gone, post, keep);
    assert rows == pre + [gone] + post;
  }

  /** Deleting one row keeps the identifiers distinct. */
  lemma WithoutDistinct(rows: seq<ApplicableProduct>, i: nat)
    requires DistinctIds(rows) && i < |rows|
    ensures DistinctIds(Without(rows, i))
  {
    var r := Without(rows, i);
    forall a, b | 0 <= a < b < |r| ensures r[a].id != r[b].id {
      var a' := if a < i then a else a + 1;
      var b' := if b < i then b else b + 1;
      assert r[a] == rows[a'] && r[b] == rows[b'];
    }
  }

  /** Filtering rows with distinct identifiers leaves them distinct. */
  lemma {:induction false} FilterDistinct(rows: seq<ApplicableProduct>, keep: ApplicableProduct -> bool)
    requires DistinctIds(rows)
    ensures DistinctIds(Filter(rows, keep))
    decreases |rows|
  {
    if rows != [] {
      var tail := rows[1..];
      assert DistinctIds(tail) by {
        forall a, b | 0 <= a < b < |tail| ensures tail[a].id != tail[b].id {
          assert tail[a] == rows[a + 1] && tail[b] == rows[b + 1];
        }
      }
      FilterDistinct(tail, keep);
      var rest := Filter(tail, keep);
      forall j | 0 <= j < |rest| ensures rest[j].id != rows[0].id {
        var k :| 0 <= k < |tail| && tail[k] == rest[j];
        assert rows[k + 1] == tail[k];
      }
    }
  }

  /** The event's product ids without any occurrence of `app`. */
  function Pulled(events: map<Id, Event>, event: Id, app: Id): (r: map<Id, Event>)
    ensures r.Keys == events.Keys
    ensures forall e :: e in events && e != event ==> r[e] == events[e]
    ensures event in events ==> r[event].products == Filter(events[event].products, Differs(app))
    ensures event in events ==> app !in r[event].products
  {
    if event in events then
      var e := events[event];
      var kept := Filter(e.products, Differs(app));
      assert forall i :: 0 <= i < |kept| ==> kept[i] != app;
      events[event := e.(products := kept)]
    else events
  }

  /**
   * removeMiniEvent (DELETE /events/:eventId/minievents/:appId): deletes the row
   * with that identifier in that event, then pulls the identifier from the
   * event's product list.
   */
  method RemoveMiniEvent(db: Db, eventParam: string, appParam: string) returns (status: int)
    requires db.Valid()
    modifies db
    ensures db.Valid()
    ensures (ParseId(eventParam).None? || ParseId(appParam).None?) ==>
      status == 500 && db.State() == old(db.State())
    ensures (ParseId(eventParam).Some? && ParseId(appParam).Some?) ==>
      var event := ParseId(eventParam).value;
      var app := ParseId(appParam).value;
      match FirstIndex(old(db.applicable), Matching(app, event))
      case None => status == 404 && db.State() == old(db.State())
      case Some(i) =>
        && status == 200
        && db.State() == old(db.State()).(
             applicable := Filter(old(db.applicable), OtherThan(app)),
             events := Pulled(old(db.events), event, app))
  {
    var eventCast := ParseId(eventParam);
    var appCast := ParseId(appParam);
    if eventCast.None? || appCast.None? {
      return 500;
    }
    var event, app := eventCast.value, appCast.value;
    var found := FirstIndex(db.applicable, Matching(app, event));
    if found.None? {
      return 404;
    }
    var i := found.value;
    WithoutIsFilter(db.applicable, i, app);
    WithoutDistinct(db.applicable, i);
    db.applicable := Without(db.applicable, i);
    db.events := Pulled(db.events, event, app);
    status := 200;
  }

  // ---------------------------------------------------------------- time slots

  /**
   * removeTimeSlot (DELETE /events/:id/timeslot), as written: the deletion
   * names a model that is not defined, so every request that passes the
   * parameter check ends in the catch and nothing is deleted.
   */
  method RemoveTimeSlot(db: Db, param: string, start: Value, end: Value) returns (status: int)
    ensures !Truthy(start) || !Truthy(end) ==> status == 400
    ensures Truthy(start) && Truthy(end) ==> status == 500
    ensures status != 200
  {
    if !Truthy(start) || !Truthy(end) {
      return 400;
    }
    // MiniEvent is not defined: a ReferenceError
    status := 500;
  }

  /** The rows of event `e` whose window is exactly `startDate .. endDate`. */
  function InSlot(e: Id, startDate: int, endDate: int): ApplicableProduct -> bool {
    (row: ApplicableProduct) => row.eventId == Some(e) && row.startDate == startDate && row.endDate == endDate
  }

  /**
   * removeTimeSlot as intended: delete every ApplicableProduct row of the
   * event whose window is exactly the given one, and report how many went.
   * `parseDate` is `new Date(...)`, with `None` for an invalid date, which
   * the query cannot cast.
   */
  method RemoveTimeSlotIntended(db: Db, param: string, start: Value, end: Value,
                                parseDate: Value -> Option<int>)
    returns (status: int, deletedCount: nat)
    requires db.Valid()
    modifies db
    ensures db.Valid()
    ensures status != 200 ==> db.State() == old(db.State()) && deletedCount == 0
    ensures !Truthy(start) || !Truthy(end) ==> status == 400
    ensures (Truthy(start) && Truthy(end)
             && (ParseId(param).None? || parseDate(start).None? || parseDate(end).None?)) ==> status == 500
    ensures (Truthy(start) && Truthy(end)
             && ParseId(param).Some? && parseDate(start).Some? && parseDate(end).Some?) ==>
      var slot := InSlot(ParseId(param).value, parseDate(start).value, parseDate(end).value);
      && status == 200
      && db.State() == old(db.State()).(applicable := Filter(old(db.applicable), Not(slot)))
      && deletedCount == |Filter(old(db.applicable), slot)|
      && deletedCount + |db.applicable| == |old(db.applicable)|
  {
    deletedCount := 0;
    if !Truthy(start) || !Truthy(end) {
      return 400, deletedCount;
    }
    var cast := ParseId(param);
    var startDate := parseDate(start);
    var endDate := parseDate(end);
    if cast.None? || startDate.None? || endDate.None? {
      return 500, deletedCount;
    }
    var slot := InSlot(cast.value, startDate.value, endDate.value);
    var rows := db.applicable;
    FilterPartition(rows, slot);
    deletedCount := |Filter(rows, slot)|;
    FilterDistinct(rows, Not(slot));
    db.applicable := Filter(rows, Not(slot));
    status := 200;
  }
}
