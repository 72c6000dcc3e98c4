# Shop backend controllers, modelled in Dafny

This project models the two controller files of an Express/MongoDB shop backend:

- the **product** handlers: create, read by id (with the event discount in force), read by category, update, delete, like, view, sell and search paging;
- the **event** handlers: create, list with applied-product counts, read, update and delete;
- the **mini-event** handlers: rows of `ApplicableProduct` that put a product on discount inside an event's time window. They are added in bulk, removed one by one, removed by substring match from an event, and removed by time slot.

The document store is the class `Store.Db`. Its fields are the collections the handlers read and write:

- `products` and `events` are maps from identifier to document;
- `images` is a sequence in which an Image document's identifier is its position;
- `applicable` and `likeLists` are sequences in insertion order, and the model's `findOne` takes the first matching row in that order;
- `nextId` hands out fresh identifiers for products, events and rows.

`Valid()` says that every product, event and row identifier lies below `nextId` and that row identifiers are distinct. Every handler preserves it.

Each handler is a method on the store. It returns the HTTP status it sends. Its postcondition states the whole new store, as a field update of the old `State()`, for every status it can produce, including the error paths. Those error paths are:

- 400 for a missing field;
- 401 for a session without a user id;
- 404 for a missing document;
- 500 for an identifier that does not cast, and for a JavaScript exception caught by the handler's `catch`.

Request values are `Json.Value`, so JavaScript truthiness, `Array.isArray` and `typeof … === 'string'` are modelled exactly. ObjectIds are natural numbers. `id.toString()` is the decimal numeral (`Ids.IdString`). Casting a request string to an identifier is `Ids.ParseId`, which accepts exactly the canonical numerals.

Modules:

- `Options`, `Text`, `Ids` and `Substrings` cover identifiers, `parseInt` and `String.prototype.includes`.
- `Seqs` covers the order-preserving filter and the first-match search.
- `Json` covers request values, truthiness and `Number()`.
- `Requests` covers the upload paths and the link images.
- `Store` holds the documents and the store class.
- `ProductController` and `EventController` hold the handlers.

## Model

| member | source | states |
|---|---|---|
| Text.Decimal | backend/src/controllers/eventController.js:90 | `toString` of an identifier is a non-empty digit string with no leading zero except for 0 |
| Text.DecimalValue | backend/src/controllers/eventController.js:90 | reading the numeral of `n` back gives `n` |
| Text.CanonicalDecimal | backend/src/controllers/eventController.js:97 | every canonical numeral is the `toString` of its value |
| Text.ParseIntDecimal | backend/src/controllers/productControllers.js:460-461 | `parseInt` reads a written-out number, signed or not, up to the first non-digit |
| Ids.ParseId | backend/src/controllers/productControllers.js:119 | an identifier string casts iff it is canonical, and it casts to the identifier whose `toString` it is |
| Ids.ParseIdString | backend/src/controllers/eventController.js:90-97 | the `toString` of every identifier casts back to it |
| Ids.IdStringInjective | backend/src/controllers/eventController.js:90-97 | distinct events get distinct grouping keys |
| Substrings.IncludesAt | backend/src/controllers/eventController.js:311 | `includes` holds iff the needle occurs at some position of the haystack |
| Seqs.Filter | backend/src/controllers/eventController.js:311 | filter keeps only accepted elements of the input and every accepted element |
| Seqs.FilterAppend | backend/src/controllers/eventController.js:311 | filtering preserves the relative order of what it keeps |
| Seqs.FilterPartition | backend/src/controllers/eventController.js:359-367 | what a filter keeps and what its complement keeps together are the input's elements, as a multiset, and their counts add up to its length |
| Seqs.FirstIndex | backend/src/controllers/productControllers.js:132-136 | `findOne` yields the first matching row, or none iff no row matches |
| Json.NumberOfNumeral | backend/src/controllers/productControllers.js:30-34 | `Number` of a numeral string, signed or not, is that number |
| Json.NumberOfBaseLiteral | backend/src/controllers/productControllers.js:30-34 | `Number` reads an unsigned "0b" binary or "0o" octal literal in its base |
| Json.NumberOfPrefixedLiterals | backend/src/controllers/productControllers.js:30-34 | "0b101" is 5 and "0O17" is 15 |
| Json.NumberOfArray | backend/src/controllers/productControllers.js:30-34 | `Number` of an array: the empty array is 0, a numeral wrapped in one-element arrays is that number, two or more elements are NaN |
| Requests.LinkImages | backend/src/controllers/eventController.js:160-168 | link images are all strings; an array gives exactly its string elements, in order; a lone non-empty string is the only link; a falsy or any other value gives none |
| Store.Db.AddImages | backend/src/controllers/productControllers.js:42-50 | saves one Image per value, in order, and returns their identifiers in the same order |
| ProductController.CategoryArray | backend/src/controllers/productControllers.js:31 | an array of category strings casts iff every element casts, to exactly the set they name |
| ProductController.SaveImages | backend/src/controllers/productControllers.js:38-67 | image identifiers are the uploads' followed by the links', consecutive and in order |
| ProductController.CreateProduct | backend/src/controllers/productControllers.js:11-84 | 400 when a required field is falsy; 500 with nothing stored when a number or category does not cast; otherwise 201, with the product's images being the uploads then the links and its counters at 0 |
| ProductController.Truncate | backend/src/controllers/productControllers.js:140 | `parseInt` of a stored discount truncates toward zero |
| ProductController.GetProductById | backend/src/controllers/productControllers.js:107-159 | 400, 500 or 404 before lookup; otherwise `isInEvent` iff some row of the product has `start <= now <= end`, and `eventDiscount` is the truncated discount of the first such row, else 0 |
| ProductController.GetProductByCategory | backend/src/controllers/productControllers.js:494-520 | returns exactly the products whose categories contain the id |
| ProductController.UpdateProduct | backend/src/controllers/productControllers.js:221-277 | 404 or 500 with no change; otherwise the new fields are set, new upload images are appended after the existing ones, links are not stored and categories are untouched |
| ProductController.DeleteProduct | backend/src/controllers/productControllers.js:278-306 | removes exactly that product; 400/500/404 leave the store unchanged |
| ProductController.LikeCount | backend/src/controllers/productControllers.js:308-379 | as written: never 404; 500 without a user or product; 400 when already liked; otherwise one new like list holding just this product, and the like count goes up by one |
| ProductController.LikeCountIntended | backend/src/controllers/productControllers.js:320-337 | corrected order of checks: 401 without a user, 404 for a missing product, same effects otherwise |
| ProductController.LikeTwice | backend/src/controllers/productControllers.js:340-346 | after a successful like, liking again is refused with 400; the count went up exactly once |
| ProductController.ViewCount | backend/src/controllers/productControllers.js:381-415 | view count +1 and nothing else changes; 400/500/404 change nothing |
| ProductController.SellCount | backend/src/controllers/productControllers.js:417-456 | 400 when sales have reached the stock, else sales +1; no product within its stock leaves it |
| ProductController.NumberOr | backend/src/controllers/productControllers.js:460-461 | `parseInt(x) \|\| d` is never 0 |
| ProductController.NumberOrReads | backend/src/controllers/productControllers.js:460-461 | a positive numeral is used as given; a missing, zero or non-numeric parameter gives the default |
| ProductController.SearchProducts | backend/src/controllers/productControllers.js:458-492 | page and limit default to 1 and 10; offset is `(page-1)*limit`; 400 on an empty query |
| EventController.LinkValues | backend/src/controllers/eventController.js:27-38 | an array is used as given; a falsy value or unparsable JSON gives no links; JSON that parses to an array gives its elements and to a string gives its characters; any other parse result cannot be spread and throws |
| EventController.CreateEvent | backend/src/controllers/eventController.js:7-64 | 400 unless name, description, start and end are truthy; otherwise 201 with images = uploads then links, no products and no discount |
| EventController.GroupStep | backend/src/controllers/eventController.js:89-93 | one `forEach` step appends the row's product id under its event's key and leaves every other event's group alone |
| EventController.AppliedProductsCount | backend/src/controllers/eventController.js:88-100 | the grouping by `eventId.toString()` puts exactly one entry per row of the event |
| EventController.GetAllEvents | backend/src/controllers/eventController.js:67-109 | one count per event, equal to the number of rows whose event it is (0 if none) |
| EventController.GetEventById | backend/src/controllers/eventController.js:112-140 | 500 on a bad id, 404 when missing, else the event |
| EventController.UpdatedImages | backend/src/controllers/eventController.js:160-181 | whenever there is a link or an upload, the images are exactly the string links then the uploads; with neither, the old images are kept |
| EventController.UpdateEvent | backend/src/controllers/eventController.js:142-212 | 404/500 with no change; otherwise only that event's fields change as above; its products are kept |
| EventController.DeleteEvent | backend/src/controllers/eventController.js:215-240 | removes exactly that event; its rows remain |
| EventController.ParsedIds | backend/src/controllers/eventController.js:253-267 | the products that get a row are the longest prefix of the list that casts |
| EventController.PushedEvents | backend/src/controllers/eventController.js:271-274 | only the named event's list changes, by the new row ids in order; a missing event changes nothing |
| EventController.AddRow | backend/src/controllers/eventController.js:261-276 | one iteration: a fresh row, then its id pushed onto the event if it exists |
| EventController.AddRows | backend/src/controllers/eventController.js:253-277 | rows for the leading products that cast, in order; stops at the first that does not |
| EventController.AddProductToEvent | backend/src/controllers/eventController.js:242-288 | 400 unless products is a non-empty array; otherwise rows and pushes as above, 200 with the rows in request order, or 500 keeping the rows already made |
| EventController.RowsOfAfterAdd | backend/src/controllers/eventController.js:253-277 | an event's rows after the add are its old rows followed by the new ones in request order |
| EventController.RemoveProductFromEvent | backend/src/controllers/eventController.js:290-327 | 500/404/400 change nothing; a non-string, non-array `productId` gives 500 when the event has products and 200 with nothing changed when it has none; a string keeps, in order, the ids whose text is not contained in it |
| EventController.RemoveProductKeeps | backend/src/controllers/eventController.js:311 | every kept id's text is absent from the string, every such id is kept, and the named id is removed |
| EventController.RemoveTwelve | backend/src/controllers/eventController.js:311 | removing "12" from [1, 2, 12, 3] also removes 1 and 2 |
| EventController.Without | backend/src/controllers/eventController.js:332 | deleting a row keeps the others in order |
| EventController.WithoutIsFilter | backend/src/controllers/eventController.js:332 | with distinct ids, deleting the matched row is filtering out its id |
| EventController.WithoutDistinct | backend/src/controllers/eventController.js:332 | deleting a row keeps row ids distinct |
| EventController.FilterDistinct | backend/src/controllers/eventController.js:359-363 | deleting rows by filter keeps row ids distinct |
| EventController.Pulled | backend/src/controllers/eventController.js:336 | `$pull` removes every occurrence of the id from that event only |
| EventController.RemoveMiniEvent | backend/src/controllers/eventController.js:329-343 | 404 when no row has both ids; otherwise that row is deleted and the id is pulled from the event |
| EventController.RemoveTimeSlot | backend/src/controllers/eventController.js:346-373 | as written: 400 without start or end, otherwise always 500; never 200 |
| EventController.RemoveTimeSlotIntended | backend/src/controllers/eventController.js:346-373 | deletes exactly the event's rows whose window equals the given one; the deleted count plus the rows left is the old row count |

## Left out

- The frontend files and `getAllProducts` (a plain listing with `populate`) are not part of this model.
- `populate`, `toObject`, response bodies other than the status and the values named in each contract, and all logging are not modelled.
- The full-text search call is not modelled. Its outcome is the `searchFails` parameter of `ProductController.SearchProducts`.
- `JSON.parse` in createEvent is the `parseJson` parameter of `EventController.CreateEvent`.
- `new Date(...)` is the `parseDate` parameter of `EventController.RemoveTimeSlotIntended`.
- The clock is the `now` parameter of `ProductController.GetProductById`.
- File upload handling is reduced to the list of stored file names.
- Numbers are integers throughout. `Number()` and `parseInt` do not model fractions, exponents or `Infinity`. A row's discount is a real only so that truncation by `parseInt` is visible.
- ProductController.CreateProduct: a price, discount or quantity written with a fraction or an exponent ("19.99", "1e3") is NaN to the model's `Number`, so the model answers 500 and stores nothing where the source stores the number and answers 201.
- ProductController.GetProductById: MongoDB's `findOne` without a sort promises no order; the model's choice is the first matching row in insertion order.
- ProductController.GetProductById: `parseInt` of the stored discount goes through `String()`, which writes a number below 1e-6 or from 1e21 up with an exponent, so `parseInt(5e-7)` is 5 and `parseInt(1e21)` is 1; `ProductController.Truncate` truncates the value itself and gives 0 and 10^21.
- EventController.Assign: an undefined field of `findByIdAndUpdate` leaving the stored value in place assumes a Mongoose version that strips undefined keys from updates; the version is not part of this model.
- Schema validation and casting of document fields are not modelled, except for identifier casts and the numeric casts of createProduct. Examples: an invalid date in an event, a non-string image value, and defaults beyond the counters starting at 0.
- ProductController.UpdateProduct: takes price, quantity and discount as already-cast integers, so a value that fails the schema cast (500 in the source) is not modelled.
- EventController.AddProductToEvent: takes the discount and window as already-cast values; a product item that is not a string counts as a failed cast.
- ProductController.LikeCount: the source looks like lists up by `req.user._id` and creates them with `req.user.id`. The model takes both to be the same identifier.
- ObjectIds are natural numbers and `toString` is decimal. With real 24-character ids and a `productId` holding a single id, the substring test of removeProductFromEvent only matches that id; a longer string, such as two ids joined, removes every id it contains. With decimal ids it also matches shorter ids, as `EventController.RemoveTwelve` shows.
- Concurrency is not modelled: each request runs alone. Interleavings are therefore absent, including lost counter updates and the race between findById and findByIdAndUpdate.

## Findings

| source | as written | input that shows it | evidently intended | confidence | as-written member | corrected member |
|---|---|---|---|---|---|---|
| backend/src/controllers/productControllers.js:320 | `req.user.id` is read before the check that `req.user` exists | a like request with no session: the read throws, giving 500 | 401 "please login" | high, not executed | ProductController.LikeCount | ProductController.LikeCountIntended |
| backend/src/controllers/productControllers.js:331 | `product._id` is read before the null check, so the 404 branch is dead | liking a well-formed id that names no product: 500 | 404 "product not found" | high, not executed | ProductController.LikeCount | ProductController.LikeCountIntended |
| backend/src/controllers/eventController.js:359 | deletes through `MiniEvent`, a name that is never imported | any request with both start and end: ReferenceError, 500, nothing deleted | delete the event's `ApplicableProduct` rows with that exact window and report the count | high, not executed | EventController.RemoveTimeSlot | EventController.RemoveTimeSlotIntended |
