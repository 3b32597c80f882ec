# Product resource service — Dafny model

This project models the core of a small Express service that keeps an
in-memory collection of products. The following parts are modelled:

- **Request handlers** (`ProductsRoutes.js`): list with category filter,
  name search and pagination; get by id; create; update; delete; and
  statistics.
- **Body validator** (`validation.js`): runs before create and update.
- **API-key check** (`middleware.js`).
- **Seed collection** (`products.js`): the five products the service
  starts with.

The modules are as follows:

- `Text`: the string operations the handlers use: `toLowerCase`, `trim` and
  `includes`.
- `Outcomes`: `Option`, the three failure kinds (`ValidationError`,
  `NotFound`, `Unauthorized`), and a handler's `Reply` (a status and a body,
  or the failure it throws).
- `Catalog`: the `Product` record and the store invariant `Consistent`. The
  invariant says ids are unique, names are unique ignoring case, and every
  record passes the validator. The module also holds the sequence operations
  the handlers are built from: `filter`, `some`, `find` and `findIndex`.
- `Validation`: `validateProduct` over a JSON request body.
- `Auth`: `authenticateApiKey`.
- `ProductRoutes`: the read-only handlers as functions of the collection, and
  the class `ProductStore`. The class owns the collection and has `Create`,
  `Update` and `Delete` methods that change it in place.
- `Seed`: the five initial records and what the handlers return for them.
- `Router`: the order in which the GET routes are tried.

The read-only handlers (list, get by id, statistics) are functions of the
collection, so they cannot change it. `ProductStore` keeps `Valid()` across
every create, update and delete, and each method states its whole new
collection. Ids from `uuidv4()` are passed in as parameters and assumed
fresh. The value of `process.env.API_KEY` is also passed in.

Some behaviours of the code are worth stating up front:

- A duplicate name, on create and on update, is reported as a
  `ValidationError` whose message names the duplicate.
- The update handler runs `validateProduct` before it looks the id up. So a
  bad body sent to an unknown id gets a validation error, not `NotFound`.
- A page number below 1 is not rejected. `slice` reads a negative index from
  the end, so page 0 is empty and a negative page `-j` holds the items
  between `(j + 1) * limit` and `j * limit` items before the end. It equals
  page `n - j` only when the items fill `n` pages exactly (`PageFromEnd`).
- `GET /statistics` never reaches the statistics handler (see Findings).

## Model

| member | source | states |
|---|---|---|
| Text.Lower | ProductsRoutes.js:60 | lower-casing keeps the length, lower-cases each character and leaves no upper-case letter |
| Text.LowerIdempotent | ProductsRoutes.js:60 | lower-casing a second time changes nothing |
| Text.Trim | validation.js:6 | `trim` leaves the part of the string between its leading and its trailing whitespace, and that part neither starts nor ends with whitespace |
| Text.TrimStartSpec | validation.js:6 | the start trim removes only leading whitespace; what remains is a suffix that does not start with whitespace |
| Text.TrimEndSpec | validation.js:6 | the end trim removes only trailing whitespace; what remains is a prefix that does not end with whitespace |
| Text.TrimEmptyIffBlank | validation.js:6 | `s.trim() === ''` holds exactly when every character of `s` is whitespace |
| Text.TrimNonEmpty | validation.js:6 | a string with a non-whitespace character does not trim to empty |
| Text.Includes | ProductsRoutes.js:66 | `includes` is true exactly when the part occurs at some position of the text |
| Text.IncludesEmpty | ProductsRoutes.js:66 | the empty string is included in every string |
| Catalog.WithId | ProductsRoutes.js:152-159 | the record built by create and update carries the given id and exactly the body's fields |
| Catalog.Filter | ProductsRoutes.js:245 | a filter result is never longer than its input |
| Catalog.FilterMembers | ProductsRoutes.js:245 | a filter keeps exactly the records that pass its test |
| Catalog.FilterAppend | ProductsRoutes.js:60 | filtering distributes over concatenation, so kept records stay in order |
| Catalog.FilterKeepsAll | ProductsRoutes.js:244-247 | the filter keeps the length exactly when every record passes, which is the delete handler's not-found test |
| Catalog.FilterIdentity | ProductsRoutes.js:245 | when every record passes, the filter returns the sequence itself |
| Catalog.FilterDropsOne | ProductsRoutes.js:245 | a filter that rejects only the record at `i` removes exactly that record |
| Catalog.FilterDropsMiddle | ProductsRoutes.js:245 | filtering `before + [p] + after`, where only `p` fails, gives `before + after` |
| Catalog.NameTaken | ProductsRoutes.js:148 | create's `some` is true exactly when some stored record has the name, ignoring case |
| Catalog.NameTakenByOther | ProductsRoutes.js:206 | update's `some` is true exactly when a record with another id has the name, ignoring case; it implies create's test, and equals it when no record has the id |
| Catalog.FilterConsistent | ProductsRoutes.js:245 | filtering a consistent collection leaves it consistent |
| Catalog.AppendConsistent | ProductsRoutes.js:148-160 | appending a well-formed record with a new id and a name not taken (ignoring case) keeps the store invariant |
| Catalog.ReplaceConsistent | ProductsRoutes.js:206-218 | replacing record `i` by a well-formed record with its id and a name no other record has keeps the store invariant |
| Catalog.FindById | ProductsRoutes.js:114 | `find` returns nothing exactly when no record has the id, and otherwise the first record with it |
| Catalog.FindIndex | ProductsRoutes.js:200 | `findIndex` returns nothing (-1) exactly when no record has the id, and otherwise the first position holding it |
| Catalog.FindUnique | ProductsRoutes.js:200 | with unique ids, the position found for a record's id is that record's own |
| Validation.MessagesDistinct | validation.js:6-20 | the five error messages are pairwise different, so a message names its field |
| Validation.StringGuardAgrees | validation.js:6 | the string guard fails exactly when the value is not a string holding a non-whitespace character |
| Validation.Validate | validation.js:3-23 | a body passes exactly when every field is acceptable, and then yields the body's own five values; otherwise the error is the message of the first unacceptable field in the order name, description, price, category, inStock |
| Validation.ValidateRecord | validation.js:3-23 | the validator accepts a record's own fields, unchanged, exactly when the record is well formed |
| Validation.AcceptedIsWellFormed | validation.js:3-23 | a record built from an accepted body is well formed, whatever its id |
| Validation.ValidateIgnoresId | validation.js:4 | an `id` in the body never changes the verdict |
| Auth.ExpectedKey | middleware.js:8 | the expected key is the configured value when it is set and non-empty, and the default key otherwise; it is never empty |
| Auth.Authenticate | middleware.js:3-14 | a request passes exactly when its header holds the expected key; otherwise it is refused with the unauthorized message, in particular when the header is missing or empty |
| Auth.DefaultKeyOnly | middleware.js:8-12 | with no key configured, or an empty one, only the default key passes |
| ProductRoutes.Selected | ProductsRoutes.js:57-68 | the filtered set is never longer than the collection, and with no category and no search it is the whole collection in stored order |
| ProductRoutes.SelectedExactly | ProductsRoutes.js:59-68 | the filtered set holds exactly the stored products that match the given category (ignoring case) and contain the given search term (ignoring case) |
| ProductRoutes.FilterTwice | ProductsRoutes.js:59-68 | two filters in a row equal one filter on both tests |
| ProductRoutes.SelectedInOrder | ProductsRoutes.js:59-68 | the filtered set is the matching products in stored order |
| ProductRoutes.TotalPages | ProductsRoutes.js:77 | `Math.ceil(total / limit)`: the fewest pages of `limit` items that hold all the items |
| ProductRoutes.SliceIndex | ProductsRoutes.js:74 | `slice` reads a negative index from the end and clamps every index to the length |
| ProductRoutes.Slice | ProductsRoutes.js:74 | `slice(start, end)` holds the items from the read start up to the read end, in order, and nothing when the end does not come after the start |
| ProductRoutes.Offset | ProductsRoutes.js:71-72 | a page starts `limit` items before the next one does |
| ProductRoutes.Paginate | ProductsRoutes.js:71-74 | a page holds at most `limit` stored items. From page 1 on, it holds the items from offset `(page - 1) * limit` in order, as many as remain up to `limit`. Page 0 is empty |
| ProductRoutes.PageFromEnd | ProductsRoutes.js:71-74 | when the items fill `n` pages exactly, negative page `-j` equals page `n - j` |
| ProductRoutes.PageEmptyIffPastEnd | ProductsRoutes.js:71-77 | a page from 1 on is empty exactly when it comes after `totalPages` |
| ProductRoutes.PageOfIndex | ProductsRoutes.js:71-74 | item `k` appears on page `k / limit + 1` at position `k % limit` |
| ProductRoutes.FirstPagesArePrefix | ProductsRoutes.js:71-74 | pages 1 to `n` together are the first `n * limit` items |
| ProductRoutes.PagesCoverAll | ProductsRoutes.js:71-77 | reading pages 1 to `totalPages` gives back the whole filtered set, once each and in order |
| ProductRoutes.List | ProductsRoutes.js:53-86 | status 200; `totalProducts` counts the filtered set; `totalPages` is its ceiling over `limit`; the products are exactly the page `Paginate` cuts from the filtered set, in stored order, at most `limit` of them, all stored and all matching; from page 1 on the page is empty exactly past `totalPages`; page 0 is empty; page and limit are echoed |
| ProductRoutes.PastEndKeepsTotals | ProductsRoutes.js:76-77 | every page of the same query reports the same totals |
| ProductRoutes.Get | ProductsRoutes.js:112-119 | status 200 with a stored record carrying the id exactly when some record has it, and `NotFound` with the id in the message otherwise |
| ProductRoutes.Tally | ProductsRoutes.js:281-284 | each category present maps to the number of products in it; no other key is present |
| ProductRoutes.TallySum | ProductsRoutes.js:280-284 | the per-category counts add up to the number of products |
| ProductRoutes.StockSplit | ProductsRoutes.js:286-287 | in-stock and out-of-stock counts add up to the number of products |
| ProductRoutes.Statistics | ProductsRoutes.js:279-295 | status 200; total is the collection size; the in-stock and out-of-stock counts are the sizes of the in-stock and out-of-stock filters, and add up to the total; every product's category has the count of its products; the counts sum to the total |
| ProductRoutes.Without | ProductsRoutes.js:245 | after the delete filter no record has the id, exactly the other records remain, and the length is unchanged exactly when no record had the id |
| ProductRoutes.WithoutRemovesOne | ProductsRoutes.js:244-249 | in a consistent collection, deleting a present id removes exactly that one record and keeps the order of the rest |
| ProductRoutes.WithoutTwice | ProductsRoutes.js:242-251 | deleting the same id again changes nothing |
| ProductRoutes.ProductStore.constructor | ProductsRoutes.js:4 | the store starts with a consistent collection |
| ProductRoutes.ProductStore.Create | ProductsRoutes.js:144-162 | a rejected body or a name already taken (ignoring case) leaves the store unchanged and reports the matching error. Otherwise the new record, with the fresh id and the body's fields, is appended and returned with 201, and get-by-id then finds it. The invariant is kept |
| ProductRoutes.ProductStore.Update | ProductsRoutes.js:196-220 | the checks run in order: validation, then `NotFound` for an unknown id, then a name held by another record. Each failure leaves the store unchanged. Otherwise only the record at the id's position is replaced, by the body's fields under the path id, and it is returned with 200. Get-by-id then finds it and the invariant is kept |
| ProductRoutes.ProductStore.Delete | ProductsRoutes.js:242-251 | the collection becomes the delete filter of the old one. The reply is 204 when the id was present and `NotFound` otherwise. Afterwards no record has the id and the invariant is kept |
| Seed.Products | products.js:3-44 | five records in order, each with its own generated id |
| Seed.SeedIsConsistent | products.js:3-44 | the seed keeps the store invariant: distinct ids, names distinct ignoring case, every record well formed |
| Seed.SeedValidates | products.js:3-44 | the validator accepts every seed record's fields unchanged |
| Seed.SeedStatistics | products.js:3-44 | statistics of the seed: 5 products, 4 in stock, 1 out of stock, and 3 Electronics, 1 Home & Office and 1 Wearables |
| Seed.SeedElectronics | products.js:3-44 | listing the seed with category "electronics" in any letter case gives the three Electronics records in order, with 3 in total on 1 page |
| Catalog.FilterCons | ProductsRoutes.js:60 | filtering a sequence that starts with `p` gives what is kept of `p`, then the filter of the rest |
| Router.FirstFit | ProductsRoutes.js:53-279 | the first registered route whose pattern fits the path, or none when no pattern fits; a fixed segment such as `/statistics` fits in any letter case, as `express.Router()` matches by default |
| Router.DispatchGet | ProductsRoutes.js:53-279 | no fitting route means no handler runs; a handler runs only when its route fits and no earlier route does; and the first fitting route's handler does run (get-by-id given a path segment), the reply being that handler's |
| Router.StatisticsShadowed | ProductsRoutes.js:112-119 | as registered, `GET /statistics` goes to get-by-id and answers `NotFound` |
| Router.RegisteredById | ProductsRoutes.js:112 | as registered, `/` lists and every other one-segment path goes to get-by-id |
| Router.StatisticsReachable | ProductsRoutes.js:279-295 | with `/statistics` registered before `/:id`, `GET /statistics` in any letter case runs the statistics handler |
| Router.OnlyStatisticsMoves | ProductsRoutes.js:53-279 | registering `/statistics` first changes the outcome of no path other than `/statistics` in some letter case |

## Left out

- Express plumbing is not modelled: `asyncHandler`, `next`, and the request and response objects. Route mounting, the mapping of failures to HTTP status codes and error bodies, and logging are left out too. The errors module and the error handler are not part of this model.
- `uuidv4()` is a parameter: `Create` takes the fresh id and requires that no record has it. `Seed.Products` takes five distinct ids.
- `process.env.API_KEY` is a parameter of `Auth.ExpectedKey`. The `x-api-key` header is a string or absent; Node joins a header sent several times into one string, which `Auth.Authenticate` treats like any other wrong key.
- `parseInt` of `page` and `limit` is not modelled. The query carries integers, and the caller supplies the defaults 1 and 10. A non-numeric value gives `NaN` in JavaScript and is not modelled.
- ProductRoutes.List requires `limit >= 1`. With a limit of 0 or less, `Math.ceil` gives `Infinity`, `NaN` or a non-positive count, which a natural number cannot hold. Query parameters given as arrays are not modelled either.
- Prices are real numbers. Floating-point rounding and the special values `Infinity` and `NaN` are not modelled. A JSON body can carry `Infinity` (for example `1e999`), and the price guard would let it through.
- Text.Lower and Text.Trim cover ASCII only. Unicode case mapping and Unicode whitespace are not modelled.
- ProductRoutes.Statistics returns `productsByCategory` as a map, so the key order of the JavaScript object is not kept.
- ProductRoutes.Tally starts from an empty map, while the source starts from `{}`, which inherits the properties of `Object.prototype`. A category named after one of them is not modelled: for `"__proto__"` the source's assignment is ignored and the category gets no key; for `"constructor"`, `"toString"` and the like the stored value becomes a string, not a count. The model gives every category its count.
- ProductRoutes.TallySum holds for the model's map only. In the source the counts add up to fewer than the total when a category is `"__proto__"`, and are not numbers when a category is another inherited property name.
- ProductRoutes.Statistics states `productsByCategory` for the model's map only, with the same exception for categories named after `Object.prototype` properties.
- The `let products` binding is rebound on delete; the model updates the store's field instead, so aliasing of the old array is not modelled.
- The API key middleware is modelled on its own. Which routes it guards is decided outside the core.

## Findings

| source | as written | input that shows it | evidently intended | confidence | as-written member | corrected member |
|---|---|---|---|---|---|---|
| ProductsRoutes.js:112-119 | `GET /:id` is registered before `GET /statistics`, and Express runs the first route that fits | `GET /statistics` on a store whose ids are generated uuids returns 404 "Product with ID statistics not found." | `GET /statistics` returns the statistics | high (not executed) | Router.StatisticsShadowed | Router.StatisticsReachable |
