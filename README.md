# Donor directory service: a Dafny model of its request logic

The service keeps one collection of blood-donor documents. Each document has an
`_id` and free-form fields, of which `Name` and `Blood_Group` matter to the
service. It exposes `GET`, `POST`, `PUT` and `DELETE` on `/blood-group`. Nearly
all of `index.js` is Express and MongoDB wiring. This project models the decision
logic that surrounds the database calls, and proves what that logic promises.

- `Cors` (`cors.dfy`) models the origin callback installed in front of every
  route. It accepts a missing or empty `Origin` and the five listed front ends,
  compared as exact strings.
- `Documents` (`documents.dfy`) models request bodies and stored documents.
  `cleanData` is modelled with JavaScript's `trim` written out character by
  character. The `$set` of an update is the merge `Merge`.
- `Listing` (`listing.dfy`) models `GET /blood-group`:
  - query-string defaults;
  - the query document, as a small filter language with its evaluator, proved
    equal to a direct statement of which donors are selected;
  - the sort direction and a sort on the chosen field;
  - the skip/limit page window and the `totalPages` ceiling;
  - the response envelope.

  The listing is built over a sequence of records: filter, then sort, then skip,
  then limit. The store's case-insensitive regular-expression match is a parameter
  `matches`. Its ordering of field values is a parameter `keyLe`. Sorting is proved
  to give a permutation of its input, and to put it in order whenever `keyLe` is a
  total preorder.
- `Handlers` (`handlers.dfy`) holds the class `DonorCollection`. Its state is a
  map from identifiers to documents plus the order in which the store returns
  documents before sorting. Its methods `Update`, `Delete`, `Insert` and `List`
  are the four route handlers. Each returns the HTTP status and the reply's
  message, and each states the collection's new state:
  - `ObjectId.isValid` is the collection's uninterpreted `idIsValid`;
  - `new ObjectId(id)` throws exactly when `idIsValid(id)` is false;
  - a failure inside the database driver, or a request the store refuses (an
    invalid `$regex`, an empty sort key), is the `storeFault` argument and ends
    in 500.
- `Walkthrough` is a client of the handlers. It follows one donor through
  create, update (with an empty key in the body), refused updates and a double
  delete.

Three behaviours of the code differ from what a reader of the routes might
expect. The model follows the code:

- `PUT` does not validate the identifier. A malformed id with a non-empty cleaned
  body makes `new ObjectId(id)` throw, and the handler answers 500, not 400. An
  empty cleaned body is refused with 400 before the id is looked at, even when
  the id is malformed.
- `POST` stores its body as received, blank keys included; only `PUT` cleans.
  So "no stored field name is blank" is not an invariant of the collection. The
  model proves the weaker fact that `PUT` and `DELETE` never introduce a blank
  field name.
- `PUT` and `DELETE` answer 200 whenever the store matched or deleted any
  document. Since `_id` is unique, that is at most one.

## Model

| member | source | states |
|---|---|---|
| Cors.CheckOrigin | index.js:19-25 | the callback allows iff the origin is absent, empty, or one of `allowedOrigins`; otherwise it reports the error "Not allowed by CORS" |
| Cors.ExactlyFiveOrigins | index.js:9-15 | a present, non-empty origin is allowed iff it is one of five distinct strings |
| Cors.NearMissesRejected | index.js:20 | matching is exact: a trailing slash, another port or another scheme is rejected |
| Documents.TrimStart | index.js:115 | the result is the suffix of the key after a run of whitespace and does not start with whitespace |
| Documents.TrimEnd | index.js:115 | the result is the prefix of the key before a run of whitespace and does not end with whitespace |
| Documents.Trim | index.js:115 | `key.trim()` is empty iff the key consists of whitespace only; otherwise it neither starts nor ends with whitespace |
| Documents.TrimBetweenWhitespace | index.js:115 | `key.trim()` is the part of the key between a leading and a trailing run of whitespace |
| Documents.CleanData | index.js:113-117 | keeps exactly the entries whose key has a non-whitespace character, with their values unchanged |
| Documents.CleanDataShrinks | index.js:113-117 | cleaning never adds a key, and its result has no blank key |
| Documents.CleanDataIdempotent | index.js:113-117 | cleaning twice equals cleaning once |
| Documents.CleanDataEmptyIff | index.js:126-130 | the cleaned body is empty (the 400 case of `PUT`) iff every key of the body is blank, including an empty body |
| Documents.CleanDataIgnoresBlank | index.js:115 | adding an entry under a blank key does not change the cleaned body |
| Documents.CleanDataKeepsClean | index.js:115 | a body without blank keys is returned unchanged |
| Documents.CleanDataExample | index.js:113-117 | `{ Blood_Group: "B+", "": "ignored" }` cleans to `{ Blood_Group: "B+" }` |
| Documents.Merge | index.js:132-135 | `$set` gives each supplied key its supplied value, keeps every other field and removes none |
| Documents.MergeIdempotent | index.js:132-135 | repeating the same `$set` has no further effect |
| Documents.MergeExample | index.js:132-135 | setting `Blood_Group` on `{ Name: "Carl", Blood_Group: "A+" }` leaves `Name` untouched |
| Documents.MergeCleanKeepsNoBlankKeys | index.js:126-135 | merging a cleaned body into a document without blank keys gives a document without blank keys |
| Listing.Resolve | index.js:70-77 | every query parameter that is present is used as given; each absent one takes its own default: search "", bloodGroup "", sortField "Name", sortOrder "asc", page 1, limit 20 |
| Listing.ResolveDefaults | index.js:70-77 | a query string with no parameters at all resolves to search "", bloodGroup "", sortField "Name", sortOrder "asc", page 1, limit 20 |
| Listing.BuildQuery | index.js:79-89 | the shape only: an `$and` with one clause, or two when `bloodGroup` is non-empty; what the query selects is stated by `Listing.QueryMeaning` |
| Listing.QueryMeaning | index.js:79-89 | a document passes iff (search matches `Name` or `Blood_Group`) and (`bloodGroup` is empty or `Blood_Group` equals it exactly) |
| Listing.Matching | index.js:91-94 | every record that satisfies the query is kept exactly as often as it is stored, and every other record is dropped |
| Listing.DirectionOf | index.js:95 | the sort is ascending iff `sortOrder` is exactly "asc", descending otherwise |
| Listing.InsertInOrder | index.js:95 | inserting a record into a listing adds exactly that record |
| Listing.SortBy | index.js:95 | sorting yields a permutation of the filtered records |
| Listing.InsertKeepsOrdered | index.js:95 | inserting into an ordered listing keeps it ordered, under a total preorder on keys |
| Listing.SortByOrdered | index.js:95 | the sorted listing is ordered on `sortField` in the chosen direction, under a total preorder on keys |
| Listing.Offset | index.js:96 | the skip is `(page - 1) * limit`; page 1 skips nothing |
| Listing.Paginate | index.js:96-97 | a page has at most `limit` records, exactly `min(limit, n - skip)` when the skip is below `n`, and is the run of the listing starting at the skip |
| Listing.CeilDiv | index.js:104 | `totalPages` is 0 for no records and otherwise satisfies `(totalPages - 1) * limit < total <= totalPages * limit` |
| Listing.PageNonEmptyIff | index.js:96-104 | a page holds records iff its number is at most `totalPages` |
| Listing.RecordOnItsPage | index.js:96-104 | record `k` of the listing is entry `k % limit` of page `k / limit + 1`, and that page is within `totalPages` |
| Listing.FifteenRecordsTwoPages | index.js:96-104 | with 15 matching records and limit 10, page 2 holds the last 5 and `totalPages` is 2 |
| Listing.Respond | index.js:91-106 | `total` counts every selected record whatever the page; `page` and `limit` echo the query; `totalPages` is the ceiling; `data` is the whole skip/limit window of the sorted listing: `min(limit, total - skip)` selected stored records when the skip is below `total`, none otherwise, each the listing's record at the skip plus its position |
| Listing.PaginateKeepsOrdered | index.js:95-97 | a page cut from an ordered listing is ordered |
| Listing.RespondOrdered | index.js:93-98 | the returned page is in the requested order, under a total preorder on keys |
| Handlers.UpdateKeepsAllClean | index.js:126-141 | a successful `PUT` into a collection without blank field names keeps it so |
| Handlers.InsertedDonorIsFound | index.js:171-177 | a stored record that the query selects is found, and raises the count by one |
| Handlers.RecordsOf | index.js:93-94 | the records listed are exactly the stored documents named in the order, with their identifiers; a duplicate-free order gives records with distinct identifiers |
| Handlers.MatchingKeepsDistinctIds | index.js:91-94 | filtering records with distinct identifiers leaves distinct identifiers |
| Handlers.DistinctIdsCount | index.js:91 | records with distinct identifiers are as many as their identifiers |
| Handlers.FoundCountsSelected | index.js:91 | `total` is the number of stored documents the query selects, one per identifier |
| Handlers.RecordsOfAppend | index.js:174 | inserting a new document appends its record to the store's order |
| Handlers.DonorCollection.Records | index.js:93-94 | the records listed are exactly the stored documents with their identifiers |
| Handlers.DonorCollection.constructor | index.js:47-48 | the handle holds exactly the documents the store already holds, in the store's order |
| Handlers.DonorCollection.Update | index.js:118-146 | 400 iff the cleaned body is empty, whatever the id; else 500 iff the id is malformed or the store fails; else 404 iff no document has the id; else 200 with exactly the cleaned keys set on that document; the collection is unchanged on every non-200 path |
| Handlers.DonorCollection.Delete | index.js:148-169 | 400 iff `ObjectId.isValid` rejects the id, with no store call; else 500 on store failure; else 404 iff no document has the id; else 200 with exactly that document removed; the collection is unchanged on every non-200 path |
| Handlers.DonorCollection.Insert | index.js:171-182 | 201 with the new id iff the store accepts the insert; the body is stored as given under the new id and appended to the store's order; otherwise 500 with the collection unchanged |
| Handlers.DonorCollection.List | index.js:68-111 | 500 iff the store fails; otherwise the envelope computed from the stored records with defaults filled in, whose `total` is the number of stored documents the query selects |

## Left out

- Express and process wiring are not modelled: the app and middleware set-up,
  `express.json`, `app.listen`, dotenv and the port, and the liveness route
  (`index.js:195-201`). They are I/O with no decisions in them.
- The MongoDB client set-up and connection string (`index.js:32-46`) are not
  modelled. The collection object stands for the collection handle taken at
  `index.js:47-48`, and its constructor receives the store's current contents.
- The CORS `methods` and `credentials` options (`index.js:26-27`) are not
  modelled. They are configuration passed to the library, and what the library
  does after the callback reports an error is not part of this model.
- Regular-expression syntax and case folding of `$regex` with `$options: "i"`
  are not modelled. They are the parameter `matches`.
- The store's ordering of mixed field types is not modelled; it is the parameter
  `keyLe`.
- Listing.SortBy: sorts stably, which is one of the orders the store may return.
  The store does not promise any particular order among records with equal keys,
  and the model does not say so.
- Driver-side `$set` semantics are not modelled: dotted paths, `$`-prefixed keys,
  and an attempt to change `_id`. Update bodies are merged key by key as flat
  field names.
- The `ObjectId` format and its normalisation are not modelled. An identifier is
  a string, `ObjectId.isValid` is the uninterpreted `idIsValid`, and a valid id
  string addresses the document stored under that same string.
- A POST body that carries its own `_id` is not modelled. The identifier the
  driver generates is the argument `newId`, since it comes from time and
  randomness.
- Store failures are the argument `storeFault`, and they leave the collection
  unchanged. The same argument stands for requests the store refuses whatever
  its state: a `search` that is not a valid regular expression (such as `(`),
  or an empty `sortField`. Both end in 500 at `index.js:107-109`. The model
  does not decide which request texts the store refuses, so with `storeFault`
  false it answers these requests with an envelope. A write that succeeds but whose acknowledgement is lost is not
  modelled.
- JavaScript coercion of query parameters is not modelled. This covers
  non-numeric, zero or negative `page` and `limit`, the resulting NaN or
  Infinity in the skip and in `Math.ceil`, repeated parameters arriving as
  arrays, and `parseInt` of non-integers. `page` and `limit` are positive
  integers, and `parseInt` returns them unchanged.
- Object-valued query parameters are not modelled. The extended query-string
  parser turns `?bloodGroup[$ne]=A%2B` into an object, which `index.js:87` puts
  into the query as an operator clause (`{ Blood_Group: { $ne: "A+" } }`); an
  object `search` likewise reaches `$regex`. The model types every parameter as a
  string, so `Listing.QueryMeaning` covers string-valued parameters only.
- Field values are JSON scalars, and numbers are integers. Nested objects,
  arrays and floating point are not modelled.
- Request bodies are assumed to be JSON objects. An absent or non-object body is
  not modelled.
- The `!updatedData` test at `index.js:128` is not modelled separately: it is
  dead code, because `cleanData` always returns an object.
- Concurrency is not modelled. Each handler runs alone. The count and the page
  of `GET` are two separate store calls, and the model reads them from the same
  state.
- The console logging and the commented-out earlier `GET` handler
  (`index.js:50-67`) are not modelled.
- Response bodies are reduced to the status and the message text. The insert
  result object and the `success` flag of `POST` are not modelled.
