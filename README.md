# Restaurant directory data-access layer, modelled in Dafny

This project models `DBHelper`, the data-access layer of a browser-based
restaurant directory (js/dbhelper.js). `DBHelper` reads restaurants from a
local IndexedDB object store and falls back to the backend only when that
store is empty. It keeps the store filled with what the backend returns.
It answers the page's queries by projecting the list it obtained: lookup by
id, filters by cuisine and neighborhood (with the wildcard "all"), and the
distinct neighborhoods and cuisines.

The I/O is taken as input:

- the outcome of the IndexedDB read is a `CacheRead`: no handle, a rejected read, or the stored records;
- the outcome of the request to the backend is an `ApiResponse`: the parsed list, a transport failure, or a body that is not JSON.

Every callback `cb(error, data)` is a `Reply`: a pair of optional values.
So "exactly one of the two is non-null" is a property the model proves
(`Exclusive`), not something built into the types.

Files and modules:

- `wrappers.dfy` (`Wrappers`): `Option`.
- `restaurants.dfy` (`Restaurants`): the restaurant record, the errors, `Reply`, `CacheRead`, `ApiResponse`.
- `sequences.dfy` (`Sequences`): `Array.prototype.filter`, `indexOf` and the `filter((v, i) => a.indexOf(v) == i)` de-duplication, with their laws.
- `queries.dfy` (`Queries`): the cache-first retrieval policy `fetchRestaurants` as a function of the two inputs, and every query built on it.
- `urls.dfy` (`Urls`): the page URL and the image URL, each with a parser that recovers what the URL was built from.
- `local_store.dfy` (`LocalStore`): the object store as a class with a `map` field. It holds `saveToIDB` (a loop of `put`s), `getAll` (records in ascending key order), `fetchCachedRestaurants`, and `fetchRestaurants` run against the store.

A missing or failing store is not treated as a disabled cache:

- Without a service worker, `openIDBConnection` resolves to `undefined` and so does the cached read. Reading `.length` of it then throws. The callback receives that error, and the backend is never asked.
- A rejected IndexedDB read also goes to the error callback, and the backend is not asked.

## Model

| member | source | states |
|---|---|---|
| `Queries.FetchRestaurants` | js/dbhelper.js:62-77 | The callback gets exactly one of error and data. A rejected cache read gives that error with null data. The backend is asked exactly when the cached read is an empty list. Records are handed to `saveToIDB` exactly when the backend was asked and answered with a list, and they are the records delivered. |
| `Queries.CacheHitSkipsApi` | js/dbhelper.js:63-66 | A non-empty cached list is delivered unchanged, nothing is saved, and the backend is not asked, whatever it would answer. |
| `Queries.CacheMissUsesApi` | js/dbhelper.js:67-69 | An empty cached list makes the callback receive the backend's outcome, and the backend is asked. Only a successfully fetched list is handed to `saveToIDB`. |
| `Queries.RejectedReadIsError` | js/dbhelper.js:63-75 | A rejected cache read reaches the callback as an error with null data. The backend is not asked, and nothing is saved. |
| `Queries.AbsentStoreIsError` | js/dbhelper.js:22-24 | Without a database handle the callback receives an error with null data, the backend is not asked, and nothing is saved. |
| `Queries.ApiReply` | js/dbhelper.js:53-60 | The request delivers data exactly when the backend answered with a list, and that list is the data. A transport failure or a body that is not JSON becomes an error with null data. |
| `Queries.FirstIndexWithId` | js/dbhelper.js:101 | The position `find` stops at is the first record with the id. It is -1 exactly when no record has the id. |
| `Queries.FindById` | js/dbhelper.js:101 | Nothing is found exactly when no record has the id. Otherwise the result is the first record with that id. |
| `Queries.FetchRestaurantById` | js/dbhelper.js:95-111 | The callback gets exactly one of error and data. Delivered data is a restaurant with the requested id. |
| `Queries.FetchRestaurantByIdSpec` | js/dbhelper.js:97-108 | An upstream error is forwarded unchanged. A list with no record of that id gives the error "Restaurant does not exist". A list with such a record delivers the first one. Delivered data is always the first record with the id. |
| `Queries.ByCuisine` | js/dbhelper.js:123 | The result is an order-preserving subsequence of the list. It holds each record whose cuisine equals the argument, as often as the list does, and no other record. |
| `Queries.ByNeighborhood` | js/dbhelper.js:139 | The result is an order-preserving subsequence of the list. It holds each record whose neighborhood equals the argument, as often as the list does, and no other record. |
| `Queries.ByCuisineAndNeighborhoodSpec` | js/dbhelper.js:158-166 | The combined filter equals one filter where each field must match unless its argument is "all". ("all", "all") gives the list unchanged. "all" on one side gives the single-field filter on the other side. |
| `Queries.NeighborhoodsOf` | js/dbhelper.js:182-184 | The mapped array has the list's length and holds the neighborhood of each record at its position. |
| `Queries.CuisinesOf` | js/dbhelper.js:204 | The mapped array has the list's length and holds the cuisine of each record at its position. |
| `Queries.UniqueNeighborhoods` | js/dbhelper.js:182-188 | No duplicates. A value is in the result exactly when some record has it as its neighborhood. Values are ordered by their first occurrence in the list. |
| `Queries.UniqueCuisines` | js/dbhelper.js:204-208 | No duplicates. A value is in the result exactly when some record has it as its cuisine. Values are ordered by their first occurrence in the list. |
| `Queries.FetchRestaurantByCuisine` | js/dbhelper.js:116-127 | The callback gets exactly one of error and data. The upstream error is passed on unchanged. Delivered data is the cuisine filter of the fetched list, so order and multiplicity are kept. |
| `Queries.FetchRestaurantByNeighborhood` | js/dbhelper.js:132-143 | The callback gets exactly one of error and data. The upstream error is passed on unchanged. Delivered data is the neighborhood filter of the fetched list, so order and multiplicity are kept. |
| `Queries.FetchRestaurantByCuisineAndNeighborhood` | js/dbhelper.js:148-170 | The callback gets exactly one of error and data. The upstream error is passed on unchanged. Delivered data is the combined filter of the fetched list. It holds exactly the records matching both fields, where "all" matches any value. ("all", "all") delivers the fetched list unchanged. |
| `Queries.FetchNeighborhoods` | js/dbhelper.js:175-192 | The callback gets exactly one of error and data. The upstream error is passed on unchanged. Delivered data is the de-duplicated neighborhoods of the fetched list: no duplicates, exactly their neighborhoods, in first-occurrence order. |
| `Queries.FetchCuisines` | js/dbhelper.js:197-212 | The callback gets exactly one of error and data. The upstream error is passed on unchanged. Delivered data is the de-duplicated cuisines of the fetched list: no duplicates, exactly their cuisines, in first-occurrence order. |
| `Queries.QueriesForwardErrors` | js/dbhelper.js:97-100 | When `fetchRestaurants` reports an error, all six derived queries report that same error with null data. |
| `Sequences.Filter` | js/dbhelper.js:123 | `filter` returns an order-preserving subsequence. It holds each accepted element as often as the input does, and no rejected element. |
| `Sequences.FilterTwice` | js/dbhelper.js:161-165 | Filtering by one predicate and then another equals filtering once by their conjunction. |
| `Sequences.FilterAll` | js/dbhelper.js:158 | A filter that accepts everything returns its input unchanged. |
| `Sequences.IndexOf` | js/dbhelper.js:187 | `indexOf` is -1 exactly when the value is absent. Otherwise it is the position of the value's first occurrence. |
| `Sequences.KeepFirstUpTo` | js/dbhelper.js:186-188 | Keeping the positions where `indexOf(v) == i`, up to a position, yields exactly the values before that position. Each value appears once, ordered by first occurrence. |
| `Sequences.KeepFirstOccurrencesSpec` | js/dbhelper.js:206-208 | The de-duplication has no duplicates and holds exactly the input's values, ordered by first occurrence. |
| `Urls.NatToDecimal` | js/dbhelper.js:218 | The rendered id is a non-empty string of decimal digits, with no leading zero for a positive id. |
| `Urls.DecimalRoundTrip` | js/dbhelper.js:218 | Parsing the decimal rendering of a number gives the number back. |
| `Urls.UrlForRestaurant` | js/dbhelper.js:217-219 | The URL is the page prefix followed by something non-empty. |
| `Urls.UrlForRestaurantRoundTrip` | js/dbhelper.js:217-219 | The id can be read back from the page URL. |
| `Urls.UrlForRestaurantInjective` | js/dbhelper.js:217-219 | Restaurants with different ids get different page URLs. |
| `Urls.ImageUrlForRestaurant` | js/dbhelper.js:224-229 | The URL is the placeholder exactly when the restaurant has no photograph, where a missing or empty photograph counts as none. |
| `Urls.ImageUrlRoundTrip` | js/dbhelper.js:224-229 | The photograph can be read back from the image URL. The placeholder yields no photograph. |
| `LocalStore.OpenIDBConnection` | js/dbhelper.js:21-31 | No handle exactly when there is no service worker. Otherwise the database opened is at schema version 1 with key path "id". |
| `LocalStore.LastIndexWithId` | js/dbhelper.js:43-45 | The position of the last record of the batch with a given id, or -1 when no record of the batch has it. |
| `LocalStore.UpsertedSpec` | js/dbhelper.js:36-47 | After putting a batch, each id of the batch holds the last record of the batch with that id. Every other key keeps its old record, and no other key appears. |
| `LocalStore.SavedRecordsAreServedNext` | js/dbhelper.js:53-69 | After a non-empty batch is saved, the next cached read is non-empty, so the next `fetchRestaurants` does not ask the backend. With unique ids it delivers every record of the batch. |
| `LocalStore.IndexedDb.Put` | js/dbhelper.js:44 | `put` stores the record under its id and keeps the store keyed by id. |
| `LocalStore.IndexedDb.SaveToIDB` | js/dbhelper.js:36-48 | With a handle, the store becomes the old store with the batch upserted in order. Without one, it is unchanged. |
| `LocalStore.IndexedDb.GetAll` | js/dbhelper.js:88 | `getAll` lists every stored record once, in ascending key order, and nothing else. |
| `LocalStore.IndexedDb.FetchCachedRestaurants` | js/dbhelper.js:82-90 | The read yields `undefined` without a service worker. Otherwise it yields the store's listing. |
| `LocalStore.IndexedDb.FetchRestaurants` | js/dbhelper.js:62-77 | The outcome is the retrieval policy applied to this store's read. The store changes only by upserting what the backend returned on a cache miss. |
| `LocalStore.FetchTwice` | js/dbhelper.js:53-77 | On an empty store, a first fetch asks the backend and delivers its list. A second fetch that starts after the save has completed is served from the store without asking, and delivers every record of the first list. |

## Left out

- `mapMarkerForRestaurant`: a wrapper over the Google Maps API, which is not part of this model.
- `DATABASE_URL`: a constant URL with no behaviour. The request to it is the `ApiResponse` input.
- The page layer (js/main.js) and the build pipeline (gulpfile.js) are not part of this model.
- Real `fetch`, `res.json()`, `idb.open`, transactions and promise scheduling are inputs. `CacheRead` and `ApiResponse` carry their outcomes.
- `saveToIDB` from `fetchRestaurantsFromAPI` is not awaited in the source. `LocalStore.IndexedDb.FetchRestaurants` completes the save before it returns. The pure `Queries.FetchRestaurants` only reports which records were handed over (`cacheWrite`). Interleavings with other queries are not modelled.
- `LocalStore.IndexedDb.FetchCachedRestaurants` never yields `ReadFailed`. A rejected IndexedDB transaction is environmental. Its effect on `fetchRestaurants` is covered by the pure `Queries.FetchRestaurants` with the `ReadFailed` input.
- Failed writes during `saveToIDB` are not modelled: each `put` succeeds.
- The loose `r.id == id` comparison is modelled as integer equality. The string/number coercion is left out.
- A restaurant's coordinates, opening hours and reviews are not modelled. `photograph` is an optional string, and JavaScript truthiness is modelled as present and non-empty.
- Responses that parse as JSON but are not an array of restaurants are not modelled. `ApiResponse` assumes an array of well-formed records.
- A callback that throws inside the promise chain is not modelled. In the source the `.catch` would then call it a second time, with that error. The page's callbacks are outside this model.
