/**
 * The data the restaurant directory works on: the restaurant record, the
 * errors that reach a callback, the `(error, data)` pair every callback
 * receives, and the outcomes of the two I/O steps (the IndexedDB read and
 * the network request) that the retrieval policy takes as inputs.
 */
module Restaurants {
  import opened Wrappers

  /**
   * One restaurant as served by the backend. `id` is the key of the object
   * store. `photograph` is absent for some records; the geocoordinates,
   * opening hours and reviews are only used by the page layer and are not
   * part of this model.
   */
  datatype Restaurant = Restaurant(
    id: int,
    name: string,
    neighborhood: string,
    cuisineType: string,
    address: string,
    photograph: Option<string>)

  /** The error values a callback can receive. */
  datatype Error =
      /** The TypeError raised by reading `.length` of the `undefined` that the
          cached read yields when there is no database handle. */
      | StoreUnavailable
      /** A rejection of the IndexedDB read (transaction or `getAll`). */
      | CacheReadFailed
      /** A rejection of `fetch` (transport failure). */
      | NetworkError
      /** A rejection of `res.json()` (a body that is not JSON). */
      | FormatError
      /** The string "Restaurant does not exist" passed by the lookup by id. */
      | RestaurantDoesNotExist

  /**
   * The two arguments of a callback `cb(error, data)`; `None` is `null`.
   */
  datatype Reply<+T> = Reply(error: Option<Error>, data: Option<T>)

  /** Exactly one of the two callback arguments is non-null. */
  predicate Exclusive<T>(r: Reply<T>) {
    r.error.Some? != r.data.Some?
  }

  /** A reply that carries data and no error. */
  function Success<T>(data: T): (r: Reply<T>)
    ensures Exclusive(r) && r.data == Some(data)
  {
    Reply(None, Some(data))
  }

  /** A reply that carries an error and null data. */
  function Failure<T>(e: Error): (r: Reply<T>)
    ensures Exclusive(r) && r.error == Some(e) && r.data.None?
  {
    Reply(Some(e), None)
  }

  /** What reading the cached restaurants from IndexedDB produced. */
  datatype CacheRead =
      /** `openIDBConnection` resolved to `undefined`: no service worker. */
      | NoHandle
      /** The read was rejected by IndexedDB. */
      | ReadFailed
      /** `getAll` resolved with these records. */
      | Stored(records: seq<Restaurant>)

  /** What the request to the backend produced. */
  datatype ApiResponse =
      | Fetched(records: seq<Restaurant>)
      | TransportFailed
      | UnparsableBody
}
