/**
 * The pure part of `DBHelper`: the cache-first retrieval policy, with the
 * IndexedDB read and the network response taken as inputs, and the query
 * operations that project the list it delivers.
 */
module Queries {
  import opened Wrappers
  import opened Restaurants
  import opened Sequences

  /** The value that means "do not filter on this field" in the combined filter. */
  const Wildcard: string := "all"

  /**
   * One run of `fetchRestaurants`: what its callback receives, whether the
   * request to the backend was made, and which records were handed to the
   * un-awaited `saveToIDB`.
   */
  datatype Retrieval = Retrieval(
    reply: Reply<seq<Restaurant>>,
    consultedApi: bool,
    cacheWrite: Option<seq<Restaurant>>)

  /**
   * `fetchRestaurantsFromAPI` once its request has settled: the parsed list
   * on success, the rejection otherwise.
   */
  function ApiReply(api: ApiResponse): (r: Reply<seq<Restaurant>>)
    ensures Exclusive(r)
    ensures r.data.Some? <==> api.Fetched?
    ensures api.Fetched? ==> r.data.value == api.records
  {
    match api
    case Fetched(records) => Success(records)
    case TransportFailed => Failure(NetworkError)
    case UnparsableBody => Failure(FormatError)
  }

  /**
   * `fetchRestaurants`: a non-empty cached list is delivered as it is; an
   * empty one sends the request to the backend, whose list is delivered and
   * saved. A missing database handle or a failed read is an error, and the
   * backend is then not asked.
   */
  function FetchRestaurants(cached: CacheRead, api: ApiResponse): (out: Retrieval)
    ensures Exclusive(out.reply)
    ensures cached.ReadFailed? ==> out.reply == Failure(CacheReadFailed)
    ensures out.consultedApi <==> cached == Stored([])
    ensures out.cacheWrite.Some? <==> out.consultedApi && api.Fetched?
    ensures out.cacheWrite.Some? ==> out.reply.data == out.cacheWrite
  {
    match cached
    case NoHandle => Retrieval(Failure(StoreUnavailable), false, None)
    case ReadFailed => Retrieval(Failure(CacheReadFailed), false, None)
    case Stored(records) =>
      if |records| > 0 then Retrieval(Success(records), false, None)
      else Retrieval(ApiReply(api), true, if api.Fetched? then Some(api.records) else None)
  }

  /** A non-empty cached list is delivered unchanged, whatever the backend would say. */
  lemma CacheHitSkipsApi(records: seq<Restaurant>, api: ApiResponse)
    requires |records| > 0
    ensures FetchRestaurants(Stored(records), api) == Retrieval(Success(records), false, None)
  {
  }

  /** An empty cache delivers the backend's outcome, and only a successful list is saved. */
  lemma CacheMissUsesApi(api: ApiResponse)
    ensures FetchRestaurants(Stored([]), api).reply == ApiReply(api)
    ensures FetchRestaurants(Stored([]), api).consultedApi
    ensures FetchRestaurants(Stored([]), api).cacheWrite == if api.Fetched? then Some(api.records) else None
  {
  }

  /** A rejected IndexedDB read reaches the callback as an error with null data; the backend is not asked. */
  lemma RejectedReadIsError(api: ApiResponse)
    ensures FetchRestaurants(ReadFailed, api) == Retrieval(Failure(CacheReadFailed), false, None)
  {
  }

  /**
   * Without a database handle (no service worker) the callback receives an
   * error and null data, and the backend is never asked.
   */
  lemma AbsentStoreIsError(api: ApiResponse)
    ensures FetchRestaurants(NoHandle, api) == Retrieval(Failure(StoreUnavailable), false, None)
  {
  }

  /**
   * The position that `restaurants.find(r => r.id == id)` stops at: the
   * first restaurant with that id, or -1 when no restaurant has it.
   */
  function FirstIndexWithId(rs: seq<Restaurant>, id: int): (i: int)
    ensures -1 <= i < |rs|
    ensures i >= 0 ==> rs[i].id == id && forall j :: 0 <= j < i ==> rs[j].id != id
    ensures i == -1 <==> forall j :: 0 <= j < |rs| ==> rs[j].id != id
    decreases |rs|
  {
    if rs == [] then -1
    else if rs[0].id == id then 0
    else
      var k := FirstIndexWithId(rs[1..], id);
      assert forall j :: 1 <= j < |rs| ==> rs[j] == rs[1..][j - 1];
      if k == -1 then -1 else k + 1
  }

  /**
   * `restaurants.find(r => r.id == id)`: the first restaurant with that id,
   * or nothing when no restaurant has it.
   */
  function FindById(rs: seq<Restaurant>, id: int): (r: Option<Restaurant>)
    ensures r.None? <==> forall x :: x in rs ==> x.id != id
    ensures r.Some? ==> r.value.id == id &&
                        (exists i :: 0 <= i < |rs| && rs[i] == r.value && forall j :: 0 <= j < i ==> rs[j].id != id)
  {
    var i := FirstIndexWithId(rs, id);
    if i == -1 then None else Some(rs[i])
  }

  /**
   * `fetchRestaurantById`: the first restaurant with the id; the error
   * "Restaurant does not exist" when there is none; an upstream error
   * forwarded unchanged.
   */
  function FetchRestaurantById(id: int, cached: CacheRead, api: ApiResponse): (r: Reply<Restaurant>)
    ensures Exclusive(r)
    ensures r.data.Some? ==> r.data.value.id == id
  {
    var up := FetchRestaurants(cached, api).reply;
    if up.error.Some? then Failure(up.error.value)
    else
      match FindById(up.data.value, id)
      case Some(restaurant) => Success(restaurant)
      case None => Failure(RestaurantDoesNotExist)
  }

  /**
   * The lookup by id delivers a restaurant exactly when the fetched list has
   * one with that id, and then the first such; otherwise it reports the
   * upstream error or "Restaurant does not exist".
   */
  lemma FetchRestaurantByIdSpec(id: int, cached: CacheRead, api: ApiResponse)
    ensures var up := FetchRestaurants(cached, api).reply;
            var r := FetchRestaurantById(id, cached, api);
            && (up.error.Some? ==> r == Failure(up.error.value))
            && (up.data.Some? && (forall x :: x in up.data.value ==> x.id != id) ==>
                  r == Failure(RestaurantDoesNotExist))
            && (up.data.Some? && (exists x :: x in up.data.value && x.id == id) ==>
                  r == Success(FindById(up.data.value, id).value))
            && (r.data.Some? ==>
                  && up.data.Some? && r.data.value.id == id
                  && (exists i :: 0 <= i < |up.data.value| && up.data.value[i] == r.data.value &&
                       forall j :: 0 <= j < i ==> up.data.value[j].id != id))
  {
  }

  /** The callback `r => r.cuisine_type == cuisine`. */
  function CuisineIs(cuisine: string): Restaurant -> bool {
    (x: Restaurant) => x.cuisineType == cuisine
  }

  /** The callback `r => r.neighborhood == neighborhood`. */
  function NeighborhoodIs(neighborhood: string): Restaurant -> bool {
    (x: Restaurant) => x.neighborhood == neighborhood
  }

  /** `restaurants.filter(r => r.cuisine_type == cuisine)`. */
  function ByCuisine(rs: seq<Restaurant>, cuisine: string): (r: seq<Restaurant>)
    ensures IsSubsequence(r, rs)
    ensures forall x :: x in r <==> x in rs && x.cuisineType == cuisine
    ensures forall x :: multiset(r)[x] == if x.cuisineType == cuisine then multiset(rs)[x] else 0
  {
    Filter(CuisineIs(cuisine), rs)
  }

  /** `restaurants.filter(r => r.neighborhood == neighborhood)`. */
  function ByNeighborhood(rs: seq<Restaurant>, neighborhood: string): (r: seq<Restaurant>)
    ensures IsSubsequence(r, rs)
    ensures forall x :: x in r <==> x in rs && x.neighborhood == neighborhood
    ensures forall x :: multiset(r)[x] == if x.neighborhood == neighborhood then multiset(rs)[x] else 0
  {
    Filter(NeighborhoodIs(neighborhood), rs)
  }

  /**
   * The combined filter: the cuisine filter unless the cuisine is "all",
   * then the neighborhood filter unless the neighborhood is "all".
   */
  function ByCuisineAndNeighborhood(rs: seq<Restaurant>, cuisine: string, neighborhood: string): (r: seq<Restaurant>)
  {
    var byCuisine := if cuisine != Wildcard then ByCuisine(rs, cuisine) else rs;
    if neighborhood != Wildcard then ByNeighborhood(byCuisine, neighborhood) else byCuisine
  }

  /** A record passes the combined filter: each field matches unless its argument is "all". */
  predicate Matches(x: Restaurant, cuisine: string, neighborhood: string) {
    (cuisine == Wildcard || x.cuisineType == cuisine) &&
    (neighborhood == Wildcard || x.neighborhood == neighborhood)
  }

  /** `Matches` as a filter callback. */
  function MatchesBoth(cuisine: string, neighborhood: string): Restaurant -> bool {
    (x: Restaurant) => Matches(x, cuisine, neighborhood)
  }

  /** The callback that keeps every record. */
  function KeepAll(): Restaurant -> bool {
    (x: Restaurant) => true
  }

  /**
   * The combined filter is the single filter by `Matches`: "all" on both
   * sides keeps the list unchanged, "all" on one side is the single-field
   * filter on the other, and otherwise it is the conjunction, in input order.
   */
  lemma ByCuisineAndNeighborhoodSpec(rs: seq<Restaurant>, cuisine: string, neighborhood: string)
    ensures ByCuisineAndNeighborhood(rs, cuisine, neighborhood) == Filter(MatchesBoth(cuisine, neighborhood), rs)
    ensures cuisine == Wildcard && neighborhood == Wildcard ==> ByCuisineAndNeighborhood(rs, cuisine, neighborhood) == rs
    ensures cuisine == Wildcard && neighborhood != Wildcard ==>
              ByCuisineAndNeighborhood(rs, cuisine, neighborhood) == ByNeighborhood(rs, neighborhood)
    ensures cuisine != Wildcard && neighborhood == Wildcard ==>
              ByCuisineAndNeighborhood(rs, cuisine, neighborhood) == ByCuisine(rs, cuisine)
  {
    var m, c, n := MatchesBoth(cuisine, neighborhood), CuisineIs(cuisine), NeighborhoodIs(neighborhood);
    if cuisine == Wildcard && neighborhood == Wildcard {
      FilterAll(m, rs);
    } else if cuisine == Wildcard {
      FilterTwice(KeepAll(), n, m, rs);
      FilterAll(KeepAll(), rs);
    } else if neighborhood == Wildcard {
      FilterTwice(c, KeepAll(), m, rs);
      FilterAll(KeepAll(), Filter(c, rs));
    } else {
      FilterTwice(c, n, m, rs);
    }
  }

  /** `restaurants.map(r => r.neighborhood)`. */
  function NeighborhoodsOf(rs: seq<Restaurant>): (vs: seq<string>)
    ensures |vs| == |rs| && forall i :: 0 <= i < |rs| ==> vs[i] == rs[i].neighborhood
  {
    seq(|rs|, i requires 0 <= i < |rs| => rs[i].neighborhood)
  }

  /** `restaurants.map(r => r.cuisine_type)`. */
  function CuisinesOf(rs: seq<Restaurant>): (vs: seq<string>)
    ensures |vs| == |rs| && forall i :: 0 <= i < |rs| ==> vs[i] == rs[i].cuisineType
  {
    seq(|rs|, i requires 0 <= i < |rs| => rs[i].cuisineType)
  }

  /**
   * The neighborhoods of the list without duplicates: each neighborhood that
   * occurs, once, in the order of its first occurrence.
   */
  function UniqueNeighborhoods(rs: seq<Restaurant>): (r: seq<string>)
    ensures NoDuplicates(r)
    ensures forall v :: v in r <==> exists x :: x in rs && x.neighborhood == v
    ensures forall i, j :: 0 <= i < j < |r| ==>
              IndexOf(NeighborhoodsOf(rs), r[i]) < IndexOf(NeighborhoodsOf(rs), r[j])
  {
    var vs := NeighborhoodsOf(rs);
    KeepFirstOccurrencesSpec(vs);
    assert forall x :: x in rs ==> x.neighborhood in vs by {
      forall x | x in rs ensures x.neighborhood in vs {
        var i :| 0 <= i < |rs| && rs[i] == x;
        assert vs[i] == x.neighborhood;
      }
    }
    KeepFirstOccurrences(vs)
  }

  /**
   * The cuisines of the list without duplicates: each cuisine that occurs,
   * once, in the order of its first occurrence.
   */
  function UniqueCuisines(rs: seq<Restaurant>): (r: seq<string>)
    ensures NoDuplicates(r)
    ensures forall v :: v in r <==> exists x :: x in rs && x.cuisineType == v
    ensures forall i, j :: 0 <= i < j < |r| ==>
              IndexOf(CuisinesOf(rs), r[i]) < IndexOf(CuisinesOf(rs), r[j])
  {
    var vs := CuisinesOf(rs);
    KeepFirstOccurrencesSpec(vs);
    assert forall x :: x in rs ==> x.cuisineType in vs by {
      forall x | x in rs ensures x.cuisineType in vs {
        var i :| 0 <= i < |rs| && rs[i] == x;
        assert vs[i] == x.cuisineType;
      }
    }
    KeepFirstOccurrences(vs)
  }

  /** Forwards an upstream error with null data, or applies the projection to the list. */
  function Project<T>(up: Reply<seq<Restaurant>>, f: seq<Restaurant> -> T): (r: Reply<T>)
    requires Exclusive(up)
    ensures Exclusive(r)
    ensures up.error.Some? ==> r == Failure(up.error.value)
    ensures up.data.Some? ==> r == Success(f(up.data.value))
  {
    if up.error.Some? then Failure(up.error.value) else Success(f(up.data.value))
  }

  /** `fetchRestaurantByCuisine`. */
  function FetchRestaurantByCuisine(cuisine: string, cached: CacheRead, api: ApiResponse): (r: Reply<seq<Restaurant>>)
    ensures Exclusive(r)
    ensures r.error == FetchRestaurants(cached, api).reply.error
    ensures r.data.Some? ==> forall x :: x in r.data.value <==>
              x in FetchRestaurants(cached, api).reply.data.value && x.cuisineType == cuisine
    ensures r.data.Some? ==> r.data.value == ByCuisine(FetchRestaurants(cached, api).reply.data.value, cuisine)
  {
    Project(FetchRestaurants(cached, api).reply, rs => ByCuisine(rs, cuisine))
  }

  /** `fetchRestaurantByNeighborhood`. */
  function FetchRestaurantByNeighborhood(neighborhood: string, cached: CacheRead, api: ApiResponse): (r: Reply<seq<Restaurant>>)
    ensures Exclusive(r)
    ensures r.error == FetchRestaurants(cached, api).reply.error
    ensures r.data.Some? ==> forall x :: x in r.data.value <==>
              x in FetchRestaurants(cached, api).reply.data.value && x.neighborhood == neighborhood
    ensures r.data.Some? ==> r.data.value == ByNeighborhood(FetchRestaurants(cached, api).reply.data.value, neighborhood)
  {
    Project(FetchRestaurants(cached, api).reply, rs => ByNeighborhood(rs, neighborhood))
  }

  /** `fetchRestaurantByCuisineAndNeighborhood`. */
  function FetchRestaurantByCuisineAndNeighborhood(cuisine: string, neighborhood: string, cached: CacheRead, api: ApiResponse): (r: Reply<seq<Restaurant>>)
    ensures Exclusive(r)
    ensures r.error == FetchRestaurants(cached, api).reply.error
    ensures r.data.Some? ==> forall x :: x in r.data.value <==>
              x in FetchRestaurants(cached, api).reply.data.value && Matches(x, cuisine, neighborhood)
    ensures r.data.Some? ==> r.data.value == ByCuisineAndNeighborhood(FetchRestaurants(cached, api).reply.data.value, cuisine, neighborhood)
    ensures r.data.Some? && cuisine == Wildcard && neighborhood == Wildcard ==>
              r.data == FetchRestaurants(cached, api).reply.data
  {
    var up := FetchRestaurants(cached, api).reply;
    var r := Project(up, rs => ByCuisineAndNeighborhood(rs, cuisine, neighborhood));
    assert up.data.Some? ==>
             r.data.value == Filter(MatchesBoth(cuisine, neighborhood), up.data.value) &&
             (cuisine == Wildcard && neighborhood == Wildcard ==> r.data.value == up.data.value) by {
      if up.data.Some? {
        ByCuisineAndNeighborhoodSpec(up.data.value, cuisine, neighborhood);
      }
    }
    r
  }

  /** `fetchNeighborhoods`. */
  function FetchNeighborhoods(cached: CacheRead, api: ApiResponse): (r: Reply<seq<string>>)
    ensures Exclusive(r)
    ensures r.error == FetchRestaurants(cached, api).reply.error
    ensures r.data.Some? ==> NoDuplicates(r.data.value) && forall v :: v in r.data.value <==>
              exists x :: x in FetchRestaurants(cached, api).reply.data.value && x.neighborhood == v
    ensures r.data.Some? ==> r.data.value == UniqueNeighborhoods(FetchRestaurants(cached, api).reply.data.value)
  {
    Project(FetchRestaurants(cached, api).reply, UniqueNeighborhoods)
  }

  /** `fetchCuisines`. */
  function FetchCuisines(cached: CacheRead, api: ApiResponse): (r: Reply<seq<string>>)
    ensures Exclusive(r)
    ensures r.error == FetchRestaurants(cached, api).reply.error
    ensures r.data.Some? ==> NoDuplicates(r.data.value) && forall v :: v in r.data.value <==>
              exists x :: x in FetchRestaurants(cached, api).reply.data.value && x.cuisineType == v
    ensures r.data.Some? ==> r.data.value == UniqueCuisines(FetchRestaurants(cached, api).reply.data.value)
  {
    Project(FetchRestaurants(cached, api).reply, UniqueCuisines)
  }

  /**
   * Every derived query forwards the error of `fetchRestaurants` unchanged,
   * with null data; a network failure on an empty cache reaches every one
   * of them as the same error.
   */
  lemma QueriesForwardErrors(cached: CacheRead, api: ApiResponse, id: int, cuisine: string, neighborhood: string)
    requires FetchRestaurants(cached, api).reply.error.Some?
    ensures var e := FetchRestaurants(cached, api).reply.error.value;
            && FetchRestaurantById(id, cached, api) == Failure(e)
            && FetchRestaurantByCuisine(cuisine, cached, api) == Failure(e)
            && FetchRestaurantByNeighborhood(neighborhood, cached, api) == Failure(e)
            && FetchRestaurantByCuisineAndNeighborhood(cuisine, neighborhood, cached, api) == Failure(e)
            && FetchNeighborhoods(cached, api) == Failure(e)
            && FetchCuisines(cached, api) == Failure(e)
  {
  }
}
