/**
 * The IndexedDB side of `DBHelper`: the object store "restaurantObject" of
 * the database "restaurantDatabase", keyed by the restaurant id, which
 * `saveToIDB` fills and `fetchCachedRestaurants` reads back, and
 * `fetchRestaurants` run against it.
 */
module LocalStore {
  import opened Wrappers
  import opened Restaurants
  import Queries

  /** What `idb.open` is asked for: name, schema version, object store and its key path. */
  datatype Database = Database(name: string, version: nat, objectStore: string, keyPath: string)

  const RestaurantDatabase: Database := Database("restaurantDatabase", 1, "restaurantObject", "id")

  /**
   * `openIDBConnection`: no handle when the browser has no service worker,
   * otherwise the restaurant database at version 1.
   */
  function OpenIDBConnection(serviceWorker: bool): (db: Option<Database>)
    ensures db.None? <==> !serviceWorker
    ensures db.Some? ==> db.value.version == 1 && db.value.keyPath == "id"
  {
    if !serviceWorker then None else Some(RestaurantDatabase)
  }

  /** Position of the last record in `data` with id `k`, or -1 when there is none. */
  function LastIndexWithId(data: seq<Restaurant>, k: int): (i: int)
    ensures -1 <= i < |data|
    ensures i >= 0 ==> data[i].id == k && forall j :: i < j < |data| ==> data[j].id != k
    ensures i == -1 <==> forall j :: 0 <= j < |data| ==> data[j].id != k
    decreases |data|
  {
    if data == [] then -1
    else if data[|data| - 1].id == k then |data| - 1
    else LastIndexWithId(data[..|data| - 1], k)
  }

  /** The store after `put` of each record of `data`, in order. */
  function Upserted(m: map<int, Restaurant>, data: seq<Restaurant>): map<int, Restaurant>
    decreases |data|
  {
    if data == [] then m
    else
      var last := data[|data| - 1];
      Upserted(m, data[..|data| - 1])[last.id := last]
  }

  /**
   * After the upsert each id of `data` holds the last record of `data` with
   * that id, and every other key keeps its old record.
   */
  lemma {:induction false} UpsertedSpec(m: map<int, Restaurant>, data: seq<Restaurant>, k: int)
    ensures k in Upserted(m, data) <==> k in m || LastIndexWithId(data, k) >= 0
    ensures LastIndexWithId(data, k) >= 0 ==> Upserted(m, data)[k] == data[LastIndexWithId(data, k)]
    ensures LastIndexWithId(data, k) == -1 && k in m ==> Upserted(m, data)[k] == m[k]
    decreases |data|
  {
    if data != [] {
      UpsertedSpec(m, data[..|data| - 1], k);
    }
  }

  /** Every key holds the record with that id, as a store with key path "id" does. */
  predicate KeyedById(m: map<int, Restaurant>) {
    forall k :: k in m ==> m[k].id == k
  }

  /** No two records of `data` share an id. */
  predicate UniqueIds(data: seq<Restaurant>) {
    forall i, j :: 0 <= i < j < |data| ==> data[i].id != data[j].id
  }

  /**
   * `s` is what `getAll` returns for the store `m`: every stored record
   * once, in ascending key order.
   */
  predicate IsListing(m: map<int, Restaurant>, s: seq<Restaurant>) {
    && |s| == |m|
    && (forall i :: 0 <= i < |s| ==> s[i].id in m && m[s[i].id] == s[i])
    && (forall i, j :: 0 <= i < j < |s| ==> s[i].id < s[j].id)
    && (forall k :: k in m ==> exists i :: 0 <= i < |s| && s[i].id == k)
  }

  /** `c` is what `fetchCachedRestaurants` resolves to on the store `m`. */
  predicate IsCachedRead(serviceWorker: bool, m: map<int, Restaurant>, c: CacheRead) {
    if serviceWorker then c.Stored? && IsListing(m, c.records) else c == NoHandle
  }

  /** A non-empty set of keys holds some key. */
  lemma NonEmptyHasElement(ks: set<int>)
    requires ks != {}
    ensures exists k :: k in ks
  {
    if 0 !in ks {
      var others := set k | k in ks && k != 0;
      assert others == ks;
    }
  }

  /** The smallest of a non-empty set of keys: where an ordered scan of the store goes next. */
  method SmallestKey(ks: set<int>) returns (k: int)
    requires ks != {}
    ensures k in ks && forall j :: j in ks ==> k <= j
  {
    NonEmptyHasElement(ks);
    k :| k in ks;
    var unseen := ks - {k};
    while unseen != {}
      invariant unseen <= ks && k in ks
      invariant forall j :: j in ks && j !in unseen ==> k <= j
      decreases |unseen|
    {
      NonEmptyHasElement(unseen);
      var j :| j in unseen;
      if j < k {
        k := j;
      }
      unseen := unseen - {j};
    }
  }

  /**
   * After `saveToIDB(data)` the next cached read is not empty, so the next
   * `fetchRestaurants` does not ask the backend; and when the ids of `data`
   * are unique, every record of `data` is among those it delivers.
   */
  lemma {:induction false} SavedRecordsAreServedNext(m: map<int, Restaurant>, data: seq<Restaurant>, s: seq<Restaurant>, api: ApiResponse)
    requires |data| > 0 && IsListing(Upserted(m, data), s)
    ensures |s| > 0
    ensures !Queries.FetchRestaurants(Stored(s), api).consultedApi
    ensures UniqueIds(data) ==> forall x :: x in data ==> x in s
  {
    var k := data[0].id;
    UpsertedSpec(m, data, k);
    assert LastIndexWithId(data, k) >= 0 by { assert data[0].id == k; }
    if UniqueIds(data) {
      forall x | x in data ensures x in s {
        var p :| 0 <= p < |data| && data[p] == x;
        UpsertedSpec(m, data, x.id);
        assert LastIndexWithId(data, x.id) == p;
        var i :| 0 <= i < |s| && s[i].id == x.id;
        assert s[i] == x;
      }
    }
  }

  /**
   * The browser's IndexedDB as `DBHelper` sees it: whether a service worker
   * is present (which decides whether a handle is opened at all), and the
   * records of the object store by key.
   */
  class IndexedDb {
    const serviceWorker: bool
    var objects: map<int, Restaurant>

    /** The store keeps each record under its own id. */
    ghost predicate Valid()
      reads this
    {
      KeyedById(objects)
    }

    constructor (serviceWorker: bool, objects: map<int, Restaurant>)
      requires KeyedById(objects)
      ensures Valid()
      ensures this.serviceWorker == serviceWorker && this.objects == objects
    {
      this.serviceWorker := serviceWorker;
      this.objects := objects;
    }

    /** `store.put(restaurant)`: insert or replace the record under its id. */
    method Put(r: Restaurant)
      requires Valid()
      modifies this
      ensures Valid()
      ensures objects == old(objects)[r.id := r]
    {
      objects := objects[r.id := r];
    }

    /**
     * `saveToIDB`: put every record of `data`, in order, when a handle is
     * open; leave the store alone otherwise.
     */
    method SaveToIDB(data: seq<Restaurant>)
      requires Valid()
      modifies this
      ensures Valid()
      ensures objects == if serviceWorker then Upserted(old(objects), data) else old(objects)
    {
      var db := OpenIDBConnection(serviceWorker);
      if db.None? {
        return;
      }
      var i := 0;
      while i < |data|
        invariant 0 <= i <= |data|
        invariant Valid()
        invariant objects == Upserted(old(objects), data[..i])
      {
        assert data[..i + 1][..i] == data[..i];
        Put(data[i]);
        i := i + 1;
      }
      assert data[..|data|] == data;
    }

    /** `store.getAll()`: every stored record, in ascending key order. */
    method GetAll() returns (s: seq<Restaurant>)
      requires Valid()
      ensures IsListing(objects, s)
    {
      var remaining := objects.Keys;
      s := [];
      while remaining != {}
        invariant remaining <= objects.Keys
        invariant |s| + |remaining| == |objects|
        invariant forall i :: 0 <= i < |s| ==> s[i].id in objects && objects[s[i].id] == s[i] && s[i].id !in remaining
        invariant forall i, j :: 0 <= i < j < |s| ==> s[i].id < s[j].id
        invariant forall i, k :: 0 <= i < |s| && k in remaining ==> s[i].id < k
        invariant forall k :: k in objects && k !in remaining ==> exists i :: 0 <= i < |s| && s[i].id == k
        decreases remaining
      {
        var k := SmallestKey(remaining);
        assert objects[k].id == k;
        ghost var before := s;
        s := s + [objects[k]];
        remaining := remaining - {k};
        forall k' | k' in objects && k' !in remaining
          ensures exists i :: 0 <= i < |s| && s[i].id == k'
        {
          if k' == k {
            assert s[|s| - 1].id == k';
          } else {
            var i :| 0 <= i < |before| && before[i].id == k';
            assert s[i] == before[i];
          }
        }
      }
    }

    /**
     * `fetchCachedRestaurants`: `undefined` without a handle, otherwise the
     * records of the store as `getAll` lists them.
     */
    method FetchCachedRestaurants() returns (cached: CacheRead)
      requires Valid()
      ensures IsCachedRead(serviceWorker, objects, cached)
    {
      var db := OpenIDBConnection(serviceWorker);
      if db.None? {
        return NoHandle;
      }
      var records := GetAll();
      cached := Stored(records);
    }

    /**
     * `fetchRestaurants` run against this store: read the cache, apply the
     * cache-first policy, and save what the backend delivered. The model
     * completes the un-awaited save before returning.
     */
    method FetchRestaurants(api: ApiResponse) returns (cached: CacheRead, out: Queries.Retrieval)
      requires Valid()
      modifies this
      ensures Valid()
      ensures IsCachedRead(serviceWorker, old(objects), cached)
      ensures out == Queries.FetchRestaurants(cached, api)
      ensures objects == if out.cacheWrite.Some? then Upserted(old(objects), out.cacheWrite.value) else old(objects)
    {
      cached := FetchCachedRestaurants();
      out := Queries.FetchRestaurants(cached, api);
      if out.cacheWrite.Some? {
        SaveToIDB(out.cacheWrite.value);
      }
    }
  }

  /**
   * Two fetches on an empty store: the first asks the backend and saves its
   * non-empty list; a second fetch that starts after that save has completed
   * is served from the store without asking and delivers every record of the
   * first. (The save is not awaited, so a second fetch that starts earlier
   * can still find the store empty and ask the backend again.)
   */
  method FetchTwice(db: IndexedDb, first: ApiResponse, second: ApiResponse) returns (a: Queries.Retrieval, b: Queries.Retrieval)
    requires db.Valid() && db.serviceWorker && db.objects == map[]
    requires first.Fetched? && |first.records| > 0 && UniqueIds(first.records)
    modifies db
    ensures a.consultedApi && a.reply == Success(first.records)
    ensures !b.consultedApi && b.reply.data.Some?
    ensures forall x :: x in first.records ==> x in b.reply.data.value
  {
    var c1, c2;
    c1, a := db.FetchRestaurants(first);
    c2, b := db.FetchRestaurants(second);
    SavedRecordsAreServedNext(map[], first.records, c2.records, second);
  }
}
