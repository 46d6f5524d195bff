/**
 * Whole request sequences through a fresh store, manager and interceptors:
 * a read that misses and one that then hits, and a paginated read that an
 * invalidation request turns back into a miss.
 */
module Scenarios {
  import opened Wrappers
  import opened Json
  import opened RedisStore
  import opened Manager
  import opened CacheTrackBy
  import ReadThrough
  import Invalidation

  /** `GET /users/42` twice: the first runs the handler and caches its object, the second is served from the cache. */
  method ReadTwice(handlerResponse: Value) returns (first: Reply, second: Reply)
    requires IsObject(handlerResponse) && handlerResponse != Null
    ensures first == Reply(handlerResponse, true)
    ensures second == Reply(handlerResponse, false)
  {
    var store := new Store();
    var manager := new CacheManager(store, ModuleOptions(None, None));
    var interceptor := new ReadThrough.CacheInterceptor(manager);
    var request := Request("GET", map[], map["id" := "42"], map[], None);
    var context := Context("http", request);
    var options := Options(Some("users"), Some(Many([Param("id")])), Some(2000));
    assert ReadThrough.Values(request, Many([Param("id")])) == [Some("42")];
    assert Items([Some("42")]) == ["42"];
    assert "users" + [Separator] + "42" == "users-42";
    assert ReadThrough.LookupKey(context, options) == Some("users-42");
    ReadThrough.AbsentEntryIsMiss(manager.cachePrefix, store.data, "users-42");
    first := interceptor.Intercept(context, options, handlerResponse);
    second := interceptor.Intercept(context, options, Str("unused"));
  }

  /**
   * A paginated read caches page `limit=10&offset=20`; a `DELETE` on the same
   * resource removes it, so the same read runs the handler again.
   */
  method ReadInvalidateRead(page: Value) returns (before: Reply, after: Reply)
    requires IsObject(page) && page != Null
    ensures before == Reply(page, true)
    ensures after == Reply(page, true)
  {
    var store := new Store();
    var manager := new CacheManager(store, ModuleOptions(None, None));
    var reader := new ReadThrough.CacheInterceptor(manager);
    var remover := new Invalidation.CacheRemoveInterceptor(manager);
    var track := Some(Many([Param("id"), Pagination]));
    var options := Options(Some("posts"), track, None);
    var reading := Request("GET", map[], map["id" := "7"], map["limit" := "10", "offset" := "20"], None);
    var removing := Request("DELETE", map[], map["id" := "7"], map[], None);
    ReadThrough.AbsentEntryIsMiss(manager.cachePrefix, store.data, ReadThrough.TrackBy(reading, Some("posts"), track).value);
    before := reader.Intercept(Context("http", reading), options, page);
    var cached := store.data;
    assert forall s :: s in Selectors(track.value) ==> Agree(removing, reading, s);
    Invalidation.RemovedPageMisses(manager.cachePrefix, removing, reading, Some("posts"), track, cached);
    var ignored := remover.Intercept(Context("http", removing), options, Null);
    after := reader.Intercept(Context("http", reading), options, page);
  }
}
