/**
 * The invalidation interceptor: for any HTTP request it builds the key the
 * read path would build, with a `pagination` selector turned into the
 * wildcard, lets the handler run, and then deletes that key (a glob group
 * when it holds `*`) through the cache manager.
 */
module Invalidation {
  import opened Wrappers
  import opened Json
  import opened Glob
  import opened RedisStore
  import opened Manager
  import opened CacheTrackBy
  import ReadThrough

  /** `getValue` on the removal path: the read path's value, except that `pagination` stands for every page. */
  function GetValue(request: Request, selector: Selector): (v: Option<string>)
    requires selector.User? ==> request.user.Some?
    ensures selector.Pagination? ==> v == Some([Wildcard])
    ensures !selector.Pagination? ==> v == ReadThrough.GetValue(request, selector)
  {
    if selector.Pagination? then Some([Wildcard]) else Attribute(request, selector)
  }

  /** The value of every selector, in the order given. */
  function Values(request: Request, track: Track): seq<Option<string>>
    requires UserReady(request, track)
  {
    var sels := Selectors(track);
    seq(|sels|, i requires 0 <= i < |sels| => GetValue(request, sels[i]))
  }

  /** `trackBy` on the removal path: no key without a prefix or selectors; otherwise a key under `prefix-`. */
  function TrackBy(request: Request, prefix: Option<string>, track: Option<Track>): (key: Option<string>)
    requires CanBuild(request, prefix, track)
    ensures key.Some? <==> KeyRequested(prefix, track)
    ensures key.Some? ==> prefix.value + [Separator] <= key.value
  {
    if !KeyRequested(prefix, track) then None
    else Some(KeyText(prefix.value, track.value, Values(request, track.value)))
  }

  /** The key `intercept` deletes, or `None` when it only runs the handler. Every HTTP method qualifies. */
  function RemovalKey(context: Context, options: Options): (key: Option<string>)
    requires context.kind == "http" ==> CanBuild(context.request, options.prefix, options.track)
    ensures key.Some? <==> context.kind == "http" && KeyRequested(options.prefix, options.track)
  {
    if context.kind == "http" then TrackBy(context.request, options.prefix, options.track) else None
  }

  // ---------------------------------------------------------------------------
  // How the removal key relates to the lookup key

  /** Without `pagination`, the removal path builds exactly the lookup key of the same request. */
  lemma SameKeyWithoutPagination(request: Request, prefix: Option<string>, track: Option<Track>)
    requires CanBuild(request, prefix, track)
    requires track.Some? ==> Pagination !in Selectors(track.value)
    ensures TrackBy(request, prefix, track) == ReadThrough.TrackBy(request, prefix, track)
  {
    if KeyRequested(prefix, track) {
      var sels := Selectors(track.value);
      assert forall i :: 0 <= i < |sels| ==> !sels[i].Pagination?;
      assert Values(request, track.value) == ReadThrough.Values(request, track.value);
    }
  }

  /** The method plays no part in the removal key: every HTTP method invalidates. */
  lemma AnyMethodInvalidates(request: Request, options: Options, otherMethod: string)
    requires CanBuild(request, options.prefix, options.track)
    ensures RemovalKey(Context("http", request), options)
      == RemovalKey(Context("http", request.(httpMethod := otherMethod)), options)
  {
    var other := request.(httpMethod := otherMethod);
    if KeyRequested(options.prefix, options.track) {
      assert Values(request, options.track.value) == Values(other, options.track.value);
    }
  }

  /** A selector value on the removal path matches, as a pattern, that selector's value on the read path. */
  lemma ValueMatches(removing: Request, reading: Request, s: Selector)
    requires s.User? ==> removing.user.Some? && reading.user.Some?
    requires Agree(removing, reading, s)
    ensures Matches(JoinItem(GetValue(removing, s)), JoinItem(ReadThrough.GetValue(reading, s)))
    ensures Matches(Interpolate(GetValue(removing, s)), Interpolate(ReadThrough.GetValue(reading, s)))
  {
    if s.Pagination? {
      StarMatchesAll(JoinItem(ReadThrough.GetValue(reading, s)));
      StarMatchesAll(Interpolate(ReadThrough.GetValue(reading, s)));
    } else {
      assert GetValue(removing, s) == ReadThrough.GetValue(reading, s);
      MatchesSelf(JoinItem(GetValue(removing, s)));
      MatchesSelf(Interpolate(GetValue(removing, s)));
    }
  }

  /** Each removal-path value matches, as a pattern, the read path's value for the same selector. */
  lemma ValuesMatch(removing: Request, reading: Request, track: Track)
    requires UserReady(removing, track) && UserReady(reading, track)
    requires forall s :: s in Selectors(track) ==> Agree(removing, reading, s)
    ensures forall i :: 0 <= i < |Selectors(track)| ==>
      Matches(JoinItem(Values(removing, track)[i]), JoinItem(ReadThrough.Values(reading, track)[i]))
    ensures forall i :: 0 <= i < |Selectors(track)| ==>
      Matches(Interpolate(Values(removing, track)[i]), Interpolate(ReadThrough.Values(reading, track)[i]))
  {
    var sels := Selectors(track);
    forall i | 0 <= i < |sels|
      ensures Matches(JoinItem(Values(removing, track)[i]), JoinItem(ReadThrough.Values(reading, track)[i]))
      ensures Matches(Interpolate(Values(removing, track)[i]), Interpolate(ReadThrough.Values(reading, track)[i]))
    {
      assert sels[i] in sels;
      ValueMatches(removing, reading, sels[i]);
    }
  }

  /** The text after `prefix-` in the removal key matches the text after `prefix-` in the lookup key. */
  lemma KeyTextMatches(removing: Request, reading: Request, prefix: string, track: Track)
    requires UserReady(removing, track) && UserReady(reading, track)
    requires forall s :: s in Selectors(track) ==> Agree(removing, reading, s)
    ensures Matches(KeyText(prefix, track, Values(removing, track))[|prefix| + 1..],
                    KeyText(prefix, track, ReadThrough.Values(reading, track))[|prefix| + 1..])
  {
    var patterns := Values(removing, track);
    var texts := ReadThrough.Values(reading, track);
    ValuesMatch(removing, reading, track);
    if track.One? {
      assert KeyText(prefix, track, patterns)[|prefix| + 1..] == Interpolate(patterns[0]);
      assert KeyText(prefix, track, texts)[|prefix| + 1..] == Interpolate(texts[0]);
    } else {
      JoinMatches(Items(patterns), Items(texts));
      assert KeyText(prefix, track, patterns)[|prefix| + 1..] == Join(Items(patterns));
      assert KeyText(prefix, track, texts)[|prefix| + 1..] == Join(Items(texts));
    }
  }

  /**
   * The namespaced removal key, read as a glob, matches the namespaced key the
   * read path caches for any request that agrees on every selector but
   * `pagination`: whatever the limit and offset, the page is covered.
   */
  lemma RemovalMatchesLookup(cachePrefix: string, removing: Request, reading: Request, prefix: Option<string>, track: Option<Track>)
    requires KeyRequested(prefix, track)
    requires CanBuild(removing, prefix, track) && CanBuild(reading, prefix, track)
    requires forall s :: s in Selectors(track.value) ==> Agree(removing, reading, s)
    ensures Matches(cachePrefix + TrackBy(removing, prefix, track).value,
                    cachePrefix + ReadThrough.TrackBy(reading, prefix, track).value)
  {
    var pattern := KeyText(prefix.value, track.value, Values(removing, track.value));
    var text := KeyText(prefix.value, track.value, ReadThrough.Values(reading, track.value));
    var n := |prefix.value| + 1;
    KeyTextMatches(removing, reading, prefix.value, track.value);
    var head := cachePrefix + prefix.value + [Separator];
    MatchesSelf(head);
    MatchesConcat(head, head, pattern[n..], text[n..]);
    assert cachePrefix + pattern == head + pattern[n..];
    assert cachePrefix + text == head + text[n..];
  }

  /** A `pagination` selector always leaves `*` in the removal key. */
  lemma PaginationLeavesWildcard(request: Request, prefix: Option<string>, track: Option<Track>)
    requires KeyRequested(prefix, track)
    requires CanBuild(request, prefix, track)
    ensures Pagination in Selectors(track.value) ==> Wildcard in TrackBy(request, prefix, track).value
  {
    var sels := Selectors(track.value);
    var values := Values(request, track.value);
    if Pagination in sels {
      var i :| 0 <= i < |sels| && sels[i] == Pagination;
      assert values[i] == Some([Wildcard]);
      var rest := if track.value.One? then Interpolate(values[0]) else Join(Items(values));
      if track.value.One? {
        assert Wildcard in rest;
      } else {
        assert Items(values)[i] == [Wildcard];
        JoinHolds(Items(values), i, Wildcard);
      }
      assert TrackBy(request, prefix, track).value == prefix.value + [Separator] + rest;
    }
  }

  /** Deleting the removal key takes away every stored entry the read path cached for an agreeing request. */
  lemma RemovalDeletesCachedEntry(cachePrefix: string, removing: Request, reading: Request,
                                  prefix: Option<string>, track: Option<Track>, present: set<string>)
    requires KeyRequested(prefix, track)
    requires CanBuild(removing, prefix, track) && CanBuild(reading, prefix, track)
    requires forall s :: s in Selectors(track.value) ==> Agree(removing, reading, s)
    requires cachePrefix + ReadThrough.TrackBy(reading, prefix, track).value in present
    ensures cachePrefix + ReadThrough.TrackBy(reading, prefix, track).value
      in DeletedKeys(cachePrefix, TrackBy(removing, prefix, track).value, present)
  {
    var removal := TrackBy(removing, prefix, track).value;
    RemovalMatchesLookup(cachePrefix, removing, reading, prefix, track);
    PaginationLeavesWildcard(removing, prefix, track);
    if Wildcard !in removal {
      var sels := Selectors(track.value);
      forall i | 0 <= i < |sels|
        ensures Values(removing, track.value)[i] == ReadThrough.Values(reading, track.value)[i]
      {
        assert sels[i] in sels;
      }
      assert Values(removing, track.value) == ReadThrough.Values(reading, track.value);
    }
  }

  /**
   * After the removal, the read path misses on every page it had cached for an
   * agreeing request, so the next read runs the handler again.
   */
  lemma RemovedPageMisses(cachePrefix: string, removing: Request, reading: Request,
                          prefix: Option<string>, track: Option<Track>, data: map<string, string>)
    requires KeyRequested(prefix, track)
    requires CanBuild(removing, prefix, track) && CanBuild(reading, prefix, track)
    requires forall s :: s in Selectors(track.value) ==> Agree(removing, reading, s)
    ensures var after := data - DeletedKeys(cachePrefix, TrackBy(removing, prefix, track).value, data.Keys);
      !ReadThrough.Truthy(Lookup(cachePrefix, after, ReadThrough.TrackBy(reading, prefix, track).value))
  {
    var key := ReadThrough.TrackBy(reading, prefix, track).value;
    var after := data - DeletedKeys(cachePrefix, TrackBy(removing, prefix, track).value, data.Keys);
    if cachePrefix + key in data {
      RemovalDeletesCachedEntry(cachePrefix, removing, reading, prefix, track, data.Keys);
    }
    ReadThrough.AbsentEntryIsMiss(cachePrefix, after, key);
  }

  /** A `pagination` selector alone gives the key `prefix-*`. */
  lemma PaginationKeyExample(request: Request)
    ensures TrackBy(request, Some("posts"), Some(One(Pagination))) == Some("posts-*")
  {
    assert Values(request, One(Pagination)) == [Some([Wildcard])];
    assert "posts" + [Separator] + [Wildcard] == "posts-*";
  }

  // ---------------------------------------------------------------------------
  // The interceptor

  class CacheRemoveInterceptor {
    const cacheManager: CacheManager

    constructor (cacheManager: CacheManager)
      ensures this.cacheManager == cacheManager
    {
      this.cacheManager := cacheManager;
    }

    /**
     * `intercept`: the handler's response passes through unchanged; after it,
     * an HTTP request with a key deletes that key through the manager.
     */
    method Intercept(context: Context, options: Options, downstream: Value) returns (reply: Reply)
      requires cacheManager.Valid()
      requires context.kind == "http" ==> CanBuild(context.request, options.prefix, options.track)
      modifies cacheManager.store
      ensures cacheManager.Valid()
      ensures reply == Reply(downstream, true)
      ensures RemovalKey(context, options).None? ==> unchanged(cacheManager.store)
      ensures RemovalKey(context, options).Some? ==>
        var key := RemovalKey(context, options).value;
        var doomed := DeletedKeys(cacheManager.cachePrefix, key, old(cacheManager.store.data.Keys));
        && cacheManager.store.data == old(cacheManager.store.data) - doomed
        && cacheManager.store.expiry == old(cacheManager.store.expiry) - doomed
        && DeleteLogged(cacheManager.cachePrefix, key, old(cacheManager.store.data.Keys),
                        old(cacheManager.store.log), cacheManager.store.log)
    {
      reply := Reply(downstream, true);
      if context.kind != "http" {
        return;
      }
      var key := TrackBy(context.request, options.prefix, options.track);
      if key.None? {
        return;
      }
      cacheManager.Delete(key.value);
    }
  }
}
