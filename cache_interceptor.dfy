/**
 * The read-through interceptor: it builds a cache key from the request and
 * the handler's options, answers a truthy cached value without running the
 * handler, and otherwise runs the handler and writes its response under the
 * same key.
 *
 * The downstream handler's response is a parameter: the model runs the
 * handler, then the write, in that order.
 */
module ReadThrough {
  import opened Wrappers
  import opened Json
  import opened Glob
  import opened RedisStore
  import opened Manager
  import opened CacheTrackBy

  /** The only request method whose responses are cached. */
  const AllowedMethods: seq<string> := ["GET"]

  /** The TTL the interceptor passes when the handler sets none. */
  const HandlerDefaultTtl: int := 1000

  /**
   * `getValue` on the read path: every selector but `pagination` reads its
   * named attribute; `pagination` reads `"<limit>-<offset>"` from the query.
   */
  function GetValue(request: Request, selector: Selector): (v: Option<string>)
    requires selector.User? ==> request.user.Some?
    ensures !selector.Pagination? ==> v == Attribute(request, selector)
    ensures selector.Pagination? ==> v.Some? && Separator in v.value
  {
    if selector.Pagination? then
      Some(Interpolate(Field(request.query, "limit")) + [Separator] + Interpolate(Field(request.query, "offset")))
    else Attribute(request, selector)
  }

  /** The value of every selector, in the order given. */
  function Values(request: Request, track: Track): seq<Option<string>>
    requires UserReady(request, track)
  {
    var sels := Selectors(track);
    seq(|sels|, i requires 0 <= i < |sels| => GetValue(request, sels[i]))
  }

  /** `trackBy`: no key without a prefix or selectors; otherwise a key under `prefix-`. */
  function TrackBy(request: Request, prefix: Option<string>, track: Option<Track>): (key: Option<string>)
    requires CanBuild(request, prefix, track)
    ensures key.Some? <==> KeyRequested(prefix, track)
    ensures key.Some? ==> prefix.value + [Separator] <= key.value
  {
    if !KeyRequested(prefix, track) then None
    else Some(KeyText(prefix.value, track.value, Values(request, track.value)))
  }

  /** The request is one the interceptor considers: an HTTP `GET`. */
  predicate Eligible(context: Context)
  {
    context.kind == "http" && context.request.httpMethod in AllowedMethods
  }

  /** The key `intercept` looks up, or `None` when it hands the request straight to the handler. */
  function LookupKey(context: Context, options: Options): (key: Option<string>)
    requires Eligible(context) ==> CanBuild(context.request, options.prefix, options.track)
    ensures key.Some? <==> Eligible(context) && KeyRequested(options.prefix, options.track)
  {
    if Eligible(context) then TrackBy(context.request, options.prefix, options.track) else None
  }

  /** The TTL argument of the write after a miss: `ttl ?? 1000`. */
  function HandlerTtl(ttl: Option<int>): int
  {
    ttl.GetOr(HandlerDefaultTtl)
  }

  /** JavaScript truthiness of what `get` returned; `None` is `undefined`. */
  predicate Truthy(v: Option<Value>)
  {
    match v
    case None => false
    case Some(Null) => false
    case Some(Boolean(b)) => b
    case Some(Number(n)) => n != 0
    case Some(Str(s)) => s != ""
    case Some(_) => true
  }

  // ---------------------------------------------------------------------------
  // Properties of the key

  /** The pagination value keeps the page window: `limit` and `offset` come back, in order, when neither holds `-`. */
  lemma PaginationKeepsWindow(request: Request)
    requires Separator !in Interpolate(Field(request.query, "limit"))
    requires Separator !in Interpolate(Field(request.query, "offset"))
    ensures Split(GetValue(request, Pagination).value)
      == [Interpolate(Field(request.query, "limit")), Interpolate(Field(request.query, "offset"))]
  {
    SplitPiece(Interpolate(Field(request.query, "limit")), Interpolate(Field(request.query, "offset")));
    SplitPiece(Interpolate(Field(request.query, "offset")), []);
  }

  /** Without `-` inside the values, the text after `prefix-` lists every array value, in order. */
  lemma {:induction false} KeyKeepsValues(request: Request, prefix: string, sels: seq<Selector>)
    requires prefix != "" && |sels| >= 1
    requires UserReady(request, Many(sels))
    requires forall i :: 0 <= i < |sels| ==> Separator !in JoinItem(GetValue(request, sels[i]))
    ensures var key := TrackBy(request, Some(prefix), Some(Many(sels))).value;
      Split(key[|prefix| + 1..]) == Items(Values(request, Many(sels)))
  {
    var items := Items(Values(request, Many(sels)));
    var key := TrackBy(request, Some(prefix), Some(Many(sels))).value;
    assert key == prefix + [Separator] + Join(items);
    assert key[|prefix| + 1..] == Join(items);
    SplitJoin(items);
  }

  /** Arrays whose values differ, none holding `-`, give different keys. */
  lemma DistinctValuesDistinctKeys(r1: Request, s1: seq<Selector>, r2: Request, s2: seq<Selector>, prefix: string)
    requires prefix != "" && |s1| >= 1 && |s2| >= 1
    requires UserReady(r1, Many(s1)) && UserReady(r2, Many(s2))
    requires forall i :: 0 <= i < |s1| ==> Separator !in JoinItem(GetValue(r1, s1[i]))
    requires forall i :: 0 <= i < |s2| ==> Separator !in JoinItem(GetValue(r2, s2[i]))
    requires Items(Values(r1, Many(s1))) != Items(Values(r2, Many(s2)))
    ensures TrackBy(r1, Some(prefix), Some(Many(s1))) != TrackBy(r2, Some(prefix), Some(Many(s2)))
  {
    KeyKeepsValues(r1, prefix, s1);
    KeyKeepsValues(r2, prefix, s2);
  }

  /** The selector order is part of the key: swapping two selectors with different values changes it. */
  lemma OrderMatters(request: Request, prefix: string, a: Selector, b: Selector)
    requires prefix != "" && UserReady(request, Many([a, b]))
    requires Separator !in JoinItem(GetValue(request, a)) && Separator !in JoinItem(GetValue(request, b))
    requires JoinItem(GetValue(request, a)) != JoinItem(GetValue(request, b))
    ensures TrackBy(request, Some(prefix), Some(Many([a, b]))) != TrackBy(request, Some(prefix), Some(Many([b, a])))
  {
    assert UserReady(request, Many([b, a])) by {
      assert forall s :: s in [b, a] ==> s in [a, b];
    }
    var ab := Items(Values(request, Many([a, b])));
    assert ab[0] != Items(Values(request, Many([b, a])))[0];
    DistinctValuesDistinctKeys(request, [a, b], request, [b, a], prefix);
  }

  /** With `-` inside a value, two different selector orders can give the same key. */
  lemma SeparatorInValueCollides()
    ensures var request := Request("GET", map[], map["a" := "x-x", "b" := "x"], map[], None);
      TrackBy(request, Some("p"), Some(Many([Param("a"), Param("b")])))
      == TrackBy(request, Some("p"), Some(Many([Param("b"), Param("a")])))
  {
    var request := Request("GET", map[], map["a" := "x-x", "b" := "x"], map[], None);
    assert Values(request, Many([Param("a"), Param("b")])) == [Some("x-x"), Some("x")];
    assert Values(request, Many([Param("b"), Param("a")])) == [Some("x"), Some("x-x")];
    assert Items([Some("x-x"), Some("x")]) == ["x-x", "x"];
    assert Items([Some("x"), Some("x-x")]) == ["x", "x-x"];
    assert Join(["x-x", "x"]) == "x-x" + [Separator] + "x";
    assert Join(["x", "x-x"]) == "x" + [Separator] + "x-x";
    assert "x-x" + [Separator] + "x" == "x" + [Separator] + "x-x";
  }

  /** A lone selector and a one-element array give the same key exactly when the value is present. */
  lemma SingleVersusArray(request: Request, prefix: string, s: Selector)
    requires prefix != "" && UserReady(request, One(s))
    ensures UserReady(request, Many([s]))
    ensures TrackBy(request, Some(prefix), Some(One(s))) == TrackBy(request, Some(prefix), Some(Many([s])))
        <==> GetValue(request, s).Some?
  {
    assert Selectors(Many([s])) == Selectors(One(s));
    var single := TrackBy(request, Some(prefix), Some(One(s))).value;
    var listed := TrackBy(request, Some(prefix), Some(Many([s]))).value;
    assert Items(Values(request, Many([s]))) == [JoinItem(GetValue(request, s))];
    assert listed == prefix + [Separator] + JoinItem(GetValue(request, s));
    assert single == prefix + [Separator] + Interpolate(GetValue(request, s));
    if GetValue(request, s).None? {
      assert |single| != |listed|;
    }
  }

  /**
   * For selectors that include `pagination`, two requests that agree on every
   * other selector and on `limit` share a key exactly when their rendered
   * offsets are equal: each page is cached under its own key.
   */
  lemma OffsetsDistinguishPages(r1: Request, r2: Request, prefix: string, track: Track)
    requires prefix != "" && Pagination in Selectors(track)
    requires UserReady(r1, track) && UserReady(r2, track)
    requires forall s :: s in Selectors(track) ==> Agree(r1, r2, s)
    requires Field(r1.query, "limit") == Field(r2.query, "limit")
    ensures TrackBy(r1, Some(prefix), Some(track)) == TrackBy(r2, Some(prefix), Some(track))
        <==> Interpolate(Field(r1.query, "offset")) == Interpolate(Field(r2.query, "offset"))
  {
    var sels := Selectors(track);
    var window := Interpolate(Field(r1.query, "limit")) + [Separator];
    var o1 := Interpolate(Field(r1.query, "offset"));
    var o2 := Interpolate(Field(r2.query, "offset"));
    var v1 := Values(r1, track);
    var v2 := Values(r2, track);
    forall i | 0 <= i < |sels|
      ensures sels[i].Pagination? ==> v1[i] == Some(window + o1) && v2[i] == Some(window + o2)
      ensures !sels[i].Pagination? ==> v1[i] == v2[i]
    {
      assert sels[i] in sels;
    }
    if o1 == o2 {
      assert v1 == v2;
    } else {
      var j :| 0 <= j < |sels| && sels[j] == Pagination;
      assert (window + o1)[|window|..] == o1;
      assert (window + o2)[|window|..] == o2;
      var head := prefix + [Separator];
      var t1 := if track.One? then Interpolate(v1[0]) else Join(Items(v1));
      var t2 := if track.One? then Interpolate(v2[0]) else Join(Items(v2));
      if track.Many? {
        var x := Items(v1);
        var y := Items(v2);
        assert x[j] == window + o1 && y[j] == window + o2;
        if |o1| == |o2| {
          if t1 == t2 {
            JoinAligned(x, y);
            assert false;
          }
        } else if |o1| < |o2| {
          assert |x[j]| < |y[j]|;
          JoinLength(x, y);
        } else {
          assert |y[j]| < |x[j]|;
          JoinLength(y, x);
        }
      }
      assert t1 != t2;
      var k1 := TrackBy(r1, Some(prefix), Some(track)).value;
      var k2 := TrackBy(r2, Some(prefix), Some(track)).value;
      assert k1 == head + t1 && k2 == head + t2;
      assert k1[|head|..] == t1 && k2[|head|..] == t2;
    }
  }

  /** A route parameter `id=123` under the prefix `test` is cached as `test-123`. */
  lemma ParamKeyExample()
    ensures TrackBy(Request("GET", map[], map["id" := "123"], map[], None), Some("test"), Some(One(Param("id"))))
      == Some("test-123")
  {
    var request := Request("GET", map[], map["id" := "123"], map[], None);
    assert Values(request, One(Param("id"))) == [Some("123")];
    assert "test" + [Separator] + "123" == "test-123";
  }

  // ---------------------------------------------------------------------------
  // Properties of the lookup and the write

  /** The write after a miss never takes the manager's default TTL: without `ttl` it is 1000. */
  lemma MissTtlIgnoresDefault(ttl: Option<int>, defaultTtl: int)
    ensures var px := ResolveTtl(Some(HandlerTtl(ttl)), defaultTtl);
      && (ttl.None? ==> px == Some(HandlerDefaultTtl))
      && (ttl.Some? && ttl.value <= 0 ==> px.None?)
      && (ttl.Some? && ttl.value > 0 ==> px == ttl)
  {
  }

  /** A key nothing was written under is a miss: the store's `null` parses to `null`. */
  lemma AbsentEntryIsMiss(cachePrefix: string, data: map<string, string>, key: string)
    requires cachePrefix + key !in data
    ensures !Truthy(Lookup(cachePrefix, data, key))
  {
  }

  /** A stored falsy value is a miss too: `"0"` reads back as the number 0. */
  lemma StoredZeroIsMiss(cachePrefix: string, data: map<string, string>, key: string)
    requires cachePrefix + key in data && data[cachePrefix + key] == "0"
    ensures !Truthy(Lookup(cachePrefix, data, key))
  {
    JsonRoundTrip.ParseStringify(Number(0));
    assert Stringify(Number(0)) == "0";
  }

  /** After a miss writes a truthy response that survives the codec, the same key is a hit on that response. */
  lemma MissThenHit(cachePrefix: string, data: map<string, string>, key: string, response: Value)
    requires IsLookupKey(key) && SurvivesCodec(response) && Truthy(Some(response))
    ensures var after := Lookup(cachePrefix, data[cachePrefix + key := Encode(response)], key);
      Truthy(after) && after.value == response
  {
    LookupAfterWrite(cachePrefix, data, key, response);
  }

  // ---------------------------------------------------------------------------
  // The interceptor

  class CacheInterceptor {
    const cacheManager: CacheManager

    constructor (cacheManager: CacheManager)
      ensures this.cacheManager == cacheManager
    {
      this.cacheManager := cacheManager;
    }

    /**
     * `intercept`: pass through when there is no key; serve a truthy cached
     * value without the handler; otherwise run the handler, return its
     * response and write it under the looked-up key with `ttl ?? 1000`.
     */
    method Intercept(context: Context, options: Options, downstream: Value) returns (reply: Reply)
      requires cacheManager.Valid()
      requires Eligible(context) ==> CanBuild(context.request, options.prefix, options.track)
      requires LookupKey(context, options).Some? ==> Storable(downstream)
      modifies cacheManager.store
      ensures cacheManager.Valid()
      ensures LookupKey(context, options).None? ==>
        reply == Reply(downstream, true) && unchanged(cacheManager.store)
      ensures LookupKey(context, options).Some? ==>
        var key := LookupKey(context, options).value;
        var cached := old(cacheManager.Cached(key));
        var looked := old(cacheManager.store.log)
          + (if IsLookupKey(key) then [GetCmd(cacheManager.cachePrefix + key)] else []);
        if Truthy(cached) then
          && reply == Reply(cached.value, false)
          && cacheManager.store.data == old(cacheManager.store.data)
          && cacheManager.store.expiry == old(cacheManager.store.expiry)
          && cacheManager.store.log == looked
        else
          var full := cacheManager.cachePrefix + key;
          var px := ResolveTtl(Some(HandlerTtl(options.ttl)), cacheManager.defaultCacheTtl);
          && reply == Reply(downstream, true)
          && cacheManager.store.data == old(cacheManager.store.data)[full := Encode(downstream)]
          && cacheManager.store.expiry == (if px.Some? then old(cacheManager.store.expiry)[full := px.value]
                                           else old(cacheManager.store.expiry) - {full})
          && cacheManager.store.log == looked + [SetCmd(full, Encode(downstream), px)]
          && (IsLookupKey(key) && SurvivesCodec(downstream) ==> cacheManager.Cached(key) == Some(downstream))
    {
      if context.kind != "http" {
        return Reply(downstream, true);
      }
      var request := context.request;
      if request.httpMethod !in AllowedMethods {
        return Reply(downstream, true);
      }
      var key := TrackBy(request, options.prefix, options.track);
      if key.None? {
        return Reply(downstream, true);
      }
      var value := cacheManager.Get(key.value);
      if Truthy(value) {
        return Reply(value.value, false);
      }
      reply := Reply(downstream, true);
      cacheManager.Set(key.value, downstream, Some(HandlerTtl(options.ttl)));
    }
  }
}
