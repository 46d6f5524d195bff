/**
 * The cache manager: namespacing of keys, TTL policy, serialisation of
 * objects, and exact or wildcard removal, over the store in redis_store.dfy.
 *
 * The pure part (how a value is encoded, what a read decodes to, which TTL a
 * write carries, which keys a removal takes away) is stated as functions with
 * lemmas; the class `CacheManager` performs the store commands and is proved
 * to change the store exactly as those functions say.
 */
module Manager {
  import opened Wrappers
  import opened Json
  import JsonRoundTrip
  import opened Glob
  import opened RedisStore

  const DefaultCachePrefix: string := "cache:"
  const DefaultCacheTtl: int := 1000

  /** The optional settings that reach the manager from the module options. */
  datatype ModuleOptions = ModuleOptions(cachePrefix: Option<string>, defaultCacheTtl: Option<int>)

  /** `typeof v === 'object'`: objects, arrays and `null`. */
  predicate IsObject(v: Value)
  {
    v.Object? || v.Array? || v.Null?
  }

  /** The values `set` accepts: `string | object`. */
  predicate Storable(v: Value)
  {
    v.Str? || IsObject(v)
  }

  /** A key `get` will look up: not empty and without the wildcard. */
  predicate IsLookupKey(key: string)
  {
    key != "" && Wildcard !in key
  }

  /** A storable value that `get` reads back unchanged: an object, or a string that is not JSON text. */
  predicate SurvivesCodec(v: Value)
  {
    Storable(v) && (IsObject(v) || Parse(v.s).None?)
  }

  /** What `set` writes: objects as their JSON text, strings unchanged. */
  function Encode(v: Value): (text: string)
    requires Storable(v)
    ensures v.Str? ==> text == v.s
    ensures IsObject(v) ==> Parse(text) == Some(v)
  {
    if v.Str? then v.s
    else
      JsonRoundTrip.ParseStringify(v);
      Stringify(v)
  }

  /**
   * What `get` makes of what the store returned: the parsed JSON when the text
   * parses, else the raw text. A missing entry comes back from the store as
   * `null`, and `JSON.parse(null)` is `null`.
   */
  function Decode(raw: Option<string>): (v: Value)
    ensures raw.None? ==> v == Null
    ensures raw.Some? && Parse(raw.value).Some? ==> v == Parse(raw.value).value
    ensures raw.Some? ==> (v == Str(raw.value) <==> Parse(raw.value).None?)
  {
    match raw
    case None => Null
    case Some(text) =>
      JsonRoundTrip.ParsedStringIsShorter(text);
      match Parse(text)
      case Some(v) => v
      case None => Str(text)
  }

  /** The `PX` a write carries, given the `ttl` argument and the configured default. */
  function ResolveTtl(ttl: Option<int>, defaultTtl: int): (px: Option<int>)
    ensures ttl.None? ==> px == Some(defaultTtl)
    ensures ttl.Some? && ttl.value <= 0 ==> px.None?
    ensures ttl.Some? && ttl.value > 0 ==> px == ttl
  {
    if ttl.None? then Some(defaultTtl)
    else if ttl.value <= 0 then None
    else ttl
  }

  /** What `get(key)` returns against the store contents `data`; `None` is `undefined`. */
  function Lookup(cachePrefix: string, data: map<string, string>, key: string): (r: Option<Value>)
    ensures r.None? <==> !IsLookupKey(key)
    ensures IsLookupKey(key) && cachePrefix + key !in data ==> r == Some(Null)
    ensures IsLookupKey(key) && cachePrefix + key in data ==> r == Some(Decode(Some(data[cachePrefix + key])))
  {
    if !IsLookupKey(key) then None
    else
      var full := cachePrefix + key;
      Some(Decode(if full in data then Some(data[full]) else None))
  }

  /** The stored keys `delete(key)` takes away, given the keys present. */
  function DeletedKeys(cachePrefix: string, key: string, present: set<string>): set<string>
  {
    if Wildcard in key then MatchingKeys(cachePrefix + key, present) else {cachePrefix + key}
  }

  /** The `KEYS` pattern `purge(prefix)` lists. */
  function PurgePattern(cachePrefix: string, prefix: Option<string>): string
  {
    if prefix.Some? && prefix.value != "" then cachePrefix + prefix.value + [Wildcard]
    else cachePrefix + [Wildcard]
  }

  /** The commands a `KEYS` then conditional `DEL` batch appends to the log. */
  predicate BatchLogged(before: seq<Command>, after: seq<Command>, pattern: string, doomed: set<string>)
  {
    && |after| == |before| + (if doomed == {} then 1 else 2)
    && after[..|before|] == before
    && after[|before|] == KeysCmd(pattern)
    && (doomed != {} ==> after[|before| + 1].DelCmd? && KeySet(after[|before| + 1].keys) == doomed)
  }

  /** The commands `delete(key)` appends to the log, given the keys present. */
  predicate DeleteLogged(cachePrefix: string, key: string, present: set<string>, before: seq<Command>, after: seq<Command>)
  {
    if Wildcard in key then BatchLogged(before, after, cachePrefix + key, MatchingKeys(cachePrefix + key, present))
    else after == before + [DelCmd([cachePrefix + key])]
  }

  lemma NoKeysListed(keys: seq<string>)
    ensures |keys| > 0 <==> KeySet(keys) != {}
  {
    if |keys| > 0 {
      assert keys[0] in KeySet(keys);
    }
  }

  // ---------------------------------------------------------------------------
  // Properties of the policy

  /** An object written by `set` is read back by `get` as the same object. */
  lemma ObjectRoundTrip(v: Value)
    requires IsObject(v)
    ensures Decode(Some(Encode(v))) == v
  {
    JsonRoundTrip.ParseStringify(v);
  }

  /** A string written by `set` is read back as that string exactly when it is not JSON text. */
  lemma StringRoundTrip(s: string)
    ensures Decode(Some(Encode(Str(s)))) == Str(s) <==> Parse(s).None?
  {
    JsonRoundTrip.ParsedStringIsShorter(s);
  }

  /** A string that is itself JSON does not come back as a string: `"123"` reads back as a number. */
  lemma JsonTextReadsBackParsed()
    ensures Decode(Some(Encode(Str("123")))) == Number(123)
  {
    JsonRoundTrip.ParseStringify(Number(123));
    assert Stringify(Number(123)) == "123";
  }

  /** A resolved `PX` that is not positive can only come from a non-positive configured default. */
  lemma NonPositiveTtlOnlyFromDefault(ttl: Option<int>, defaultTtl: int)
    ensures var px := ResolveTtl(ttl, defaultTtl);
      px.Some? && px.value <= 0 <==> ttl.None? && defaultTtl <= 0
  {
  }

  /** After a write of a value that survives the codec, a read of the same key returns it. */
  lemma LookupAfterWrite(cachePrefix: string, data: map<string, string>, key: string, v: Value)
    requires IsLookupKey(key) && SurvivesCodec(v)
    ensures Lookup(cachePrefix, data[cachePrefix + key := Encode(v)], key) == Some(v)
  {
    if IsObject(v) {
      ObjectRoundTrip(v);
    } else {
      StringRoundTrip(v.s);
    }
  }

  /** A write under one key leaves every other key's read unchanged. */
  lemma LookupOtherKey(cachePrefix: string, data: map<string, string>, key: string, other: string, text: string)
    requires other != key
    ensures Lookup(cachePrefix, data[cachePrefix + key := text], other) == Lookup(cachePrefix, data, other)
  {
    assert (cachePrefix + other)[|cachePrefix|..] == other;
    assert (cachePrefix + key)[|cachePrefix|..] == key;
  }

  /** Removing a key without `*` takes away that one fully qualified key and no other. */
  lemma LiteralDeleteIsExact(cachePrefix: string, key: string, present: set<string>, k: string)
    requires Wildcard !in key
    ensures k in DeletedKeys(cachePrefix, key, present) <==> k == cachePrefix + key
  {
  }

  /** Removing a key with `*` takes away exactly the present keys the namespaced pattern matches. */
  lemma WildcardDeleteIsExact(cachePrefix: string, key: string, present: set<string>, k: string)
    requires Wildcard in key
    ensures k in DeletedKeys(cachePrefix, key, present) <==> k in present && Matches(cachePrefix + key, k)
  {
  }

  /** Without `*` in the namespace and the sub-prefix, `purge` removes exactly the keys starting with them. */
  lemma PurgeRemovesPrefix(cachePrefix: string, prefix: Option<string>, present: set<string>)
    requires Wildcard !in cachePrefix && (prefix.Some? ==> Wildcard !in prefix.value)
    ensures var base := if prefix.Some? then cachePrefix + prefix.value else cachePrefix;
      MatchingKeys(PurgePattern(cachePrefix, prefix), present) == set k | k in present && base <= k
  {
    var base := if prefix.Some? then cachePrefix + prefix.value else cachePrefix;
    assert Wildcard !in base;
    assert PurgePattern(cachePrefix, prefix) == base + [Wildcard] by {
      if prefix.Some? && prefix.value == "" {
        assert base == cachePrefix;
      }
    }
    forall k | k in present
      ensures Matches(base + [Wildcard], k) <==> base <= k
    {
      PrefixPattern(base, k);
    }
  }

  // ---------------------------------------------------------------------------
  // The manager

  class CacheManager {
    const store: Store
    const cachePrefix: string
    const defaultCacheTtl: int

    ghost predicate Valid()
      reads this, store
    {
      store.Valid()
    }

    /** What `get(key)` would return now. */
    ghost function Cached(key: string): Option<Value>
      reads this, store
    {
      Lookup(cachePrefix, store.data, key)
    }

    /** Unset options take their defaults (`??`): an explicit empty prefix stays empty. */
    constructor (store: Store, options: ModuleOptions)
      requires store.Valid()
      ensures Valid()
      ensures this.store == store
      ensures cachePrefix == (if options.cachePrefix.Some? then options.cachePrefix.value else DefaultCachePrefix)
      ensures defaultCacheTtl == (if options.defaultCacheTtl.Some? then options.defaultCacheTtl.value else DefaultCacheTtl)
    {
      this.store := store;
      this.cachePrefix := options.cachePrefix.GetOr(DefaultCachePrefix);
      this.defaultCacheTtl := options.defaultCacheTtl.GetOr(DefaultCacheTtl);
    }

    /** `get`: an empty or wildcard key is answered `undefined` without a store command. */
    method Get(key: string) returns (value: Option<Value>)
      requires Valid()
      modifies store`log
      ensures value == Cached(key)
      ensures !IsLookupKey(key) ==> value.None?
      ensures store.log == old(store.log) + (if IsLookupKey(key) then [GetCmd(cachePrefix + key)] else [])
    {
      if key == "" || Wildcard in key {
        return None;
      }
      var raw := store.Get(cachePrefix + key);
      value := Some(Decode(raw));
    }

    /** `set`: one `SET` of the encoded value under the namespaced key, with the resolved `PX`. */
    method Set(key: string, value: Value, ttl: Option<int>)
      requires Valid() && Storable(value)
      modifies store
      ensures Valid()
      ensures store.data == old(store.data)[cachePrefix + key := Encode(value)]
      ensures var px := ResolveTtl(ttl, defaultCacheTtl);
        store.expiry == if px.Some? then old(store.expiry)[cachePrefix + key := px.value]
                        else old(store.expiry) - {cachePrefix + key}
      ensures store.log == old(store.log) + [SetCmd(cachePrefix + key, Encode(value), ResolveTtl(ttl, defaultCacheTtl))]
      ensures IsLookupKey(key) && SurvivesCodec(value) ==> Cached(key) == Some(value)
      ensures forall other :: other != key ==> Cached(other) == old(Cached(other))
    {
      var text: string;
      if IsObject(value) {
        text := Stringify(value);
      } else {
        text := value.s;
      }
      var px: Option<int> := ttl;
      if ttl.None? {
        px := Some(defaultCacheTtl);
      } else if ttl.value <= 0 {
        px := None;
      }
      ghost var before := store.data;
      store.Set(cachePrefix + key, text, px);
      if IsLookupKey(key) && SurvivesCodec(value) {
        LookupAfterWrite(cachePrefix, before, key, value);
      }
      forall other | other != key
        ensures Cached(other) == Lookup(cachePrefix, before, other)
      {
        LookupOtherKey(cachePrefix, before, key, other, text);
      }
    }

    /**
     * `delete`: a key with `*` lists the matching keys and deletes them in one
     * batch, issuing no `DEL` when there are none; any other key is deleted
     * exactly.
     */
    method Delete(key: string)
      requires Valid()
      modifies store
      ensures Valid()
      ensures var doomed := DeletedKeys(cachePrefix, key, old(store.data.Keys));
        store.data == old(store.data) - doomed && store.expiry == old(store.expiry) - doomed
      ensures DeleteLogged(cachePrefix, key, old(store.data.Keys), old(store.log), store.log)
    {
      if Wildcard in key {
        var keys := store.Keys(cachePrefix + key);
        NoKeysListed(keys);
        if |keys| > 0 {
          store.Del(keys);
        }
        return;
      }
      store.Del([cachePrefix + key]);
      assert KeySet([cachePrefix + key]) == {cachePrefix + key};
    }

    /** `purge`: lists the keys under the namespace (or a sub-prefix of it) and deletes them in one batch. */
    method Purge(prefix: Option<string>)
      requires Valid()
      modifies store
      ensures Valid()
      ensures var doomed := MatchingKeys(PurgePattern(cachePrefix, prefix), old(store.data.Keys));
        && store.data == old(store.data) - doomed
        && store.expiry == old(store.expiry) - doomed
        && BatchLogged(old(store.log), store.log, PurgePattern(cachePrefix, prefix), doomed)
    {
      var keys := store.Keys(PurgePattern(cachePrefix, prefix));
      NoKeysListed(keys);
      if |keys| > 0 {
        store.Del(keys);
      }
    }
  }
}
