# Cache manager and caching interceptors, modelled in Dafny

This project models the caching layer of a NestJS library. The library keeps HTTP responses in Redis. The model covers three parts:

- **The cache manager** puts every key under a namespace (`cachePrefix`, by default `cache:`) and resolves the TTL of each write. Objects are written as JSON text and strings unchanged; a read parses JSON and falls back to the raw text. It refuses lookups by an empty or wildcard key. It deletes one key exactly, or a glob group through `KEYS` then `DEL`, and it purges a whole namespace or a sub-prefix of one.
- **The read-through interceptor** builds a key from the request. The key is `prefix-`, then the values the handler's selectors read (header, route parameter, user field, query field, or the pagination window). The interceptor then does one of three things: passes the request through, serves a truthy cached value without running the handler, or runs the handler and writes its response under the same key with `ttl ?? 1000`.
- **The invalidation interceptor** builds the same key, except that a pagination selector becomes `*`. After the handler runs, it deletes that key, for every HTTP method.

Redis is replaced by an in-memory store (`RedisStore.Store`). The store holds a map from keys to strings and a map from keys to the `PX` of their last write. It also keeps a ghost log of the commands it received; the library's unit tests observe the same commands. The store's `KEYS` understands only the `*` wildcard (`Glob.Matches`). JSON is a small subset with its own printer and parser (`Json`). Its round trip is proved (`JsonRoundTrip.ParseStringify`).

Files:

- `wrappers.dfy`: `Option`.
- `json.dfy`: JSON values, `Stringify`, `Parse`, and the round-trip proof.
- `glob.dfy`: `*`-only glob matching and its algebra.
- `redis_store.dfy`: the store class.
- `cache_manager.dfy`: `CacheManager` and the pure policy it follows.
- `track_by.dfy`: the selector, option and request shapes, plus the key assembly both interceptors share.
- `cache_interceptor.dfy`: the read path.
- `cache_remove_interceptor.dfy`: the invalidation path and how its key relates to the read path's.
- `scenarios.dfy`: whole request sequences over a fresh store.

Details of the code that the model keeps as they are:

- **TTL of the write after a miss.** The interceptor passes `ttl ?? 1000` to `set`. A handler without `ttl` therefore writes with `PX` 1000, and the manager's configured default never applies on this path (`ReadThrough.MissTtlIgnoresDefault`).
- **Non-positive TTLs.** The "no expiry" rule for a TTL ≤ 0 applies only to a `ttl` the caller passes. A configured default ≤ 0 is sent as the `PX` (`Manager.NonPositiveTtlOnlyFromDefault`).
- **Header names.** `request.headers` is indexed with the exact name the selector gives.
- **Empty selector array.** An empty selector array is truthy in JavaScript, so it builds the key `prefix-`. Only an absent `by`, or an absent or empty `prefix`, gives no key.

## Model

| member | source | states |
|---|---|---|
| `JsonRoundTrip.ParseStringify` | src/manager/cache.manager.ts:39-57 | parsing the JSON text of any value gives back that value |
| `Glob.PrefixPattern` | src/manager/cache.manager.ts:101-103 | `p*`, with no `*` in `p`, matches exactly the texts that start with `p` |
| `Glob.LiteralMatchesOnlyItself` | src/manager/cache.manager.ts:79-87 | a pattern without `*` matches one text only: itself |
| `RedisStore.Store.Get` | src/manager/cache.manager.ts:38 | returns the stored string or nothing; logs one `GET`; data unchanged |
| `RedisStore.Store.Set` | src/manager/cache.manager.ts:66 | overwrites the one key; records the `PX` or clears the expiry when there is none; logs one `SET` |
| `RedisStore.Store.Del` | src/manager/cache.manager.ts:82-87 | removes exactly the listed keys from data and expiry; logs one `DEL` |
| `RedisStore.Store.Keys` | src/manager/cache.manager.ts:80-83 | lists every stored key the pattern matches and no other, each once; logs one `KEYS` |
| `Manager.CacheManager.constructor` | src/manager/cache.manager.ts:13-21 | an unset prefix gives `cache:` and an unset default TTL gives 1000; an empty prefix stays empty |
| `Manager.Encode` | src/manager/cache.manager.ts:56-58 | a string is written unchanged; an object, array or `null` is written as JSON text that parses back to it |
| `Manager.Decode` | src/manager/cache.manager.ts:38-43 | a missing entry (`null`) reads as `null`; text that parses reads as the parsed value; the raw text comes back as a string exactly when it does not parse |
| `Manager.Lookup` | src/manager/cache.manager.ts:33-43 | `undefined` exactly for an empty or `*` key; otherwise the decoded entry at `cachePrefix + key`, `null` when there is none (the code's `JSON.parse(null)`; the JSDoc at :28 says a missing key gives `undefined`, and the model follows the code) |
| `Manager.ResolveTtl` | src/manager/cache.manager.ts:60-64 | no `ttl` gives the default, whatever its value; an explicit `ttl` ≤ 0 gives no expiry; a positive `ttl` is kept exactly |
| `Manager.NonPositiveTtlOnlyFromDefault` | src/manager/cache.manager.ts:60-64 | a non-positive `PX` is written exactly when no `ttl` was given and the default is non-positive |
| `Manager.CacheManager.Get` | src/manager/cache.manager.ts:33-44 | an empty or `*` key returns `undefined` and sends no command; otherwise one `GET` of `cachePrefix + key`, and the result is the decoded entry |
| `Manager.CacheManager.Set` | src/manager/cache.manager.ts:55-67 | one `SET` of the encoded value under `cachePrefix + key` with the resolved `PX`; the written key then reads back the value; every other key reads as before |
| `Manager.ObjectRoundTrip` | src/manager/cache.manager.ts:38-58 | an object, array or `null` that was written reads back as itself |
| `Manager.StringRoundTrip` | src/manager/cache.manager.ts:38-58 | a written string reads back as that string exactly when it is not JSON text |
| `Manager.JsonTextReadsBackParsed` | src/manager/cache.manager.ts:39-42 | the string `"123"` reads back as the number 123 |
| `Manager.LookupAfterWrite` | src/manager/cache.manager.ts:38-66 | after a write of a value that survives the codec, a read of the same key returns it |
| `Manager.LookupOtherKey` | src/manager/cache.manager.ts:38-66 | a write under one key leaves every other key's read unchanged |
| `Manager.CacheManager.Delete` | src/manager/cache.manager.ts:78-88 | removes exactly the keys `DeletedKeys` names, from data and expiry; a literal key sends one `DEL`; a `*` key sends `KEYS`, then `DEL` of the listed keys only when some matched |
| `Manager.LiteralDeleteIsExact` | src/manager/cache.manager.ts:87 | a key without `*` removes `cachePrefix + key` and nothing else |
| `Manager.WildcardDeleteIsExact` | src/manager/cache.manager.ts:79-85 | a key with `*` removes exactly the present keys that the namespaced pattern matches |
| `Manager.CacheManager.Purge` | src/manager/cache.manager.ts:100-108 | sends `KEYS` with `cachePrefix + prefix + *` (or `cachePrefix + *` without a prefix), then `DEL` of the matches only when there are some; removes exactly those |
| `Manager.PurgeRemovesPrefix` | src/manager/cache.manager.ts:100-108 | with no `*` in the namespace or the prefix, purge removes exactly the keys that start with them |
| `CacheTrackBy.KeyText` | src/interceptor/cache.interceptor.ts:73-79 | every built key starts with `prefix-` |
| `CacheTrackBy.SplitJoin` | src/interceptor/cache.interceptor.ts:78 | values without `-` can be recovered from their `-`-joined text, in order |
| `CacheTrackBy.JoinMatches` | src/interceptor/cache-remove.interceptor.ts:53 | joining pieces that each match their pattern gives a text that the joined patterns match |
| `ReadThrough.GetValue` | src/interceptor/cache.interceptor.ts:84-98 | header, param, user and query selectors read their named attribute (`undefined` when absent); `pagination` always gives a value, holding the `-` between limit and offset |
| `ReadThrough.PaginationKeepsWindow` | src/interceptor/cache.interceptor.ts:92-93 | when neither part holds `-`, the pagination value splits back into `limit` then `offset`, each rendered `"undefined"` when missing |
| `ReadThrough.TrackBy` | src/interceptor/cache.interceptor.ts:64-82 | a key exists exactly when the prefix is non-empty and `by` is given, and it starts with `prefix-` |
| `ReadThrough.LookupKey` | src/interceptor/cache.interceptor.ts:29-49 | a key is looked up exactly for an HTTP `GET` whose options request one |
| `ReadThrough.KeyKeepsValues` | src/interceptor/cache.interceptor.ts:75-79 | with no `-` inside the values, splitting the text after `prefix-` gives every array value, in order, none dropped or merged |
| `ReadThrough.DistinctValuesDistinctKeys` | src/interceptor/cache.interceptor.ts:78 | arrays with different value lists, none holding `-`, give different keys |
| `ReadThrough.OrderMatters` | src/interceptor/cache.interceptor.ts:78 | swapping two selectors with different values, neither holding `-`, changes the key |
| `ReadThrough.SeparatorInValueCollides` | src/interceptor/cache.interceptor.ts:78 | with `a=x-x` and `b=x`, the orders `[a, b]` and `[b, a]` give the same key |
| `ReadThrough.SingleVersusArray` | src/interceptor/cache.interceptor.ts:75-79 | a lone selector and a one-element array give the same key exactly when the value is present (`"undefined"` against an empty segment) |
| `ReadThrough.OffsetsDistinguishPages` | src/interceptor/cache.interceptor.ts:75-93 | for any selectors that include `pagination`, alone or in an array, two requests that agree on every other selector and on `limit` get equal keys exactly when their rendered offsets are equal |
| `ReadThrough.ParamKeyExample` | test/unit/interceptor/cache.interceptor.spec.ts:42-63 | param `id=123` under prefix `test` gives the key `test-123` |
| `ReadThrough.MissTtlIgnoresDefault` | src/interceptor/cache.interceptor.ts:59 | the write after a miss has `PX` 1000 without a `ttl`, none for `ttl` ≤ 0, and the `ttl` otherwise, whatever the manager's default |
| `ReadThrough.AbsentEntryIsMiss` | src/interceptor/cache.interceptor.ts:51-55 | a key with no stored entry reads as `null`, which is a miss |
| `ReadThrough.StoredZeroIsMiss` | src/interceptor/cache.interceptor.ts:53 | a stored falsy value (`"0"`) is a miss as well |
| `ReadThrough.MissThenHit` | src/interceptor/cache.interceptor.ts:51-60 | after a miss writes a truthy response that survives the codec, the same key is a hit on that response |
| `ReadThrough.CacheInterceptor.constructor` | src/interceptor/cache.interceptor.ts:18-21 | keeps the manager it is given |
| `ReadThrough.CacheInterceptor.Intercept` | src/interceptor/cache.interceptor.ts:25-62 | no key: the handler's response and an untouched store; a truthy cached value: that value, the handler skipped, only the lookup logged; otherwise: the handler's response, written under the looked-up key with `ttl ?? 1000`, after exactly one lookup |
| `Invalidation.GetValue` | src/interceptor/cache-remove.interceptor.ts:59-74 | `pagination` gives `*`; every other selector gives the same value as the read path's `getValue` |
| `Invalidation.TrackBy` | src/interceptor/cache-remove.interceptor.ts:39-57 | a key exists exactly when the prefix is non-empty and `by` is given, and it starts with `prefix-` |
| `Invalidation.RemovalKey` | src/interceptor/cache-remove.interceptor.ts:14-30 | a key is removed exactly for an HTTP request, of any method, whose options request one |
| `Invalidation.SameKeyWithoutPagination` | src/interceptor/cache-remove.interceptor.ts:59-74 | without a pagination selector, the removal key is the lookup key |
| `Invalidation.AnyMethodInvalidates` | src/interceptor/cache-remove.interceptor.ts:14-26 | the request method does not affect the removal key |
| `Invalidation.ValueMatches` | src/interceptor/cache-remove.interceptor.ts:67-68 | each removal value, read as a pattern, matches the read path's value for an agreeing request (`*` against any page) |
| `Invalidation.RemovalMatchesLookup` | src/interceptor/cache-remove.interceptor.ts:67-68 | the namespaced removal key matches the namespaced lookup key of every request that agrees on all non-pagination selectors, whatever its limit and offset |
| `Invalidation.PaginationLeavesWildcard` | src/interceptor/cache-remove.interceptor.ts:48-54 | a track with a `pagination` selector, alone or in an array, always puts `*` into the removal key (so `delete` takes its glob branch) |
| `Invalidation.RemovalDeletesCachedEntry` | src/interceptor/cache-remove.interceptor.ts:26-36 | for any namespace, the deletion removes every cached entry of an agreeing request: a removal key without `*` has no `pagination` selector and is the cached key itself |
| `Invalidation.RemovedPageMisses` | src/interceptor/cache-remove.interceptor.ts:32-36 | after that deletion, the read path misses on those entries |
| `Invalidation.PaginationKeyExample` | src/interceptor/cache-remove.interceptor.ts:67-68 | a lone pagination selector under `posts` gives `posts-*` |
| `Invalidation.CacheRemoveInterceptor.constructor` | src/interceptor/cache-remove.interceptor.ts:9-12 | keeps the manager it is given |
| `Invalidation.CacheRemoveInterceptor.Intercept` | src/interceptor/cache-remove.interceptor.ts:14-37 | always replies with the handler's response; with no key the store is untouched; otherwise the store changes exactly as the manager's `delete` of that key |
| `Scenarios.ReadTwice` | src/interceptor/cache.interceptor.ts:45-61 | two identical `GET`s: the first runs the handler, the second is served its response from the cache |
| `Scenarios.ReadInvalidateRead` | src/interceptor/cache-remove.interceptor.ts:26-36 | a cached page, then a `DELETE` of the same resource: the next read runs the handler again |

## Left out

- `ReadThrough.CacheInterceptor.Intercept`: requires the handler's response to be a string, object, array or `null` when a key is built. The code would pass a number or boolean to the Redis client unserialised; that case is not modelled.
- `ReadThrough.CacheInterceptor.Intercept`: the handler always emits exactly one response. A handler that throws, emits nothing or emits several values is not modelled.
- `Invalidation.CacheRemoveInterceptor.Intercept`: always deletes once, after the handler. In the code the deletion runs in `tap(...)` for each emitted value. A handler that throws or emits nothing deletes nothing, and one that emits several values deletes once per value. Neither case is modelled.
- Timing: `tap(async …)` makes the write after a miss and the deletion fire-and-forget. The model runs the handler, then the store command, in sequence. Failures of those commands are not modelled.
- Expiry: the `PX` of each write is recorded, but there is no clock and entries never expire.
- Redis would refuse a `SET` whose `PX` is not positive. The store records it as given.
- Glob: the store's `KEYS` understands only `*`. The other Redis glob features (`?`, `[…]`, `\` escapes) are read as literal characters.
- JSON: the subset has integers only (no fractions or exponents). Strings may not contain `\u` escapes of surrogate code points. Objects are member lists in order: duplicate keys are kept, and property order is not normalised. A stored string such as `"1.5"` therefore reads back as raw text here, where `JSON.parse` would give a number.
- Numbers are unbounded integers. JavaScript's are doubles: integer text beyond 2^53 parses to a rounded value, and `JSON.stringify` writes magnitudes from 10^21 in exponent form. The model writes and reads every digit.
- `Manager.Encode` and `Manager.CacheManager.Set`: for an object holding a number of magnitude 10^21 or more, the text they state has every digit, where the code writes exponent form.
- `Manager.Decode` and `Manager.Lookup`: stored integer text beyond 2^53 decodes to that exact integer, where the code returns the nearest double.
- Request shape: the headers, parameters and query are always present as maps of text. The model does not cover a header whose value is an array, a non-string user field, or a missing `headers`, `params` or `query` object.
- Missing principal: reading a `user` field without a principal throws a `TypeError` in the code. Here it is a precondition (`CacheTrackBy.CanBuild`).
- `getValue`'s `default` branch, for an unknown `by` tag, cannot be reached: the selector datatype has exactly the five tags.
- Handler metadata that is entirely missing makes the destructuring throw. The model always has an options record, whose fields may each be absent.
- Numbers are integers, so the falsy `NaN` and `-0` do not arise.
- Wiring is not part of this model: creating and connecting the Redis client (src/cache.module.ts), registering the module (src/cache.module-definition.ts), and `SetMetadata`/`Reflector` (src/decorator/cache-track-by.decorator.ts). The options reach the interceptors as a parameter and the settings reach the manager as constructor arguments.
