/**
 * The shapes a handler's caching metadata takes (`CacheTrackByMetadata`,
 * `CacheTrackByOptions`), the parts of an HTTP request the key builders read,
 * and the two ways JavaScript turns a possibly missing value into key text.
 */
module CacheTrackBy {
  import opened Wrappers
  import opened Json
  import opened Glob

  /** `CacheTrackByMetadata`: the request attribute one key segment comes from. */
  datatype Selector =
    | Header(name: string)
    | Param(name: string)
    | User(name: string)
    | Query(name: string)
    | Pagination

  /** `by`: a single selector, or an ordered array of them. */
  datatype Track = One(selector: Selector) | Many(selectors: seq<Selector>)

  /** `CacheTrackByOptions` as read from the handler (`track` is its `by`); fields left out are `None`. */
  datatype Options = Options(prefix: Option<string>, track: Option<Track>, ttl: Option<int>)

  /**
   * The request as the interceptors see it. Header, parameter, query and user
   * fields hold text; `user` is `None` when no principal is attached.
   */
  datatype Request = Request(
    httpMethod: string,
    headers: map<string, string>,
    params: map<string, string>,
    query: map<string, string>,
    user: Option<map<string, string>>)

  /** The execution context: its type (`'http'`, `'rpc'`, `'ws'`, ...) and the request. */
  datatype Context = Context(kind: string, request: Request)

  /** What the interceptor hands back: the emitted response and whether the downstream handler ran. */
  datatype Reply = Reply(response: Value, downstreamRan: bool)

  const Separator: char := '-'

  function Selectors(track: Track): seq<Selector>
  {
    match track
    case One(s) => [s]
    case Many(ss) => ss
  }

  /** `obj[name]`: the field, or `undefined`. */
  function Field(fields: map<string, string>, name: string): Option<string>
  {
    if name in fields then Some(fields[name]) else None
  }

  /** Every `user` selector finds a principal (`request.user[name]` throws otherwise). */
  predicate UserReady(request: Request, track: Track)
  {
    forall s :: s in Selectors(track) && s.User? ==> request.user.Some?
  }

  /** `trackBy` gets past its `!by || !prefix` guard: a non-empty prefix and some selector shape. */
  predicate KeyRequested(prefix: Option<string>, track: Option<Track>)
  {
    prefix.Some? && prefix.value != "" && track.Some?
  }

  /** `trackBy` reads selector values only past its guard, and then every `user` selector needs a principal. */
  predicate CanBuild(request: Request, prefix: Option<string>, track: Option<Track>)
  {
    KeyRequested(prefix, track) ==> UserReady(request, track.value)
  }

  /** The value a non-`pagination` selector reads, as both `getValue` switches read it. */
  function Attribute(request: Request, selector: Selector): Option<string>
    requires !selector.Pagination?
    requires selector.User? ==> request.user.Some?
  {
    match selector
    case Header(n) => Field(request.headers, n)
    case Param(n) => Field(request.params, n)
    case User(n) => Field(request.user.value, n)
    case Query(n) => Field(request.query, n)
  }

  /** The two requests agree on every attribute the selector reads; `pagination` is exempt. */
  predicate Agree(a: Request, b: Request, s: Selector)
  {
    match s
    case Header(n) => Field(a.headers, n) == Field(b.headers, n)
    case Param(n) => Field(a.params, n) == Field(b.params, n)
    case Query(n) => Field(a.query, n) == Field(b.query, n)
    case User(n) => a.user.Some? == b.user.Some? && (a.user.Some? ==> Field(a.user.value, n) == Field(b.user.value, n))
    case Pagination => true
  }

  /** Template literals and `+=` render `undefined` as the text "undefined". */
  function Interpolate(v: Option<string>): string
  {
    match v
    case Some(s) => s
    case None => "undefined"
  }

  /** `Array.join` renders an `undefined` element as the empty text. */
  function JoinItem(v: Option<string>): string
  {
    match v
    case Some(s) => s
    case None => ""
  }

  /** `parts.join('-')`. */
  function Join(parts: seq<string>): string
  {
    if parts == [] then ""
    else if |parts| == 1 then parts[0]
    else parts[0] + [Separator] + Join(parts[1..])
  }

  /** Every selector value of an array, as `Array.join` renders it. */
  function Items(values: seq<Option<string>>): seq<string>
  {
    seq(|values|, i requires 0 <= i < |values| => JoinItem(values[i]))
  }

  /**
   * The key both `trackBy`s build from the selector values: `${prefix}-`, then
   * the single value interpolated, or the array's values joined by `-`.
   */
  function KeyText(prefix: string, track: Track, values: seq<Option<string>>): (key: string)
    requires |values| == |Selectors(track)|
    ensures prefix + [Separator] <= key
  {
    prefix + [Separator] + (if track.One? then Interpolate(values[0]) else Join(Items(values)))
  }

  /** The pieces between separators; the inverse of `Join` on pieces without one. */
  function Split(s: string): (parts: seq<string>)
    ensures |parts| >= 1
  {
    if s == [] then [""]
    else if s[0] == Separator then [""] + Split(s[1..])
    else
      var rest := Split(s[1..]);
      [[s[0]] + rest[0]] + rest[1..]
  }

  lemma {:induction false} SplitPiece(p: string, tail: string)
    requires Separator !in p
    ensures Split(p + [Separator] + tail) == [p] + Split(tail)
    ensures Split(p) == [p]
  {
    if p != [] {
      assert (p + [Separator] + tail)[1..] == p[1..] + [Separator] + tail;
      SplitPiece(p[1..], tail);
      assert [p[0]] + p[1..] == p;
    }
  }

  /** Joining pieces that hold no separator can be undone: the key text keeps every value, in order. */
  lemma {:induction false} SplitJoin(parts: seq<string>)
    requires |parts| >= 1
    requires forall i :: 0 <= i < |parts| ==> Separator !in parts[i]
    ensures Split(Join(parts)) == parts
  {
    SplitPiece(parts[0], []);
    if |parts| > 1 {
      SplitPiece(parts[0], Join(parts[1..]));
      SplitJoin(parts[1..]);
      assert [parts[0]] + parts[1..] == parts;
    }
  }

  /** Pieces of pairwise equal lengths join to the same text only when they are the same pieces. */
  lemma {:induction false} JoinAligned(xs: seq<string>, ys: seq<string>)
    requires |xs| == |ys|
    requires forall i :: 0 <= i < |xs| ==> |xs[i]| == |ys[i]|
    requires Join(xs) == Join(ys)
    ensures xs == ys
  {
    if |xs| > 1 {
      assert Join(xs)[..|xs[0]|] == xs[0];
      assert Join(ys)[..|ys[0]|] == ys[0];
      assert Join(xs)[|xs[0]| + 1..] == Join(xs[1..]);
      assert Join(ys)[|ys[0]| + 1..] == Join(ys[1..]);
      JoinAligned(xs[1..], ys[1..]);
      assert xs == [xs[0]] + xs[1..];
      assert ys == [ys[0]] + ys[1..];
    }
  }

  /** Pieces no longer than their counterparts join to a text no longer, and shorter when one piece is. */
  lemma {:induction false} JoinLength(xs: seq<string>, ys: seq<string>)
    requires |xs| == |ys|
    requires forall i :: 0 <= i < |xs| ==> |xs[i]| <= |ys[i]|
    ensures |Join(xs)| <= |Join(ys)|
    ensures (exists i :: 0 <= i < |xs| && |xs[i]| < |ys[i]|) ==> |Join(xs)| < |Join(ys)|
  {
    if |xs| > 1 {
      JoinLength(xs[1..], ys[1..]);
      if exists i :: 0 <= i < |xs| && |xs[i]| < |ys[i]| {
        var i :| 0 <= i < |xs| && |xs[i]| < |ys[i]|;
        if i > 0 {
          assert |xs[1..][i - 1]| < |ys[1..][i - 1]|;
        }
      }
    }
  }

  /** Joining pieces that each match their pattern gives a text the joined patterns match. */
  lemma {:induction false} JoinMatches(patterns: seq<string>, parts: seq<string>)
    requires |patterns| == |parts|
    requires forall i :: 0 <= i < |parts| ==> Matches(patterns[i], parts[i])
    ensures Matches(Join(patterns), Join(parts))
  {
    if |parts| > 1 {
      JoinMatches(patterns[1..], parts[1..]);
      MatchesSelf([Separator]);
      MatchesConcat(patterns[0], parts[0], [Separator], [Separator]);
      MatchesConcat(patterns[0] + [Separator], parts[0] + [Separator], Join(patterns[1..]), Join(parts[1..]));
    } else if |parts| == 0 {
      assert Join(patterns) == [] && Join(parts) == [];
    }
  }

  /** A character of any piece is a character of the join. */
  lemma {:induction false} JoinHolds(parts: seq<string>, i: nat, c: char)
    requires i < |parts| && c in parts[i]
    ensures c in Join(parts)
  {
    if |parts| > 1 {
      if i == 0 {
        assert Join(parts) == parts[0] + ([Separator] + Join(parts[1..]));
      } else {
        assert parts[1..][i - 1] == parts[i];
        JoinHolds(parts[1..], i - 1, c);
        assert Join(parts) == (parts[0] + [Separator]) + Join(parts[1..]);
      }
    }
  }
}
