/**
 * The part of JSON that the cache manager relies on: `JSON.stringify` of an
 * object before it is written, and `JSON.parse` of whatever is read back.
 *
 * Values are JSON documents whose numbers are unbounded integers, where
 * JavaScript's are doubles. For integers of magnitude below 10^21, `Stringify`
 * emits what `JSON.stringify` emits (no whitespace, `"`, `\` and control
 * characters escaped, the latter as `\b \f \n \r \t` or `\u00xx`); from
 * 10^21 up it still writes every digit, where `JSON.stringify` switches to
 * exponent form. `Parse` keeps every digit too, where `JSON.parse` rounds an
 * integer beyond 2^53 to the nearest double.
 * `Parse` accepts the corresponding grammar: whitespace between tokens,
 * `null`/`true`/`false`, integers without leading zeros, strings with every
 * JSON escape, arrays and objects. The round trip
 * `Parse(Stringify(v)) == Some(v)` is proved below.
 */
module Json {
  import opened Wrappers

  datatype Value =
    | Null
    | Boolean(b: bool)
    | Number(n: int)
    | Str(s: string)
    | Array(items: seq<Value>)
    | Object(members: seq<Member>)

  /** One `"key": value` pair; members keep their textual order. */
  datatype Member = Member(key: string, value: Value)

  // ---------------------------------------------------------------------------
  // Characters

  predicate IsDigit(c: char) { '0' <= c <= '9' }

  predicate IsWhitespace(c: char) { c == ' ' || c == '\t' || c == '\n' || c == '\r' }

  predicate IsHex(c: char) { IsDigit(c) || 'a' <= c <= 'f' || 'A' <= c <= 'F' }

  function DigitChar(d: nat): char
    requires d < 10
  {
    ('0' as int + d) as char
  }

  function DigitValue(c: char): nat
    requires IsDigit(c)
  {
    c as int - '0' as int
  }

  /** Lower-case hexadecimal digit, as `JSON.stringify` writes in `\u00xx`. */
  function HexChar(d: nat): char
    requires d < 16
  {
    if d < 10 then DigitChar(d) else ('a' as int + d - 10) as char
  }

  function HexValue(c: char): nat
    requires IsHex(c)
  {
    if IsDigit(c) then DigitValue(c)
    else if 'a' <= c <= 'f' then c as int - 'a' as int + 10
    else c as int - 'A' as int + 10
  }

  // ---------------------------------------------------------------------------
  // Stringify

  /** Decimal digits of `n`, most significant first. */
  function NatText(n: nat): string
  {
    if n < 10 then [DigitChar(n)] else NatText(n / 10) + [DigitChar(n % 10)]
  }

  function IntText(n: int): string
  {
    if n < 0 then "-" + NatText(-n) else NatText(n)
  }

  function EscapeChar(c: char): string
  {
    if c == '"' then "\\\""
    else if c == '\\' then "\\\\"
    else if c == '\U{8}' then "\\b"
    else if c == '\U{C}' then "\\f"
    else if c == '\n' then "\\n"
    else if c == '\r' then "\\r"
    else if c == '\t' then "\\t"
    else if c < ' ' then "\\u00" + [HexChar(c as int / 16), HexChar(c as int % 16)]
    else [c]
  }

  function Escape(s: string): string
  {
    if s == [] then "" else EscapeChar(s[0]) + Escape(s[1..])
  }

  function Quote(s: string): string
  {
    "\"" + Escape(s) + "\""
  }

  function Stringify(v: Value): string
  {
    match v
    case Null => "null"
    case Boolean(b) => if b then "true" else "false"
    case Number(n) => IntText(n)
    case Str(s) => Quote(s)
    case Array(items) => "[" + StringifyItems(items) + "]"
    case Object(members) => "{" + StringifyMembers(members) + "}"
  }

  function StringifyItems(items: seq<Value>): string
  {
    if items == [] then ""
    else if |items| == 1 then Stringify(items[0])
    else Stringify(items[0]) + "," + StringifyItems(items[1..])
  }

  function StringifyMember(m: Member): string
  {
    Quote(m.key) + ":" + Stringify(m.value)
  }

  function StringifyMembers(members: seq<Member>): string
  {
    if members == [] then ""
    else if |members| == 1 then StringifyMember(members[0])
    else StringifyMember(members[0]) + "," + StringifyMembers(members[1..])
  }

  // ---------------------------------------------------------------------------
  // Parse

  /** Drops leading JSON whitespace. */
  function SkipWs(s: string): (r: string)
    ensures |r| <= |s|
    ensures r == [] || !IsWhitespace(r[0])
  {
    if s != [] && IsWhitespace(s[0]) then SkipWs(s[1..]) else s
  }

  /** Length of the run of decimal digits that starts `s`. */
  function DigitRun(s: string): (k: nat)
    ensures k <= |s|
    ensures forall i :: 0 <= i < k ==> IsDigit(s[i])
    ensures k == |s| || !IsDigit(s[k])
  {
    if s != [] && IsDigit(s[0]) then 1 + DigitRun(s[1..]) else 0
  }

  /** The number a run of decimal digits denotes. */
  function DigitsValue(ds: string): nat
    requires forall i :: 0 <= i < |ds| ==> IsDigit(ds[i])
  {
    if ds == [] then 0 else DigitsValue(ds[..|ds| - 1]) * 10 + DigitValue(ds[|ds| - 1])
  }

  /** `word` at the head of `t` gives `v`. */
  function Literal(t: string, word: string, v: Value): (r: Option<(Value, string)>)
    requires |word| > 0
    ensures r.Some? ==> r.value.0 == v && |r.value.1| < |t|
  {
    if |word| <= |t| && t[..|word|] == word then Some((v, t[|word|..])) else None
  }

  /** An integer: an optional `-`, then `0` or a digit run not starting with `0`. */
  function ParseNumber(t: string): (r: Option<(Value, string)>)
    requires t != []
    ensures r.Some? ==> r.value.0.Number? && |r.value.1| < |t|
  {
    var neg := t[0] == '-';
    var u := if neg then t[1..] else t;
    if u == [] || !IsDigit(u[0]) then None
    else if u[0] == '0' then Some((Number(0), u[1..]))
    else
      var k := DigitRun(u);
      var n: int := DigitsValue(u[..k]);
      Some((Number(if neg then -n else n), u[k..]))
  }

  /** The character an escape sequence stands for; `s` follows the backslash. */
  function Unescape(s: string): (r: Option<(char, string)>)
    ensures r.Some? ==> |r.value.1| < |s|
  {
    if s == [] then None
    else if s[0] == '"' || s[0] == '\\' || s[0] == '/' then Some((s[0], s[1..]))
    else if s[0] == 'b' then Some(('\U{8}', s[1..]))
    else if s[0] == 'f' then Some(('\U{C}', s[1..]))
    else if s[0] == 'n' then Some(('\n', s[1..]))
    else if s[0] == 'r' then Some(('\r', s[1..]))
    else if s[0] == 't' then Some(('\t', s[1..]))
    else if s[0] == 'u' && |s| >= 5 && IsHex(s[1]) && IsHex(s[2]) && IsHex(s[3]) && IsHex(s[4]) then
      var code := ((HexValue(s[1]) * 16 + HexValue(s[2])) * 16 + HexValue(s[3])) * 16 + HexValue(s[4]);
      if 0xD800 <= code < 0xE000 then None else Some((code as char, s[5..]))
    else None
  }

  /** The characters of a string literal up to its closing quote; `s` follows the opening quote. */
  function ParseChars(s: string): (r: Option<(string, string)>)
    ensures r.Some? ==> |r.value.0| + |r.value.1| < |s|
  {
    if s == [] then None
    else if s[0] == '"' then Some(("", s[1..]))
    else if s[0] == '\\' then
      match Unescape(s[1..])
      case None => None
      case Some((c, after)) =>
        match ParseChars(after)
        case None => None
        case Some((cs, rest)) => Some(([c] + cs, rest))
    else if s[0] < ' ' then None
    else
      match ParseChars(s[1..])
      case None => None
      case Some((cs, rest)) => Some(([s[0]] + cs, rest))
  }

  /** One value at the head of `s`, and what follows it. */
  function ParseValue(s: string): (r: Option<(Value, string)>)
    ensures r.Some? ==> |r.value.1| < |s|
    ensures r.Some? && r.value.0.Str? ==> |r.value.0.s| + |r.value.1| < |s|
    decreases |s|, 0
  {
    var t := SkipWs(s);
    if t == [] then None
    else if t[0] == 'n' then Literal(t, "null", Null)
    else if t[0] == 't' then Literal(t, "true", Boolean(true))
    else if t[0] == 'f' then Literal(t, "false", Boolean(false))
    else if t[0] == '"' then
      match ParseChars(t[1..])
      case None => None
      case Some((str, rest)) => Some((Str(str), rest))
    else if t[0] == '-' || IsDigit(t[0]) then ParseNumber(t)
    else if t[0] == '[' then ParseArray(t[1..])
    else if t[0] == '{' then ParseObject(t[1..])
    else None
  }

  /** An array; `s` follows the `[`. */
  function ParseArray(s: string): (r: Option<(Value, string)>)
    ensures r.Some? ==> r.value.0.Array? && |r.value.1| < |s|
    decreases |s|, 2
  {
    var t := SkipWs(s);
    if t != [] && t[0] == ']' then Some((Array([]), t[1..]))
    else
      match ParseElements(t)
      case None => None
      case Some((items, rest)) => Some((Array(items), rest))
  }

  /** One or more comma-separated values and the closing `]`. */
  function ParseElements(s: string): (r: Option<(seq<Value>, string)>)
    ensures r.Some? ==> |r.value.1| < |s|
    decreases |s|, 1
  {
    match ParseValue(s)
    case None => None
    case Some((v, after)) =>
      var t := SkipWs(after);
      if t == [] then None
      else if t[0] == ']' then Some(([v], t[1..]))
      else if t[0] == ',' then
        match ParseElements(t[1..])
        case None => None
        case Some((vs, rest)) => Some(([v] + vs, rest))
      else None
  }

  /** An object; `s` follows the `{`. */
  function ParseObject(s: string): (r: Option<(Value, string)>)
    ensures r.Some? ==> r.value.0.Object? && |r.value.1| < |s|
    decreases |s|, 2
  {
    var t := SkipWs(s);
    if t != [] && t[0] == '}' then Some((Object([]), t[1..]))
    else
      match ParseMembers(t)
      case None => None
      case Some((members, rest)) => Some((Object(members), rest))
  }

  /** One `"key": value` pair. */
  function ParseMember(s: string): (r: Option<(Member, string)>)
    ensures r.Some? ==> |r.value.1| < |s|
    decreases |s|, 0
  {
    var t := SkipWs(s);
    if t == [] || t[0] != '"' then None
    else
      match ParseChars(t[1..])
      case None => None
      case Some((key, afterKey)) =>
        var u := SkipWs(afterKey);
        if u == [] || u[0] != ':' then None
        else
          match ParseValue(u[1..])
          case None => None
          case Some((v, rest)) => Some((Member(key, v), rest))
  }

  /** One or more comma-separated members and the closing `}`. */
  function ParseMembers(s: string): (r: Option<(seq<Member>, string)>)
    ensures r.Some? ==> |r.value.1| < |s|
    decreases |s|, 1
  {
    match ParseMember(s)
    case None => None
    case Some((m, after)) =>
      var t := SkipWs(after);
      if t == [] then None
      else if t[0] == '}' then Some(([m], t[1..]))
      else if t[0] == ',' then
        match ParseMembers(t[1..])
        case None => None
        case Some((ms, rest)) => Some(([m] + ms, rest))
      else None
  }

  /** `JSON.parse`: `None` where it would throw. */
  function Parse(s: string): Option<Value>
  {
    match ParseValue(s)
    case None => None
    case Some((v, rest)) => if SkipWs(rest) == [] then Some(v) else None
  }
}

/** The round trip `Parse(Stringify(v)) == Some(v)`, built up token by token. */
module JsonRoundTrip {
  import opened Wrappers
  import opened Json

  lemma {:induction false} NatTextShape(n: nat)
    ensures |NatText(n)| >= 1
    ensures forall i :: 0 <= i < |NatText(n)| ==> IsDigit(NatText(n)[i])
    ensures n == 0 <==> NatText(n)[0] == '0'
  {
    if n >= 10 {
      NatTextShape(n / 10);
    }
  }

  lemma {:induction false} NatTextValue(n: nat)
    ensures forall i :: 0 <= i < |NatText(n)| ==> IsDigit(NatText(n)[i])
    ensures DigitsValue(NatText(n)) == n
  {
    NatTextShape(n);
    if n >= 10 {
      var t := NatText(n);
      NatTextValue(n / 10);
      assert t[..|t| - 1] == NatText(n / 10);
    }
  }

  lemma {:induction false} DigitRunStops(ds: string, rest: string)
    requires forall i :: 0 <= i < |ds| ==> IsDigit(ds[i])
    requires rest == [] || !IsDigit(rest[0])
    ensures DigitRun(ds + rest) == |ds|
  {
    if ds != [] {
      assert (ds + rest)[1..] == ds[1..] + rest;
      DigitRunStops(ds[1..], rest);
    }
  }

  lemma NumberRoundTrip(n: int, rest: string)
    requires rest == [] || !IsDigit(rest[0])
    ensures IntText(n) != []
    ensures ParseNumber(IntText(n) + rest) == Some((Number(n), rest))
  {
    var m: nat := if n < 0 then -n else n;
    var d := NatText(m);
    NatTextShape(m);
    NatTextValue(m);
    DigitRunStops(d, rest);
    var u := d + rest;
    assert u[..|d|] == d;
    assert u[|d|..] == rest;
    if n < 0 {
      assert IntText(n) + rest == "-" + u;
      assert ("-" + u)[1..] == u;
    } else {
      assert IntText(n) + rest == u;
      if m == 0 {
        assert d == "0";
        assert u[1..] == rest;
      }
    }
  }

  lemma HexRoundTrip(d: nat)
    requires d < 16
    ensures IsHex(HexChar(d)) && HexValue(HexChar(d)) == d
  {
  }

  /** The characters with a two-character escape. */
  predicate ShortEscaped(c: char)
  {
    c == '"' || c == '\\' || c == '\U{8}' || c == '\U{C}' || c == '\n' || c == '\r' || c == '\t'
  }

  /** A two-character escape, read after its backslash, gives back its character. */
  lemma ShortUnescape(c: char, t: string)
    requires ShortEscaped(c)
    ensures EscapeChar(c)[0] == '\\' && |EscapeChar(c)| == 2
    ensures Unescape(EscapeChar(c)[1..] + t) == Some((c, t))
  {
    var e := EscapeChar(c);
    assert [e[1]] + t == e[1..] + t;
    assert ([e[1]] + t)[1..] == t;
  }

  /** A `\u00xx` escape of a control character, read after its backslash, gives back that character. */
  lemma HexUnescape(c: char, t: string)
    requires !ShortEscaped(c) && c < ' '
    ensures EscapeChar(c)[0] == '\\'
    ensures Unescape(EscapeChar(c)[1..] + t) == Some((c, t))
  {
    var h1, h0 := c as int / 16, c as int % 16;
    HexRoundTrip(h1);
    HexRoundTrip(h0);
    var s := EscapeChar(c)[1..] + t;
    assert s == ['u', '0', '0', HexChar(h1), HexChar(h0)] + t;
    assert s[5..] == t;
    assert ((0 * 16 + 0) * 16 + h1) * 16 + h0 == c as int;
  }

  /** One escaped character is read back as itself, and reading continues after it. */
  lemma EscapeCharRoundTrip(c: char, t: string)
    ensures ParseChars(EscapeChar(c) + t) ==
      match ParseChars(t)
      case None => None
      case Some((cs, rest)) => Some(([c] + cs, rest))
  {
    var e := EscapeChar(c);
    if ShortEscaped(c) || c < ' ' {
      if ShortEscaped(c) {
        ShortUnescape(c, t);
      } else {
        HexUnescape(c, t);
      }
      assert (e + t)[0] == '\\';
      assert (e + t)[1..] == e[1..] + t;
    } else {
      assert e == [c];
      assert (e + t)[1..] == t;
    }
  }

  lemma {:induction false} StringRoundTrip(s: string, rest: string)
    ensures ParseChars(Escape(s) + "\"" + rest) == Some((s, rest))
  {
    if s == [] {
      assert Escape(s) + "\"" + rest == "\"" + rest;
      assert ("\"" + rest)[1..] == rest;
    } else {
      var t := Escape(s[1..]) + "\"" + rest;
      assert Escape(s) + "\"" + rest == EscapeChar(s[0]) + t;
      StringRoundTrip(s[1..], rest);
      EscapeCharRoundTrip(s[0], t);
      assert [s[0]] + s[1..] == s;
    }
  }

  /** Every stringified value starts with a character that opens a token. */
  lemma StringifyHead(v: Value)
    ensures |Stringify(v)| > 0
    ensures var c := Stringify(v)[0];
      !IsWhitespace(c) && c != ']' && c != '}' && c != ',' && c != ':'
  {
    match v
    case Number(n) =>
      var m: nat := if n < 0 then -n else n;
      NatTextShape(m);
    case _ =>
  }

  lemma {:induction false} ValueRoundTrip(v: Value, rest: string)
    requires rest == [] || !IsDigit(rest[0])
    ensures ParseValue(Stringify(v) + rest) == Some((v, rest))
    decreases v, 1
  {
    match v
    case Array(items) =>
      assert Stringify(v) + rest == ['['] + (StringifyItems(items) + "]" + rest);
      ArrayRoundTrip(items, rest);
      OpenBracket('[', StringifyItems(items) + "]" + rest);
    case Object(members) =>
      assert Stringify(v) + rest == ['{'] + (StringifyMembers(members) + "}" + rest);
      ObjectRoundTrip(members, rest);
      OpenBracket('{', StringifyMembers(members) + "}" + rest);
    case _ =>
      ScalarRoundTrip(v, rest);
  }

  /** Parsing text that starts with `[` or `{` is parsing the aggregate after it. */
  lemma OpenBracket(c: char, body: string)
    requires c == '[' || c == '{'
    ensures c == '[' ==> ParseValue([c] + body) == ParseArray(body)
    ensures c == '{' ==> ParseValue([c] + body) == ParseObject(body)
  {
    var t := [c] + body;
    assert SkipWs(t) == t;
    assert t[1..] == body;
  }

  lemma ScalarRoundTrip(v: Value, rest: string)
    requires !v.Array? && !v.Object?
    requires rest == [] || !IsDigit(rest[0])
    ensures ParseValue(Stringify(v) + rest) == Some((v, rest))
  {
    match v
    case Null => WordRoundTrip(v, "null", rest);
    case Boolean(b) => WordRoundTrip(v, if b then "true" else "false", rest);
    case Number(n) => NumberValueRoundTrip(n, rest);
    case Str(s) => StrValueRoundTrip(s, rest);
  }

  lemma WordRoundTrip(v: Value, word: string, rest: string)
    requires (v == Null && word == "null") || (v == Boolean(true) && word == "true") || (v == Boolean(false) && word == "false")
    ensures Stringify(v) == word
    ensures ParseValue(word + rest) == Some((v, rest))
  {
    var t := word + rest;
    assert SkipWs(t) == t;
    LiteralRoundTrip(word, rest);
  }

  lemma NumberValueRoundTrip(n: int, rest: string)
    requires rest == [] || !IsDigit(rest[0])
    ensures ParseValue(IntText(n) + rest) == Some((Number(n), rest))
  {
    var t := IntText(n) + rest;
    NumberRoundTrip(n, rest);
    var m: nat := if n < 0 then -n else n;
    NatTextShape(m);
    assert t[0] == '-' || IsDigit(t[0]);
    assert SkipWs(t) == t;
  }

  lemma StrValueRoundTrip(s: string, rest: string)
    ensures ParseValue(Quote(s) + rest) == Some((Str(s), rest))
  {
    var t := Quote(s) + rest;
    assert SkipWs(t) == t;
    assert t[1..] == Escape(s) + "\"" + rest;
    StringRoundTrip(s, rest);
  }

  lemma LiteralRoundTrip(word: string, rest: string)
    requires |word| > 0
    ensures (word + rest)[..|word|] == word && (word + rest)[|word|..] == rest
  {
  }

  lemma {:induction false} ArrayRoundTrip(items: seq<Value>, rest: string)
    ensures ParseArray(StringifyItems(items) + "]" + rest) == Some((Array(items), rest))
    decreases items, 2
  {
    var body := StringifyItems(items) + "]" + rest;
    if items == [] {
      assert body == "]" + rest;
      assert SkipWs(body) == body;
      assert body[1..] == rest;
    } else {
      StringifyHead(items[0]);
      assert body[0] == Stringify(items[0])[0];
      assert SkipWs(body) == body;
      ItemsRoundTrip(items, rest);
    }
  }

  lemma {:induction false} ObjectRoundTrip(members: seq<Member>, rest: string)
    ensures ParseObject(StringifyMembers(members) + "}" + rest) == Some((Object(members), rest))
    decreases members, 2
  {
    var body := StringifyMembers(members) + "}" + rest;
    if members == [] {
      assert body == "}" + rest;
      assert SkipWs(body) == body;
      assert body[1..] == rest;
    } else {
      MembersHead(members);
      assert body[0] == '"';
      assert SkipWs(body) == body;
      MembersRoundTrip(members, rest);
    }
  }

  lemma {:induction false} ItemsRoundTrip(items: seq<Value>, rest: string)
    requires items != []
    ensures ParseElements(StringifyItems(items) + "]" + rest) == Some((items, rest))
    decreases items, 0
  {
    var s := StringifyItems(items) + "]" + rest;
    if |items| == 1 {
      var tail := "]" + rest;
      assert s == Stringify(items[0]) + tail;
      ValueRoundTrip(items[0], tail);
      assert SkipWs(tail) == tail;
      assert tail[1..] == rest;
      assert [items[0]] == items;
    } else {
      var others := StringifyItems(items[1..]) + "]" + rest;
      var tail := "," + others;
      assert s == Stringify(items[0]) + tail;
      ValueRoundTrip(items[0], tail);
      assert SkipWs(tail) == tail;
      assert tail[1..] == others;
      ItemsRoundTrip(items[1..], rest);
      assert [items[0]] + items[1..] == items;
    }
  }

  lemma MembersHead(members: seq<Member>)
    requires members != []
    ensures |StringifyMembers(members)| > 0 && StringifyMembers(members)[0] == '"'
  {
  }

  /** The text of one member, split at the points where the parser resumes. */
  lemma MemberText(m: Member, tail: string)
    ensures StringifyMember(m) + tail == "\"" + (Escape(m.key) + "\"" + (":" + (Stringify(m.value) + tail)))
  {
  }

  lemma {:induction false} MemberRoundTrip(m: Member, tail: string)
    requires tail == [] || !IsDigit(tail[0])
    ensures ParseMember(StringifyMember(m) + tail) == Some((m, tail))
    decreases m, 1
  {
    var s := StringifyMember(m) + tail;
    var afterValue := Stringify(m.value) + tail;
    var afterKey := ":" + afterValue;
    MemberText(m, tail);
    assert s[1..] == Escape(m.key) + "\"" + afterKey;
    StringRoundTrip(m.key, afterKey);
    ValueRoundTrip(m.value, tail);
    assert SkipWs(s) == s;
    assert SkipWs(afterKey) == afterKey;
    assert afterKey[1..] == afterValue;
  }

  lemma {:induction false} MembersRoundTrip(members: seq<Member>, rest: string)
    requires members != []
    ensures ParseMembers(StringifyMembers(members) + "}" + rest) == Some((members, rest))
    decreases members, 0
  {
    var s := StringifyMembers(members) + "}" + rest;
    var m := members[0];
    if |members| == 1 {
      var tail := "}" + rest;
      assert s == StringifyMember(m) + tail;
      MemberRoundTrip(m, tail);
      assert SkipWs(tail) == tail;
      assert tail[1..] == rest;
      assert [m] == members;
    } else {
      var others := StringifyMembers(members[1..]) + "}" + rest;
      var tail := "," + others;
      assert s == StringifyMember(m) + tail;
      MemberRoundTrip(m, tail);
      assert SkipWs(tail) == tail;
      assert tail[1..] == others;
      MembersRoundTrip(members[1..], rest);
      assert [m] + members[1..] == members;
    }
  }

  /** `JSON.parse(JSON.stringify(v))` gives back `v`. */
  lemma ParseStringify(v: Value)
    ensures Parse(Stringify(v)) == Some(v)
  {
    ValueRoundTrip(v, []);
    assert Stringify(v) + [] == Stringify(v);
  }

  /** A parsed string literal is shorter than the text it was read from. */
  lemma ParsedStringIsShorter(s: string)
    ensures Parse(s) != Some(Str(s))
  {
    match ParseValue(s)
    case None =>
    case Some((v, rest)) =>
  }
}
