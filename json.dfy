/** JSON values as a request's JSON text writes them, together with
    `JSON.stringify` and a parser for the text it produces.  Numbers are
    integers.  Object members keep their textual order, repeated keys
    included; reading a property (`Lookup`, `Get`) finds the last member
    with that key, as on the object `req.json()` builds.  The object itself
    (one property per key, array-index keys first) is `JsObject.Canonical`. */
module Json {
  import opened Common

  datatype Json =
    | JNull
    | JBool(b: bool)
    | JNum(n: int)
    | JStr(s: string)
    | JArr(items: seq<Json>)
    | JObj(members: seq<Member>)

  datatype Member = Member(key: string, value: Json)

  /** JavaScript truthiness of a JSON value. */
  predicate Truthy(v: Json) {
    match v
    case JNull => false
    case JBool(b) => b
    case JNum(n) => n != 0
    case JStr(s) => s != ""
    case JArr(_) => true
    case JObj(_) => true
  }

  /** Truthiness of a property read that may be `undefined`. */
  predicate TruthyOpt(o: Option<Json>) {
    o.Some? && Truthy(o.value)
  }

  /** The value of the last member named `key`: `JSON.parse` keeps the last
      of duplicated keys. */
  function Lookup(members: seq<Member>, key: string): (r: Option<Json>)
    ensures r.None? <==> forall i :: 0 <= i < |members| ==> members[i].key != key
    ensures r.Some? ==> exists i :: 0 <= i < |members| && members[i] == Member(key, r.value)
                                   && forall j :: i < j < |members| ==> members[j].key != key
  {
    if members == [] then None
    else if members[|members| - 1].key == key then Some(members[|members| - 1].value)
    else Lookup(members[..|members| - 1], key)
  }

  /** `v[key]` for a property of an object; `undefined` on any other value
      (reading a property of `null` throws, and the callers check for that
      before reading). */
  function Get(v: Json, key: string): (r: Option<Json>)
    ensures !v.JObj? ==> r.None?
    ensures v.JObj? ==> r == Lookup(v.members, key)
  {
    if v.JObj? then Lookup(v.members, key) else None
  }

  /** No key occurs twice. */
  predicate DistinctKeys(members: seq<Member>) {
    forall i, j :: 0 <= i < j < |members| ==> members[i].key != members[j].key
  }

  /** With distinct keys, a lookup finds the member holding the key. */
  lemma {:induction false} LookupDistinct(members: seq<Member>, i: nat)
    requires DistinctKeys(members) && i < |members|
    ensures Lookup(members, members[i].key) == Some(members[i].value)
  {
    var last := |members| - 1;
    if i < last {
      var prefix := members[..last];
      assert prefix[i] == members[i];
      LookupDistinct(prefix, i);
    }
  }

  // ---------------------------------------------------------------- stringify

  function HexDigit(d: nat): char
    requires d < 16
  {
    "0123456789abcdef"[d]
  }

  /** The escape `JSON.stringify` writes for one character of a string. */
  function EscapeChar(c: char): string {
    if c == '"' then "\\\""
    else if c == '\\' then "\\\\"
    else if c as int == 8 then "\\b"
    else if c as int == 12 then "\\f"
    else if c == '\n' then "\\n"
    else if c == '\r' then "\\r"
    else if c == '\t' then "\\t"
    else if c as int < 32 then "\\u00" + [HexDigit(c as int / 16), HexDigit(c as int % 16)]
    else [c]
  }

  function Escape(s: string): string {
    if s == [] then "" else EscapeChar(s[0]) + Escape(s[1..])
  }

  function Quote(s: string): string {
    "\"" + Escape(s) + "\""
  }

  /** `JSON.stringify(v)`: no white space anywhere. */
  function Stringify(v: Json): string {
    match v
    case JNull => "null"
    case JBool(b) => if b then "true" else "false"
    case JNum(n) => IntToString(n)
    case JStr(s) => Quote(s)
    case JArr(items) => "[" + Items(items) + "]"
    case JObj(members) => "{" + Members(members) + "}"
  }

  function Items(items: seq<Json>): string {
    if items == [] then ""
    else if |items| == 1 then Stringify(items[0])
    else Stringify(items[0]) + "," + Items(items[1..])
  }

  function Members(members: seq<Member>): string {
    if members == [] then ""
    else if |members| == 1 then Quote(members[0].key) + ":" + Stringify(members[0].value)
    else Quote(members[0].key) + ":" + Stringify(members[0].value) + "," + Members(members[1..])
  }

  /** `String(v)`: the text JavaScript makes of a value where a string is
      needed, as the store client does when it puts a document id into the
      request path.  A `null` array item becomes empty text, as in `join`. */
  function ToText(v: Json): (r: string)
    ensures v.JStr? ==> r == v.s
    ensures v.JArr? && |v.items| == 1 && v.items[0].JStr? ==> r == v.items[0].s
    ensures v.JArr? && v.items == [] ==> r == ""
  {
    match v
    case JNull => "null"
    case JBool(b) => if b then "true" else "false"
    case JNum(n) => IntToString(n)
    case JStr(s) => s
    case JArr(items) => JoinText(items)
    case JObj(_) => "[object Object]"
  }

  /** `items.join(",")`. */
  function JoinText(items: seq<Json>): string {
    if items == [] then ""
    else
      var first := if items[0].JNull? then "" else ToText(items[0]);
      if |items| == 1 then first else first + "," + JoinText(items[1..])
  }

  // -------------------------------------------------------------------- parse

  predicate IsJsonSpace(c: char) {
    c == ' ' || c == '\t' || c == '\n' || c == '\r'
  }

  function SkipWs(s: string): (r: string)
    ensures |r| <= |s|
    ensures r == [] || !IsJsonSpace(r[0])
  {
    if s != [] && IsJsonSpace(s[0]) then SkipWs(s[1..]) else s
  }

  predicate IsDigit(c: char) {
    '0' <= c <= '9'
  }

  predicate IsHex(c: char) {
    IsDigit(c) || 'a' <= c <= 'f' || 'A' <= c <= 'F'
  }

  function HexValue(c: char): (d: nat)
    requires IsHex(c)
    ensures d < 16
  {
    if IsDigit(c) then c as int - '0' as int
    else if 'a' <= c <= 'f' then c as int - 'a' as int + 10
    else c as int - 'A' as int + 10
  }

  /** The character denoted by the escape sequence after a backslash. */
  function ParseEscape(s: string): (r: Option<(char, string)>)
    ensures r.Some? ==> |r.value.1| < |s|
  {
    if s == [] then None
    else if s[0] == '"' || s[0] == '\\' || s[0] == '/' then Some((s[0], s[1..]))
    else if s[0] == 'b' then Some((8 as char, s[1..]))
    else if s[0] == 'f' then Some((12 as char, s[1..]))
    else if s[0] == 'n' then Some(('\n', s[1..]))
    else if s[0] == 'r' then Some(('\r', s[1..]))
    else if s[0] == 't' then Some(('\t', s[1..]))
    else if s[0] == 'u' && |s| >= 5 && IsHex(s[1]) && IsHex(s[2]) && IsHex(s[3]) && IsHex(s[4]) then
      var code := HexValue(s[1]) * 4096 + HexValue(s[2]) * 256 + HexValue(s[3]) * 16 + HexValue(s[4]);
      if 0xD800 <= code < 0xE000 then None else Some((code as char, s[5..]))
    else None
  }

  function Prepend(c: char, r: Option<(string, string)>): Option<(string, string)> {
    match r
    case None => None
    case Some((str, rest)) => Some(([c] + str, rest))
  }

  /** The characters of a string literal up to its closing quote, which the
      remainder follows. */
  function ParseString(s: string): (r: Option<(string, string)>)
    ensures r.Some? ==> |r.value.1| < |s|
  {
    if s == [] then None
    else if s[0] == '"' then Some(([], s[1..]))
    else if s[0] == '\\' then
      match ParseEscape(s[1..])
      case None => None
      case Some((c, rest)) => Prepend(c, ParseString(rest))
    else if s[0] as int < 32 then None
    else Prepend(s[0], ParseString(s[1..]))
  }

  /** The length of the longest prefix of decimal digits. */
  function DigitSpan(s: string): (k: nat)
    ensures k <= |s|
    ensures forall i :: 0 <= i < k ==> IsDigit(s[i])
    ensures k < |s| ==> !IsDigit(s[k])
  {
    if s != [] && IsDigit(s[0]) then 1 + DigitSpan(s[1..]) else 0
  }

  function DigitsValue(ds: string): nat
    requires forall i :: 0 <= i < |ds| ==> IsDigit(ds[i])
  {
    if ds == [] then 0
    else
      var last := ds[|ds| - 1];
      assert IsDigit(last);
      DigitsValue(ds[..|ds| - 1]) * 10 + (last as int - '0' as int)
  }

  /** An unsigned integer without superfluous leading zeros.  A fraction or
      an exponent is outside the integer numbers modelled here. */
  function ParseNat(s: string): (r: Option<(nat, string)>)
    ensures r.Some? ==> |r.value.1| < |s|
  {
    var k := DigitSpan(s);
    if k == 0 || (s[0] == '0' && k > 1) then None
    else if k < |s| && (s[k] == '.' || s[k] == 'e' || s[k] == 'E') then None
    else Some((DigitsValue(s[..k]), s[k..]))
  }

  function ParseNumber(s: string): (r: Option<(int, string)>)
    ensures r.Some? ==> |r.value.1| < |s|
  {
    if s != [] && s[0] == '-' then
      match ParseNat(s[1..])
      case None => None
      case Some((n, rest)) => Some((-(n as int), rest))
    else
      match ParseNat(s)
      case None => None
      case Some((n, rest)) => Some((n, rest))
  }

  /** One value at the start of `s` (after white space) and what follows it. */
  function ParseValue(s: string): (r: Option<(Json, string)>)
    ensures r.Some? ==> |r.value.1| < |s|
    decreases |s|, 0
  {
    var t := SkipWs(s);
    if t == [] then None
    else if t[0] == 'n' then (if StartsWith(t, "null") then Some((JNull, t[4..])) else None)
    else if t[0] == 't' then (if StartsWith(t, "true") then Some((JBool(true), t[4..])) else None)
    else if t[0] == 'f' then (if StartsWith(t, "false") then Some((JBool(false), t[5..])) else None)
    else if t[0] == '"' then
      match ParseString(t[1..])
      case None => None
      case Some((str, rest)) => Some((JStr(str), rest))
    else if t[0] == '-' || IsDigit(t[0]) then
      match ParseNumber(t)
      case None => None
      case Some((n, rest)) => Some((JNum(n), rest))
    else if t[0] == '[' then ParseArray(t[1..])
    else if t[0] == '{' then ParseObject(t[1..])
    else None
  }

  /** An array after its opening bracket. */
  function ParseArray(s: string): (r: Option<(Json, string)>)
    ensures r.Some? ==> |r.value.1| < |s|
    decreases |s|, 2
  {
    var t := SkipWs(s);
    if t != [] && t[0] == ']' then Some((JArr([]), t[1..]))
    else
      match ParseElements(s)
      case None => None
      case Some((items, rest)) => Some((JArr(items), rest))
  }

  /** One or more comma-separated values and the closing bracket. */
  function ParseElements(s: string): (r: Option<(seq<Json>, string)>)
    ensures r.Some? ==> |r.value.1| < |s|
    decreases |s|, 1
  {
    match ParseValue(s)
    case None => None
    case Some((v, r1)) =>
      var t := SkipWs(r1);
      if t != [] && t[0] == ',' then
        match ParseElements(t[1..])
        case None => None
        case Some((vs, r2)) => Some(([v] + vs, r2))
      else if t != [] && t[0] == ']' then Some(([v], t[1..]))
      else None
  }

  /** An object after its opening brace. */
  function ParseObject(s: string): (r: Option<(Json, string)>)
    ensures r.Some? ==> |r.value.1| < |s|
    decreases |s|, 2
  {
    var t := SkipWs(s);
    if t != [] && t[0] == '}' then Some((JObj([]), t[1..]))
    else
      match ParseMembers(s)
      case None => None
      case Some((ms, rest)) => Some((JObj(ms), rest))
  }

  /** One `"key":value` member and what follows it. */
  function ParseMember(s: string): (r: Option<(Member, string)>)
    ensures r.Some? ==> |r.value.1| < |s|
    decreases |s|, 0
  {
    var t := SkipWs(s);
    if t == [] || t[0] != '"' then None
    else
      match ParseString(t[1..])
      case None => None
      case Some((key, r1)) =>
        var t1 := SkipWs(r1);
        if t1 == [] || t1[0] != ':' then None
        else
          match ParseValue(t1[1..])
          case None => None
          case Some((v, r2)) => Some((Member(key, v), r2))
  }

  /** One or more comma-separated members and the closing brace. */
  function ParseMembers(s: string): (r: Option<(seq<Member>, string)>)
    ensures r.Some? ==> |r.value.1| < |s|
    decreases |s|, 1
  {
    match ParseMember(s)
    case None => None
    case Some((m, r1)) =>
      var t := SkipWs(r1);
      if t != [] && t[0] == ',' then
        match ParseMembers(t[1..])
        case None => None
        case Some((ms, r2)) => Some(([m] + ms, r2))
      else if t != [] && t[0] == '}' then Some(([m], t[1..]))
      else None
  }

  /** `JSON.parse(s)`, with `None` standing for the exception it throws. */
  function Parse(s: string): (r: Option<Json>)
    ensures r.Some? ==> s != []
  {
    match ParseValue(s)
    case None => None
    case Some((v, rest)) => if SkipWs(rest) == [] then Some(v) else None
  }

  // --------------------------------------------------------------- round trip
  //
  // Each lemma takes the text it parses as a parameter `s`, so that it can be
  // applied to exactly the sub-term the parser hands on (`s[1..]`, the
  // remainder of a nested value).

  lemma HexRoundTrip(d: nat)
    requires d < 16
    ensures IsHex(HexDigit(d)) && HexValue(HexDigit(d)) == d
  {
  }

  /** The escape sequence `JSON.stringify` writes for a character, read
      after its backslash, gives back the character. */
  lemma EscapeSequenceRoundTrip(c: char, e: string, tail: string)
    requires |EscapeChar(c)| > 1
    requires e == EscapeChar(c)[1..] + tail
    ensures ParseEscape(e) == Some((c, tail))
  {
    if c as int < 32 && c as int != 8 && c as int != 12 && c != '\n' && c != '\r' && c != '\t' {
      var hi, lo := c as int / 16, c as int % 16;
      HexRoundTrip(hi);
      HexRoundTrip(lo);
      assert EscapeChar(c)[1..] == ['u', '0', '0', HexDigit(hi), HexDigit(lo)];
      assert e[0] == 'u' && e[1] == '0' && e[2] == '0' && e[3] == HexDigit(hi) && e[4] == HexDigit(lo);
      assert e[5..] == tail;
    } else {
      assert e[1..] == tail;
    }
  }

  lemma EscapeCharRoundTrip(c: char, s: string, tail: string)
    requires s == EscapeChar(c) + tail
    ensures ParseString(s) == Prepend(c, ParseString(tail))
  {
    if |EscapeChar(c)| > 1 {
      assert s[0] == '\\';
      assert s[1..] == EscapeChar(c)[1..] + tail;
      EscapeSequenceRoundTrip(c, s[1..], tail);
    } else {
      assert s[0] == c && s[1..] == tail;
    }
  }

  lemma {:induction false} EscapeRoundTrip(str: string, rest: string, s: string)
    requires s == Escape(str) + "\"" + rest
    ensures ParseString(s) == Some((str, rest))
  {
    if str == [] {
      assert s == "\"" + rest;
      assert s[1..] == rest;
    } else {
      var tail := Escape(str[1..]) + "\"" + rest;
      assert s == EscapeChar(str[0]) + tail;
      EscapeCharRoundTrip(str[0], s, tail);
      EscapeRoundTrip(str[1..], rest, tail);
      assert [str[0]] + str[1..] == str;
    }
  }

  lemma DigitCharValue(d: nat)
    requires d < 10
    ensures IsDigit(DigitChar(d)) && DigitChar(d) as int - '0' as int == d
  {
  }

  lemma {:induction false} NatToStringShape(n: nat)
    ensures forall i :: 0 <= i < |NatToString(n)| ==> IsDigit(NatToString(n)[i])
    ensures NatToString(n)[0] == '0' ==> n == 0
    ensures DigitsValue(NatToString(n)) == n
    decreases n
  {
    if n < 10 {
      DigitCharValue(n);
      assert NatToString(n) == [DigitChar(n)];
    } else {
      var q, d := n / 10, n % 10;
      assert q * 10 + d == n && 0 < q < n;
      NatToStringShape(q);
      DigitCharValue(d);
      var prefix := NatToString(q);
      var s := NatToString(n);
      assert s == prefix + [DigitChar(d)];
      assert s[..|s| - 1] == prefix;
      assert s[0] == prefix[0];
      assert DigitsValue(s) == DigitsValue(prefix) * 10 + d;
    }
  }

  lemma {:induction false} DigitSpanOfDigits(ds: string, rest: string)
    requires forall i :: 0 <= i < |ds| ==> IsDigit(ds[i])
    requires rest == [] || !IsDigit(rest[0])
    ensures DigitSpan(ds + rest) == |ds|
  {
    if ds != [] {
      assert (ds + rest)[1..] == ds[1..] + rest;
      DigitSpanOfDigits(ds[1..], rest);
    } else {
      assert ds + rest == rest;
    }
  }

  /** What may follow a value in `JSON.stringify` output. */
  predicate Follows(rest: string) {
    rest == [] || rest[0] == ',' || rest[0] == ']' || rest[0] == '}'
  }

  lemma NatRoundTrip(n: nat, rest: string, s: string)
    requires Follows(rest) && s == NatToString(n) + rest
    ensures ParseNat(s) == Some((n, rest))
  {
    var ds := NatToString(n);
    NatToStringShape(n);
    DigitSpanOfDigits(ds, rest);
    assert s[..|ds|] == ds && s[|ds|..] == rest;
  }

  lemma ParseNegative(s: string, m: nat, rest: string)
    requires s != [] && s[0] == '-' && ParseNat(s[1..]) == Some((m, rest))
    ensures ParseNumber(s) == Some((-(m as int), rest))
  {
  }

  lemma ParseNonNegative(s: string, m: nat, rest: string)
    requires s != [] && s[0] != '-' && ParseNat(s) == Some((m, rest))
    ensures ParseNumber(s) == Some((m as int, rest))
  {
  }

  lemma NegativeDigits(n: int, rest: string, s: string)
    requires n < 0 && Follows(rest) && s == "-" + NatToString(-n) + rest
    ensures s != [] && s[0] == '-' && ParseNat(s[1..]) == Some((-n, rest))
  {
    assert s[1..] == NatToString(-n) + rest;
    NatRoundTrip(-n, rest, s[1..]);
  }

  lemma NonNegativeDigits(n: nat, rest: string, s: string)
    requires Follows(rest) && s == NatToString(n) + rest
    ensures s != [] && s[0] != '-' && ParseNat(s) == Some((n, rest))
  {
    NatToStringShape(n);
    assert s[0] == NatToString(n)[0];
    NatRoundTrip(n, rest, s);
  }

  lemma NumRoundTrip(n: int, rest: string, s: string)
    requires Follows(rest) && s == IntToString(n) + rest
    ensures ParseNumber(s) == Some((n, rest))
  {
    if n < 0 {
      NegativeDigits(n, rest, s);
      ParseNegative(s, -n, rest);
    } else {
      NonNegativeDigits(n, rest, s);
      ParseNonNegative(s, n, rest);
    }
  }

  /** The first character of any stringified value. */
  predicate Opening(c: char) {
    c == 'n' || c == 't' || c == 'f' || c == '"' || c == '-' || IsDigit(c) || c == '[' || c == '{'
  }

  lemma StringifyOpens(v: Json)
    ensures |Stringify(v)| > 0 && Opening(Stringify(v)[0])
  {
    if v.JNum? {
      NatToStringShape(if v.n < 0 then -v.n else v.n);
    }
  }

  lemma ConsSplit<T>(xs: seq<T>)
    requires xs != []
    ensures [xs[0]] + xs[1..] == xs
  {
  }

  // One parser step each, stated on the parser alone.

  lemma StepString(s: string, str: string, rest: string)
    requires s != [] && s[0] == '"' && ParseString(s[1..]) == Some((str, rest))
    ensures ParseValue(s) == Some((JStr(str), rest))
  {
  }

  lemma StepNumber(s: string, n: int, rest: string)
    requires s != [] && (s[0] == '-' || IsDigit(s[0])) && ParseNumber(s) == Some((n, rest))
    ensures ParseValue(s) == Some((JNum(n), rest))
  {
  }

  lemma StepArray(s: string)
    requires s != [] && s[0] == '['
    ensures ParseValue(s) == ParseArray(s[1..])
  {
  }

  lemma StepObject(s: string)
    requires s != [] && s[0] == '{'
    ensures ParseValue(s) == ParseObject(s[1..])
  {
  }

  lemma StepEmptyArray(s: string)
    requires s != [] && s[0] == ']'
    ensures ParseArray(s) == Some((JArr([]), s[1..]))
  {
  }

  lemma StepNonEmptyArray(s: string, items: seq<Json>, rest: string)
    requires s != [] && Opening(s[0]) && ParseElements(s) == Some((items, rest))
    ensures ParseArray(s) == Some((JArr(items), rest))
  {
  }

  lemma StepEmptyObject(s: string)
    requires s != [] && s[0] == '}'
    ensures ParseObject(s) == Some((JObj([]), s[1..]))
  {
  }

  lemma StepNonEmptyObject(s: string, members: seq<Member>, rest: string)
    requires s != [] && s[0] == '"' && ParseMembers(s) == Some((members, rest))
    ensures ParseObject(s) == Some((JObj(members), rest))
  {
  }

  lemma StepLastElement(s: string, v: Json, r1: string)
    requires ParseValue(s) == Some((v, r1)) && r1 != [] && r1[0] == ']'
    ensures ParseElements(s) == Some(([v], r1[1..]))
  {
  }

  lemma StepNextElement(s: string, v: Json, r1: string, vs: seq<Json>, r2: string)
    requires ParseValue(s) == Some((v, r1)) && r1 != [] && r1[0] == ','
    requires ParseElements(r1[1..]) == Some((vs, r2))
    ensures ParseElements(s) == Some(([v] + vs, r2))
  {
  }

  lemma StepMember(s: string, key: string, r1: string, v: Json, r2: string)
    requires s != [] && s[0] == '"' && ParseString(s[1..]) == Some((key, r1))
    requires r1 != [] && r1[0] == ':' && ParseValue(r1[1..]) == Some((v, r2))
    ensures ParseMember(s) == Some((Member(key, v), r2))
  {
    assert SkipWs(s) == s && SkipWs(r1) == r1;
  }

  lemma StepLastMember(s: string, m: Member, r1: string)
    requires ParseMember(s) == Some((m, r1)) && r1 != [] && r1[0] == '}'
    ensures ParseMembers(s) == Some(([m], r1[1..]))
  {
  }

  lemma StepNextMember(s: string, m: Member, r1: string, ms: seq<Member>, r2: string)
    requires ParseMember(s) == Some((m, r1)) && r1 != [] && r1[0] == ','
    requires ParseMembers(r1[1..]) == Some((ms, r2))
    ensures ParseMembers(s) == Some(([m] + ms, r2))
  {
    assert SkipWs(r1) == r1;
  }

  lemma LiteralRoundTrip(v: Json, rest: string, s: string)
    requires v.JNull? || v.JBool?
    requires s == Stringify(v) + rest
    ensures ParseValue(s) == Some((v, rest))
  {
    assert SkipWs(s) == s;
    if v.JNull? {
      assert s[..4] == "null" && s[4..] == rest;
    } else if v.b {
      assert s[..4] == "true" && s[4..] == rest;
    } else {
      assert s[..5] == "false" && s[5..] == rest;
    }
  }

  lemma NumberValueRoundTrip(n: int, rest: string, s: string)
    requires Follows(rest) && s == IntToString(n) + rest
    ensures ParseValue(s) == Some((JNum(n), rest))
  {
    NumRoundTrip(n, rest, s);
    StringifyOpens(JNum(n));
    assert s[0] == Stringify(JNum(n))[0];
    StepNumber(s, n, rest);
  }

  lemma StringValueRoundTrip(str: string, rest: string, s: string)
    requires Follows(rest) && s == Quote(str) + rest
    ensures ParseValue(s) == Some((JStr(str), rest))
  {
    assert s == "\"" + (Escape(str) + "\"" + rest);
    assert s[1..] == Escape(str) + "\"" + rest;
    EscapeRoundTrip(str, rest, s[1..]);
    StepString(s, str, rest);
  }

  lemma {:induction false} ArrayValueRoundTrip(items: seq<Json>, rest: string, s: string)
    requires Follows(rest) && s == "[" + Items(items) + "]" + rest
    ensures ParseValue(s) == Some((JArr(items), rest))
    decreases items, 8
  {
    assert s == "[" + (Items(items) + "]" + rest);
    assert s[1..] == Items(items) + "]" + rest;
    ArrayRoundTrip(items, rest, s[1..]);
    StepArray(s);
  }

  lemma {:induction false} ObjectValueRoundTrip(members: seq<Member>, rest: string, s: string)
    requires Follows(rest) && s == "{" + Members(members) + "}" + rest
    ensures ParseValue(s) == Some((JObj(members), rest))
    decreases members, 8
  {
    assert s == "{" + (Members(members) + "}" + rest);
    assert s[1..] == Members(members) + "}" + rest;
    ObjectRoundTrip(members, rest, s[1..]);
    StepObject(s);
  }

  lemma {:induction false} ValueRoundTrip(v: Json, rest: string, s: string)
    requires Follows(rest) && s == Stringify(v) + rest
    ensures ParseValue(s) == Some((v, rest))
    decreases v, 9
  {
    match v
    case JNull => LiteralRoundTrip(v, rest, s);
    case JBool(_) => LiteralRoundTrip(v, rest, s);
    case JNum(n) => NumberValueRoundTrip(n, rest, s);
    case JStr(str) => StringValueRoundTrip(str, rest, s);
    case JArr(items) => ArrayValueRoundTrip(items, rest, s);
    case JObj(members) => ObjectValueRoundTrip(members, rest, s);
  }

  lemma {:induction false} ArrayRoundTrip(items: seq<Json>, rest: string, s: string)
    requires Follows(rest) && s == Items(items) + "]" + rest
    ensures ParseArray(s) == Some((JArr(items), rest))
    decreases items, 7
  {
    if items == [] {
      assert s == "]" + rest;
      assert s[1..] == rest;
      StepEmptyArray(s);
    } else {
      StringifyOpens(items[0]);
      assert Items(items)[0] == Stringify(items[0])[0];
      assert s[0] == Stringify(items[0])[0];
      ElementsRoundTrip(items, rest, s);
      StepNonEmptyArray(s, items, rest);
    }
  }

  lemma {:induction false} ElementsRoundTrip(items: seq<Json>, rest: string, s: string)
    requires items != [] && Follows(rest) && s == Items(items) + "]" + rest
    ensures ParseElements(s) == Some((items, rest))
    decreases items, 6
  {
    if |items| == 1 {
      LastElementRoundTrip(items, rest, s);
    } else {
      NextElementRoundTrip(items, rest, s);
    }
  }

  lemma {:induction false} LastElementRoundTrip(items: seq<Json>, rest: string, s: string)
    requires |items| == 1 && Follows(rest) && s == Items(items) + "]" + rest
    ensures ParseElements(s) == Some((items, rest))
    decreases items, 5
  {
    var after := "]" + rest;
    assert s == Stringify(items[0]) + after;
    ValueRoundTrip(items[0], after, s);
    assert after[1..] == rest;
    StepLastElement(s, items[0], after);
    assert [items[0]] == items;
  }

  lemma {:induction false} NextElementRoundTrip(items: seq<Json>, rest: string, s: string)
    requires |items| > 1 && Follows(rest) && s == Items(items) + "]" + rest
    ensures ParseElements(s) == Some((items, rest))
    decreases items, 5
  {
    var tail := Items(items[1..]) + "]" + rest;
    var after := "," + tail;
    assert s == Stringify(items[0]) + after;
    ValueRoundTrip(items[0], after, s);
    assert after[1..] == tail;
    ElementsRoundTrip(items[1..], rest, after[1..]);
    StepNextElement(s, items[0], after, items[1..], rest);
    ConsSplit(items);
  }

  lemma {:induction false} ObjectRoundTrip(members: seq<Member>, rest: string, s: string)
    requires Follows(rest) && s == Members(members) + "}" + rest
    ensures ParseObject(s) == Some((JObj(members), rest))
    decreases members, 7
  {
    if members == [] {
      assert s == "}" + rest;
      assert s[1..] == rest;
      StepEmptyObject(s);
    } else {
      assert s[0] == '"';
      MembersRoundTrip(members, rest, s);
      StepNonEmptyObject(s, members, rest);
    }
  }

  lemma {:induction false} MembersRoundTrip(members: seq<Member>, rest: string, s: string)
    requires members != [] && Follows(rest) && s == Members(members) + "}" + rest
    ensures ParseMembers(s) == Some((members, rest))
    decreases members, 6
  {
    if |members| == 1 {
      LastMemberRoundTrip(members, rest, s);
    } else {
      NextMemberRoundTrip(members, rest, s);
    }
  }

  /** The text of a member splits into its quoted key, a colon and the
      value's text. */
  lemma MemberText(key: string, value: string, after: string, s: string)
    requires s == Quote(key) + ":" + value + after
    ensures s != [] && s[0] == '"'
    ensures s[1..] == Escape(key) + "\"" + (":" + (value + after))
    ensures (":" + (value + after))[1..] == value + after
  {
    assert s == "\"" + (Escape(key) + "\"" + (":" + (value + after)));
  }

  lemma {:induction false} MemberRoundTrip(m: Member, after: string, s: string)
    requires Follows(after) && s == Quote(m.key) + ":" + Stringify(m.value) + after
    ensures ParseMember(s) == Some((m, after))
    decreases m, 0
  {
    var value := Stringify(m.value);
    var colon := ":" + (value + after);
    MemberText(m.key, value, after, s);
    EscapeRoundTrip(m.key, colon, s[1..]);
    ValueRoundTrip(m.value, after, colon[1..]);
    StepMember(s, m.key, colon, m.value, after);
  }

  lemma {:induction false} LastMemberRoundTrip(members: seq<Member>, rest: string, s: string)
    requires |members| == 1 && Follows(rest) && s == Members(members) + "}" + rest
    ensures ParseMembers(s) == Some((members, rest))
    decreases members, 5
  {
    var m := members[0];
    var after := "}" + rest;
    assert s == Quote(m.key) + ":" + Stringify(m.value) + after;
    MemberRoundTrip(m, after, s);
    assert after[1..] == rest;
    StepLastMember(s, m, after);
    assert [m] == members;
  }

  /** The text of two or more members splits after the first one. */
  lemma MembersSplit(members: seq<Member>, rest: string, s: string)
    requires |members| > 1 && s == Members(members) + "}" + rest
    ensures s == Quote(members[0].key) + ":" + Stringify(members[0].value)
                 + ("," + (Members(members[1..]) + "}" + rest))
  {
    var head := Quote(members[0].key) + ":" + Stringify(members[0].value);
    var more := Members(members[1..]);
    assert Members(members) == head + "," + more;
    Regroup(head, more, rest);
  }

  /** Re-association of a first part, a comma, the remainder and a closer. */
  lemma Regroup(head: string, more: string, rest: string)
    ensures head + "," + more + "}" + rest == head + ("," + (more + "}" + rest))
  {
  }

  lemma {:induction false} NextMemberRoundTrip(members: seq<Member>, rest: string, s: string)
    requires |members| > 1 && Follows(rest) && s == Members(members) + "}" + rest
    ensures ParseMembers(s) == Some((members, rest))
    decreases members, 5
  {
    var m := members[0];
    var tail := Members(members[1..]) + "}" + rest;
    var after := "," + tail;
    MembersSplit(members, rest, s);
    MemberRoundTrip(m, after, s);
    assert after[1..] == tail;
    MembersRoundTrip(members[1..], rest, after[1..]);
    StepNextMember(s, m, after, members[1..], rest);
    ConsSplit(members);
  }

  /** `JSON.parse(JSON.stringify(v))` gives back `v`. */
  lemma ParseStringify(v: Json)
    ensures Parse(Stringify(v)) == Some(v)
  {
    var s := Stringify(v);
    assert s == Stringify(v) + [];
    ValueRoundTrip(v, [], s);
  }
}
