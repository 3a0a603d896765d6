/**
 * JSON values as the proxy handles them, `JSON.stringify` over them, the escaping of
 * string literals with its inverse, JavaScript truthiness and the `String(v)` conversion a
 * template literal applies.
 */
module Json {
  import opened Optional
  import JsString

  /**
   * A value `JSON.parse` can produce. Numbers are restricted to integers; object members
   * are listed in the order JavaScript enumerates the properties.
   */
  datatype Json =
    | JNull
    | JBool(b: bool)
    | JNum(n: int)
    | JStr(s: string)
    | JArr(items: seq<Json>)
    | JObj(members: seq<(string, Json)>)

  /** JavaScript truthiness; `None` stands for `undefined`. */
  predicate Truthy(v: Option<Json>) {
    match v
    case None => false
    case Some(JNull) => false
    case Some(JBool(b)) => b
    case Some(JNum(n)) => n != 0
    case Some(JStr(s)) => s != []
    case Some(_) => true
  }

  /** Some member is named `key`. */
  predicate Names(members: seq<(string, Json)>, key: string) {
    exists i :: 0 <= i < |members| && members[i].0 == key
  }

  /** `members[i]` is the last member named `key`. */
  predicate LastNamed(members: seq<(string, Json)>, key: string, i: int) {
    0 <= i < |members| && members[i].0 == key && forall j :: i < j < |members| ==> members[j].0 != key
  }

  /** Below a last member not named `key`, naming `key` and being its last occurrence carry over from the prefix. */
  lemma LastNamedBeforeLast(members: seq<(string, Json)>, key: string)
    requires members != [] && members[|members| - 1].0 != key
    ensures Names(members, key) ==> Names(members[..|members| - 1], key)
    ensures forall i :: LastNamed(members[..|members| - 1], key, i) ==> LastNamed(members, key, i)
  {
    var init := members[..|members| - 1];
    if i :| 0 <= i < |members| && members[i].0 == key {
      assert init[i].0 == key;
    }
  }

  /** The value of property `key` of `v`, `undefined` when it has none (the last duplicate wins). */
  function Property(v: Json, key: string): (r: Option<Json>)
    ensures r.Some? ==> v.JObj?
    ensures v.JObj? && Names(v.members, key) ==> r.Some?
    ensures r.Some? ==> exists i :: LastNamed(v.members, key, i) && v.members[i].1 == r.value
    decreases if v.JObj? then |v.members| else 0
  {
    if v.JObj? && v.members != [] then
      var n := |v.members| - 1;
      var last := v.members[n];
      if last.0 == key then Some(last.1)
      else
        var r := Property(JObj(v.members[..n]), key);
        LastNamedBeforeLast(v.members, key);
        r
    else None
  }

  /** `String(n)` for an integer. */
  function IntToString(n: int): string {
    if n < 0 then "-" + JsString.NatToString(-n) else JsString.NatToString(n)
  }

  function HexDigit(d: nat): char
    requires d < 16
  {
    "0123456789abcdef"[d]
  }

  /** How `JSON.stringify` writes one character inside a string literal. */
  function EscapeChar(c: char): (r: string)
    ensures r != []
  {
    if c == '"' then "\\\""
    else if c == '\\' then "\\\\"
    else if c == '\U{8}' then "\\b"
    else if c == '\U{C}' then "\\f"
    else if c == '\n' then "\\n"
    else if c == '\r' then "\\r"
    else if c == '\t' then "\\t"
    else if c < ' ' then "\\u00" + [HexDigit(c as int / 16), HexDigit(c as int % 16)]
    else [c]
  }

  function Escape(s: string): string {
    if s == [] then [] else EscapeChar(s[0]) + Escape(s[1..])
  }

  /** The JSON string literal `JSON.stringify` writes for `s`. */
  function Quote(s: string): string {
    "\"" + Escape(s) + "\""
  }

  function HexValue(c: char): Option<nat> {
    if '0' <= c <= '9' then Some(c as int - '0' as int)
    else if 'a' <= c <= 'f' then Some(c as int - 'a' as int + 10)
    else if 'A' <= c <= 'F' then Some(c as int - 'A' as int + 10)
    else None
  }

  /** The character a `\uXXXX` escape denotes, if its four digits are hexadecimal and not a surrogate. */
  function UnicodeEscape(h: string): Option<char>
    requires |h| == 4
  {
    match (HexValue(h[0]), HexValue(h[1]), HexValue(h[2]), HexValue(h[3]))
    case (Some(a), Some(b), Some(c), Some(d)) =>
      var v := ((a * 16 + b) * 16 + c) * 16 + d;
      if v < 0xD800 || 0xE000 <= v then Some(v as char) else None
    case _ => None
  }

  /** Decodes the first character of the body of a JSON string literal: the character and how many input characters it took. */
  function DecodeUnit(t: string): (r: Option<(char, nat)>)
    requires t != []
    ensures r.Some? ==> 1 <= r.value.1 <= |t|
  {
    if t[0] == '\\' then
      if |t| < 2 then None
      else if t[1] == '"' then Some(('"', 2))
      else if t[1] == '\\' then Some(('\\', 2))
      else if t[1] == '/' then Some(('/', 2))
      else if t[1] == 'b' then Some(('\U{8}', 2))
      else if t[1] == 'f' then Some(('\U{C}', 2))
      else if t[1] == 'n' then Some(('\n', 2))
      else if t[1] == 'r' then Some(('\r', 2))
      else if t[1] == 't' then Some(('\t', 2))
      else if t[1] == 'u' && |t| >= 6 then
        match UnicodeEscape(t[2..6])
        case Some(c) => Some((c, 6))
        case None => None
      else None
    else if t[0] == '"' || t[0] < ' ' then None
    else Some((t[0], 1))
  }

  /** The characters the body of a JSON string literal denotes, or `None` if it is malformed. */
  function Unescape(t: string): Option<string>
    decreases |t|
  {
    if t == [] then Some([])
    else
      match DecodeUnit(t)
      case None => None
      case Some((c, n)) =>
        match Unescape(t[n..])
        case None => None
        case Some(rest) => Some([c] + rest)
  }

  /** Reads a JSON string literal back. */
  function Unquote(t: string): Option<string> {
    if |t| >= 2 && t[0] == '"' && t[|t| - 1] == '"' then Unescape(t[1..|t| - 1]) else None
  }

  lemma HexDigitValue(d: nat)
    requires d < 16
    ensures HexValue(HexDigit(d)) == Some(d)
  {
  }

  /** Each escaped character decodes back to itself, consuming exactly its escape. */
  lemma DecodeEscapedChar(c: char, rest: string)
    ensures DecodeUnit(EscapeChar(c) + rest) == Some((c, |EscapeChar(c)|))
  {
    var t := EscapeChar(c) + rest;
    if c < ' ' && c != '\U{8}' && c != '\U{C}' && c != '\n' && c != '\r' && c != '\t' {
      var hi, lo := c as int / 16, c as int % 16;
      HexDigitValue(hi);
      HexDigitValue(lo);
      assert t[2..6] == ['0', '0', HexDigit(hi), HexDigit(lo)];
    }
  }

  /** Escaping a string and decoding the result gives the string back. */
  lemma {:induction false} UnescapeEscape(s: string)
    ensures Unescape(Escape(s)) == Some(s)
  {
    if s != [] {
      var e := EscapeChar(s[0]);
      var t := Escape(s);
      DecodeEscapedChar(s[0], Escape(s[1..]));
      assert t[|e|..] == Escape(s[1..]);
      UnescapeEscape(s[1..]);
      assert [s[0]] + s[1..] == s;
    }
  }

  /** `JSON.stringify` of a string is a literal that reads back as the same string. */
  lemma UnquoteQuote(s: string)
    ensures Unquote(Quote(s)) == Some(s)
  {
    var q := Quote(s);
    assert q[1..|q| - 1] == Escape(s);
    UnescapeEscape(s);
  }

  /** A character `JSON.stringify` copies into a string literal as it is. */
  predicate Plain(c: char) {
    c != '"' && c != '\\' && c >= ' '
  }

  /** Strings of plain characters are written between quotes unchanged. */
  lemma {:induction false} EscapePlain(s: string)
    requires forall k :: 0 <= k < |s| ==> Plain(s[k])
    ensures Escape(s) == s
  {
    if s != [] {
      EscapePlain(s[1..]);
    }
  }

  /** `JSON.stringify(v)`. */
  function Stringify(v: Json): string
    decreases v
  {
    match v
    case JNull => "null"
    case JBool(b) => if b then "true" else "false"
    case JNum(n) => IntToString(n)
    case JStr(s) => Quote(s)
    case JArr(items) =>
      "[" + JsString.Join(seq(|items|, i requires 0 <= i < |items| => Stringify(items[i])), ",") + "]"
    case JObj(members) =>
      "{" + JsString.Join(seq(|members|, i requires 0 <= i < |members| =>
        Quote(members[i].0) + ":" + Stringify(members[i].1)), ",") + "}"
  }

  /** The object `{ error: message }` serialises with the message between quotes, escaped. */
  lemma ErrorObjectText(message: string)
    ensures Stringify(JObj([("error", JStr(message))])) == "{\"error\":" + Quote(message) + "}"
  {
    var parts := seq(1, i requires 0 <= i < 1 => Quote("error") + ":" + Stringify(JStr(message)));
    EscapePlain("error");
    assert JsString.Join(parts, ",") == parts[0];
  }

  /** With no character to escape, `{ error: message }` serialises with the message verbatim between quotes. */
  lemma ErrorObjectPlainText(message: string)
    requires forall k :: 0 <= k < |message| ==> Plain(message[k])
    ensures Stringify(JObj([("error", JStr(message))])) == "{\"error\":\"" + message + "\"}"
  {
    ErrorObjectText(message);
    EscapePlain(message);
  }

  /** `String(v)` as a template literal applies it: arrays join their elements with commas, objects print as `[object Object]`. */
  function TemplateString(v: Json): (r: string)
    ensures v.JStr? ==> r == v.s
    decreases v
  {
    match v
    case JNull => "null"
    case JBool(b) => if b then "true" else "false"
    case JNum(n) => IntToString(n)
    case JStr(s) => s
    case JArr(items) =>
      JsString.Join(seq(|items|, i requires 0 <= i < |items| =>
        if items[i].JNull? then "" else TemplateString(items[i])), ",")
    case JObj(_) => "[object Object]"
  }
}
