/**
 The values plugins and host exchange, and the host's `json.encode` (`lua_value_to_json` of
 src/lua/engine.rs).
 */
module Json {
  import Utf8

  /**
   A Lua value.  `items` is the array part a table reports through `raw_len`, `pairs` the
   key-value pairs in the order the table iterates them.
   */
  datatype LuaValue =
    | Nil
    | Bool(flag: bool)
    | Int(num: int)
    | Float(approx: real)
    | Str(text: string)
    | Table(items: seq<LuaValue>, pairs: seq<Pair>)

  datatype Pair = Pair(key: LuaValue, value: LuaValue)

  // ---- Decimal numerals ----

  function DigitChar(d: int): (c: char)
    requires 0 <= d < 10
  {
    (d + 48) as char
  }

  predicate IsDigit(c: char) {
    '0' <= c <= '9'
  }

  function NatText(n: nat): (s: string)
    ensures |s| > 0 && forall i :: 0 <= i < |s| ==> IsDigit(s[i])
  {
    if n < 10 then [DigitChar(n)] else NatText(n / 10) + [DigitChar(n % 10)]
  }

  /** `i.to_string()`. */
  function IntText(i: int): (s: string)
    ensures |s| > 0
  {
    if i < 0 then "-" + NatText(-i) else NatText(i)
  }

  // ---- The printer ----

  /** `text.replace('"', "\\\"")`. */
  function Escape(s: string): (r: string) {
    if |s| == 0 then "" else (if s[0] == '"' then "\\\"" else [s[0]]) + Escape(s[1..])
  }

  function Join(parts: seq<string>): (r: string) {
    if |parts| == 0 then "" else if |parts| == 1 then parts[0] else parts[0] + "," + Join(parts[1..])
  }

  /** No float anywhere: Rust's float formatting is not modelled. */
  predicate Printable(v: LuaValue)
    decreases v
  {
    match v
    case Float(_) => false
    case Table(items, pairs) =>
      && (forall i :: 0 <= i < |items| ==> Printable(items[i]))
      && (forall i :: 0 <= i < |pairs| ==> Printable(pairs[i].key) && Printable(pairs[i].value))
    case _ => true
  }

  function Print(v: LuaValue): (s: string)
    requires Printable(v)
    decreases v, 0
  {
    match v
    case Str(text) => if Utf8.Valid(text) then "\"" + Escape(text) + "\"" else "\"\""
    case Int(i) => IntText(i)
    case Bool(b) => if b then "true" else "false"
    case Nil => "null"
    case Table(items, pairs) =>
      if |items| > 0 then "[" + Join(PrintItems(items)) + "]" else "{" + Join(PrintPairs(pairs)) + "}"
  }

  function PrintItems(items: seq<LuaValue>): (parts: seq<string>)
    requires forall i :: 0 <= i < |items| ==> Printable(items[i])
    ensures |parts| == |items|
    decreases items, 1
  {
    if |items| == 0 then [] else [Print(items[0])] + PrintItems(items[1..])
  }

  function PrintPairs(pairs: seq<Pair>): (parts: seq<string>)
    requires forall i :: 0 <= i < |pairs| ==> Printable(pairs[i].key) && Printable(pairs[i].value)
    ensures |parts| == |pairs|
    decreases pairs, 1
  {
    if |pairs| == 0 then []
    else [PrintPair(pairs[0])] + PrintPairs(pairs[1..])
  }

  function PrintPair(p: Pair): (s: string)
    requires Printable(p.key) && Printable(p.value)
    decreases p, 0
  {
    Print(p.key) + ":" + Print(p.value)
  }
}
