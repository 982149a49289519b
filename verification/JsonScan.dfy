/**
 `parse_json_obj` of plugins/lib/jwt.lua: three left-to-right `gmatch` scans that share the prefix
 `"([^"]+)"%s*:%s*` and differ in the value pattern.  Positions are modelled by the text that is
 still to be scanned.
 */
module JsonScan {
  import opened Wrappers
  import opened Json

  // ---- Character classes and runs ----

  /** `%s` in the C locale. */
  predicate IsSpace(c: char) {
    c == ' ' || 9 <= c as int <= 13
  }

  /** `[%d%.%-]`. */
  predicate IsNumberChar(c: char) {
    IsDigit(c) || c == '.' || c == '-'
  }

  /** Where the first quote is, `|s|` if there is none. */
  function QuoteAt(s: string): (n: nat)
    ensures n <= |s| && (n < |s| ==> s[n] == '"') && forall i :: 0 <= i < n ==> s[i] != '"'
  {
    if |s| == 0 || s[0] == '"' then 0 else 1 + QuoteAt(s[1..])
  }

  /** What a greedy `%s*` leaves. */
  function SkipSpaces(s: string): (r: string)
    ensures |r| <= |s| && r == s[|s| - |r|..] && (|r| > 0 ==> !IsSpace(r[0]))
  {
    if |s| > 0 && IsSpace(s[0]) then SkipSpaces(s[1..]) else s
  }

  /** How many characters a greedy `[%d%.%-]+` takes. */
  function NumberRun(s: string): (n: nat)
    ensures n <= |s| && (n < |s| ==> !IsNumberChar(s[n])) && forall i :: 0 <= i < n ==> IsNumberChar(s[i])
  {
    if |s| == 0 || !IsNumberChar(s[0]) then 0 else 1 + NumberRun(s[1..])
  }

  // ---- The three patterns ----

  datatype Pattern = StringPattern | NumberPattern | FlagPattern

  /** The captures of a match and the text after it. */
  datatype Hit = Hit(key: string, val: string, rest: string)

  /** `"([^"]+)"%s*:%s*` at the start of `s`: the key and the text after the prefix. */
  function MatchKey(s: string): (r: Option<(string, string)>)
    ensures r.Some? ==> |r.value.1| < |s|
  {
    if |s| == 0 || s[0] != '"' then None
    else
      var n := QuoteAt(s[1..]);
      if n == 0 || 1 + n == |s| then None
      else
        var t := SkipSpaces(s[n + 2..]);
        if |t| == 0 || t[0] != ':' then None else Some((s[1..n + 1], SkipSpaces(t[1..])))
  }

  const FLAG_TEXT := "true|false"

  /** The value part: `"([^"]*)"`, `([%d%.%-]+)`, or the literal text `(true|false)`. */
  function MatchValue(p: Pattern, t: string): (r: Option<(string, string)>)
    ensures r.Some? ==> |r.value.1| <= |t|
  {
    match p
    case StringPattern =>
      if |t| == 0 || t[0] != '"' || QuoteAt(t[1..]) + 1 == |t| then None
      else var n := QuoteAt(t[1..]); Some((t[1..n + 1], t[n + 2..]))
    case NumberPattern =>
      if NumberRun(t) == 0 then None else Some((t[..NumberRun(t)], t[NumberRun(t)..]))
    case FlagPattern =>
      if FLAG_TEXT <= t then Some((FLAG_TEXT, t[|FLAG_TEXT|..])) else None
  }

  function MatchHere(p: Pattern, s: string): (r: Option<Hit>)
    ensures r.Some? ==> |r.value.rest| < |s|
  {
    match MatchKey(s)
    case None => None
    case Some((key, t)) =>
      match MatchValue(p, t)
      case None => None
      case Some((val, rest)) => Some(Hit(key, val, rest))
  }

  /** All matches `gmatch` yields: the next one is sought after the end of the last. */
  function Scan(p: Pattern, s: string): (hits: seq<(string, string)>)
    decreases |s|
  {
    if |s| == 0 then []
    else
      match MatchHere(p, s)
      case None => Scan(p, s[1..])
      case Some(h) => [(h.key, h.val)] + Scan(p, h.rest)
  }

  // ---- tonumber ----

  function DigitValue(c: char): (d: nat)
    requires IsDigit(c)
  {
    c as int - 48
  }

  function NatValue(s: string): (n: nat)
    requires AllDigits(s)
  {
    if |s| == 0 then 0 else NatValue(s[..|s| - 1]) * 10 + DigitValue(s[|s| - 1])
  }

  function Pow10(n: nat): (r: nat)
    ensures r > 0
  {
    if n == 0 then 1 else 10 * Pow10(n - 1)
  }

  predicate AllDigits(s: string) {
    forall i :: 0 <= i < |s| ==> IsDigit(s[i])
  }

  /** Where the first dot is, `|s|` if there is none. */
  function DotAt(s: string): (n: nat)
    ensures n <= |s| && (n < |s| ==> s[n] == '.') && forall i :: 0 <= i < n ==> s[i] != '.'
  {
    if |s| == 0 || s[0] == '.' then 0 else 1 + DotAt(s[1..])
  }

  const INT64_MIN := -0x8000_0000_0000_0000
  const INT64_MAX := 0x7fff_ffff_ffff_ffff

  /** `tonumber` on text of the class `[%d%.%-]+`; None is nil.  Floats keep their exact value. */
  function ToNumber(s: string): (v: Option<LuaValue>) {
    var neg := |s| > 0 && s[0] == '-';
    var body := if neg then s[1..] else s;
    var dot := DotAt(body);
    if |body| == 0 then None
    else if AllDigits(body) then
      var n: int := NatValue(body);
      var i := if neg then -n else n;
      if INT64_MIN <= i <= INT64_MAX then Some(Int(i)) else Some(Float(i as real))
    else if dot < |body| && |body| > 1 && AllDigits(body[..dot]) && AllDigits(body[dot + 1..]) then
      var m := (NatValue(body[..dot] + body[dot + 1..]) as real) / (Pow10(|body| - dot - 1) as real);
      Some(Float(if neg then -m else m))
    else None
  }

  // ---- The result table ----

  type Claims = map<string, LuaValue>

  /** `result[key] = ...` in the body of the loop for `p`; storing nil removes the key. */
  function Put(p: Pattern, m: Claims, key: string, val: string): (r: Claims) {
    match p
    case StringPattern => m[key := Str(val)]
    case NumberPattern => (match ToNumber(val) case None => m - {key} case Some(v) => m[key := v])
    case FlagPattern => m[key := Bool(val == "true")]
  }

  function Collect(p: Pattern, m: Claims, hits: seq<(string, string)>): (r: Claims)
    decreases |hits|
  {
    if |hits| == 0 then m else Collect(p, Put(p, m, hits[0].0, hits[0].1), hits[1..])
  }

  function Parse(s: string): (r: Claims) {
    var strings := Collect(StringPattern, map[], Scan(StringPattern, s));
    var numbers := Collect(NumberPattern, strings, Scan(NumberPattern, s));
    Collect(FlagPattern, numbers, Scan(FlagPattern, s))
  }

  /** One `for key, val in s:gmatch(...)` loop over the table built so far. */
  method ScanInto(p: Pattern, s: string, m: Claims) returns (result: Claims)
    ensures result == Collect(p, m, Scan(p, s))
  {
    result := m;
    var rest := s;
    while |rest| > 0
      invariant Collect(p, result, Scan(p, rest)) == Collect(p, m, Scan(p, s))
      decreases |rest|
    {
      match MatchHere(p, rest)
      case None =>
        rest := rest[1..];
      case Some(h) =>
        assert Scan(p, rest)[1..] == Scan(p, h.rest);
        result := Put(p, result, h.key, h.val);
        rest := h.rest;
    }
  }

  method ParseJsonObj(s: string) returns (result: Claims)
    ensures result == Parse(s)
  {
    result := map[];
    result := ScanInto(StringPattern, s, result);
    result := ScanInto(NumberPattern, s, result);
    result := ScanInto(FlagPattern, s, result);
  }
}
