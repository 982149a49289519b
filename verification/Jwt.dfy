/**
 `jwt.sign` and `jwt.verify` of plugins/lib/jwt.lua.  The MAC is a parameter: a function to 32
 bytes of which nothing else is assumed.  The clock is read once for each of the two time checks.
 */
module Jwt {
  import opened Wrappers
  import opened Utf8
  import opened Base64
  import opened Base64Url
  import opened Json
  import opened JsonScan
  import opened JsonPieces
  import opened JsonRoundTrip
  import opened TableScan
  import opened ClaimsRoundTrip

  type Mac = (string, string) -> string

  ghost predicate IsMac(mac: Mac) {
    forall msg, secret :: |mac(msg, secret)| == 32 && IsBytes(mac(msg, secret))
  }

  datatype JwtError =
    | InvalidFormat
    | UnsupportedAlgorithm(alg: Option<LuaValue>)
    | BadSignature
    | Expired
    | NotYetValid

  /** `claims, nil`, or `nil, err`, or a Lua error raised by the call. */
  datatype Verdict = Accepted(claims: Claims) | Refused(err: JwtError) | Raised

  // ---- String patterns ----

  /** The capture of `%s+(.+)` at the start of `s`. */
  function AfterSpaces(s: string): (r: Option<string>) {
    var t := SkipSpaces(s);
    if |t| == |s| then None
    else if |t| > 0 then Some(t)
    else if |s| > 1 then Some(s[|s| - 1..])
    else None
  }

  /** The capture of `^[Bb]earer%s+(.+)`. */
  function BearerToken(s: string): (r: Option<string>) {
    if "Bearer" <= s || "bearer" <= s then AfterSpaces(s[6..]) else None
  }

  function TrimEnd(s: string): (r: string)
    ensures r <= s
  {
    if |s| > 0 && IsSpace(s[|s| - 1]) then TrimEnd(s[..|s| - 1]) else s
  }

  /** The capture of `^%s*(.-)%s*$`. */
  function Trim(s: string): (r: string) {
    TrimEnd(SkipSpaces(s))
  }

  datatype Parts = Parts(header: string, payload: string, sig: string)

  /** A non-empty piece without a dot, a dot, and what follows it. */
  function SplitDot(s: string): (r: Option<(string, string)>)
    ensures r.Some? ==> s == r.value.0 + "." + r.value.1
  {
    var a := DotAt(s);
    if a == 0 || a == |s| then None else Some((s[..a], s[a + 1..]))
  }

  /** The captures of `^([^.]+)%.([^.]+)%.([^.]+)$`. */
  function SplitToken(s: string): (r: Option<Parts>) {
    match SplitDot(s)
    case None => None
    case Some((header, t)) =>
      match SplitDot(t)
      case None => None
      case Some((payload, sig)) =>
        if |sig| == 0 || DotAt(sig) < |sig| then None else Some(Parts(header, payload, sig))
  }

  // ---- sign and verify ----

  /** The 27 bytes the signer uses for every header. */
  const HEADER_JSON := "{\"alg\":\"HS256\"," + "\"typ\":\"JWT\"}"

  /** `hmac_sha256_b64url`. */
  function MacText(mac: Mac, input: string, secret: string): (r: string)
    requires IsMac(mac)
  {
    SignatureText(mac(input, secret))
  }

  function SigningInput(json: string): (r: string)
    requires IsBytes(json)
  {
    UrlEncode(HEADER_JSON) + "." + UrlEncode(json)
  }

  function Sign(claims: LuaValue, secret: string, mac: Mac): (token: string)
    requires Printable(claims) && IsBytes(Print(claims)) && IsMac(mac)
  {
    var input := SigningInput(Print(claims));
    input + "." + MacText(mac, input, secret)
  }

  /** `now > v` or `now < v` raises unless `v` is a number; nil and false skip the check. */
  function CheckTime(v: LuaValue, passed: real -> bool): (r: Option<bool>) {
    match v
    case Int(i) => Some(passed(i as real))
    case Float(x) => Some(passed(x))
    case Bool(false) => Some(true)
    case Nil => Some(true)
    case _ => None
  }

  function Claim(c: Claims, key: string): (v: LuaValue) {
    if key in c then c[key] else Nil
  }

  /** The time checks of lines 99-115. */
  function CheckTimes(c: Claims, nowExp: int, nowNbf: int): (r: Verdict) {
    match CheckTime(Claim(c, "exp"), x => nowExp as real <= x)
    case None => Raised
    case Some(false) => Refused(Expired)
    case Some(true) =>
      match CheckTime(Claim(c, "nbf"), x => x <= nowNbf as real)
      case None => Raised
      case Some(false) => Refused(NotYetValid)
      case Some(true) => Accepted(c)
  }

  function VerifyParts(t: Parts, secret: string, mac: Mac, nowExp: int, nowNbf: int): (r: Verdict)
    requires IsMac(mac)
  {
    var header := Parse(UrlDecode(t.header));
    if Claim(header, "alg") != Str("HS256") then
      Refused(UnsupportedAlgorithm(if "alg" in header then Some(header["alg"]) else None))
    else if MacText(mac, t.header + "." + t.payload, secret) != t.sig then
      Refused(BadSignature)
    else
      CheckTimes(Parse(UrlDecode(t.payload)), nowExp, nowNbf)
  }

  function Verify(token: string, secret: string, mac: Mac, nowExp: int, nowNbf: int): (r: Verdict)
    requires IsMac(mac)
  {
    var raw := match BearerToken(token) case Some(t) => t case None => token;
    match SplitToken(Trim(raw))
    case None => Refused(InvalidFormat)
    case Some(t) => VerifyParts(t, secret, mac, nowExp, nowNbf)
  }

  // ---- The header survives ----

  const HEADER_ENTRIES: seq<Entry> := [("alg", Str("HS256")), ("typ", Str("JWT"))]

  lemma WordIsPlain(s: string)
    requires |s| > 0 && IsUrlText(s)
    ensures PlainText(s) && AfterColon(s) == None
  {
    forall i | 0 <= i < |s|
      ensures s[i] != '"' && s[i] as int < 128
    {
      assert IsUrlChar(s[i]);
    }
    AsciiIsValid(s);
    assert IsUrlChar(s[0]);
    NoColon(s);
  }

  lemma HeaderEntriesPlain()
    ensures PlainEntries(HEADER_ENTRIES) && CalmTable(HEADER_ENTRIES)
  {
    hide PlainText, AfterColon;
    WordIsPlain("alg");
    WordIsPlain("HS256");
    WordIsPlain("typ");
    WordIsPlain("JWT");
    var first, second: Entry := ("alg", Str("HS256")), ("typ", Str("JWT"));
    assert PlainEntry(first) && PlainEntry(second);
    assert HEADER_ENTRIES == [first, second];
    forall p
      ensures Calm(p, HEADER_ENTRIES, [])
    {
      InlineNeedsColon(p, "HS256");
      InlineNeedsColon(p, "typ");
      InlineNeedsColon(p, "JWT");
      CalmTwo(p, first, second);
    }
  }

  lemma CalmTwo(p: Pattern, first: Entry, second: Entry)
    requires first.1.Str? && second.1.Str?
    requires Inline(p, first.1.text) == None && Inline(p, second.0) == None && Inline(p, second.1.text) == None
    requires !ColonOnly(second.0)
    ensures Calm(p, [first, second], [])
  {
    hide Inline, ColonOnly;
    var one: seq<Entry> := [second];
    assert one[1..] == [];
    assert Calm(p, one, []);
    assert [first, second][1..] == one;
  }

  lemma HeaderText()
    ensures forall i :: 0 <= i < |HEADER_ENTRIES| ==> HEADER_ENTRIES[i].1.Str?
    ensures HEADER_JSON == "{" + BodyText(HEADER_ENTRIES, "}")
  {
    hide EntryText, BodyText;
    var first, second: Entry := ("alg", Str("HS256")), ("typ", Str("JWT"));
    assert HEADER_ENTRIES == [first, second];
    AlgText(first);
    TypText(second);
    BodyOfTwo(first, second);
    HeaderIs();
  }

  lemma AlgText(e: Entry)
    requires e == ("alg", Str("HS256"))
    ensures EntryText(e) == "\"alg\":\"HS256\""
  {
  }

  lemma TypText(e: Entry)
    requires e == ("typ", Str("JWT"))
    ensures EntryText(e) == "\"typ\":\"JWT\""
  {
  }

  lemma HeaderIs()
    ensures HEADER_JSON == "{" + ("\"alg\":\"HS256\"" + ("," + ("\"typ\":\"JWT\"" + "}")))
  {
    assert "{\"alg\":\"HS256\"," == "{" + "\"alg\":\"HS256\"" + ",";
    assert "\"typ\":\"JWT\"}" == "\"typ\":\"JWT\"" + "}";
  }

  lemma BodyOfTwo(first: Entry, second: Entry)
    requires first.1.Str? && second.1.Str?
    ensures BodyText([first, second], "}") == EntryText(first) + ("," + (EntryText(second) + "}"))
  {
    hide EntryText;
    assert [first, second][1..] == [second];
    assert [second][1..] == [];
    assert RestText([], "}") == "}";
    assert BodyText([second], "}") == EntryText(second) + "}";
  }

  lemma HeaderBytes()
    ensures |HEADER_JSON| == 27 && IsAscii(HEADER_JSON)
  {
  }

  lemma HeaderSurvives()
    ensures IsBytes(HEADER_JSON) && UrlDecode(UrlEncode(HEADER_JSON)) == HEADER_JSON
    ensures Claim(Parse(HEADER_JSON), "alg") == Str("HS256")
  {
    hide UrlDecode, UrlEncode, Parse, BodyText;
    HeaderBytes();
    AsciiIsValid(HEADER_JSON);
    UrlDecodeAfterEncode(HEADER_JSON);
    assert WholeGroups(HEADER_JSON) == HEADER_JSON;
    HeaderText();
    HeaderEntriesPlain();
    var c := HeaderClaims();
    ParsePrint(HEADER_ENTRIES, c, "}");
  }

  lemma HeaderClaims() returns (c: Claims)
    ensures IsOrderOf(HEADER_ENTRIES, c) && Claim(c, "alg") == Str("HS256")
  {
    assert "alg"[0] != "typ"[0];
    c := map["alg" := Str("HS256"), "typ" := Str("JWT")];
    assert HEADER_ENTRIES[0].0 == "alg" && HEADER_ENTRIES[1].0 == "typ";
  }
}
