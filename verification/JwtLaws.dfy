/** What `jwt.verify` makes of the tokens `jwt.sign` prints, and what its signature check decides. */
module JwtLaws {
  import opened Wrappers
  import opened Utf8
  import opened Base64
  import opened Base64Url
  import opened Json
  import opened JsonScan
  import opened JsonRoundTrip
  import opened Numerals
  import opened TableScan
  import opened ClaimsRoundTrip
  import opened Jwt

  // ---- The payload text ----

  lemma NumeralValid(i: int)
    ensures Valid(IntText(i)) && Valid(CutNumeral(i))
  {
    hide IntText;
    DigitsAreNumberChars(i);
    assert forall j :: 0 <= j < |IntText(i)| ==> IsNumberChar(IntText(i)[j]);
    AsciiIsValid(IntText(i));
    AsciiIsValid(CutNumeral(i));
  }

  lemma KeyThenValid(k: string, v: string)
    requires Valid(k) && Valid(v)
    ensures Valid(KeyThen(k, v))
  {
    AsciiIsValid("\"");
    AsciiIsValid("\":");
    hide Valid;
    ValidAppend("\":", v);
    ValidAppend(k, "\":" + v);
    ValidAppend("\"", k + ("\":" + v));
  }

  lemma EntryValid(e: Entry)
    requires PlainEntry(e)
    ensures Valid(EntryText(e)) && Valid(CutEntryText(e))
  {
    AsciiIsValid("\"");
    NumeralValid(if e.1.Int? then e.1.num else 0);
    EntryIsKeyThen(e);
    hide Valid, IntText, CutNumeral, EntryText, KeyThen;
    if e.1.Str? {
      ValidAppend("\"", e.1.text);
      ValidAppend("\"" + e.1.text, "\"");
    }
    KeyThenValid(e.0, ValueText(e.1));
    KeyThenValid(e.0, if e.1.Str? then "\"" + e.1.text else CutNumeral(e.1.num));
  }

  lemma {:induction false} BodyValid(es: seq<Entry>, end: string)
    requires PlainEntries(es) && Valid(end)
    ensures Valid(BodyText(es, end))
    decreases |es|
  {
    if |es| > 0 {
      AsciiIsValid(",");
      hide EntryText, Valid;
      assert PlainEntry(es[0]);
      EntryValid(es[0]);
      if |es| > 1 {
        BodyValid(es[1..], end);
        ValidAppend(",", BodyText(es[1..], end));
      }
      ValidAppend(EntryText(es[0]), RestText(es[1..], end));
    }
  }

  lemma TableValid(es: seq<Entry>, end: string)
    requires PlainEntries(es) && Valid(end)
    ensures Valid("{" + BodyText(es, end))
  {
    AsciiIsValid("{");
    hide BodyText, Valid;
    BodyValid(es, end);
    ValidAppend("{", BodyText(es, end));
  }

  lemma JsonBytes(es: seq<Entry>)
    requires PlainEntries(es)
    ensures Printable(TableOf(es)) && Valid(Print(TableOf(es))) && IsBytes(Print(TableOf(es)))
    ensures |Print(TableOf(es))| >= 2
  {
    AsciiIsValid("}");
    hide Valid, BodyText;
    PrintText(es);
    TableValid(es, "}");
    ValidBytes(Print(TableOf(es)));
    BodyTake(es, "", "}");
    assert "" + "}" == "}";
  }

  /** Cutting the printed table down to whole groups of three bytes never splits a character. */
  lemma PrefixValid(es: seq<Entry>, json: string)
    requires PlainEntries(es) && json == "{" + BodyText(es, "}")
    ensures Valid(json[..|json| - |json| % 3])
  {
    hide BodyText, Valid, PlainText;
    AsciiIsValid("}");
    TableValid(es, "}");
    if |json| % 3 == 0 {
      assert json[..|json|] == json;
    } else if |json| % 3 == 1 {
      LessOne(es, json);
    } else {
      LessTwo(es, json);
    }
  }

  lemma LessOne(es: seq<Entry>, json: string)
    requires PlainEntries(es) && json == "{" + BodyText(es, "}")
    ensures |json| > 0 && json[..|json| - 1] == "{" + BodyText(es, "") && Valid(json[..|json| - 1])
  {
    hide BodyText, Valid, PlainText;
    AsciiIsValid("");
    TableValid(es, "");
    BodyTake(es, "", "}");
    assert "" + "}" == "}";
    assert json == ("{" + BodyText(es, "")) + "}";
  }

  lemma LessTwo(es: seq<Entry>, json: string)
    requires PlainEntries(es) && json == "{" + BodyText(es, "}")
    ensures |json| > 1 && Valid(json[..|json| - 2])
  {
    hide BodyText, Valid, PlainText;
    if |es| > 0 {
      var pre, last := es[..|es| - 1], es[|es| - 1];
      assert PlainEntry(last);
      CutText(es);
      EntryValid(last);
      AsciiIsValid(Lead(pre));
      ValidAppend(Lead(pre), CutEntryText(last));
      TableValid(pre, Lead(pre) + CutEntryText(last));
    } else {
      NoBody(es, "}");
      assert json == "{}" && json[..0] == "";
      AsciiIsValid("");
    }
  }

  /** What the payload parse recovers: everything, unless the JSON length is 2 modulo 3. */
  function Recovered(es: seq<Entry>, c: Claims): (r: Claims)
    requires PlainEntries(es)
  {
    PlainPrintable(es);
    if |Print(TableOf(es))| % 3 == 2 && |es| > 0 then CutClaims(es, c) else c
  }

  lemma PayloadRecovers(es: seq<Entry>, c: Claims)
    requires PlainEntries(es) && CalmTable(es) && IsOrderOf(es, c)
    ensures Printable(TableOf(es)) && IsBytes(Print(TableOf(es)))
    ensures UrlDecode(UrlEncode(Print(TableOf(es)))) == WholeGroups(Print(TableOf(es)))
    ensures Parse(WholeGroups(Print(TableOf(es)))) == Recovered(es, c)
  {
    hide Parse, BodyText, Print, UrlDecode, UrlEncode, CutClaims, WholeGroups, IsOrderOf, PlainEntries, CalmTable, Valid;
    JsonBytes(es);
    var json := Print(TableOf(es));
    WholeGroupsCut(json);
    UrlDecodeAfterEncode(json);
    PrintText(es);
    PrefixValid(es, json);
    ParsePrefix(es, c, json);
  }

  /** Parsing the printed table without its last 0, 1 or 2 characters. */
  lemma ParsePrefix(es: seq<Entry>, c: Claims, json: string)
    requires PlainEntries(es) && CalmTable(es) && IsOrderOf(es, c) && json == "{" + BodyText(es, "}")
    ensures Parse(json[..|json| - |json| % 3]) == if |json| % 3 == 2 && |es| > 0 then CutClaims(es, c) else c
  {
    hide Parse, BodyText, CutClaims, IsOrderOf, CalmTable, PlainText;
    if |json| % 3 == 0 {
      assert json[..|json|] == json;
      ParsePrint(es, c, "}");
    } else if |json| % 3 == 1 {
      BodyTake(es, "", "}");
      assert "" + "}" == "}";
      assert json[..|json| - 1] == "{" + BodyText(es, "");
      ParsePrint(es, c, "");
    } else if |es| > 0 {
      ParseCut(es, c);
    } else {
      NoEntries(es, c, json);
    }
  }

  lemma NoEntries(es: seq<Entry>, c: Claims, json: string)
    requires |es| == 0 && IsOrderOf(es, c) && json == "{" + BodyText(es, "}")
    ensures Parse(json[..|json| - |json| % 3]) == c
  {
    hide Parse;
    assert es == [];
    EmptyTable(c);
  }

  lemma WholeGroupsCut(d: string)
    ensures |d| - |d| % 3 >= 0 && WholeGroups(d) == d[..|d| - |d| % 3]
  {
  }

  lemma EmptyTable(c: Claims)
    requires IsOrderOf([], c)
    ensures c == map[] && Parse("") == c
    ensures Printable(TableOf([])) && |Print(TableOf([]))| == 2
  {
    assert Print(TableOf([])) == "{" + "" + "}";
  }

  // ---- The token's shape ----

  lemma {:induction false} DotAfter(s: string, t: string)
    requires IsUrlText(s)
    ensures DotAt(s + ("." + t)) == |s|
  {
    if |s| == 0 {
      assert s + ("." + t) == "." + t;
    } else {
      assert IsUrlChar(s[0]);
      DotAfter(s[1..], t);
      assert (s + ("." + t))[1..] == s[1..] + ("." + t);
    }
  }

  lemma {:induction false} NoDot(s: string)
    requires IsUrlText(s)
    ensures DotAt(s) == |s|
  {
    if |s| > 0 {
      assert IsUrlChar(s[0]);
      NoDot(s[1..]);
    }
  }

  lemma SplitThree(h: string, p: string, g: string)
    requires |h| > 0 && |p| > 0 && |g| > 0 && IsUrlText(h) && IsUrlText(p) && IsUrlText(g)
    ensures SplitToken(h + ("." + (p + ("." + g)))) == Some(Parts(h, p, g))
  {
    var s := h + ("." + (p + ("." + g)));
    DotAfter(h, p + ("." + g));
    assert s[..|h|] == h;
    assert s[|h| + 1..] == p + ("." + g);
    DotAfter(p, g);
    assert (p + ("." + g))[..|p|] == p && (p + ("." + g))[|p| + 1..] == g;
    NoDot(g);
  }

  ghost predicate IsTokenText(s: string) {
    forall i :: 0 <= i < |s| ==> IsUrlChar(s[i]) || s[i] == '.'
  }

  lemma UrlTextHasNoSpaces(s: string)
    requires IsTokenText(s)
    ensures forall i :: 0 <= i < |s| ==> !IsSpace(s[i])
  {
    forall i | 0 <= i < |s|
      ensures !IsSpace(s[i])
    {
      assert IsUrlChar(s[i]) || s[i] == '.';
    }
  }

  /** A token is taken as it is, bare or behind `Bearer `. */
  lemma TokenIsTaken(s: string)
    requires IsTokenText(s) && |s| > 0
    ensures BearerToken(s) == None && BearerToken("Bearer " + s) == Some(s) && Trim(s) == s
  {
    UrlTextHasNoSpaces(s);
    hide IsSpace;
    assert SkipSpaces(s) == s && TrimEnd(s) == s;
    if "Bearer" <= s || "bearer" <= s {
      assert |s| > 6 ==> !IsSpace(s[6..][0]);
      assert SkipSpaces(s[6..]) == s[6..];
    }
    BearerPrefix(s);
  }

  lemma BearerPrefix(s: string)
    requires |s| > 0 && !IsSpace(s[0])
    ensures BearerToken("Bearer " + s) == Some(s)
  {
    var b := "Bearer " + s;
    assert b[..6] == "Bearer" && b[6..] == " " + s;
    assert (" " + s)[1..] == s;
    assert SkipSpaces(s) == s;
    assert SkipSpaces(" " + s) == s;
  }

  lemma SignShape(json: string, secret: string, mac: Mac)
    requires IsBytes(json) && |json| > 0 && IsMac(mac)
    ensures IsBytes(HEADER_JSON)
    ensures var h, p := UrlEncode(HEADER_JSON), UrlEncode(json);
            var input := SigningInput(json);
            var g := SignatureText(mac(input, secret));
            && IsTokenText(input + "." + g)
            && SplitToken(input + "." + g) == Some(Parts(h, p, g))
            && h + "." + p == input
  {
    hide UrlEncode, SplitToken, SignatureText;
    HeaderBytes();
    var h, p := UrlEncode(HEADER_JSON), UrlEncode(json);
    var m := mac(SigningInput(json), secret);
    SignatureShape(m);
    var g := SignatureText(m);
    UrlEncodeShape(HEADER_JSON);
    UrlEncodeShape(json);
    SplitThree(h, p, g);
    assert (h + "." + p) + "." + g == h + ("." + (p + ("." + g)));
  }

  lemma SignatureShape(m: string)
    requires IsBytes(m) && |m| > 0
    ensures IsUrlText(SignatureText(m)) && |SignatureText(m)| > 0
  {
    FromLatin1IsValid(m);
    UrlEncodeShape(FromLatin1(m));
  }

  // ---- sign then verify ----

  /**
   A signed token, bare or as a bearer header, passes the format, algorithm and signature checks for
   every secret, and what the time checks then see is exactly the recovered claims.
   */
  lemma VerifyOfSign(es: seq<Entry>, c: Claims, secret: string, mac: Mac, nowExp: int, nowNbf: int)
    requires PlainEntries(es) && CalmTable(es) && IsOrderOf(es, c) && IsMac(mac)
    ensures Printable(TableOf(es)) && IsBytes(Print(TableOf(es)))
    ensures var token := Sign(TableOf(es), secret, mac);
            && Verify(token, secret, mac, nowExp, nowNbf) == CheckTimes(Recovered(es, c), nowExp, nowNbf)
            && Verify("Bearer " + token, secret, mac, nowExp, nowNbf) == CheckTimes(Recovered(es, c), nowExp, nowNbf)
  {
    hide UrlEncode, UrlDecode, SplitToken, SignatureText, Parse, CheckTimes, Recovered, Print, BearerToken, Trim, WholeGroups;
    PayloadRecovers(es, c);
    JsonBytes(es);
    var json := Print(TableOf(es));
    SignShape(json, secret, mac);
    var input := SigningInput(json);
    var token := Sign(TableOf(es), secret, mac);
    TokenIsTaken(token);
    HeaderSurvives();
    var g := SignatureText(mac(input, secret));
    var parts := Parts(UrlEncode(HEADER_JSON), UrlEncode(json), g);
    assert VerifyParts(parts, secret, mac, nowExp, nowNbf) == CheckTimes(Recovered(es, c), nowExp, nowNbf);
  }

  /** Lua holds everything but nil and false true. */
  predicate Truthy(v: LuaValue) {
    v != Nil && v != Bool(false)
  }

  function NumberOf(v: LuaValue): (r: Option<real>) {
    if v.Int? then Some(v.num as real) else if v.Float? then Some(v.approx) else None
  }

  /** Neither time claim forbids the moment; one that is there but is no number never allows it. */
  ghost predicate InTime(c: Claims, nowExp: int, nowNbf: int) {
    var exp, nbf := Claim(c, "exp"), Claim(c, "nbf");
    && (Truthy(exp) ==> NumberOf(exp).Some? && nowExp as real <= NumberOf(exp).value)
    && (Truthy(nbf) ==> NumberOf(nbf).Some? && NumberOf(nbf).value <= nowNbf as real)
  }

  /** For all claims: accepted in time, and an error raised exactly when the first claim in the way is no number. */
  lemma CheckTimesExact(c: Claims, nowExp: int, nowNbf: int)
    ensures CheckTimes(c, nowExp, nowNbf) == Accepted(c) <==> InTime(c, nowExp, nowNbf)
    ensures CheckTimes(c, nowExp, nowNbf) == Raised <==>
              var exp, nbf := Claim(c, "exp"), Claim(c, "nbf");
              || (Truthy(exp) && NumberOf(exp) == None)
              || ((Truthy(exp) ==> nowExp as real <= NumberOf(exp).value) && Truthy(nbf) && NumberOf(nbf) == None)
    ensures CheckTimes(c, nowExp, nowNbf) == Refused(Expired) <==>
              var exp := Claim(c, "exp"); Truthy(exp) && NumberOf(exp).Some? && nowExp as real > NumberOf(exp).value
  {
    hide Claim;
  }

  lemma AcceptedUnchanged(c: Claims, nowExp: int, nowNbf: int)
    ensures CheckTimes(c, nowExp, nowNbf).Accepted? ==> CheckTimes(c, nowExp, nowNbf) == Accepted(c)
  {
    hide Claim;
  }

  lemma CutDiffers(es: seq<Entry>, c: Claims)
    requires PlainEntries(es) && |es| > 0 && IsOrderOf(es, c)
    ensures CutClaims(es, c) != c
    ensures forall k :: k in CutClaims(es, c) ==> k in c && (CutClaims(es, c)[k].Str? || CutClaims(es, c)[k].Int?)
    ensures forall k :: k in c && k != es[|es| - 1].0 ==> k in CutClaims(es, c) && CutClaims(es, c)[k] == c[k]
  {
    var last := es[|es| - 1];
    assert last.0 in c && c[last.0] == last.1;
    forall k | k in c
      ensures c[k].Str? || c[k].Int?
    {
      var i :| 0 <= i < |es| && es[i].0 == k;
      assert PlainEntry(es[i]);
    }
    if last.1.Int? && CutValue(last.1.num).Some? {
      assert CutClaims(es, c)[last.0] != last.1;
    } else {
      assert last.0 !in CutClaims(es, c);
    }
  }

  /**
   `verify(sign(c, k), k)` returns `c` exactly when the moment lies in [nbf, exp] and the Base64
   decoder loses nothing that matters: the JSON length is not 2 modulo 3, or there is no entry.
   */
  lemma SignVerifyExact(es: seq<Entry>, c: Claims, secret: string, mac: Mac, nowExp: int, nowNbf: int)
    requires PlainEntries(es) && CalmTable(es) && IsOrderOf(es, c) && IsMac(mac)
    ensures Printable(TableOf(es)) && IsBytes(Print(TableOf(es)))
    ensures Verify(Sign(TableOf(es), secret, mac), secret, mac, nowExp, nowNbf) == Accepted(c)
            <==> InTime(c, nowExp, nowNbf) && (|Print(TableOf(es))| % 3 != 2 || |es| == 0)
  {
    hide Verify, Sign, CheckTimes, Print, CutClaims;
    VerifyOfSign(es, c, secret, mac, nowExp, nowNbf);
    CheckTimesExact(c, nowExp, nowNbf);
    if |Print(TableOf(es))| % 3 == 2 && |es| > 0 {
      CutDiffers(es, c);
      AcceptedUnchanged(CutClaims(es, c), nowExp, nowNbf);
    }
  }

  /** Whatever the JSON length, every claim printed before the last reaches the caller. */
  lemma SignVerifyKeepsEarlier(es: seq<Entry>, c: Claims, secret: string, mac: Mac, nowExp: int, nowNbf: int, j: nat)
    requires PlainEntries(es) && CalmTable(es) && IsOrderOf(es, c) && IsMac(mac) && j < |es| - 1
    ensures Printable(TableOf(es)) && IsBytes(Print(TableOf(es)))
    ensures var v := Verify(Sign(TableOf(es), secret, mac), secret, mac, nowExp, nowNbf);
            v.Accepted? ==> es[j].0 in v.claims && v.claims[es[j].0] == es[j].1
  {
    hide Verify, Sign, CheckTimes, Print, CutClaims, PlainEntries;
    VerifyOfSign(es, c, secret, mac, nowExp, nowNbf);
    AcceptedUnchanged(Recovered(es, c), nowExp, nowNbf);
    CutDiffers(es, c);
  }

  /** For example `{"a":12}` is eight bytes long: it is accepted at any time, and comes back as `{"a":1}`. */
  lemma TwelveComesBackAsOne(secret: string, mac: Mac, nowExp: int, nowNbf: int)
    requires IsMac(mac)
    ensures var table, one := TableOf([("a", Int(12))]), map["a" := Int(1)];
            && Printable(table) && IsBytes(Print(table)) && Print(table) == "{\"a\":12}"
            && Verify(Sign(table, secret, mac), secret, mac, nowExp, nowNbf) == Accepted(one)
  {
    hide Verify, Sign, CheckTimes, Print, Calm, UrlDecode, UrlEncode;
    var e: Entry := ("a", Int(12));
    var es, c := [e], map["a" := Int(12)];
    OneEntry(e, c);
    VerifyOfSign(es, c, secret, mac, nowExp, nowNbf);
    PrintText(es);
    assert BodyText(es, "}") == EntryText(e) + "}" by { assert es[1..] == []; }
    TwelveText(e);
    assert CutClaims(es, c) == map["a" := Int(1)];
    CheckTimesExact(map["a" := Int(1)], nowExp, nowNbf);
  }

  lemma TwelveText(e: Entry)
    requires e == ("a", Int(12))
    ensures "{" + (EntryText(e) + "}") == "{\"a\":12}"
  {
    assert NatText(12) == NatText(1) + [DigitChar(2)] == "12";
  }

  lemma OneEntry(e: Entry, c: Claims)
    requires e == ("a", Int(12)) && c == map["a" := Int(12)]
    ensures PlainEntries([e]) && CalmTable([e]) && IsOrderOf([e], c)
  {
    AsciiIsValid("a");
    var es := [e];
    assert es[0].0 == "a";
    forall p
      ensures Calm(p, es, [])
    {
      assert es[1..] == [];
    }
  }

  // ---- The signature check ----

  /**
   For a token of three parts with an HS256 header the comparison succeeds exactly when the third
   part is the text of this MAC; the text of any other byte string is refused.
   */
  lemma SignatureDecides(token: string, t: Parts, secret: string, mac: Mac, nowExp: int, nowNbf: int, presented: string)
    requires IsMac(mac) && IsBytes(presented)
    requires SplitToken(Trim(match BearerToken(token) case Some(x) => x case None => token)) == Some(t)
    requires Claim(Parse(UrlDecode(t.header)), "alg") == Str("HS256")
    requires t.sig == SignatureText(presented)
    ensures Verify(token, secret, mac, nowExp, nowNbf) != Refused(BadSignature)
            <==> presented == mac(t.header + "." + t.payload, secret)
  {
    hide SplitToken, Trim, BearerToken, Parse, UrlDecode, SignatureText, CheckTimes;
    SignatureFaithful(mac(t.header + "." + t.payload, secret), presented);
    NeverBadSignature(Parse(UrlDecode(t.payload)), nowExp, nowNbf);
  }

  lemma NeverBadSignature(c: Claims, nowExp: int, nowNbf: int)
    ensures CheckTimes(c, nowExp, nowNbf) != Refused(BadSignature)
  {
    hide Claim;
  }
}
