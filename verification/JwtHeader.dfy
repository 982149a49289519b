/** The text of a signed token, with the header part every HS256 token of this signer begins with. */
module JwtHeader {
  import opened Utf8
  import opened Base64
  import opened Base64Url
  import opened Json
  import opened Jwt

  lemma GroupThen(g: string, rest: string, us: seq<int>, text: string, more: string)
    requires |g| == 3 && IsBytes(g) && IsBytes(rest) && EncodeGroup(g) == us && EncodeText(rest) == more
    requires |text| == 4 && forall i :: 0 <= i < 4 ==> text[i] == CharOf(us[i])
    ensures IsBytes(g + rest) && EncodeText(g + rest) == text + more
  {
    hide EncodeGroup, EncodeText, CharsOf, CharOf;
    var s := g + rest;
    EncodeStep(s);
    assert s[..3] == g && s[3..] == rest;
    assert CharsOf(us) == text;
  }

  lemma Unaltered(s: string)
    requires forall i :: 0 <= i < |s| ==> s[i] != '+' && s[i] != '/' && s[i] != '='
    ensures UrlText(s) == s
  {
    hide Gsub, StripPadding;
    assert Gsub(s, '+', '-') == s;
    assert Gsub(s, '/', '_') == s;
    StripOnlyPadding(s, |s|);
    assert s[..|s|] == s;
  }

  lemma JwtEnd()
    ensures IsBytes("\"JWT\"}") && EncodeText("\"JWT\"}") == "IkpXVCJ9"
  {
    hide EncodeText;
    EncodeEmpty();
    GroupThen("T\"}", "", [21, 2, 9, 61], "VCJ9", "");
    GroupThen("\"JW", "T\"}" + "", [8, 36, 41, 23], "IkpX", "VCJ9" + "");
    assert "\"JWT\"}" == "\"JW" + ("T\"}" + "") && "IkpXVCJ9" == "IkpX" + ("VCJ9" + "");
  }

  lemma Typ()
    ensures IsBytes("\"typ\":\"JWT\"}") && EncodeText("\"typ\":\"JWT\"}") == "InR5cCI6IkpXVCJ9"
  {
    hide EncodeText;
    JwtEnd();
    GroupThen("p\":", "\"JWT\"}", [28, 2, 8, 58], "cCI6", "IkpXVCJ9");
    GroupThen("\"ty", "p\":" + "\"JWT\"}", [8, 39, 17, 57], "InR5", "cCI6" + "IkpXVCJ9");
    TypGlue();
  }

  lemma TypGlue()
    ensures "\"typ\":\"JWT\"}" == "\"ty" + ("p\":" + "\"JWT\"}")
    ensures "InR5cCI6IkpXVCJ9" == "InR5" + ("cCI6" + "IkpXVCJ9")
  {
  }

  lemma Alg(rest: string)
    requires IsBytes(rest)
    ensures IsBytes("{\"alg\":\"HS256\"," + rest)
    ensures EncodeText("{\"alg\":\"HS256\"," + rest) == "eyJhbGciOiJIUzI1NiIs" + EncodeText(rest)
  {
    hide EncodeText;
    var more := EncodeText(rest);
    GroupThen("6\",", rest, [13, 34, 8, 44], "NiIs", more);
    GroupThen("S25", "6\"," + rest, [20, 51, 8, 53], "UzI1", "NiIs" + more);
    GroupThen(":\"H", "S25" + ("6\"," + rest), [14, 34, 9, 8], "OiJI", "UzI1" + ("NiIs" + more));
    GroupThen("lg\"", ":\"H" + ("S25" + ("6\"," + rest)), [27, 6, 28, 34], "bGci", "OiJI" + ("UzI1" + ("NiIs" + more)));
    GroupThen("{\"a", "lg\"" + (":\"H" + ("S25" + ("6\"," + rest))), [30, 50, 9, 33], "eyJh",
      "bGci" + ("OiJI" + ("UzI1" + ("NiIs" + more))));
    assert "{\"alg\":\"HS256\"," + rest == "{\"a" + ("lg\"" + (":\"H" + ("S25" + ("6\"," + rest))));
    assert "eyJhbGciOiJIUzI1NiIs" + more == "eyJh" + ("bGci" + ("OiJI" + ("UzI1" + ("NiIs" + more))));
  }

  const HEADER_PART := "eyJhbGciOiJIUzI1NiIs" + "InR5cCI6IkpXVCJ9"

  lemma HeaderPart()
    ensures IsBytes(HEADER_JSON) && UrlEncode(HEADER_JSON) == HEADER_PART
  {
    hide EncodeText, UrlText;
    Typ();
    Alg("\"typ\":\"JWT\"}");
    Unaltered(HEADER_PART);
  }

  /** `sign`: that header, the claims' JSON in base64url, and the MAC over both, with dots between. */
  lemma SignExactly(claims: LuaValue, secret: string, mac: Mac)
    requires Printable(claims) && IsBytes(Print(claims)) && IsMac(mac)
    ensures var signed := HEADER_PART + ("." + UrlEncode(Print(claims)));
            Sign(claims, secret, mac) == signed + ("." + SignatureText(mac(signed, secret)))
  {
    hide UrlEncode, Print, SignatureText, HEADER_PART;
    HeaderPart();
    var json := Print(claims);
    assert SigningInput(json) == HEADER_PART + ("." + UrlEncode(json));
  }
}
