/**
 The answer of `jwt.verify` for every token, told by the token's text: which three parts it carries,
 and what header, signature and claims then decide.
 */
module JwtExact {
  import opened Wrappers
  import opened Utf8
  import opened Base64Url
  import opened Json
  import opened JsonScan
  import opened JsonPieces
  import opened Jwt
  import opened JwtLaws

  // ---- The three parts of a token ----

  predicate AllSpaces(s: string) {
    forall i :: 0 <= i < |s| ==> IsSpace(s[i])
  }

  /** Spaces are what C calls so. */
  lemma SpacesExactly(c: char)
    ensures IsSpace(c) <==> c == ' ' || 9 <= c as int <= 13
  {
  }

  /** `[Bb]earer`, a space, and something more. */
  predicate HasScheme(token: string) {
    ("Bearer" <= token || "bearer" <= token) && |token| >= 8 && IsSpace(token[6])
  }

  function Credential(token: string): (s: string) {
    if HasScheme(token) then token[7..] else token
  }

  predicate DotFree(s: string) {
    |s| > 0 && forall i :: 0 <= i < |s| ==> s[i] != '.'
  }

  function Word(t: Parts): (s: string) {
    t.header + ("." + (t.payload + ("." + t.sig)))
  }

  /** No space at either end. */
  predicate Tight(s: string) {
    s == "" || (!IsSpace(s[0]) && !IsSpace(s[|s| - 1]))
  }

  /** The parts, joined by dots and surrounded by spaces, are the credential. */
  ghost predicate Carries(token: string, t: Parts) {
    && DotFree(t.header) && DotFree(t.payload) && DotFree(t.sig) && Tight(Word(t))
    && exists a: string, b: string :: AllSpaces(a) && AllSpaces(b) && Credential(token) == a + (Word(t) + b)
  }

  // ---- trim ----

  lemma {:induction false} SkipLeading(a: string, s: string)
    requires AllSpaces(a)
    ensures SkipSpaces(a + s) == SkipSpaces(s)
  {
    if |a| == 0 {
      assert a + s == s;
    } else {
      SpaceSkipped(a + s);
      assert (a + s)[1..] == a[1..] + s;
      SkipLeading(a[1..], s);
    }
  }

  lemma {:induction false} TrimTrailing(w: string, b: string)
    requires AllSpaces(b) && (w == "" || !IsSpace(w[|w| - 1]))
    ensures TrimEnd(w + b) == w
    decreases |b|
  {
    var s := w + b;
    if |b| == 0 {
      assert s == w;
    } else {
      assert s[|s| - 1] == b[|b| - 1];
      assert s[..|s| - 1] == w + b[..|b| - 1];
      TrimTrailing(w, b[..|b| - 1]);
    }
  }

  lemma TrimOf(a: string, w: string, b: string)
    requires AllSpaces(a) && AllSpaces(b) && Tight(w)
    ensures Trim(a + (w + b)) == w
  {
    hide SkipSpaces, TrimEnd, IsSpace;
    SkipLeading(a, w + b);
    if w == "" {
      assert w + b == b && b + "" == b;
      SkipLeading(b, "");
      NoSpaces("");
      TrimTrailing("", "");
      assert "" + "" == "";
    } else {
      assert (w + b)[0] == w[0];
      NoSpaces(w + b);
      TrimTrailing(w, b);
    }
  }

  lemma {:induction false} SkippedAreSpaces(s: string, i: nat)
    requires i < |s| - |SkipSpaces(s)|
    ensures IsSpace(s[i])
  {
    hide IsSpace;
    if i > 0 {
      SpaceSkipped(s);
      SkippedAreSpaces(s[1..], i - 1);
    }
  }

  lemma LeadingSpaces(s: string)
    ensures AllSpaces(s[..|s| - |SkipSpaces(s)|]) && s == s[..|s| - |SkipSpaces(s)|] + SkipSpaces(s)
  {
    hide IsSpace, SkipSpaces;
    forall i: nat | i < |s| - |SkipSpaces(s)|
      ensures IsSpace(s[i])
    {
      SkippedAreSpaces(s, i);
    }
  }

  lemma {:induction false} TrailingSpaces(s: string)
    ensures AllSpaces(s[|TrimEnd(s)|..]) && s == TrimEnd(s) + s[|TrimEnd(s)|..]
    ensures TrimEnd(s) == "" || !IsSpace(TrimEnd(s)[|TrimEnd(s)| - 1])
    decreases |s|
  {
    if |s| > 0 && IsSpace(s[|s| - 1]) {
      var t := s[..|s| - 1];
      TrailingSpaces(t);
      assert t[|TrimEnd(t)|..] + [s[|s| - 1]] == s[|TrimEnd(s)|..];
    }
  }

  lemma TrimParts(s: string) returns (a: string, b: string)
    ensures AllSpaces(a) && AllSpaces(b) && s == a + (Trim(s) + b) && Tight(Trim(s))
  {
    hide SkipSpaces, TrimEnd, IsSpace;
    LeadingSpaces(s);
    var t := SkipSpaces(s);
    TrailingSpaces(t);
    a, b := s[..|s| - |t|], t[|TrimEnd(t)|..];
    if TrimEnd(t) != "" { assert TrimEnd(t)[0] == t[0]; }
  }

  // ---- The three pieces ----

  lemma {:induction false} DotFirst(x: string, y: string)
    requires DotFree(x) || x == ""
    ensures DotAt(x + y) == |x| + DotAt(y)
    decreases |x|
  {
    if |x| == 0 {
      assert x + y == y;
    } else {
      assert (x + y)[1..] == x[1..] + y;
      DotFirst(x[1..], y);
    }
  }

  lemma NoDot(x: string)
    requires DotFree(x)
    ensures DotAt(x) == |x|
  {
    hide DotAt;
    DotFirst(x, "");
    assert x + "" == x;
    NoDotInNothing();
  }

  lemma NoDotInNothing()
    ensures DotAt("") == 0
  {
  }

  lemma AtDot(y: string)
    ensures DotAt("." + y) == 0
  {
  }

  lemma SplitDotExactly(s: string, x: string, y: string)
    ensures SplitDot(s) == Some((x, y)) <==> DotFree(x) && s == x + ("." + y)
  {
    hide DotAt;
    if DotFree(x) && s == x + ("." + y) {
      DotFirst(x, "." + y);
      AtDot(y);
      assert s[..|x|] == x && s[|x| + 1..] == y;
    }
    if SplitDot(s) == Some((x, y)) {
      assert x + "." + y == x + ("." + y);
    }
  }

  lemma SplitExactly(w: string, t: Parts)
    ensures SplitToken(w) == Some(t) <==> w == Word(t) && DotFree(t.header) && DotFree(t.payload) && DotFree(t.sig)
  {
    hide DotAt, SplitDot;
    var rest := t.payload + ("." + t.sig);
    SplitDotExactly(w, t.header, rest);
    SplitDotExactly(rest, t.payload, t.sig);
    if DotFree(t.sig) { NoDot(t.sig); }
    match SplitDot(w)
    case None =>
    case Some((h, r)) =>
      SplitDotExactly(w, h, r);
      match SplitDot(r)
      case None =>
      case Some((p, g)) => SplitDotExactly(r, p, g);
  }

  // ---- The scheme ----

  function Raw(token: string): (s: string) {
    match BearerToken(token) case Some(t) => t case None => token
  }

  lemma TrimSkips(s: string)
    ensures Trim(SkipSpaces(s)) == Trim(s)
  {
    hide TrimEnd;
    LeadingSpaces(s);
    NoSpaces(SkipSpaces(s));
  }

  lemma RawTrims(token: string)
    ensures Trim(Raw(token)) == Trim(Credential(token))
  {
    hide SkipSpaces, Trim, IsSpace;
    if "Bearer" <= token || "bearer" <= token {
      var s := token[6..];
      if |s| == 0 {
        NoSpaces(s);
      } else if !IsSpace(s[0]) {
        NoSpaces(s);
      } else {
        SpaceSkipped(s);
        assert s[1..] == token[7..];
        TrimSkips(s[1..]);
        if SkipSpaces(s) == "" && |s| > 1 {
          LeadingSpaces(s);
          assert s[..|s|] == s;
          OneSpace(s[|s| - 1..]);
        }
        if |s| == 1 {
          assert s[1..] == "";
          NoSpaces("");
        }
      }
    }
  }

  lemma OneSpace(s: string)
    requires |s| == 1 && IsSpace(s[0])
    ensures Trim(s) == "" && Trim("") == ""
  {
    assert s[1..] == "";
  }

  lemma CarriesExactly(token: string, t: Parts)
    ensures Carries(token, t) <==> SplitToken(Trim(Raw(token))) == Some(t)
  {
    hide SplitToken, Trim, Raw, Word, IsSpace, HasScheme;
    RawTrims(token);
    var s := Credential(token);
    if Carries(token, t) {
      var a: string, b: string :| AllSpaces(a) && AllSpaces(b) && s == a + (Word(t) + b);
      TrimOf(a, Word(t), b);
    }
    var a, b := TrimParts(s);
    SplitExactly(Trim(s), t);
  }

  // ---- The verdict ----

  function HeaderOf(t: Parts): (header: Claims) {
    Parse(UrlDecode(t.header))
  }

  lemma VerifyOfParts(token: string, t: Parts, secret: string, mac: Mac, nowExp: int, nowNbf: int)
    requires IsMac(mac) && Carries(token, t)
    ensures Verify(token, secret, mac, nowExp, nowNbf) == VerifyParts(t, secret, mac, nowExp, nowNbf)
  {
    hide SplitToken, Trim, BearerToken, VerifyParts, Carries;
    CarriesExactly(token, t);
  }

  lemma NothingCarried(token: string, secret: string, mac: Mac, nowExp: int, nowNbf: int) returns (t: Option<Parts>)
    requires IsMac(mac)
    ensures t.Some? ==> Carries(token, t.value)
    ensures t == None ==> Verify(token, secret, mac, nowExp, nowNbf) == Refused(InvalidFormat) && forall u :: !Carries(token, u)
  {
    hide SplitToken, Trim, BearerToken, VerifyParts, Carries;
    t := SplitToken(Trim(Raw(token)));
    if t.Some? { CarriesExactly(token, t.value); }
    forall u
      ensures Carries(token, u) <==> t == Some(u)
    {
      CarriesExactly(token, u);
    }
  }

  lemma CarriesOnce(token: string, t: Parts, u: Parts)
    requires Carries(token, t) && Carries(token, u)
    ensures t == u
  {
    hide Carries, SplitToken, Trim, Raw;
    CarriesExactly(token, t);
    CarriesExactly(token, u);
  }

  /** The header names HS256. */
  predicate IsHs256(t: Parts) {
    "alg" in HeaderOf(t) && HeaderOf(t)["alg"] == Str("HS256")
  }

  /** The third part is the text of this MAC over the first two. */
  ghost predicate IsSigned(t: Parts, secret: string, mac: Mac)
    requires IsMac(mac)
  {
    t.sig == SignatureText(mac(t.header + "." + t.payload, secret))
  }

  lemma PartsDecide(t: Parts, secret: string, mac: Mac, nowExp: int, nowNbf: int)
    requires IsMac(mac)
    ensures var v, c := VerifyParts(t, secret, mac, nowExp, nowNbf), Parse(UrlDecode(t.payload));
            && (v.Accepted? <==> IsHs256(t) && IsSigned(t, secret, mac) && InTime(c, nowExp, nowNbf))
            && (v.Accepted? ==> v == Accepted(c))
            && (forall alg :: v == Refused(UnsupportedAlgorithm(alg)) <==>
                  !IsHs256(t) && alg == if "alg" in HeaderOf(t) then Some(HeaderOf(t)["alg"]) else None)
            && (v == Refused(BadSignature) <==> IsHs256(t) && !IsSigned(t, secret, mac))
            && v != Refused(InvalidFormat)
  {
    hide Parse, UrlDecode, SignatureText, CheckTimes, InTime;
    var c := Parse(UrlDecode(t.payload));
    CheckTimesExact(c, nowExp, nowNbf);
    AcceptedUnchanged(c, nowExp, nowNbf);
    TimesOnly(c, nowExp, nowNbf);
  }

  lemma TimesOnly(c: Claims, nowExp: int, nowNbf: int)
    ensures CheckTimes(c, nowExp, nowNbf).Refused? ==>
              CheckTimes(c, nowExp, nowNbf).err == Expired || CheckTimes(c, nowExp, nowNbf).err == NotYetValid
  {
    hide Claim;
  }

  /**
   For every token and all claims `c`: it is accepted with `c` exactly when it carries three parts
   whose header names HS256, whose third part is this MAC, whose payload parses to `c`, and whose
   time claims allow the moment.
   */
  lemma AcceptedExactly(token: string, secret: string, mac: Mac, nowExp: int, nowNbf: int, c: Claims)
    requires IsMac(mac)
    ensures Verify(token, secret, mac, nowExp, nowNbf) == Accepted(c) <==>
              exists t :: && Carries(token, t) && IsHs256(t) && IsSigned(t, secret, mac)
                          && c == Parse(UrlDecode(t.payload)) && InTime(c, nowExp, nowNbf)
  {
    hide Verify, Carries, IsHs256, IsSigned, Parse, UrlDecode, InTime, VerifyParts;
    var t := NothingCarried(token, secret, mac, nowExp, nowNbf);
    if t.Some? {
      VerifyOfParts(token, t.value, secret, mac, nowExp, nowNbf);
      PartsDecide(t.value, secret, mac, nowExp, nowNbf);
      forall u | Carries(token, u)
        ensures u == t.value
      {
        CarriesOnce(token, t.value, u);
      }
    }
  }

  /**
   The refusals before the time checks: no three parts; a header that does not name HS256, whatever
   the signature; a third part that is not this MAC.
   */
  lemma RefusedExactly(token: string, secret: string, mac: Mac, nowExp: int, nowNbf: int)
    requires IsMac(mac)
    ensures var v := Verify(token, secret, mac, nowExp, nowNbf);
            && (v == Refused(InvalidFormat) <==> forall t :: !Carries(token, t))
            && (forall alg :: v == Refused(UnsupportedAlgorithm(alg)) <==>
                  exists t :: && Carries(token, t) && !IsHs256(t)
                              && alg == if "alg" in HeaderOf(t) then Some(HeaderOf(t)["alg"]) else None)
            && (v == Refused(BadSignature) <==>
                  exists t :: Carries(token, t) && IsHs256(t) && !IsSigned(t, secret, mac))
  {
    hide Verify, Carries, IsHs256, IsSigned, HeaderOf, VerifyParts;
    var t := NothingCarried(token, secret, mac, nowExp, nowNbf);
    if t.Some? {
      VerifyOfParts(token, t.value, secret, mac, nowExp, nowNbf);
      PartsDecide(t.value, secret, mac, nowExp, nowNbf);
      forall u | Carries(token, u)
        ensures u == t.value
      {
        CarriesOnce(token, t.value, u);
      }
    }
  }

  /** `now > exp` or `now < nbf` compares a number with something else. */
  ghost predicate TimesRaise(c: Claims, nowExp: int, nowNbf: int) {
    var exp, nbf := Claim(c, "exp"), Claim(c, "nbf");
    || (Truthy(exp) && NumberOf(exp) == None)
    || ((Truthy(exp) ==> nowExp as real <= NumberOf(exp).value) && Truthy(nbf) && NumberOf(nbf) == None)
  }

  ghost predicate IsExpired(c: Claims, nowExp: int) {
    var exp := Claim(c, "exp");
    Truthy(exp) && NumberOf(exp).Some? && nowExp as real > NumberOf(exp).value
  }

  /** A token of this secret, whose time claims are still to be checked. */
  ghost predicate IsGenuine(token: string, t: Parts, secret: string, mac: Mac)
    requires IsMac(mac)
  {
    Carries(token, t) && IsHs256(t) && IsSigned(t, secret, mac)
  }

  function ClaimsOf(t: Parts): (c: Claims) {
    Parse(UrlDecode(t.payload))
  }

  lemma TimesDecide(t: Parts, secret: string, mac: Mac, nowExp: int, nowNbf: int)
    requires IsMac(mac)
    ensures var v := VerifyParts(t, secret, mac, nowExp, nowNbf);
            var genuine := IsHs256(t) && IsSigned(t, secret, mac);
            && (v == Raised <==> genuine && TimesRaise(ClaimsOf(t), nowExp, nowNbf))
            && (v == Refused(Expired) <==> genuine && IsExpired(ClaimsOf(t), nowExp))
  {
    hide Parse, UrlDecode, SignatureText, CheckTimes;
    CheckTimesExact(ClaimsOf(t), nowExp, nowNbf);
  }

  /** The outcomes of the time checks: an error, or the token is out of date. */
  lemma OutOfTimeExactly(token: string, secret: string, mac: Mac, nowExp: int, nowNbf: int)
    requires IsMac(mac)
    ensures var v := Verify(token, secret, mac, nowExp, nowNbf);
            && (v == Raised <==>
                  exists t :: IsGenuine(token, t, secret, mac) && TimesRaise(ClaimsOf(t), nowExp, nowNbf))
            && (v == Refused(Expired) <==>
                  exists t :: IsGenuine(token, t, secret, mac) && IsExpired(ClaimsOf(t), nowExp))
  {
    hide Verify, Carries, IsHs256, IsSigned, ClaimsOf, TimesRaise, IsExpired, VerifyParts;
    var t := NothingCarried(token, secret, mac, nowExp, nowNbf);
    if t.Some? {
      VerifyOfParts(token, t.value, secret, mac, nowExp, nowNbf);
      TimesDecide(t.value, secret, mac, nowExp, nowNbf);
      assert IsGenuine(token, t.value, secret, mac) <==> IsHs256(t.value) && IsSigned(t.value, secret, mac);
      forall u | Carries(token, u)
        ensures u == t.value
      {
        CarriesOnce(token, t.value, u);
      }
    }
  }
}
