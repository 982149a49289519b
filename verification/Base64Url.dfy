/**
 `b64url_encode`, `b64url_decode` and `hmac_sha256_b64url` of plugins/lib/jwt.lua: the URL-safe
 alphabet of section 5 of RFC 4648 without padding, on top of the host's Base64.
 */
module Base64Url {
  import opened Wrappers
  import opened Utf8
  import opened Base64

  /** `s:gsub(from, to)` for single plain characters. */
  function Gsub(s: string, from: char, to: char): (r: string)
    ensures |r| == |s| && forall i :: 0 <= i < |s| ==> r[i] == if s[i] == from then to else s[i]
  {
    if |s| == 0 then "" else [if s[0] == from then to else s[0]] + Gsub(s[1..], from, to)
  }

  /** `s:gsub("=+$", "")`. */
  function StripPadding(s: string): (r: string)
    ensures r <= s && (forall i :: |r| <= i < |s| ==> s[i] == '=') && (|r| > 0 ==> r[|r| - 1] != '=')
  {
    if |s| > 0 && s[|s| - 1] == '=' then StripPadding(s[..|s| - 1]) else s
  }

  /** `string.rep("=", n)`. */
  function Pads(n: nat): (r: string)
    ensures |r| == n && forall i :: 0 <= i < n ==> r[i] == '='
  {
    if n == 0 then "" else "=" + Pads(n - 1)
  }

  /** From Base64 text to base64url. */
  function UrlText(encoded: string): (r: string) {
    StripPadding(Gsub(Gsub(encoded, '+', '-'), '/', '_'))
  }

  function UrlEncode(s: string): (r: string)
    requires IsBytes(s)
  {
    UrlText(EncodeText(s))
  }

  /** The Base64 text `b64url_decode` hands to the host. */
  function Repad(s: string): (r: string) {
    var t := Gsub(Gsub(s, '-', '+'), '_', '/');
    t + Pads((4 - |t| % 4) % 4)
  }

  /** A failed decode is the empty string: `unwrap_or_default` in the host, `or ""` in Lua. */
  function UrlDecode(s: string): (r: string) {
    match DecodeText(Repad(s))
    case None => ""
    case Some(out) => out
  }

  /** The text of a MAC: its bytes as Latin-1 characters, their UTF-8, and that in base64url. */
  function SignatureText(mac: string): (r: string)
    requires IsBytes(mac)
  {
    FromLatin1IsValid(mac);
    UrlEncode(FromLatin1(mac))
  }

  ghost predicate IsUrlText(s: string) {
    forall i :: 0 <= i < |s| ==> IsUrlChar(s[i])
  }

  predicate IsUrlChar(c: char) {
    'A' <= c <= 'Z' || 'a' <= c <= 'z' || '0' <= c <= '9' || c == '-' || c == '_'
  }

  lemma StripOnlyPadding(s: string, n: nat)
    requires n <= |s|
    requires forall i :: n <= i < |s| ==> s[i] == '='
    requires n > 0 ==> s[n - 1] != '='
    ensures StripPadding(s) == s[..n]
  {
  }

  function UrlChar(c: char): (r: char) {
    if c == '+' then '-' else if c == '/' then '_' else c
  }

  function PlainChar(c: char): (r: char) {
    if c == '-' then '+' else if c == '_' then '/' else c
  }

  lemma UrlCharRoundTrip(c: char)
    requires 0 <= UnitOf(c) < PAD
    ensures IsUrlChar(UrlChar(c)) && UrlChar(c) != '=' && PlainChar(UrlChar(c)) == c
  {
  }

  lemma ToUrl(e: string, n: nat)
    requires n <= |e| && InAlphabet(e[..n])
    requires forall i :: n <= i < |e| ==> e[i] == '='
    ensures |UrlText(e)| == n && IsUrlText(UrlText(e))
    ensures forall i :: 0 <= i < n ==> UrlText(e)[i] == UrlChar(e[i])
  {
    var g := Gsub(Gsub(e, '+', '-'), '/', '_');
    assert forall i :: 0 <= i < |e| ==> g[i] == UrlChar(e[i]);
    forall i | 0 <= i < n
      ensures g[i] != '=' && IsUrlChar(g[i])
    {
      assert 0 <= UnitOf(e[..n][i]) < PAD;
      UrlCharRoundTrip(e[i]);
    }
    StripOnlyPadding(g, n);
  }

  lemma FromUrl(u: string, e: string)
    requires |u| <= |e| <= |u| + 2 && |e| % 4 == 0
    requires forall i :: 0 <= i < |u| ==> PlainChar(u[i]) == e[i]
    requires forall i :: |u| <= i < |e| ==> e[i] == '='
    ensures Repad(u) == e
  {
    var t := Gsub(Gsub(u, '-', '+'), '_', '/');
    assert forall i :: 0 <= i < |u| ==> t[i] == PlainChar(u[i]);
    assert (4 - |t| % 4) % 4 == |e| - |u|;
  }

  /** The translation of a text that is alphabet characters and then at most two `=`. */
  lemma UrlTextShape(e: string, n: nat)
    requires n <= |e| && |e| % 4 == 0 && |e| - n <= 2 && InAlphabet(e[..n])
    requires forall i :: n <= i < |e| ==> e[i] == '='
    ensures |UrlText(e)| == n && IsUrlText(UrlText(e))
    ensures Repad(UrlText(e)) == e
  {
    ToUrl(e, n);
    var u := UrlText(e);
    forall i | 0 <= i < n
      ensures PlainChar(u[i]) == e[i]
    {
      assert 0 <= UnitOf(e[..n][i]) < PAD;
      UrlCharRoundTrip(e[i]);
    }
    FromUrl(u, e);
  }

  lemma UrlEncodeShape(d: string)
    requires IsBytes(d)
    ensures IsUrlText(UrlEncode(d)) && |UrlEncode(d)| == (|d| + 2) / 3 * 4 - Padding(|d|)
    ensures |d| > 0 ==> |UrlEncode(d)| > 0
  {
    hide EncodeText, UrlText, Repad;
    EncodeShape(d);
    UrlTextShape(EncodeText(d), |EncodeText(d)| - Padding(|d|));
  }

  /** Translating back and padding to a multiple of four restores the standard text. */
  lemma RepadRestores(d: string)
    requires IsBytes(d)
    ensures Repad(UrlEncode(d)) == EncodeText(d)
  {
    hide EncodeText, UrlText, Repad;
    EncodeShape(d);
    UrlTextShape(EncodeText(d), |EncodeText(d)| - Padding(|d|));
  }

  /** Decoding an encoding gives back the whole three-byte groups, or nothing if they are not UTF-8. */
  lemma UrlDecodeAfterEncode(d: string)
    requires IsBytes(d)
    ensures UrlDecode(UrlEncode(d)) == if Valid(WholeGroups(d)) then WholeGroups(d) else ""
  {
    RepadRestores(d);
    DecodeAfterEncode(d);
  }

  lemma UrlEncodeInjective(a: string, b: string)
    requires IsBytes(a) && IsBytes(b) && UrlEncode(a) == UrlEncode(b)
    ensures a == b
  {
    RepadRestores(a);
    RepadRestores(b);
    EncodeInjective(a, b);
  }

  /** Two MACs have the same text only if they are the same bytes. */
  lemma SignatureFaithful(mac: string, other: string)
    requires IsBytes(mac) && IsBytes(other)
    ensures SignatureText(mac) == SignatureText(other) <==> mac == other
  {
    if SignatureText(mac) == SignatureText(other) {
      FromLatin1IsValid(mac);
      FromLatin1IsValid(other);
      UrlEncodeInjective(FromLatin1(mac), FromLatin1(other));
      FromLatin1Injective(mac, other);
    }
  }

  /** The two characters that differ from plain Base64 (section 5 of RFC 4648). */
  lemma KnownUrlEncoding()
    ensures UrlEncode([0xFB as char, 0xFF as char, 0xBF as char]) == "-_-_"
  {
    hide EncodeText;
    KnownEncodings();
    assert |"+/+/"| == 4 && "+/+/"[0] == '+';
  }
}
