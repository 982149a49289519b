/**
 UTF-8 by arithmetic (section 3 of RFC 3629): the bytes of a sequence of Unicode scalar values.  The
 byte strings that Rust's `String::from_utf8` takes are exactly those, and so the decoder's answers.
 */
module Scalars {
  import opened Wrappers
  import opened Utf8
  import opened Base64

  predicate IsScalar(c: int) {
    0 <= c <= 0xD7FF || 0xE000 <= c <= 0x10FFFF
  }

  predicate AreScalars(cs: seq<int>) {
    forall i :: 0 <= i < |cs| ==> IsScalar(cs[i])
  }

  /** One to four bytes: the number in base 64 behind a lead byte that says how many follow. */
  function BytesOf(c: int): (s: string)
    requires IsScalar(c)
    ensures 1 <= |s| <= 4 && IsBytes(s)
  {
    if c < 0x80 then [c as char]
    else if c < 0x800 then [(0xC0 + c / 64) as char, (0x80 + c % 64) as char]
    else if c < 0x10000 then [(0xE0 + c / 4096) as char, (0x80 + c / 64 % 64) as char, (0x80 + c % 64) as char]
    else [(0xF0 + c / 262144) as char, (0x80 + c / 4096 % 64) as char, (0x80 + c / 64 % 64) as char, (0x80 + c % 64) as char]
  }

  function TextOf(cs: seq<int>): (s: string)
    requires AreScalars(cs)
  {
    if |cs| == 0 then "" else BytesOf(cs[0]) + TextOf(cs[1..])
  }

  // ---- One character ----

  lemma ThreeDigits(c: int) returns (x: int, y: int, z: int)
    requires 0 <= c < 0x10000
    ensures c / 4096 == x && c / 64 % 64 == y && c % 64 == z
    ensures c == x * 4096 + y * 64 + z && 0 <= x < 16 && 0 <= y < 64 && 0 <= z < 64
  {
    var h := c / 64;
    x, y, z := h / 64, h % 64, c % 64;
    assert c == h * 64 + z;
    assert h == x * 64 + y;
    assert x * 4096 <= c < (x + 1) * 4096;
  }

  lemma FourDigits(c: int) returns (w: int, x: int, y: int, z: int)
    requires 0 <= c <= 0x10FFFF
    ensures c / 262144 == w && c / 4096 % 64 == x && c / 64 % 64 == y && c % 64 == z
    ensures c == w * 262144 + x * 4096 + y * 64 + z && 0 <= w <= 4 && 0 <= x < 64 && 0 <= y < 64 && 0 <= z < 64
  {
    var h := c / 4096;
    var low := c - h * 4096;
    w, x, y, z := h / 64, h % 64, low / 64, low % 64;
    assert h == w * 64 + x;
    assert w * 262144 <= c < (w + 1) * 262144;
    LowDigits(c, h, low);
  }

  lemma LowDigits(c: int, h: int, low: int)
    requires c == h * 4096 + low && 0 <= low < 4096
    ensures c / 64 % 64 == low / 64 && c % 64 == low % 64
  {
    assert c / 64 == h * 64 + low / 64;
  }

  lemma ThreeByteLead(c: int)
    requires IsScalar(c) && 0x800 <= c < 0x10000
    ensures LeadLength(BytesOf(c)) == 3
  {
    var x, y, z := ThreeDigits(c);
    assert BytesOf(c) == [(0xE0 + x) as char, (0x80 + y) as char, (0x80 + z) as char];
    hide BytesOf;
  }

  lemma FourByteLead(c: int)
    requires IsScalar(c) && c >= 0x10000
    ensures LeadLength(BytesOf(c)) == 4
  {
    var w, x, y, z := FourDigits(c);
    assert BytesOf(c) == [(0xF0 + w) as char, (0x80 + x) as char, (0x80 + y) as char, (0x80 + z) as char];
    hide BytesOf;
  }

  lemma LeadOfScalar(c: int, rest: string)
    requires IsScalar(c)
    ensures LeadLength(BytesOf(c) + rest) == |BytesOf(c)|
  {
    assert LeadLength(BytesOf(c)) == |BytesOf(c)| by {
      if 0x800 <= c < 0x10000 {
        ThreeByteLead(c);
      } else if c >= 0x10000 {
        FourByteLead(c);
      }
    }
    hide LeadLength, BytesOf;
    LeadAppend(BytesOf(c), rest);
  }

  /** The number the first `n` bytes of `s` say. */
  function ScalarOf(s: string, n: nat): (c: int)
    requires 1 <= n <= 4 && n <= |s|
  {
    if n == 1 then s[0] as int
    else if n == 2 then (s[0] as int - 0xC0) * 64 + (s[1] as int - 0x80)
    else if n == 3 then (s[0] as int - 0xE0) * 4096 + (s[1] as int - 0x80) * 64 + (s[2] as int - 0x80)
    else (s[0] as int - 0xF0) * 262144 + (s[1] as int - 0x80) * 4096 + (s[2] as int - 0x80) * 64 + (s[3] as int - 0x80)
  }

  lemma Digits64(a: int, b: int, c: int, d: int)
    requires 0 <= a && 0 <= b < 64 && 0 <= c < 64 && 0 <= d < 64
    ensures (a * 64 + b) / 64 == a && (a * 64 + b) % 64 == b
    ensures (a * 4096 + b * 64 + c) / 4096 == a && (a * 4096 + b * 64 + c) / 64 % 64 == b && (a * 4096 + b * 64 + c) % 64 == c
    ensures var x := a * 262144 + b * 4096 + c * 64 + d;
            x / 262144 == a && x / 4096 % 64 == b && x / 64 % 64 == c && x % 64 == d
  {
    var x := a * 262144 + b * 4096 + c * 64 + d;
    assert x / 64 == a * 4096 + b * 64 + c;
    assert x / 4096 == a * 64 + b;
  }

  ghost predicate ReadsBack(s: string, n: nat)
    requires 1 <= n <= 4 && n <= |s|
  {
    IsScalar(ScalarOf(s, n)) && BytesOf(ScalarOf(s, n)) == s[..n]
  }

  lemma OneByte(s: string)
    requires LeadLength(s) == 1
    ensures ReadsBack(s, 1)
  {
  }

  lemma TwoBytes(s: string)
    requires LeadLength(s) == 2
    ensures ReadsBack(s, 2)
  {
    Digits64(s[0] as int - 0xC0, s[1] as int - 0x80, 0, 0);
  }

  lemma ThreeBytes(s: string)
    requires LeadLength(s) == 3
    ensures ReadsBack(s, 3)
  {
    var a, b, c := s[0] as int - 0xE0, s[1] as int - 0x80, s[2] as int - 0x80;
    Digits64(a, b, c, 0);
    assert s[..3] == [s[0], s[1], s[2]];
  }

  lemma FourBytes(s: string)
    requires LeadLength(s) == 4
    ensures ReadsBack(s, 4)
  {
    var a, b, c, d := s[0] as int - 0xF0, s[1] as int - 0x80, s[2] as int - 0x80, s[3] as int - 0x80;
    Digits64(a, b, c, d);
    assert s[..4] == [s[0], s[1], s[2], s[3]];
  }

  lemma ScalarOfLead(s: string)
    requires LeadLength(s) > 0
    ensures IsScalar(ScalarOf(s, LeadLength(s))) && BytesOf(ScalarOf(s, LeadLength(s))) == s[..LeadLength(s)]
  {
    hide LeadLength, ScalarOf, BytesOf;
    var n := LeadLength(s);
    if n == 1 {
      OneByte(s);
    } else if n == 2 {
      TwoBytes(s);
    } else if n == 3 {
      ThreeBytes(s);
    } else {
      FourBytes(s);
    }
  }

  // ---- Texts ----

  lemma {:induction false} TextIsValid(cs: seq<int>)
    requires AreScalars(cs)
    ensures Valid(TextOf(cs))
  {
    hide BytesOf, LeadLength;
    if |cs| > 0 {
      TextIsValid(cs[1..]);
      LeadOfScalar(cs[0], TextOf(cs[1..]));
      assert TextOf(cs)[|BytesOf(cs[0])|..] == TextOf(cs[1..]);
    }
  }

  lemma {:induction false} ValidIsText(s: string) returns (cs: seq<int>)
    requires Valid(s)
    ensures AreScalars(cs) && TextOf(cs) == s
    decreases |s|
  {
    hide BytesOf, LeadLength, ScalarOf;
    if |s| == 0 {
      cs := [];
    } else {
      var n := LeadLength(s);
      ScalarOfLead(s);
      var rest := ValidIsText(s[n..]);
      cs := [ScalarOf(s, n)] + rest;
      assert cs[1..] == rest;
      assert s == s[..n] + s[n..];
    }
  }

  /** A byte string is valid exactly when it is the UTF-8 of a sequence of scalar values. */
  lemma ValidExactly(s: string)
    ensures Valid(s) <==> exists cs: seq<int> :: AreScalars(cs) && TextOf(cs) == s
  {
    hide Valid;
    if Valid(s) {
      var cs := ValidIsText(s);
    }
    forall cs: seq<int> | AreScalars(cs) && TextOf(cs) == s
      ensures Valid(s)
    {
      TextIsValid(cs);
    }
  }

  /** Different sequences have different bytes. */
  lemma {:induction false} TextInjective(cs: seq<int>, ds: seq<int>)
    requires AreScalars(cs) && AreScalars(ds) && TextOf(cs) == TextOf(ds)
    ensures cs == ds
    decreases |cs|
  {
    hide BytesOf, LeadLength, ScalarOf;
    if |cs| > 0 && |ds| > 0 {
      LeadOfScalar(cs[0], TextOf(cs[1..]));
      LeadOfScalar(ds[0], TextOf(ds[1..]));
      var n := LeadLength(TextOf(cs));
      assert BytesOf(cs[0]) == TextOf(cs)[..n] == BytesOf(ds[0]);
      assert TextOf(cs[1..]) == TextOf(cs)[n..] == TextOf(ds[1..]);
      BytesInjective(cs[0], ds[0]);
      TextInjective(cs[1..], ds[1..]);
    }
  }

  lemma BytesInjective(c: int, d: int)
    requires IsScalar(c) && IsScalar(d) && BytesOf(c) == BytesOf(d)
    ensures c == d
  {
    ScalarOfBytes(c);
    ScalarOfBytes(d);
  }

  lemma ScalarOfBytes(c: int)
    requires IsScalar(c)
    ensures ScalarOf(BytesOf(c), |BytesOf(c)|) == c
  {
    InBase64(c);
    var b := BytesOf(c);
    if c < 0x80 {
    } else if c < 0x800 {
      assert b[0] as int - 0xC0 == c / 64 && b[1] as int - 0x80 == c % 64;
    } else if c < 0x10000 {
      assert b[0] as int - 0xE0 == c / 4096 && b[1] as int - 0x80 == c / 64 % 64 && b[2] as int - 0x80 == c % 64;
    } else {
      assert b[0] as int - 0xF0 == c / 262144 && b[1] as int - 0x80 == c / 4096 % 64;
      assert b[2] as int - 0x80 == c / 64 % 64 && b[3] as int - 0x80 == c % 64;
    }
  }

  lemma InBase64(c: int)
    requires c >= 0
    ensures c / 64 * 64 + c % 64 == c
    ensures c / 4096 * 4096 + c / 64 % 64 * 64 + c % 64 == c
    ensures c / 262144 * 262144 + c / 4096 % 64 * 4096 + c / 64 % 64 * 64 + c % 64 == c
  {
    assert c / 64 / 64 == c / 4096 && c / 4096 / 64 == c / 262144;
  }

  // ---- The host's strings ----

  /** The bytes of a string of scalar values that each are the number of a byte. */
  function CodesOf(s: string): (cs: seq<int>)
    requires IsBytes(s)
    ensures |cs| == |s| && forall i :: 0 <= i < |s| ==> cs[i] == s[i] as int
  {
    if |s| == 0 then [] else [s[0] as int] + CodesOf(s[1..])
  }

  /** The MAC string is the UTF-8 of the characters whose numbers are the MAC's bytes. */
  lemma {:induction false} FromLatin1IsText(s: string)
    requires IsBytes(s)
    ensures FromLatin1(s) == TextOf(CodesOf(s))
  {
    if |s| > 0 { FromLatin1IsText(s[1..]); }
  }

  /** The decoder answers exactly when its bytes are the UTF-8 of some characters, and then with those bytes. */
  lemma DecodesTextExactly(s: string)
    ensures DecodeText(s).Some? <==> DecodeBytes(s).Some?
                                     && exists cs: seq<int> :: AreScalars(cs) && TextOf(cs) == DecodeBytes(s).value
    ensures DecodeText(s).Some? ==> DecodeText(s) == DecodeBytes(s)
  {
    hide DecodeBytes, Valid;
    if DecodeBytes(s).Some? { ValidExactly(DecodeBytes(s).value); }
  }

  /** Any text whose bytes fill whole groups comes back through the host's Base64. */
  lemma TextSurvives(cs: seq<int>)
    requires AreScalars(cs) && |TextOf(cs)| % 3 == 0
    ensures IsBytes(TextOf(cs)) && DecodeText(EncodeText(TextOf(cs))) == Some(TextOf(cs))
  {
    hide TextOf, Valid, DecodeText, EncodeText;
    TextIsValid(cs);
    ValidBytes(TextOf(cs));
    DecodeAfterEncode(TextOf(cs));
    assert WholeGroups(TextOf(cs)) == TextOf(cs);
  }

  /** For example "7ZWc" is the three bytes of U+D55C. */
  lemma HangulSurvives()
    ensures IsScalar(0xD55C) && BytesOf(0xD55C) == [0xED as char, 0x95 as char, 0x9C as char]
    ensures DecodeText("7ZWc") == Some(BytesOf(0xD55C))
  {
    var b := BytesOf(0xD55C);
    assert b == [0xED as char, 0x95 as char, 0x9C as char];
    assert TextOf([0xD55C]) == b + "" == b;
    TextIsValid([0xD55C]);
    HangulUnits();
    hide Valid, DecodeUnits;
    assert DecodeBytes("7ZWc") == Some(b);
  }

  lemma HangulUnits()
    ensures DecodeBytes("7ZWc") == Some([0xED as char, 0x95 as char, 0x9C as char])
  {
    var us := UnitsOf("7ZWc");
    assert us == [59, 25, 22, 28];
    assert us[..4] == us && us[4..] == [];
    assert DecodeUnits([]) == Some("");
    DecodeUnitsCons(us);
    assert DecodeGroup(us) == [0xED as char, 0x95 as char, 0x9C as char];
    assert DecodeGroup(us) + "" == DecodeGroup(us);
  }
}
