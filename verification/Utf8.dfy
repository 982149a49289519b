/**
 Byte strings and UTF-8.  A Rust `Vec<u8>` or a Lua string is a Dafny string with one `char` per
 byte.  Rust's `String::from_utf8` accepts exactly the byte sequences of section 4 of RFC 3629.
 */
module Utf8 {
  ghost predicate IsBytes(s: string) {
    forall i :: 0 <= i < |s| ==> s[i] as int < 256
  }

  ghost predicate IsAscii(s: string) {
    forall i :: 0 <= i < |s| ==> s[i] as int < 128
  }

  predicate InRange(c: char, lo: int, hi: int) {
    lo <= c as int <= hi
  }

  predicate IsTail(c: char) {
    InRange(c, 0x80, 0xBF)
  }

  /** The length of the well-formed character `s` starts with, or 0 if it starts with none. */
  function LeadLength(s: string): (n: nat)
    ensures n <= 4 && n <= |s|
  {
    if |s| >= 1 && InRange(s[0], 0, 0x7F) then 1
    else if |s| >= 2 && InRange(s[0], 0xC2, 0xDF) && IsTail(s[1]) then 2
    else if |s| >= 3 && IsTail(s[2]) && (
              || (InRange(s[0], 0xE0, 0xE0) && InRange(s[1], 0xA0, 0xBF))
              || (InRange(s[0], 0xE1, 0xEC) && IsTail(s[1]))
              || (InRange(s[0], 0xED, 0xED) && InRange(s[1], 0x80, 0x9F))
              || (InRange(s[0], 0xEE, 0xEF) && IsTail(s[1]))) then 3
    else if |s| >= 4 && IsTail(s[2]) && IsTail(s[3]) && (
              || (InRange(s[0], 0xF0, 0xF0) && InRange(s[1], 0x90, 0xBF))
              || (InRange(s[0], 0xF1, 0xF3) && IsTail(s[1]))
              || (InRange(s[0], 0xF4, 0xF4) && InRange(s[1], 0x80, 0x8F))) then 4
    else 0
  }

  /** What `String::from_utf8` tests. */
  predicate Valid(s: string) {
    |s| == 0 || (LeadLength(s) > 0 && Valid(s[LeadLength(s)..]))
  }

  lemma {:induction false} AsciiIsValid(s: string)
    requires IsAscii(s)
    ensures Valid(s)
  {
    if |s| > 0 {
      assert LeadLength(s) == 1;
      AsciiIsValid(s[1..]);
    }
  }

  lemma LeadAppend(a: string, b: string)
    requires LeadLength(a) > 0
    ensures LeadLength(a + b) == LeadLength(a)
  {
    var n := LeadLength(a);
    assert (a + b)[..n] == a[..n];
    assert forall i :: 0 <= i < n ==> (a + b)[i] == a[i];
  }

  lemma {:induction false} ValidAppend(a: string, b: string)
    requires Valid(a) && Valid(b)
    ensures Valid(a + b)
  {
    hide LeadLength;
    if |a| == 0 {
      assert a + b == b;
    } else {
      LeadAppend(a, b);
      var n := LeadLength(a);
      assert (a + b)[n..] == a[n..] + b;
      ValidAppend(a[n..], b);
    }
  }

  lemma {:induction false} ValidBytes(s: string)
    requires Valid(s)
    ensures IsBytes(s)
  {
    if |s| > 0 {
      var n := LeadLength(s);
      ValidBytes(s[n..]);
      LeadBytes(s);
      assert s == s[..n] + s[n..];
    }
  }

  lemma LeadBytes(s: string)
    ensures IsBytes(s[..LeadLength(s)])
  {
  }

  /** The UTF-8 bytes of one character below U+0100 (section 3 of RFC 3629). */
  function Latin1Char(c: char): (r: string)
    requires c as int < 256
  {
    if c as int < 0x80 then [c] else [(0xC0 + c as int / 64) as char, (0x80 + c as int % 64) as char]
  }

  /**
   `result.iter().map(|&b| b as char).collect()`: every byte becomes the character of the same
   number, and the collected Rust `String` holds those characters in UTF-8.
   */
  function FromLatin1(s: string): (r: string)
    requires IsBytes(s)
  {
    if |s| == 0 then "" else Latin1Char(s[0]) + FromLatin1(s[1..])
  }

  lemma {:induction false} FromLatin1IsValid(s: string)
    requires IsBytes(s)
    ensures Valid(FromLatin1(s)) && IsBytes(FromLatin1(s)) && |FromLatin1(s)| >= |s|
  {
    if |s| > 0 {
      var head, rest := Latin1Char(s[0]), FromLatin1(s[1..]);
      FromLatin1IsValid(s[1..]);
      assert LeadLength(head + rest) == |head|;
      assert (head + rest)[|head|..] == rest;
    }
  }

  lemma {:induction false} FromLatin1Injective(a: string, b: string)
    requires IsBytes(a) && IsBytes(b)
    requires FromLatin1(a) == FromLatin1(b)
    ensures a == b
  {
    if |a| > 0 && |b| > 0 {
      var x, y := Latin1Char(a[0]), Latin1Char(b[0]);
      assert FromLatin1(a)[..|x|] == x && FromLatin1(b)[..|y|] == y;
      assert x[0] == FromLatin1(a)[0] == y[0];
      assert |x| == |y|;
      assert x[|x| - 1] == FromLatin1(a)[|x| - 1] == y[|x| - 1];
      assert a[0] == b[0];
      assert FromLatin1(a)[|x|..] == FromLatin1(a[1..]) && FromLatin1(b)[|y|..] == FromLatin1(b[1..]);
      FromLatin1Injective(a[1..], b[1..]);
      assert a == [a[0]] + a[1..] && b == [b[0]] + b[1..];
    }
  }
}
