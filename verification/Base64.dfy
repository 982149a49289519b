/**
 The hand-written Base64 codec of src/lua/engine.rs (section 4 of RFC 4648).  The arithmetic is
 done on units: 0..63 for the alphabet, PAD for `=`, FOREIGN for every other character.  A shift or
 mask of the unsigned 24-bit word is written as the division or remainder it is.
 */
module Base64 {
  import opened Wrappers
  import opened Utf8

  const CHARS: string := "ABCDEFGHIJKLMNOPQRSTUVWXYZ" + "abcdefghijklmnopqrstuvwxyz" + "0123456789+/"

  const PAD := 64
  const FOREIGN := -1

  // ---- Units and characters ----

  function UnitOf(c: char): (u: int)
    ensures FOREIGN <= u <= PAD
  {
    if 'A' <= c <= 'Z' then c as int - 65
    else if 'a' <= c <= 'z' then c as int - 71
    else if '0' <= c <= '9' then c as int + 4
    else if c == '+' then 62
    else if c == '/' then 63
    else if c == '=' then PAD
    else FOREIGN
  }

  function CharOf(u: int): (c: char)
    requires 0 <= u <= PAD
    ensures UnitOf(c) == u && c as int < 128
  {
    if u < 26 then (u + 65) as char
    else if u < 52 then (u + 71) as char
    else if u < 62 then (u - 4) as char
    else if u == 62 then '+'
    else if u == 63 then '/'
    else '='
  }

  lemma CharOfUnit(c: char)
    requires UnitOf(c) >= 0
    ensures CharOf(UnitOf(c)) == c
  {
  }

  lemma CharsIsAlphabet(v: int)
    requires 0 <= v < 64
    ensures |CHARS| == 64 && CHARS[v] == CharOf(v)
  {
  }

  ghost predicate AreUnits(us: seq<int>) {
    forall i :: 0 <= i < |us| ==> 0 <= us[i] <= PAD
  }

  ghost predicate AreSextets(us: seq<int>) {
    forall i :: 0 <= i < |us| ==> 0 <= us[i] < PAD
  }

  function CharsOf(us: seq<int>): (s: string)
    requires AreUnits(us)
    ensures |s| == |us| && forall i :: 0 <= i < |us| ==> s[i] == CharOf(us[i])
  {
    if |us| == 0 then "" else [CharOf(us[0])] + CharsOf(us[1..])
  }

  function UnitsOf(s: string): (us: seq<int>)
    ensures |us| == |s| && forall i :: 0 <= i < |s| ==> us[i] == UnitOf(s[i])
  {
    if |s| == 0 then [] else [UnitOf(s[0])] + UnitsOf(s[1..])
  }

  ghost predicate InAlphabet(s: string) {
    forall i :: 0 <= i < |s| ==> 0 <= UnitOf(s[i]) < PAD
  }

  lemma CharsOfAppend(us: seq<int>, vs: seq<int>)
    requires AreUnits(us) && AreUnits(vs)
    ensures CharsOf(us) + CharsOf(vs) == CharsOf(us + vs)
  {
  }

  lemma UnitsOfChars(us: seq<int>)
    requires AreUnits(us)
    ensures UnitsOf(CharsOf(us)) == us && IsAscii(CharsOf(us))
  {
  }

  lemma CharsOfUnits(s: string)
    requires AreUnits(UnitsOf(s))
    ensures CharsOf(UnitsOf(s)) == s
  {
    forall i | 0 <= i < |s|
      ensures CharsOf(UnitsOf(s))[i] == s[i]
    {
      assert UnitsOf(s)[i] == UnitOf(s[i]);
      CharOfUnit(s[i]);
    }
  }

  // ---- One group of three bytes and four units ----

  /** The bits of one to three bytes regrouped by six, missing bytes being zero. */
  function EncodeGroup(chunk: string): (r: seq<int>)
    requires 1 <= |chunk| <= 3 && IsBytes(chunk)
    ensures |r| == 4 && AreUnits(r)
  {
    var b0 := chunk[0] as int;
    var b1 := if |chunk| > 1 then chunk[1] as int else 0;
    var b2 := if |chunk| > 2 then chunk[2] as int else 0;
    [ b0 / 4,
      b0 % 4 * 16 + b1 / 16,
      if |chunk| > 1 then b1 % 16 * 4 + b2 / 64 else PAD,
      if |chunk| > 2 then b2 % 64 else PAD ]
  }

  /** The bits of four sextets regrouped by eight. */
  function DecodeGroup(g: seq<int>): (r: string)
    requires |g| == 4 && AreSextets(g)
    ensures |r| == 3 && IsBytes(r)
  {
    [(g[0] * 4 + g[1] / 16) as char, (g[1] % 16 * 16 + g[2] / 4) as char, (g[2] % 4 * 64 + g[3]) as char]
  }

  lemma Remainder(n: int, q: int, r: int)
    requires n == q * 64 + r && 0 <= r < 64
    ensures n % 64 == r
  {
  }

  /** The encoder's shifts and masks of the 24-bit word are that regrouping. */
  lemma ShiftsOfWord(b0: int, b1: int, b2: int, n: int)
    requires 0 <= b0 < 256 && 0 <= b1 < 256 && 0 <= b2 < 256
    requires n == b0 * 65536 + b1 * 256 + b2
    ensures n / 262144 % 64 == b0 / 4 && n / 4096 % 64 == b0 % 4 * 16 + b1 / 16
    ensures n / 64 % 64 == b1 % 16 * 4 + b2 / 64 && n % 64 == b2 % 64
  {
    var q1, r1, q2 := b1 / 16, b1 % 16, b2 / 64;
    assert n / 262144 == b0 / 4 by { assert n == b0 / 4 * 262144 + (b0 % 4 * 65536 + b1 * 256 + b2); }
    assert n / 4096 == b0 * 16 + q1 by { assert n == (b0 * 16 + q1) * 4096 + (r1 * 256 + b2); }
    assert n / 64 == b0 * 1024 + b1 * 4 + q2 by { assert n == (b0 * 1024 + b1 * 4 + q2) * 64 + b2 % 64; }
    Remainder(b0 * 16 + q1, b0 / 4, b0 % 4 * 16 + q1);
    Remainder(b0 * 1024 + b1 * 4 + q2, b0 * 16 + q1, r1 * 4 + q2);
    Remainder(n, b0 * 1024 + b1 * 4 + q2, b2 % 64);
  }

  /** So are the decoder's. */
  lemma ShiftsOfSextets(v0: int, v1: int, v2: int, v3: int, n: int)
    requires 0 <= v0 < 64 && 0 <= v1 < 64 && 0 <= v2 < 64 && 0 <= v3 < 64
    requires n == v0 * 262144 + v1 * 4096 + v2 * 64 + v3
    ensures n / 65536 % 256 == v0 * 4 + v1 / 16 && n / 256 % 256 == v1 % 16 * 16 + v2 / 4
    ensures n % 256 == v2 % 4 * 64 + v3
  {
    assert n / 65536 == v0 * 4 + v1 / 16;
    assert n / 256 == v0 * 1024 + v1 * 16 + v2 / 4;
  }

  /** Where a group holds padding and where it holds sextets. */
  lemma GroupShape(chunk: string)
    requires 1 <= |chunk| <= 3 && IsBytes(chunk)
    ensures forall i :: 0 <= i <= |chunk| ==> 0 <= EncodeGroup(chunk)[i] < PAD
    ensures forall i :: |chunk| < i < 4 ==> EncodeGroup(chunk)[i] == PAD
  {
  }

  lemma GroupRoundTrip(chunk: string)
    requires |chunk| == 3 && IsBytes(chunk)
    ensures AreSextets(EncodeGroup(chunk))
    ensures DecodeGroup(EncodeGroup(chunk)) == chunk
  {
  }

  lemma GroupRoundTripBack(g: seq<int>)
    requires |g| == 4 && AreSextets(g)
    ensures EncodeGroup(DecodeGroup(g)) == g
  {
    Regrouped(g[0], g[1], g[2], g[3]);
  }

  lemma Regrouped(v0: int, v1: int, v2: int, v3: int)
    requires 0 <= v0 < 64 && 0 <= v1 < 64 && 0 <= v2 < 64 && 0 <= v3 < 64
    ensures var b0, b1, b2 := v0 * 4 + v1 / 16, v1 % 16 * 16 + v2 / 4, v2 % 4 * 64 + v3;
            b0 / 4 == v0 && b0 % 4 * 16 + b1 / 16 == v1 && b1 % 16 * 4 + b2 / 64 == v2 && b2 % 64 == v3
  {
  }

  lemma GroupInjective(a: string, b: string)
    requires 1 <= |a| <= 3 && IsBytes(a) && 1 <= |b| <= 3 && IsBytes(b)
    requires EncodeGroup(a) == EncodeGroup(b)
    ensures a == b
  {
    GroupShape(a);
    GroupShape(b);
    var g, h := EncodeGroup(a), EncodeGroup(b);
    assert g[0] == h[0] && g[1] == h[1] && g[2] == h[2] && g[3] == h[3];
    assert a[0] as int == b[0] as int;
  }

  // ---- Whole strings ----

  function EncodeUnits(data: string): (r: seq<int>)
    requires IsBytes(data)
    ensures AreUnits(r)
    decreases |data|
  {
    if |data| == 0 then []
    else
      var k := if |data| < 3 then |data| else 3;
      EncodeGroup(data[..k]) + EncodeUnits(data[k..])
  }

  /** What `base64_encode` prints. */
  function EncodeText(data: string): (r: string)
    requires IsBytes(data)
  {
    CharsOf(EncodeUnits(data))
  }

  function DecodeUnits(us: seq<int>): (r: Option<string>)
    decreases |us|
  {
    if |us| < 4 || PAD in us[..4] then Some("")
    else if FOREIGN in us[..4] || !(forall i :: 0 <= i < 4 ==> 0 <= us[..4][i] < PAD) then None
    else
      match DecodeUnits(us[4..])
      case None => None
      case Some(rest) => Some(DecodeGroup(us[..4]) + rest)
  }

  /** The bytes `base64_decode` has pushed when it stops, None if it meets a foreign character. */
  function DecodeBytes(s: string): (r: Option<string>) {
    DecodeUnits(UnitsOf(s))
  }

  /** `String::from_utf8(out).ok()`, with `out` as far as the loop got. */
  function DecodeText(s: string): (r: Option<string>) {
    match DecodeBytes(s)
    case None => None
    case Some(out) => if Valid(out) then Some(out) else None
  }

  method Lookup(v: int) returns (c: char)
    requires 0 <= v < 64
    ensures c == CharOf(v)
  {
    CharsIsAlphabet(v);
    c := CHARS[v];
  }

  /** The four characters of one chunk. */
  method EncodeChunk(chunk: string) returns (out: string)
    requires 1 <= |chunk| <= 3 && IsBytes(chunk)
    ensures out == CharsOf(EncodeGroup(chunk))
  {
    var b0 := chunk[0] as int;
    var b1 := if |chunk| == 1 then 0 else chunk[1] as int;
    var b2 := if |chunk| <= 2 then 0 else chunk[2] as int;
    var n := b0 * 65536 + b1 * 256 + b2;
    ShiftsOfWord(b0, b1, b2, n);
    var c0 := Lookup(n / 262144 % 64);
    var c1 := Lookup(n / 4096 % 64);
    var c2, c3 := '=', '=';
    if |chunk| > 1 { c2 := Lookup(n / 64 % 64); }
    if |chunk| > 2 { c3 := Lookup(n % 64); }
    out := [c0, c1, c2, c3];
  }

  lemma EncodeEmpty()
    ensures EncodeText("") == ""
  {
  }

  lemma EncodeStep(data: string)
    requires IsBytes(data) && |data| > 0
    ensures var k := if |data| < 3 then |data| else 3;
            EncodeText(data) == CharsOf(EncodeGroup(data[..k])) + EncodeText(data[k..])
  {
    var k := if |data| < 3 then |data| else 3;
    CharsOfAppend(EncodeGroup(data[..k]), EncodeUnits(data[k..]));
  }

  method Encode(data: string) returns (out: string)
    requires IsBytes(data)
    ensures out == EncodeText(data)
  {
    EncodeEmpty();
    hide EncodeGroup, EncodeText;
    out := "";
    var i := 0;
    assert data[0..] == data;
    while i < |data|
      invariant 0 <= i <= |data|
      invariant out + EncodeText(data[i..]) == EncodeText(data)
    {
      var len := if |data| - i < 3 then |data| - i else 3;
      var chunk := data[i..i + len];
      var group := EncodeChunk(chunk);
      assert data[i..][..len] == chunk && data[i..][len..] == data[i + len..];
      EncodeStep(data[i..]);
      assert out + (group + EncodeText(data[i + len..])) == (out + group) + EncodeText(data[i + len..]);
      out := out + group;
      i := i + len;
    }
    assert data[i..] == "";
  }

  ghost predicate IsDecodeTable(t: array<int>)
    reads t
  {
    && t.Length == 128
    && forall b :: 0 <= b < 128 ==> t[b] == if UnitOf(b as char) == PAD then FOREIGN else UnitOf(b as char)
  }

  /** The compile-time loop that inverts CHARS into a table of 128 entries. */
  method DecodeTable() returns (t: array<int>)
    ensures fresh(t) && IsDecodeTable(t)
  {
    t := new int[128](_ => -1);
    var i := 0;
    CharsIsAlphabet(0);
    while i < |CHARS|
      invariant 0 <= i <= 64 == |CHARS|
      invariant forall b :: 0 <= b < 128 ==> t[b] == if UnitOf(b as char) < i then UnitOf(b as char) else -1
    {
      CharsIsAlphabet(i);
      var c := CHARS[i];
      assert UnitOf(c) == i;
      ghost var before := t[..];
      t[c as int] := i;
      forall b | 0 <= b < 128
        ensures t[b] == if UnitOf(b as char) < i + 1 then UnitOf(b as char) else -1
      {
        assert b != c as int ==> t[b] == before[b];
        if UnitOf(b as char) == i { CharOfUnit(b as char); CharOfUnit(c); }
      }
      i := i + 1;
    }
  }

  method Entry(t: array<int>, c: char) returns (v: int)
    requires IsDecodeTable(t)
    ensures v == if UnitOf(c) == PAD then FOREIGN else UnitOf(c)
  {
    var b := c as int;
    assert b as char == c;
    v := if b < 128 then t[b] else -1;
  }

  /** The three bytes of the 24-bit word of four sextets. */
  method SextetBytes(v0: int, v1: int, v2: int, v3: int) returns (r: string)
    requires AreSextets([v0, v1, v2, v3])
    ensures r == DecodeGroup([v0, v1, v2, v3])
  {
    assert [v0, v1, v2, v3][0] == v0 && [v0, v1, v2, v3][1] == v1 && [v0, v1, v2, v3][2] == v2 && [v0, v1, v2, v3][3] == v3;
    var n := v0 * 262144 + v1 * 4096 + v2 * 64 + v3;
    ShiftsOfSextets(v0, v1, v2, v3, n);
    r := [(n / 65536 % 256) as char, (n / 256 % 256) as char, (n % 256) as char];
  }

  /** The three bytes of one group, None if it holds a foreign character. */
  method DecodeChunk(t: array<int>, c: string) returns (r: Option<string>)
    requires IsDecodeTable(t) && |c| == 4 && '=' !in c
    ensures r == if FOREIGN in UnitsOf(c) then None else Some(DecodeGroup(UnitsOf(c)))
  {
    hide UnitOf;
    PaddingUnits(c);
    var v0 := Entry(t, c[0]);
    var v1 := Entry(t, c[1]);
    var v2 := Entry(t, c[2]);
    var v3 := Entry(t, c[3]);
    ghost var g := UnitsOf(c);
    assert v0 == g[0] && v1 == g[1] && v2 == g[2] && v3 == g[3];
    if v0 < 0 || v1 < 0 || v2 < 0 || v3 < 0 {
      return None;
    }
    assert g == [v0, v1, v2, v3];
    var bytes := SextetBytes(v0, v1, v2, v3);
    r := Some(bytes);
  }

  lemma PaddingUnits(c: string)
    ensures '=' in c <==> PAD in UnitsOf(c)
  {
    forall i | 0 <= i < |c|
      ensures c[i] == '=' <==> UnitsOf(c)[i] == PAD
    {
      CharOfUnit('=');
    }
  }

  /** One turn of the decoder's loop. */
  lemma DecodeStep(s: string)
    ensures |s| < 4 || '=' in s[..4] ==> DecodeBytes(s) == Some("")
    ensures |s| >= 4 && '=' !in s[..4] ==>
              && (FOREIGN in UnitsOf(s[..4]) || AreSextets(UnitsOf(s[..4])))
              && DecodeBytes(s) == if FOREIGN in UnitsOf(s[..4]) || DecodeBytes(s[4..]).None? then None
                                   else Some(DecodeGroup(UnitsOf(s[..4])) + DecodeBytes(s[4..]).value)
  {
    if |s| >= 4 {
      assert UnitsOf(s)[..4] == UnitsOf(s[..4]) && UnitsOf(s)[4..] == UnitsOf(s[4..]);
      PaddingUnits(s[..4]);
    }
  }

  method Decode(s: string) returns (r: Option<string>)
    ensures r == DecodeText(s)
  {
    var t := DecodeTable();
    var out := "";
    var i := 0;
    assert s[0..] == s;
    assert DecodeBytes(s).Some? ==> out + DecodeBytes(s).value == DecodeBytes(s).value;
    while i + 3 < |s|
      invariant 0 <= i <= |s| && IsDecodeTable(t)
      invariant DecodeBytes(s).Some? <==> DecodeBytes(s[i..]).Some?
      invariant DecodeBytes(s).Some? ==> DecodeBytes(s).value == out + DecodeBytes(s[i..]).value
    {
      var c := s[i..i + 4];
      assert s[i..][..4] == c && s[i..][4..] == s[i + 4..];
      DecodeStep(s[i..]);
      if '=' in c {
        break;
      }
      var g := DecodeChunk(t, c);
      if g == None {
        return None;
      }
      ghost var rest := DecodeBytes(s[i + 4..]);
      assert rest.Some? ==> (out + g.value) + rest.value == out + (g.value + rest.value);
      out := out + g.value;
      i := i + 4;
    }
    DecodeStep(s[i..]);
    assert out + "" == out;
    r := if Valid(out) then Some(out) else None;
  }

  // ---- Laws ----

  /** The bytes that survive: whole groups of three. */
  function WholeGroups(d: string): (r: string) {
    d[..|d| / 3 * 3]
  }

  lemma DecodeGroupFirst(g: seq<int>, rest: seq<int>)
    requires |g| == 4 && AreSextets(g) && DecodeUnits(rest).Some?
    ensures DecodeUnits(g + rest) == Some(DecodeGroup(g) + DecodeUnits(rest).value)
  {
    assert (g + rest)[..4] == g && (g + rest)[4..] == rest;
  }

  lemma DecodeNothing()
    ensures EncodeUnits("") == [] && DecodeUnits([]) == Some("") && WholeGroups("") == ""
  {
  }

  lemma DecodeStopsAtPadding(us: seq<int>)
    requires |us| == 4 && us[3] == PAD
    ensures DecodeUnits(us) == Some("")
  {
    assert us[..4][3] == PAD;
  }

  lemma EncodeUnitsLast(d: string)
    requires 0 < |d| < 3 && IsBytes(d)
    ensures EncodeUnits(d) == EncodeGroup(d) && WholeGroups(d) == ""
  {
    hide EncodeGroup;
    assert d[..|d|] == d && d[|d|..] == "";
    assert EncodeGroup(d) + [] == EncodeGroup(d);
  }

  lemma EncodeUnitsCons(d: string)
    requires |d| >= 3 && IsBytes(d)
    ensures EncodeUnits(d) == EncodeGroup(d[..3]) + EncodeUnits(d[3..])
    ensures WholeGroups(d) == d[..3] + WholeGroups(d[3..])
  {
    hide EncodeGroup, WholeGroups;
    WholeGroupsCons(d);
  }

  lemma WholeGroupsCons(d: string)
    requires |d| >= 3
    ensures WholeGroups(d) == d[..3] + WholeGroups(d[3..])
  {
    var m, t := |d| / 3 * 3, d[3..];
    assert |t| / 3 * 3 == m - 3;
    assert d[..m] == d[..3] + t[..m - 3];
  }

  lemma {:induction false} DecodeUnitsOfEncode(d: string)
    requires IsBytes(d)
    ensures DecodeUnits(EncodeUnits(d)) == Some(WholeGroups(d))
    decreases |d|
  {
    hide EncodeGroup, DecodeGroup, DecodeUnits, EncodeUnits, WholeGroups;
    if |d| == 0 {
      assert d == "";
      DecodeNothing();
    } else if |d| < 3 {
      EncodeUnitsLast(d);
      GroupShape(d);
      DecodeStopsAtPadding(EncodeGroup(d));
    } else {
      DecodeFirstGroup(d);
      DecodeUnitsOfEncode(d[3..]);
    }
  }

  lemma DecodeFirstGroup(d: string)
    requires |d| >= 3 && IsBytes(d)
    ensures WholeGroups(d) == d[..3] + WholeGroups(d[3..])
    ensures DecodeUnits(EncodeUnits(d[3..])).Some? ==>
              DecodeUnits(EncodeUnits(d)) == Some(d[..3] + DecodeUnits(EncodeUnits(d[3..])).value)
  {
    hide EncodeGroup, DecodeGroup, DecodeUnits, EncodeUnits, WholeGroups;
    EncodeUnitsCons(d);
    GroupRoundTrip(d[..3]);
    if DecodeUnits(EncodeUnits(d[3..])).Some? { DecodeGroupFirst(EncodeGroup(d[..3]), EncodeUnits(d[3..])); }
  }

  /** The decoder's buffer holds exactly the whole three-byte groups of what was encoded. */
  lemma DecodeBytesOfEncode(d: string)
    requires IsBytes(d)
    ensures DecodeBytes(EncodeText(d)) == Some(WholeGroups(d))
  {
    DecodeUnitsOfEncode(d);
    UnitsOfChars(EncodeUnits(d));
  }

  /** Decoding an encoding gives back the whole groups, and fails exactly when they are not UTF-8. */
  lemma DecodeAfterEncode(d: string)
    requires IsBytes(d)
    ensures DecodeText(EncodeText(d)) == if Valid(WholeGroups(d)) then Some(WholeGroups(d)) else None
  {
    DecodeBytesOfEncode(d);
  }

  lemma DecodeUnitsCons(us: seq<int>)
    requires AreSextets(us) && |us| >= 4
    ensures DecodeUnits(us) == match DecodeUnits(us[4..]) case None => None case Some(rest) => Some(DecodeGroup(us[..4]) + rest)
  {
    hide DecodeGroup;
  }

  lemma {:induction false} EncodeOfDecodeUnits(us: seq<int>)
    requires AreSextets(us) && |us| % 4 == 0
    ensures DecodeUnits(us).Some? && IsBytes(DecodeUnits(us).value) && |DecodeUnits(us).value| == |us| / 4 * 3
    ensures EncodeUnits(DecodeUnits(us).value) == us
    decreases |us|
  {
    if |us| > 0 {
      hide EncodeGroup, DecodeGroup, DecodeUnits, EncodeUnits, WholeGroups;
      var g := us[..4];
      EncodeOfDecodeUnits(us[4..]);
      GroupRoundTripBack(g);
      DecodeUnitsCons(us);
      var head, rest := DecodeGroup(g), DecodeUnits(us[4..]).value;
      assert (head + rest)[..3] == head && (head + rest)[3..] == rest;
      EncodeUnitsCons(head + rest);
      assert us == g + us[4..];
    }
  }

  /** Over the plain alphabet only UTF-8 validity stops the decoder, and the encoder is its inverse. */
  lemma EncodeAfterDecode(s: string)
    requires InAlphabet(s) && |s| % 4 == 0
    ensures DecodeBytes(s).Some? && IsBytes(DecodeBytes(s).value) && |DecodeBytes(s).value| == |s| / 4 * 3
    ensures DecodeText(s).Some? <==> Valid(DecodeBytes(s).value)
    ensures EncodeText(DecodeBytes(s).value) == s
    ensures DecodeText(s).Some? ==> EncodeText(DecodeText(s).value) == s
  {
    EncodeOfDecodeUnits(UnitsOf(s));
    CharsOfUnits(s);
  }

  /** How many `=` end the encoding of `n` bytes. */
  function Padding(n: nat): (p: nat)
    ensures p < 3
  {
    (3 - n % 3) % 3
  }

  /** The units of `n` bytes: sextets up to the padding, and then only padding. */
  ghost predicate Shaped(us: seq<int>, n: nat) {
    && |us| == (n + 2) / 3 * 4
    && (forall i :: 0 <= i < |us| - Padding(n) ==> 0 <= us[i] < PAD)
    && (forall i :: |us| - Padding(n) <= i < |us| ==> us[i] == PAD)
  }

  lemma ShapedCons(g: seq<int>, us: seq<int>, n: nat)
    requires n >= 3 && |g| == 4 && AreSextets(g) && Shaped(us, n - 3)
    ensures Shaped(g + us, n)
  {
    assert Padding(n) == Padding(n - 3) && (n + 2) / 3 * 4 == (n - 3 + 2) / 3 * 4 + 4;
    forall i | 0 <= i < |g + us|
      ensures (g + us)[i] == if i < 4 then g[i] else us[i - 4]
    {
    }
  }

  lemma GroupIsShaped(d: string)
    requires 0 < |d| < 3 && IsBytes(d)
    ensures Shaped(EncodeGroup(d), |d|)
  {
    hide EncodeGroup;
    GroupShape(d);
  }

  lemma {:induction false} EncodeUnitsShape(d: string)
    requires IsBytes(d)
    ensures Shaped(EncodeUnits(d), |d|)
    decreases |d|
  {
    hide EncodeGroup, Shaped;
    if |d| == 0 {
      assert Shaped([], 0) by { NoUnits(); }
    } else if |d| < 3 {
      GroupIsShaped(d);
      assert d[..|d|] == d && d[|d|..] == "";
      assert EncodeUnits(d) == EncodeGroup(d) + [] == EncodeGroup(d);
    } else {
      GroupShape(d[..3]);
      EncodeUnitsShape(d[3..]);
      ShapedCons(EncodeGroup(d[..3]), EncodeUnits(d[3..]), |d|);
    }
  }

  lemma NoUnits()
    ensures Shaped([], 0)
  {
  }

  /** The length of an encoding, and the places of its padding. */
  lemma EncodeShape(d: string)
    requires IsBytes(d)
    ensures |EncodeText(d)| == (|d| + 2) / 3 * 4 && IsAscii(EncodeText(d))
    ensures InAlphabet(EncodeText(d)[..|EncodeText(d)| - Padding(|d|)])
    ensures forall i :: |EncodeText(d)| - Padding(|d|) <= i < |EncodeText(d)| ==> EncodeText(d)[i] == '='
  {
    EncodeUnitsShape(d);
    UnitsOfChars(EncodeUnits(d));
  }

  /** The first group and the rest, whatever the length. */
  lemma EncodeUnitsFirst(d: string) returns (k: nat)
    requires |d| > 0 && IsBytes(d)
    ensures k == (if |d| < 3 then |d| else 3) && d == d[..k] + d[k..]
    ensures EncodeUnits(d)[..4] == EncodeGroup(d[..k]) && EncodeUnits(d)[4..] == EncodeUnits(d[k..])
  {
    hide EncodeGroup;
    k := if |d| < 3 then |d| else 3;
  }

  lemma {:induction false} EncodeUnitsInjective(a: string, b: string)
    requires IsBytes(a) && IsBytes(b)
    requires EncodeUnits(a) == EncodeUnits(b)
    ensures a == b
    decreases |a|
  {
    EncodeUnitsShape(a);
    EncodeUnitsShape(b);
    hide EncodeGroup, EncodeUnits;
    if |a| > 0 && |b| > 0 {
      var j := EncodeUnitsFirst(a);
      var k := EncodeUnitsFirst(b);
      GroupInjective(a[..j], b[..k]);
      EncodeUnitsInjective(a[j..], b[k..]);
    }
  }

  /** Different byte strings have different encodings. */
  lemma EncodeInjective(a: string, b: string)
    requires IsBytes(a) && IsBytes(b)
    requires EncodeText(a) == EncodeText(b)
    ensures a == b
  {
    UnitsOfChars(EncodeUnits(a));
    UnitsOfChars(EncodeUnits(b));
    EncodeUnitsInjective(a, b);
  }

  // ---- The decoder, by the encoder ----

  /** The 64 characters. */
  predicate IsBase64Char(c: char) {
    'A' <= c <= 'Z' || 'a' <= c <= 'z' || '0' <= c <= '9' || c == '+' || c == '/'
  }

  /** The decoder takes `k` groups of the 64 characters and stops: the text ends, or `=` is in the next. */
  predicate StopsAt(s: string, k: nat) {
    && 4 * k <= |s| && (forall j :: 0 <= j < 4 * k ==> IsBase64Char(s[j]))
    && (4 * k + 4 > |s| || '=' in s[4 * k..4 * k + 4])
  }

  lemma CharUnits(c: char)
    ensures IsBase64Char(c) <==> 0 <= UnitOf(c) < PAD
    ensures c == '=' <==> UnitOf(c) == PAD
  {
  }

  lemma GroupUnits(c: string)
    requires |c| == 4 && '=' !in c
    ensures FOREIGN in UnitsOf(c) <==> exists j :: 0 <= j < 4 && !IsBase64Char(c[j])
  {
    hide UnitOf, IsBase64Char;
    var us := UnitsOf(c);
    forall j | 0 <= j < 4
      ensures us[j] == FOREIGN <==> !IsBase64Char(c[j])
    {
      CharUnits(c[j]);
    }
  }

  lemma StopsShift(s: string, k: nat)
    requires |s| >= 4 && '=' !in s[..4]
    ensures StopsAt(s, k) <==> k > 0 && (forall j :: 0 <= j < 4 ==> IsBase64Char(s[j])) && StopsAt(s[4..], k - 1)
  {
    hide IsBase64Char;
    if k > 0 {
      var a, b := 4 * k, 4 * (k - 1);
      assert b == a - 4;
      if a + 4 <= |s| { assert s[a..a + 4] == s[4..][b..b + 4]; }
      assert forall j :: 4 <= j < |s| ==> s[j] == s[4..][j - 4];
      assert forall j :: 0 <= j < |s| - 4 ==> s[4..][j] == s[j + 4];
    } else {
      assert s[0..4] == s[..4];
    }
  }

  /**
   For every text: the decoder has an answer exactly when it gets to stop, and then its bytes are
   those whose encoding is what it took.
   */
  lemma {:induction false} DecodeBytesExactly(s: string, k: nat)
    ensures DecodeBytes(s).Some? <==> exists k': nat :: StopsAt(s, k')
    ensures StopsAt(s, k) ==>
              var out := DecodeBytes(s).value; IsBytes(out) && |out| == 3 * k && EncodeText(out) == s[..4 * k]
    decreases |s|
  {
    hide DecodeBytes, StopsAt, EncodeText, IsBase64Char, DecodeGroup;
    DecodeStep(s);
    if |s| < 4 || '=' in s[..4] {
      StopsAtOnce(s);
      assert StopsAt(s, 0);
      EncodeEmpty();
      assert s[..0] == "";
    } else {
      var c, t := s[..4], s[4..];
      GroupUnits(c);
      assert forall j :: 0 <= j < 4 ==> c[j] == s[j];
      forall k': nat
        ensures StopsAt(s, k') <==> k' > 0 && FOREIGN !in UnitsOf(c) && StopsAt(t, k' - 1)
      {
        StopsShift(s, k');
      }
      if k > 0 { DecodeBytesExactly(t, k - 1); } else { DecodeBytesExactly(t, 0); }
      if exists k': nat :: StopsAt(t, k') {
        var k': nat :| StopsAt(t, k');
        assert FOREIGN !in UnitsOf(c) ==> StopsAt(s, k' + 1);
      }
      if StopsAt(s, k) {
        assert k > 0 && StopsAt(t, k - 1);
        EncodeOneMore(c, DecodeBytes(t).value);
        Taken(s, k);
      }
    }
  }

  lemma Taken(s: string, k: nat)
    requires k > 0 && StopsAt(s, k)
    ensures 4 * (k - 1) <= |s| - 4 && s[..4] + s[4..][..4 * (k - 1)] == s[..4 * k]
  {
    var a, b := 4 * k, 4 * (k - 1);
    assert b == a - 4 && s[..4] + s[4..][..b] == s[..a];
  }

  lemma StopsAtOnce(s: string)
    requires |s| < 4 || '=' in s[..4]
    ensures forall k: nat :: StopsAt(s, k) <==> k == 0
  {
    if |s| >= 4 {
      assert s[0..4] == s[..4];
      var i :| 0 <= i < 4 && s[..4][i] == '=';
      assert s[i] == '=' && !IsBase64Char(s[i]);
    }
  }

  lemma EncodeOneMore(c: string, rest: string)
    requires |c| == 4 && AreSextets(UnitsOf(c)) && IsBytes(rest)
    ensures var out := DecodeGroup(UnitsOf(c)) + rest; IsBytes(out) && EncodeText(out) == c + EncodeText(rest)
  {
    hide EncodeText, EncodeGroup, DecodeGroup;
    var head := DecodeGroup(UnitsOf(c));
    var out := head + rest;
    GroupRoundTripBack(UnitsOf(c));
    EncodeStep(out);
    assert out[..3] == head && out[3..] == rest;
    CharsOfUnits(c);
  }

  /** Three of the vectors of section 10 of RFC 4648, and all 24 bits of a group. */
  lemma KnownEncodings()
    ensures EncodeText("f") == "Zg==" && EncodeText("fo") == "Zm8=" && EncodeText("foo") == "Zm9v"
    ensures EncodeText([0xFB as char, 0xFF as char, 0xBF as char]) == "+/+/"
  {
    hide EncodeText, CharsOf;
    ShortEncoding("f");
    ShortEncoding("fo");
    ShortEncoding("foo");
    ShortEncoding([0xFB as char, 0xFF as char, 0xBF as char]);
    assert EncodeGroup("f") == [25, 32, PAD, PAD];
    assert EncodeGroup("fo") == [25, 38, 60, PAD];
    assert EncodeGroup("foo") == [25, 38, 61, 47];
    assert EncodeGroup([0xFB as char, 0xFF as char, 0xBF as char]) == [62, 63, 62, 63];
    FourChars([25, 32, PAD, PAD]);
    FourChars([25, 38, 60, PAD]);
    FourChars([25, 38, 61, 47]);
    FourChars([62, 63, 62, 63]);
  }

  lemma FourChars(us: seq<int>)
    requires |us| == 4 && AreUnits(us)
    ensures CharsOf(us) == [CharOf(us[0]), CharOf(us[1]), CharOf(us[2]), CharOf(us[3])]
  {
    hide CharOf;
  }

  lemma ShortEncoding(d: string)
    requires 1 <= |d| <= 3 && IsBytes(d)
    ensures EncodeText(d) == CharsOf(EncodeGroup(d))
  {
    hide EncodeGroup;
    EncodeStep(d);
    EncodeEmpty();
    var k := if |d| < 3 then |d| else 3;
    assert d[..k] == d && d[k..] == "";
    assert CharsOf(EncodeGroup(d)) + "" == CharsOf(EncodeGroup(d));
  }
}
