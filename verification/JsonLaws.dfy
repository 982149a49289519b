/**
 The printer and the parser beyond the round trip: what the printer makes of quotes, booleans, nil and
 nested tables, which numerals are numbers, and which match of a scanned text decides each key.
 */
module JsonLaws {
  import opened Wrappers
  import opened Json
  import opened JsonScan
  import opened JsonPieces
  import opened TableScan
  import opened Numerals

  // ---- Quotes ----

  /** No quote without a backslash right before it. */
  predicate QuotesEscaped(r: string) {
    forall i :: 0 <= i < |r| && r[i] == '"' ==> i > 0 && r[i - 1] == '\\'
  }

  /** The text less the backslash before each quote. */
  function Unescape(r: string): (s: string) {
    if |r| >= 2 && r[0] == '\\' && r[1] == '"' then "\"" + Unescape(r[2..])
    else if |r| > 0 then [r[0]] + Unescape(r[1..])
    else ""
  }

  lemma {:induction false} EscapeThenUnescape(s: string)
    ensures QuotesEscaped(Escape(s)) && Unescape(Escape(s)) == s
    ensures Escape(s) != "" ==> Escape(s)[0] != '"'
  {
    if |s| > 0 {
      var t := Escape(s[1..]);
      EscapeThenUnescape(s[1..]);
      if s[0] == '"' {
        assert Escape(s) == "\\\"" + t;
        assert Escape(s)[2..] == t;
      } else {
        assert Escape(s) == [s[0]] + t;
        assert Escape(s)[1..] == t;
      }
    }
  }

  lemma {:induction false} UnescapeThenEscape(r: string)
    requires QuotesEscaped(r)
    ensures Escape(Unescape(r)) == r
    decreases |r|
  {
    if |r| >= 2 && r[0] == '\\' && r[1] == '"' {
      UnescapeThenEscape(r[2..]);
      assert r == "\\\"" + r[2..];
    } else if |r| > 0 {
      assert r[0] != '"';
      UnescapeThenEscape(r[1..]);
      assert r == [r[0]] + r[1..];
    }
  }

  /** The escaped text is the one that has a backslash before every quote and is `s` without those. */
  lemma EscapeExactly(s: string, r: string)
    ensures r == Escape(s) <==> QuotesEscaped(r) && Unescape(r) == s
  {
    EscapeThenUnescape(s);
    if QuotesEscaped(r) { UnescapeThenEscape(r); }
  }

  // ---- The printer ----

  lemma PrintAtoms(text: string)
    ensures Print(Bool(true)) == "true" && Print(Bool(false)) == "false" && Print(Nil) == "null"
    ensures Print(Table([], [])) == "{}"
    ensures !Utf8.Valid(text) ==> Print(Str(text)) == "\"\""
    ensures Utf8.Valid(text) ==>
              exists r: string :: QuotesEscaped(r) && Unescape(r) == text && Print(Str(text)) == "\"" + r + "\""
  {
    hide Utf8.Valid;
    EscapeThenUnescape(text);
    assert "{" + "" + "}" == "{}";
  }

  lemma {:induction false} JoinSnoc(parts: seq<string>, last: string)
    requires |parts| > 0
    ensures Join(parts + [last]) == Join(parts) + ("," + last)
  {
    var all := parts + [last];
    assert all[0] == parts[0];
    if |parts| == 1 {
      assert all[1..] == [last];
      assert Join(all) == parts[0] + "," + last;
    } else {
      assert all[1..] == parts[1..] + [last];
      JoinSnoc(parts[1..], last);
    }
  }

  lemma {:induction false} ItemsSnoc(items: seq<LuaValue>, last: LuaValue)
    requires Printable(last) && forall i :: 0 <= i < |items| ==> Printable(items[i])
    ensures forall i :: 0 <= i < |items + [last]| ==> Printable((items + [last])[i])
    ensures PrintItems(items + [last]) == PrintItems(items) + [Print(last)]
  {
    hide Print, Printable;
    if |items| > 0 {
      assert (items + [last])[1..] == items[1..] + [last];
      ItemsSnoc(items[1..], last);
    }
  }

  lemma {:induction false} PairsSnoc(pairs: seq<Pair>, last: Pair)
    requires Printable(last.key) && Printable(last.value)
    requires forall i :: 0 <= i < |pairs| ==> Printable(pairs[i].key) && Printable(pairs[i].value)
    ensures forall i :: 0 <= i < |pairs + [last]| ==> Printable((pairs + [last])[i].key) && Printable((pairs + [last])[i].value)
    ensures PrintPairs(pairs + [last]) == PrintPairs(pairs) + [Print(last.key) + ":" + Print(last.value)]
  {
    hide Print, Printable;
    if |pairs| > 0 {
      assert (pairs + [last])[1..] == pairs[1..] + [last];
      PairsSnoc(pairs[1..], last);
    }
  }

  lemma {:induction false} NoLeadingZero(n: nat)
    ensures NatText(n)[0] == '0' ==> n == 0 && NatText(n) == "0"
  {
    if n >= 10 { NoLeadingZero(n / 10); }
  }

  /** An integer prints as its sign, if it is negative, and the digits of its size, no zero in front. */
  lemma PrintInteger(i: int)
    ensures exists digits: string ::
              && digits != "" && AllDigits(digits) && (digits[0] == '0' ==> i == 0 && digits == "0")
              && NatValue(digits) == (if i < 0 then -i else i) && Print(Int(i)) == (if i < 0 then "-" else "") + digits
  {
    hide NatText, NatValue;
    var n := if i < 0 then -i else i;
    NoLeadingZero(n);
    NatValueOfText(n);
    assert "" + NatText(n) == NatText(n);
  }

  /** `s` with `part` put before its closing bracket, after a comma unless it is the first. */
  predicate Appends(before: string, part: string, after: string, first: bool) {
    && |before| >= 2
    && after == before[..|before| - 1] + ((if first then "" else ",") + part) + before[|before| - 1..]
  }

  lemma Enclose(open: string, j: string, part: string, close: string)
    requires |open| == 1 && |close| == 1
    ensures Appends(open + j + close, part, open + (j + ("," + part)) + close, false)
    ensures Appends(open + "" + close, part, open + part + close, true)
  {
    assert (open + j + close)[..|j| + 1] == open + j && (open + j + close)[|j| + 1..] == close;
    assert open + (j + ("," + part)) + close == open + j + ("," + part) + close;
    assert (open + "" + close)[..1] == open && (open + "" + close)[1..] == close;
    assert "" + part == part;
  }

  lemma PrintTable(items: seq<LuaValue>, pairs: seq<Pair>)
    requires Printable(Table(items, pairs))
    ensures items != [] ==> Print(Table(items, pairs)) == "[" + Join(PrintItems(items)) + "]"
    ensures items == [] ==> Print(Table(items, pairs)) == "{" + Join(PrintPairs(pairs)) + "}"
  {
    hide Join, PrintItems, PrintPairs, Escape, IntText;
  }

  lemma JoinOne(s: string)
    ensures Join([s]) == s && Join([]) == ""
  {
  }

  lemma TablePrintable(items: seq<LuaValue>, pairs: seq<Pair>)
    ensures Printable(Table(items, pairs)) <==>
              && (forall i :: 0 <= i < |items| ==> Printable(items[i]))
              && (forall i :: 0 <= i < |pairs| ==> Printable(pairs[i].key) && Printable(pairs[i].value))
  {
  }

  /** A table with an array part prints as its items between brackets, whatever else it holds. */
  lemma PrintArray(items: seq<LuaValue>, last: LuaValue, pairs: seq<Pair>)
    requires Printable(Table(items, pairs)) && Printable(last)
    ensures Printable(Table(items + [last], pairs))
    ensures items == [] ==> Print(Table(items + [last], pairs)) == "[" + Print(last) + "]"
    ensures items != [] ==> Appends(Print(Table(items, pairs)), Print(last), Print(Table(items + [last], pairs)), false)
  {
    hide Print, Printable, Join, PrintItems, Appends;
    TablePrintable(items, pairs);
    ItemsSnoc(items, last);
    TablePrintable(items + [last], pairs);
    PrintTable(items, pairs);
    PrintTable(items + [last], pairs);
    if items == [] {
      assert PrintItems(items) + [Print(last)] == [Print(last)];
      JoinOne(Print(last));
    } else {
      JoinSnoc(PrintItems(items), Print(last));
      Enclose("[", Join(PrintItems(items)), Print(last), "]");
    }
  }

  /** Without one it prints as its pairs between braces, in the order in which they are iterated. */
  lemma PrintMap(pairs: seq<Pair>, last: Pair)
    requires Printable(Table([], pairs)) && Printable(last.key) && Printable(last.value)
    ensures Printable(Table([], pairs + [last]))
    ensures Appends(Print(Table([], pairs)), Print(last.key) + ":" + Print(last.value),
              Print(Table([], pairs + [last])), pairs == [])
  {
    hide Print, Printable, Join, PrintPairs, Appends;
    var part := Print(last.key) + ":" + Print(last.value);
    TablePrintable([], pairs);
    PairsSnoc(pairs, last);
    TablePrintable([], pairs + [last]);
    PrintTable([], pairs);
    PrintTable([], pairs + [last]);
    Enclose("{", Join(PrintPairs(pairs)), part, "}");
    JoinOne(part);
    if pairs == [] {
      assert PrintPairs(pairs) == [];
      assert PrintPairs(pairs) + [part] == [part];
    } else {
      JoinSnoc(PrintPairs(pairs), part);
    }
  }

  // ---- Numerals ----

  lemma {:induction false} PowerSum(a: nat, b: nat)
    ensures Pow10(a + b) == Pow10(a) * Pow10(b)
  {
    if a > 0 { PowerSum(a - 1, b); }
  }

  /** The value of a row of digits, wherever it is cut. */
  lemma {:induction false} ValueSplit(a: string, b: string)
    requires AllDigits(a) && AllDigits(b)
    ensures AllDigits(a + b) && NatValue(a + b) == NatValue(a) * Pow10(|b|) + NatValue(b)
    decreases |b|
  {
    var s := a + b;
    forall i | 0 <= i < |s|
      ensures IsDigit(s[i])
    {
    }
    if |b| == 0 {
      assert s == a;
    } else {
      var c := b[..|b| - 1];
      assert s[..|s| - 1] == a + c;
      ValueSplit(a, c);
      assert Pow10(|b|) == 10 * Pow10(|c|);
      Tens(NatValue(a), Pow10(|c|), NatValue(c), DigitValue(b[|b| - 1]));
    }
  }

  lemma Tens(x: nat, p: nat, y: nat, d: nat)
    ensures (x * p + y) * 10 + d == x * (10 * p) + (y * 10 + d)
  {
  }

  lemma DigitIs(c: char)
    requires IsDigit(c)
    ensures NatValue([c]) == c as int - '0' as int
  {
    assert [c][..0] == "";
    assert NatValue([c]) == NatValue([c][..0]) * 10 + DigitValue(c);
  }

  /** A numeral: a sign, digits, and after a dot more digits; one digit at least. */
  datatype Numeral = Numeral(neg: bool, whole: string, frac: Option<string>) {
    predicate Ok() {
      && AllDigits(whole) && (frac.Some? ==> AllDigits(frac.value))
      && (whole != "" || (frac.Some? && frac.value != ""))
    }

    function Body(): (s: string) {
      whole + match frac case None => "" case Some(f) => "." + f
    }

    function Text(): (s: string) {
      (if neg then "-" else "") + Body()
    }

    function Sign(): (s: int) {
      if neg then -1 else 1
    }

    /** What the digits say. */
    function Value(): (x: real)
      requires Ok()
    {
      var f := if frac.Some? then frac.value else "";
      Sign() as real * (NatValue(whole) as real + NatValue(f) as real / Pow10(|f|) as real)
    }
  }

  lemma Shifted(w: real, f: real, p: real)
    requires p > 0.0
    ensures (w * p + f) / p == w + f / p
  {
  }

  lemma {:induction false} DotAfter(a: string, b: string)
    requires AllDigits(a)
    ensures DotAt(a + ("." + b)) == |a|
    decreases |a|
  {
    if |a| == 0 {
      assert a + ("." + b) == "." + b;
    } else {
      assert (a + ("." + b))[1..] == a[1..] + ("." + b);
      DotAfter(a[1..], b);
    }
  }

  lemma SignOff(x: Numeral)
    requires x.Ok()
    ensures var s := x.Text();
            && |s| > 0 && (s[0] == '-' <==> x.neg) && (if x.neg then s[1..] else s) == x.Body() && |x.Body()| > 0
  {
    var b := x.Body();
    assert b[0] != '-' by {
      if x.whole != "" { assert b[0] == x.whole[0] && IsDigit(x.whole[0]); }
    }
    if !x.neg { assert "" + b == b; }
  }

  function Signed(neg: bool, b: string): (v: Option<LuaValue>)
    requires b != ""
  {
    var dot, sign := DotAt(b), if neg then -1 else 1;
    if AllDigits(b) then
      if INT64_MIN <= sign * NatValue(b) <= INT64_MAX then Some(Int(sign * NatValue(b)))
      else Some(Float((sign * NatValue(b)) as real))
    else if dot < |b| && |b| > 1 && AllDigits(b[..dot]) && AllDigits(b[dot + 1..]) then
      var m := (NatValue(b[..dot] + b[dot + 1..]) as real) / (Pow10(|b| - dot - 1) as real);
      Some(Float(if neg then -m else m))
    else None
  }

  predicate SaysMinus(s: string) {
    |s| > 0 && s[0] == '-'
  }

  function SignedBody(s: string): (b: string) {
    if SaysMinus(s) then s[1..] else s
  }

  lemma ToNumberIsSigned(s: string)
    ensures SignedBody(s) != "" ==> ToNumber(s) == Signed(SaysMinus(s), SignedBody(s))
    ensures SignedBody(s) == "" ==> ToNumber(s) == None
  {
    hide NatValue, Pow10, DotAt, AllDigits;
  }

  lemma RealProduct(w: int, p: int, f: int)
    ensures (w * p + f) as real == w as real * p as real + f as real
  {
  }

  lemma Minus(x: real)
    ensures -1.0 * x == -x && 1.0 * x == x
  {
  }

  lemma SignedSum(neg: bool, w: nat, f: nat, p: nat)
    requires p > 0
    ensures var sign, m := if neg then -1 else 1, (w * p + f) as real / p as real;
            sign as real * (w as real + f as real / p as real) == if neg then -m else m
  {
    RealProduct(w, p, f);
    Shifted(w as real, f as real, p as real);
    Minus(w as real + f as real / p as real);
  }

  lemma DecimalValue(neg: bool, whole: string, frac: string)
    requires AllDigits(whole) && AllDigits(frac) && |whole| + |frac| > 0
    ensures AllDigits(whole + frac)
    ensures var m := NatValue(whole + frac) as real / Pow10(|frac|) as real;
            Numeral(neg, whole, Some(frac)).Value() == if neg then -m else m
  {
    hide NatValue, Pow10, AllDigits;
    ValueSplit(whole, frac);
    SignedSum(neg, NatValue(whole), NatValue(frac), Pow10(|frac|));
  }

  lemma DecimalIs(neg: bool, whole: string, frac: string)
    requires AllDigits(whole) && AllDigits(frac) && |whole| + |frac| > 0
    ensures var b := whole + ("." + frac);
            Signed(neg, b) == Some(Float(Numeral(neg, whole, Some(frac)).Value()))
  {
    hide NatValue, Pow10, DotAt;
    var b := whole + ("." + frac);
    DotAfter(whole, frac);
    assert b[|whole|] == '.' && !IsDigit(b[|whole|]);
    assert b[..|whole|] == whole && b[|whole| + 1..] == frac;
    DecimalValue(neg, whole, frac);
  }

  lemma WholeIs(neg: bool, whole: string)
    requires AllDigits(whole) && whole != ""
    ensures var x, i := Numeral(neg, whole, None), (if neg then -1 else 1) * NatValue(whole);
            Signed(neg, whole) == if INT64_MIN <= i <= INT64_MAX then Some(Int(i)) else Some(Float(x.Value()))
  {
    hide NatValue, Pow10, DotAt;
    EmptyFraction();
  }

  /** `tonumber` of every numeral: an integer if it has no dot and fits 64 bits, else what its digits say. */
  lemma NumeralValue(x: Numeral)
    requires x.Ok()
    ensures ToNumber(x.Text())
            == if x.frac == None && INT64_MIN <= x.Sign() * NatValue(x.whole) <= INT64_MAX then
                 Some(Int(x.Sign() * NatValue(x.whole)))
               else
                 Some(Float(x.Value()))
  {
    hide NatValue, Pow10, DotAt, ToNumber, Signed;
    SignOff(x);
    var b := x.Body();
    ToNumberIsSigned(x.Text());
    match x.frac
    case None =>
      assert b == x.whole;
      WholeIs(x.neg, x.whole);
    case Some(f) =>
      DecimalIs(x.neg, x.whole, f);
  }

  lemma EmptyFraction()
    ensures AllDigits("") && NatValue("") == 0 && Pow10(0) == 1
  {
  }

  lemma SignedNumeral(neg: bool, b: string) returns (x: Numeral)
    requires b != "" && Signed(neg, b).Some?
    ensures x.Ok() && x.neg == neg && x.Body() == b
  {
    hide NatValue, Pow10, DotAt;
    var dot := DotAt(b);
    if AllDigits(b) {
      x := Numeral(neg, b, None);
    } else {
      x := Numeral(neg, b[..dot], Some(b[dot + 1..]));
      assert b == b[..dot] + ("." + b[dot + 1..]);
    }
  }

  lemma ReadAsNumeral(s: string) returns (x: Numeral)
    requires ToNumber(s).Some?
    ensures x.Ok() && x.Text() == s
  {
    hide ToNumber, Signed;
    ToNumberIsSigned(s);
    x := SignedNumeral(SaysMinus(s), SignedBody(s));
    if x.neg { assert s == "-" + s[1..]; }
  }

  /** `tonumber` gives nil for everything that is no numeral. */
  lemma NumberIffNumeral(s: string)
    ensures ToNumber(s).Some? <==> exists x: Numeral :: x.Ok() && x.Text() == s
  {
    hide ToNumber;
    if x: Numeral :| x.Ok() && x.Text() == s { NumeralValue(x); }
    if ToNumber(s).Some? { var x := ReadAsNumeral(s); }
  }

  // ---- The match that decides ----

  /** The value of the last hit for `k`, sought from the end. */
  function LastFor(hits: seq<(string, string)>, k: string): (v: Option<string>) {
    if |hits| == 0 then None
    else if hits[|hits| - 1].0 == k then Some(hits[|hits| - 1].1)
    else LastFor(hits[..|hits| - 1], k)
  }

  function At(m: Claims, k: string): (v: Option<LuaValue>) {
    if k in m then Some(m[k]) else None
  }

  /** What the loop for `p` stores for a match. */
  function Stores(p: Pattern, val: string): (v: Option<LuaValue>) {
    match p
    case StringPattern => Some(Str(val))
    case NumberPattern => ToNumber(val)
    case FlagPattern => Some(Bool(val == "true"))
  }

  lemma {:induction false} CollectSnoc(p: Pattern, m: Claims, hits: seq<(string, string)>)
    requires |hits| > 0
    ensures Collect(p, m, hits) == Put(p, Collect(p, m, hits[..|hits| - 1]), hits[|hits| - 1].0, hits[|hits| - 1].1)
    decreases |hits|
  {
    hide Put;
    if |hits| == 1 {
      assert hits[1..] == [] && hits[..0] == [];
    } else {
      var rest := hits[1..];
      CollectSnoc(p, Put(p, m, hits[0].0, hits[0].1), rest);
      assert rest[..|rest| - 1] == hits[..|hits| - 1][1..];
    }
  }

  lemma {:induction false} CollectLast(p: Pattern, m: Claims, hits: seq<(string, string)>, k: string)
    ensures At(Collect(p, m, hits), k) == match LastFor(hits, k) case None => At(m, k) case Some(v) => Stores(p, v)
    decreases |hits|
  {
    hide Collect, ToNumber;
    if |hits| == 0 {
      CollectNone(p, m);
    } else {
      CollectSnoc(p, m, hits);
      CollectLast(p, m, hits[..|hits| - 1], k);
    }
  }

  lemma CollectNone(p: Pattern, m: Claims)
    ensures Collect(p, m, []) == m
  {
  }

  lemma {:induction false} LastIsHit(hits: seq<(string, string)>, k: string)
    ensures LastFor(hits, k).Some? ==> (k, LastFor(hits, k).value) in hits
  {
    if |hits| > 0 && hits[|hits| - 1].0 != k { LastIsHit(hits[..|hits| - 1], k); }
  }

  lemma {:induction false} FlagsAreFalse(s: string)
    ensures forall h :: h in Scan(FlagPattern, s) ==> h.1 != "true"
    decreases |s|
  {
    if |s| > 0 {
      match MatchHere(FlagPattern, s)
      case None => FlagsAreFalse(s[1..]);
      case Some(h) => FlagsAreFalse(h.rest);
    }
  }

  /**
   For any text and key: a match of the third scan decides before one of the second, and that before
   one of the first; within a scan the last match does; the third only ever stores false.
   */
  lemma ParsedAt(s: string, k: string)
    ensures var flag, number, text :=
              LastFor(Scan(FlagPattern, s), k), LastFor(Scan(NumberPattern, s), k), LastFor(Scan(StringPattern, s), k);
            At(Parse(s), k) == if flag.Some? then Some(Bool(false))
                               else if number.Some? then ToNumber(number.value)
                               else if text.Some? then Some(Str(text.value))
                               else None
  {
    hide Scan, Collect, ToNumber;
    var strings := Collect(StringPattern, map[], Scan(StringPattern, s));
    CollectLast(StringPattern, map[], Scan(StringPattern, s), k);
    CollectLast(NumberPattern, strings, Scan(NumberPattern, s), k);
    CollectLast(FlagPattern, Collect(NumberPattern, strings, Scan(NumberPattern, s)), Scan(FlagPattern, s), k);
    FlagsAreFalse(s);
    LastIsHit(Scan(FlagPattern, s), k);
  }

  // ---- A numeral in a table ----

  /** The characters a value of the second scan is made of. */
  predicate NumberText(s: string) {
    s != "" && forall i :: 0 <= i < |s| ==> ('0' <= s[i] <= '9') || s[i] == '.' || s[i] == '-'
  }

  function OneNumber(k: string, v: string): (s: string) {
    "{\"" + k + "\":" + v + "}"
  }

  lemma NumberCharsExactly(s: string)
    ensures NumberText(s) <==> s != "" && forall i :: 0 <= i < |s| ==> IsNumberChar(s[i])
  {
  }

  lemma OneNumberPieces(k: string, v: string)
    requires NoQuote(k) && NumberText(v)
    ensures PiecesOf(OneNumber(k, v)) == ["{", k, ":" + (v + "}")]
  {
    hide PiecesOf;
    var ps := ["{", k, ":" + (v + "}")];
    assert QuoteFree(ps);
    assert ps[1..] == [k, ":" + (v + "}")] && ps[1..][1..] == [":" + (v + "}")];
    assert Quoted(ps[1..]) == k + ("\"" + (":" + (v + "}")));
    assert Quoted(ps) == "{" + ("\"" + (k + ("\"" + (":" + (v + "}")))));
    assert OneNumber(k, v) == Quoted(ps);
    PiecesUnique(ps);
  }

  lemma OneNumberScan(p: Pattern, k: string, v: string)
    requires k != "" && NoQuote(k) && NumberText(v)
    ensures Scan(p, OneNumber(k, v)) == if p == NumberPattern then [(k, v)] else []
  {
    hide PiecesOf, Scan, Finds, Inline, ColonOnly, AfterColon, OneNumber;
    OneNumberPieces(k, v);
    ScanOfAnyText(p, OneNumber(k, v));
    var ps := ["{", k, ":" + (v + "}")];
    FindsStep(p, ps, 0);
    FindsStep(p, ps, 1);
    NothingAfter(p, ps, 2);
    OneNumberInline(p, v);
    if p == NumberPattern { assert [Find(0, k, v)] + [] == [Find(0, k, v)]; }
  }

  lemma OneNumberInline(p: Pattern, v: string)
    requires NumberText(v)
    ensures Inline(p, ":" + (v + "}")) == (if p == NumberPattern then Some(v) else None) && !ColonOnly(":" + (v + "}"))
  {
    NumeralInline(v, "}");
  }

  /** `{"k":v}` with any row of digits, dots and minus signs: the number, if it is one, and else nothing. */
  lemma NumberComesBack(k: string, v: string)
    requires k != "" && NoQuote(k) && NumberText(v)
    ensures Parse(OneNumber(k, v)) == match ToNumber(v) case None => map[] case Some(x) => map[k := x]
  {
    hide Scan, ToNumber, OneNumber, Parse;
    var s := OneNumber(k, v);
    OneNumberScan(StringPattern, k, v);
    OneNumberScan(NumberPattern, k, v);
    OneNumberScan(FlagPattern, k, v);
    forall j
      ensures j in Parse(s) <==> j == k && ToNumber(v).Some?
      ensures j in Parse(s) ==> Some(Parse(s)[j]) == ToNumber(v)
    {
      ParsedAt(s, j);
      assert [(k, v)][..0] == [];
    }
    assert Parse(s) == match ToNumber(v) case None => map[] case Some(x) => map[k := x];
  }
}
