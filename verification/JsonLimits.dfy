/**
 Tables that do not come back: for each way an entry can fail to be passed quietly, one table that
 fails in that way only, and what the parser makes of it.  And one that comes back all the same.
 */
module JsonLimits {
  import opened Wrappers
  import opened Utf8
  import opened Json
  import opened JsonScan
  import opened JsonPieces
  import opened JsonRoundTrip
  import opened TableScan
  import opened ClaimsRoundTrip

  lemma ParseOf(s: string, strings: seq<(string, string)>, numbers: seq<(string, string)>, flags: seq<(string, string)>)
    requires Scan(StringPattern, s) == strings && Scan(NumberPattern, s) == numbers && Scan(FlagPattern, s) == flags
    ensures Parse(s) == Collect(FlagPattern, Collect(NumberPattern, Collect(StringPattern, map[], strings), numbers), flags)
  {
    hide Scan, Collect;
  }

  lemma CollectOne(p: Pattern, m: Claims, key: string, val: string)
    ensures Collect(p, m, [(key, val)]) == Put(p, m, key, val)
    ensures Collect(p, m, []) == m
  {
    hide Put;
    var hits := [(key, val)];
    assert hits[1..] == [];
  }

  lemma DigitNumber(d: string)
    requires d == "1" || d == "5"
    ensures ToNumber(d) == Some(Int(d[0] as int - 48))
  {
    assert d[..0] == "";
    assert NatValue(d) == NatValue(d[..0]) * 10 + DigitValue(d[0]);
  }

  // ---- The pieces used below ----

  lemma Harmless(p: Pattern, s: string)
    requires s == "x" || s == "y" || s == "a" || s == "b" || s == "," || s == "{" || s == "}"
    ensures PlainText(s) && Inline(p, s) == None && !ColonOnly(s)
  {
    hide Valid, AfterColon;
    AsciiIsValid(s);
    NoColon(s);
    InlineNeedsColon(p, s);
  }

  lemma FiveInline(p: Pattern)
    ensures PlainText(":5") && Inline(p, ":5") == (if p == NumberPattern then Some("5") else None) && !ColonOnly(":5")
  {
    hide Valid, AfterColon, NumberRun;
    AsciiIsValid(":5");
    assert ":5" == ":" + "5";
    AfterColonIs("5");
    AllNumber("5");
    assert "5"[..1] == "5";
  }

  lemma ColonKey(p: Pattern)
    ensures PlainText(":") && Inline(p, ":") == None && ColonOnly(":")
  {
    hide Valid, AfterColon;
    AsciiIsValid(":");
    ColonAlone();
  }

  lemma NoNumber(s: string)
    requires s != "" && !IsNumberChar(s[0])
    ensures NumberRun(s) == 0
  {
  }

  lemma FlagInline(p: Pattern)
    ensures PlainText(":true|false") && !ColonOnly(":true|false")
    ensures Inline(p, ":true|false") == if p == FlagPattern then Some(FLAG_TEXT) else None
  {
    hide Valid, AfterColon, NumberRun;
    AsciiIsValid(":true|false");
    assert ":true|false" == ":" + FLAG_TEXT;
    AfterColonIs(FLAG_TEXT);
    NoNumber(FLAG_TEXT);
  }

  lemma CalmOne(p: Pattern, e: Entry)
    ensures Calm(p, [e], []) <==> Quiet(p, e, None, false)
  {
    hide Quiet;
    assert [e][1..] == [];
  }

  lemma CalmPair(p: Pattern, e: Entry, f: Entry)
    ensures Calm(p, [e, f], []) <==> Quiet(p, e, Some(f.0), PiecesPer(f) >= 3) && Quiet(p, f, None, false)
  {
    hide Quiet;
    CalmOne(p, f);
    assert [e, f][1..] == [f] && [f][1..] == [];
    assert Width([f]) == PiecesPer(f);
  }

  lemma OneHits(p: Pattern, e: Entry)
    ensures Hits(p, [e]) == if PatternOf(e.1) == p then [(e.0, CaptureOf(e.1))] else []
  {
    hide CaptureOf;
    assert [e][1..] == [];
  }

  lemma TwoHits(p: Pattern, e: Entry, f: Entry)
    ensures Hits(p, [e, f]) == Hits(p, [e]) + Hits(p, [f])
  {
    hide CaptureOf;
    OneHits(p, e);
    assert [e, f][1..] == [f];
  }

  // ---- A text that looks like a value ----

  lemma OnePieces(k: string, v: string)
    requires |k| > 0 && PlainText(k) && PlainText(v)
    ensures PlainEntries([(k, Str(v))])
    ensures PiecesOf(Printed([(k, Str(v))], "}")) == ["{", k, ":", v, "}"]
  {
    hide PlainText, PiecesOf, Printed;
    var es: seq<Entry> := [(k, Str(v))];
    PrintedPieces(es, "}");
    assert es[1..] == [];
  }

  lemma OneFoundAt(p: Pattern, k: string, v: string)
    requires p != StringPattern
    ensures var ps := ["{", k, ":", v, "}"];
            && FoundAt(p, ps, 0) == None && FoundAt(p, ps, 2) == None && FoundAt(p, ps, 3) == None
            && FoundAt(p, ps, 1) == match Inline(p, v) case None => None case Some(x) => Some((x, 3))
  {
    hide AfterColon;
    ColonAlone();
    NoColon("}");
  }

  lemma OneFinds(p: Pattern, k: string, v: string)
    requires |k| > 0 && PlainText(k) && PlainText(v) && p != StringPattern
    ensures PlainEntries([(k, Str(v))])
    ensures Scan(p, Printed([(k, Str(v))], "}")) == match Inline(p, v) case None => [] case Some(x) => [(":", x)]
  {
    hide PlainText, PiecesOf, Printed, Scan, Finds, FoundAt, Inline;
    OnePieces(k, v);
    ScanOfAnyText(p, Printed([(k, Str(v))], "}"));
    var ps := ["{", k, ":", v, "}"];
    OneFoundAt(p, k, v);
    FindsStep(p, ps, 0);
    FindsStep(p, ps, 1);
    FindsStep(p, ps, 2);
    FindsStep(p, ps, 3);
    NothingAfter(p, ps, 4);
    if Inline(p, v).Some? { OneCapture(1, ":", Inline(p, v).value); }
  }

  lemma OneCapture(at: nat, key: string, val: string)
    ensures Captures([Find(at, key, val)] + []) == [(key, val)]
  {
  }

  /** `{"x":":5"}` comes back with a second entry, 5 for the key ":". */
  lemma TextTakenForNumber()
    ensures var es := [("x", Str(":5"))];
            && PlainEntries(es) && Calm(StringPattern, es, []) && Calm(FlagPattern, es, []) && !Calm(NumberPattern, es, [])
            && Parse(Printed(es, "}")) == map["x" := Str(":5"), ":" := Int(5)]
  {
    hide Scan, Inline, Quiet, Parse, Printed, PlainText;
    var e: Entry := ("x", Str(":5"));
    DigitNumber("5");
    FiveInline(StringPattern);
    FiveInline(NumberPattern);
    FiveInline(FlagPattern);
    LoneText(":5");
    OneFinds(NumberPattern, "x", ":5");
    OneFinds(FlagPattern, "x", ":5");
    ParseOf(Printed([e], "}"), [("x", ":5")], [(":", "5")], []);
    CollectOne(StringPattern, map[], "x", ":5");
    CollectOne(NumberPattern, map["x" := Str(":5")], ":", "5");
    CollectOne(FlagPattern, map["x" := Str(":5"), ":" := Int(5)], "", "");
  }

  /** The string scan reads a single text back; the others are calm if nothing in it looks like a value. */
  lemma LoneText(v: string)
    requires PlainText(v)
    ensures var es := [("x", Str(v))];
            && PlainEntries(es) && Calm(StringPattern, es, []) && Scan(StringPattern, Printed(es, "}")) == [("x", v)]
            && forall p :: p != StringPattern ==> (Calm(p, es, []) <==> Inline(p, v) == None)
  {
    hide Scan, Inline, Printed, PlainText, Calm, CaptureOf;
    Harmless(StringPattern, "x");
    var e: Entry := ("x", Str(v));
    forall p
      ensures Calm(p, [e], []) <==> p == StringPattern || Inline(p, v) == None
    {
      LoneCalm(p, v);
    }
    OnePieces("x", v);
    ScanTable(StringPattern, [e], "}");
    OneHits(StringPattern, e);
    TextCapture(v);
  }

  lemma LoneCalm(p: Pattern, v: string)
    ensures Calm(p, [("x", Str(v))], []) <==> p == StringPattern || Inline(p, v) == None
  {
    hide Inline, Calm;
    CalmOne(p, ("x", Str(v)));
  }

  lemma TextCapture(v: string)
    ensures PatternOf(Str(v)) == StringPattern && CaptureOf(Str(v)) == v
  {
  }

  /** `{"x":":true|false"}` comes back with false for the key ":". */
  lemma TextTakenForFlag()
    ensures var es := [("x", Str(":true|false"))];
            && PlainEntries(es) && Calm(StringPattern, es, []) && Calm(NumberPattern, es, []) && !Calm(FlagPattern, es, [])
            && Parse(Printed(es, "}")) == map["x" := Str(":true|false"), ":" := Bool(false)]
  {
    hide Scan, Inline, Quiet, Parse, Printed, PlainText;
    var v := ":true|false";
    FlagInline(StringPattern);
    FlagInline(NumberPattern);
    FlagInline(FlagPattern);
    LoneText(v);
    OneFinds(NumberPattern, "x", v);
    OneFinds(FlagPattern, "x", v);
    ParseOf(Printed([("x", Str(v))], "}"), [("x", v)], [], [(":", FLAG_TEXT)]);
    CollectOne(StringPattern, map[], "x", v);
    CollectOne(NumberPattern, map["x" := Str(v)], "", "");
    CollectOne(FlagPattern, map["x" := Str(v)], ":", FLAG_TEXT);
    assert FLAG_TEXT != "true";
  }

  // ---- A key that looks like a value, or like the colon before one ----

  /** `{"x":"y",":5":1}` comes back as `{"x":"y",",":5}`: the entry is read from the comma on. */
  lemma KeyTakenForNumber()
    ensures var es := [("x", Str("y")), (":5", Int(1))];
            && PlainEntries(es) && Calm(StringPattern, es, []) && Calm(FlagPattern, es, []) && !Calm(NumberPattern, es, [])
            && Parse(Printed(es, "}")) == map["x" := Str("y"), "," := Int(5)]
  {
    hide Scan, Inline, ColonOnly, Parse, Printed, PlainText, CaptureOf, Finds, PiecesOf, Calm;
    var e: Entry := ("x", Str("y"));
    var f: Entry := (":5", Int(1));
    var es := [e, f];
    Harmless(NumberPattern, "x");
    Harmless(NumberPattern, "y");
    Harmless(FlagPattern, "y");
    Harmless(StringPattern, "y");
    Harmless(NumberPattern, ",");
    FiveInline(StringPattern);
    FiveInline(NumberPattern);
    FiveInline(FlagPattern);
    CalmPair(StringPattern, e, f);
    CalmPair(NumberPattern, e, f);
    CalmPair(FlagPattern, e, f);
    assert PlainEntry(e) && PlainEntry(f);
    TextThenNumber();
    ScanTable(StringPattern, es, "}");
    ScanTable(FlagPattern, es, "}");
    HitsOfPair(e, f);
    ParseOf(Printed(es, "}"), [("x", "y")], [(",", "5")], []);
    DigitNumber("5");
    CollectOne(StringPattern, map[], "x", "y");
    CollectOne(NumberPattern, map["x" := Str("y")], ",", "5");
    CollectOne(FlagPattern, map["x" := Str("y"), "," := Int(5)], "", "");
  }

  lemma HitsOfPair(e: Entry, f: Entry)
    requires e.1.Str? && f.1.Int?
    ensures Hits(StringPattern, [e, f]) == [(e.0, e.1.text)] && Hits(FlagPattern, [e, f]) == []
  {
    TwoHits(StringPattern, e, f);
    TwoHits(FlagPattern, e, f);
    OneHits(StringPattern, e);
    OneHits(StringPattern, f);
    OneHits(FlagPattern, e);
    OneHits(FlagPattern, f);
  }

  lemma TextThenNumberPieces()
    ensures PlainEntries([("x", Str("y")), (":5", Int(1))])
    ensures PiecesOf(Printed([("x", Str("y")), (":5", Int(1))], "}")) == ["{", "x", ":", "y", ",", ":5", ":1}"]
  {
    hide Printed, PlainText, PiecesOf, Inline, ColonOnly;
    Harmless(NumberPattern, "x");
    Harmless(NumberPattern, "y");
    FiveInline(NumberPattern);
    var es: seq<Entry> := [("x", Str("y")), (":5", Int(1))];
    assert PlainEntry(es[0]) && PlainEntry(es[1]);
    PrintedPieces(es, "}");
    assert IntText(1) == "1" && ":" + ("1" + "}") == ":1}";
    assert es[1..] == [(":5", Int(1))] && es[1..][1..] == [];
    assert TablePieces(":1}", es[1..][1..], "}") == [":1}"];
    assert TablePieces(",", es[1..], "}") == [",", ":5"] + [":1}"];
    assert TablePieces("{", es, "}") == ["{", "x", ":", "y"] + ([",", ":5"] + [":1}"]);
  }

  lemma TextThenNumberFound()
    ensures var ps := ["{", "x", ":", "y", ",", ":5", ":1}"];
            && FoundAt(NumberPattern, ps, 0) == None && FoundAt(NumberPattern, ps, 1) == None
            && FoundAt(NumberPattern, ps, 2) == None && FoundAt(NumberPattern, ps, 3) == Some(("5", 5))
            && FoundAt(NumberPattern, ps, 5) == None
  {
    hide Inline, ColonOnly, PlainText;
    Harmless(NumberPattern, "y");
    Harmless(NumberPattern, ",");
    FiveInline(NumberPattern);
    ColonAlone();
  }

  lemma TextThenNumber()
    ensures PlainEntries([("x", Str("y")), (":5", Int(1))])
    ensures Scan(NumberPattern, Printed([("x", Str("y")), (":5", Int(1))], "}")) == [(",", "5")]
  {
    hide Scan, Printed, PlainText, Finds, FoundAt, PiecesOf;
    TextThenNumberPieces();
    TextThenNumberFound();
    var ps := ["{", "x", ":", "y", ",", ":5", ":1}"];
    ScanOfAnyText(NumberPattern, Printed([("x", Str("y")), (":5", Int(1))], "}"));
    FindsStep(NumberPattern, ps, 0);
    FindsStep(NumberPattern, ps, 1);
    FindsStep(NumberPattern, ps, 2);
    FindsStep(NumberPattern, ps, 3);
    FindsStep(NumberPattern, ps, 5);
    NothingAfter(NumberPattern, ps, 6);
    OneCapture(3, ",", "5");
  }

  /** `{"a":1,":":"b"}` comes back as `{"a":1,":1,":":"}`: the string scan reads the entry from its number on. */
  lemma KeyTakenForColon()
    ensures var es := [("a", Int(1)), (":", Str("b"))];
            && PlainEntries(es) && Calm(NumberPattern, es, []) && Calm(FlagPattern, es, []) && !Calm(StringPattern, es, [])
            && Parse(Printed(es, "}")) == map[":1," := Str(":"), "a" := Int(1)]
  {
    hide Scan, Inline, ColonOnly, Parse, Printed, PlainText, CaptureOf, Finds, PiecesOf, Calm;
    var e: Entry := ("a", Int(1));
    var f: Entry := (":", Str("b"));
    var es := [e, f];
    Harmless(NumberPattern, "a");
    Harmless(NumberPattern, "b");
    Harmless(FlagPattern, "b");
    Harmless(StringPattern, "b");
    ColonKey(StringPattern);
    ColonKey(NumberPattern);
    ColonKey(FlagPattern);
    CalmPair(StringPattern, e, f);
    CalmPair(NumberPattern, e, f);
    CalmPair(FlagPattern, e, f);
    assert PlainEntry(e) && PlainEntry(f);
    NumberThenText();
    ScanTable(NumberPattern, es, "}");
    ScanTable(FlagPattern, es, "}");
    HitsOfOtherPair(e, f);
    assert IntText(1) == "1";
    ParseOf(Printed(es, "}"), [(":1,", ":")], [("a", "1")], []);
    DigitNumber("1");
    CollectOne(StringPattern, map[], ":1,", ":");
    CollectOne(NumberPattern, map[":1," := Str(":")], "a", "1");
    CollectOne(FlagPattern, map[":1," := Str(":"), "a" := Int(1)], "", "");
  }

  lemma HitsOfOtherPair(e: Entry, f: Entry)
    requires e.1.Int? && f.1.Str?
    ensures Hits(NumberPattern, [e, f]) == [(e.0, IntText(e.1.num))] && Hits(FlagPattern, [e, f]) == []
  {
    TwoHits(NumberPattern, e, f);
    TwoHits(FlagPattern, e, f);
    OneHits(NumberPattern, e);
    OneHits(NumberPattern, f);
    OneHits(FlagPattern, e);
    OneHits(FlagPattern, f);
  }

  lemma NumberThenTextPieces()
    ensures PlainEntries([("a", Int(1)), (":", Str("b"))])
    ensures PiecesOf(Printed([("a", Int(1)), (":", Str("b"))], "}")) == ["{", "a", ":1,", ":", ":", "b", "}"]
  {
    hide Printed, PlainText, PiecesOf, Inline, ColonOnly;
    Harmless(StringPattern, "a");
    Harmless(StringPattern, "b");
    ColonKey(StringPattern);
    var es: seq<Entry> := [("a", Int(1)), (":", Str("b"))];
    assert PlainEntry(es[0]) && PlainEntry(es[1]);
    PrintedPieces(es, "}");
    assert IntText(1) == "1" && ":" + ("1" + ",") == ":1,";
    assert es[1..] == [(":", Str("b"))] && es[1..][1..] == [];
    assert TablePieces("}", es[1..][1..], "}") == ["}"];
    assert TablePieces(":1,", es[1..], "}") == [":1,", ":", ":", "b"] + ["}"];
    assert TablePieces("{", es, "}") == ["{", "a"] + ([":1,", ":", ":", "b"] + ["}"]);
  }

  lemma NumberThenTextFound()
    ensures var ps := ["{", "a", ":1,", ":", ":", "b", "}"];
            && FoundAt(StringPattern, ps, 0) == None && FoundAt(StringPattern, ps, 1) == Some((":", 5))
            && FoundAt(StringPattern, ps, 5) == None
  {
    hide Inline, ColonOnly, PlainText;
    ColonKey(StringPattern);
    assert ":" + ("1" + ",") == ":1,";
    NumeralInline("1", ",");
  }

  lemma NumberThenText()
    ensures PlainEntries([("a", Int(1)), (":", Str("b"))])
    ensures Scan(StringPattern, Printed([("a", Int(1)), (":", Str("b"))], "}")) == [(":1,", ":")]
  {
    hide Scan, Printed, PlainText, Finds, FoundAt, PiecesOf;
    NumberThenTextPieces();
    NumberThenTextFound();
    var ps := ["{", "a", ":1,", ":", ":", "b", "}"];
    ScanOfAnyText(StringPattern, Printed([("a", Int(1)), (":", Str("b"))], "}"));
    FindsStep(StringPattern, ps, 0);
    FindsStep(StringPattern, ps, 1);
    FindsStep(StringPattern, ps, 5);
    NothingAfter(StringPattern, ps, 6);
    OneCapture(1, ":1,", ":");
  }

  // ---- A stray match that does no harm ----

  lemma StrayPieces()
    ensures PlainEntries([("x", Str(":5")), (":", Int(5))])
    ensures PiecesOf(Printed([("x", Str(":5")), (":", Int(5))], "}")) == ["{", "x", ":", ":5", ",", ":", ":5}"]
  {
    hide Printed, PlainText, PiecesOf, Inline, ColonOnly;
    Harmless(NumberPattern, "x");
    FiveInline(NumberPattern);
    ColonKey(NumberPattern);
    var es: seq<Entry> := [("x", Str(":5")), (":", Int(5))];
    assert PlainEntry(es[0]) && PlainEntry(es[1]);
    PrintedPieces(es, "}");
    assert IntText(5) == "5" && ":" + ("5" + "}") == ":5}";
    assert es[1..] == [(":", Int(5))] && es[1..][1..] == [];
    assert TablePieces(":5}", es[1..][1..], "}") == [":5}"];
    assert TablePieces(",", es[1..], "}") == [",", ":"] + [":5}"];
    assert TablePieces("{", es, "}") == ["{", "x", ":", ":5"] + ([",", ":"] + [":5}"]);
  }

  lemma StrayFound()
    ensures var ps := ["{", "x", ":", ":5", ",", ":", ":5}"];
            && FoundAt(NumberPattern, ps, 0) == None && FoundAt(NumberPattern, ps, 1) == Some(("5", 3))
            && FoundAt(NumberPattern, ps, 3) == None && FoundAt(NumberPattern, ps, 4) == Some(("5", 6))
  {
    hide Inline, ColonOnly, PlainText;
    FiveInline(NumberPattern);
    ColonAlone();
    assert ":" + ("5" + "}") == ":5}";
    NumeralInline("5", "}");
  }

  lemma StrayScan()
    ensures PlainEntries([("x", Str(":5")), (":", Int(5))])
    ensures Scan(NumberPattern, Printed([("x", Str(":5")), (":", Int(5))], "}")) == [(":", "5"), (":", "5")]
  {
    hide Scan, Printed, PlainText, Finds, FoundAt, PiecesOf;
    StrayPieces();
    StrayFound();
    var ps := ["{", "x", ":", ":5", ",", ":", ":5}"];
    ScanOfAnyText(NumberPattern, Printed([("x", Str(":5")), (":", Int(5))], "}"));
    FindsStep(NumberPattern, ps, 0);
    FindsStep(NumberPattern, ps, 1);
    FindsStep(NumberPattern, ps, 3);
    FindsStep(NumberPattern, ps, 4);
    NothingAfter(NumberPattern, ps, 6);
    TwoCaptures(Find(1, ":", "5"), Find(4, ":", "5"));
  }

  lemma TwoCaptures(f: Find, g: Find)
    ensures Captures([f] + ([g] + [])) == [(f.key, f.val), (g.key, g.val)]
  {
    assert [g] + [] == [g] && ([f] + [g])[1..] == [g];
  }

  /** `{"x":":5",":":5}` comes back although the number scan strays: it stores what is there already. */
  lemma StrayMatchHarmless()
    ensures var es := [("x", Str(":5")), (":", Int(5))];
            && PlainEntries(es) && !Calm(NumberPattern, es, [])
            && Parse(Printed(es, "}")) == map["x" := Str(":5"), ":" := Int(5)]
  {
    hide Scan, Inline, ColonOnly, Parse, Printed, PlainText, CaptureOf, Finds, PiecesOf, Calm;
    var e: Entry := ("x", Str(":5"));
    var f: Entry := (":", Int(5));
    var es := [e, f];
    Harmless(NumberPattern, "x");
    FiveInline(StringPattern);
    FiveInline(NumberPattern);
    FiveInline(FlagPattern);
    ColonKey(StringPattern);
    ColonKey(FlagPattern);
    CalmPair(StringPattern, e, f);
    CalmPair(NumberPattern, e, f);
    CalmPair(FlagPattern, e, f);
    assert PlainEntry(e) && PlainEntry(f);
    StrayScan();
    ScanTable(StringPattern, es, "}");
    ScanTable(FlagPattern, es, "}");
    HitsOfPair(e, f);
    ParseOf(Printed(es, "}"), [("x", ":5")], [(":", "5"), (":", "5")], []);
    DigitNumber("5");
    CollectOne(StringPattern, map[], "x", ":5");
    var m := map["x" := Str(":5"), ":" := Int(5)];
    CollectOne(NumberPattern, map["x" := Str(":5")], ":", "5");
    CollectOne(NumberPattern, m, ":", "5");
    CollectAppend(NumberPattern, map["x" := Str(":5")], [(":", "5")], [(":", "5")]);
    assert [(":", "5")] + [(":", "5")] == [(":", "5"), (":", "5")];
    CollectOne(FlagPattern, m, "", "");
  }
}
