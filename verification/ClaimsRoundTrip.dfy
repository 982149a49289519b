/** What `parse_json_obj` makes of a whole printed table, whole or cut short. */
module ClaimsRoundTrip {
  import opened Wrappers
  import opened Json
  import opened JsonScan
  import opened JsonRoundTrip
  import opened JsonPieces
  import opened Numerals
  import opened TableScan

  // ---- The table the three loops fill ----

  /** Storing the entries of one kind into a table. */
  function AddAll(p: Pattern, m: Claims, es: seq<Entry>): (r: Claims)
    decreases |es|
  {
    if |es| == 0 then m else AddAll(p, if PatternOf(es[0].1) == p then m[es[0].0 := es[0].1] else m, es[1..])
  }

  lemma {:induction false} CollectHits(p: Pattern, m: Claims, es: seq<Entry>)
    requires PlainEntries(es)
    ensures Collect(p, m, Hits(p, es)) == AddAll(p, m, es)
    decreases |es|
  {
    if |es| > 0 {
      var e := es[0];
      assert PlainEntry(e);
      if PatternOf(e.1) == p {
        if p == NumberPattern { ToNumberOfIntText(e.1.num); }
        assert Put(p, m, e.0, CaptureOf(e.1)) == m[e.0 := e.1];
        assert Hits(p, es)[1..] == Hits(p, es[1..]);
        CollectHits(p, m[e.0 := e.1], es[1..]);
      } else {
        assert Hits(p, es) == Hits(p, es[1..]);
        CollectHits(p, m, es[1..]);
      }
    }
  }

  ghost predicate Lists(es: seq<Entry>, p: Pattern, k: string) {
    exists i :: 0 <= i < |es| && es[i].0 == k && PatternOf(es[i].1) == p
  }

  lemma {:induction false} AddAllAt(p: Pattern, m: Claims, es: seq<Entry>)
    requires DistinctKeys(es)
    ensures forall k :: k in AddAll(p, m, es) <==> k in m || Lists(es, p, k)
    ensures forall k :: k in m && !Lists(es, p, k) ==> k in AddAll(p, m, es) && AddAll(p, m, es)[k] == m[k]
    ensures forall i :: 0 <= i < |es| && PatternOf(es[i].1) == p ==>
              es[i].0 in AddAll(p, m, es) && AddAll(p, m, es)[es[i].0] == es[i].1
    decreases |es|
  {
    if |es| > 0 {
      var e, rest := es[0], es[1..];
      var m' := if PatternOf(e.1) == p then m[e.0 := e.1] else m;
      AddAllAt(p, m', rest);
      forall k
        ensures Lists(es, p, k) <==> Lists(rest, p, k) || (e.0 == k && PatternOf(e.1) == p)
      {
        if Lists(rest, p, k) {
          var i :| 0 <= i < |rest| && rest[i].0 == k && PatternOf(rest[i].1) == p;
          assert es[i + 1] == rest[i];
        }
        if Lists(es, p, k) {
          var i :| 0 <= i < |es| && es[i].0 == k && PatternOf(es[i].1) == p;
          assert i > 0 ==> rest[i - 1] == es[i];
        }
      }
      assert forall i :: 0 <= i < |rest| ==> rest[i] == es[i + 1] && rest[i].0 != e.0;
      assert !Lists(rest, p, e.0);
      forall i | 0 <= i < |es| && PatternOf(es[i].1) == p
        ensures es[i].0 in AddAll(p, m, es) && AddAll(p, m, es)[es[i].0] == es[i].1
      {
        if i > 0 { assert rest[i - 1] == es[i]; }
      }
    }
  }

  /** The loops for strings and for numbers together store every entry. */
  lemma AddBoth(es: seq<Entry>, c: Claims)
    requires PlainEntries(es) && IsOrderOf(es, c)
    ensures AddAll(NumberPattern, AddAll(StringPattern, map[], es), es) == c
  {
    hide AddAll, PlainText;
    var m := AddAll(StringPattern, map[], es);
    var r := AddAll(NumberPattern, m, es);
    AddAllAt(StringPattern, map[], es);
    AddAllAt(NumberPattern, m, es);
    forall k
      ensures k in r <==> k in c
      ensures k in c ==> r[k] == c[k]
    {
      if k in c {
        var i :| 0 <= i < |es| && es[i].0 == k;
        assert PlainEntry(es[i]);
        if es[i].1.Str? {
          assert Lists(es, StringPattern, k);
          assert forall j :: 0 <= j < |es| && es[j].0 == k ==> j == i;
          assert !Lists(es, NumberPattern, k);
        } else {
          assert Lists(es, NumberPattern, k);
        }
      }
    }
  }

  lemma {:induction false} NoFlags(es: seq<Entry>)
    requires PlainEntries(es)
    ensures Hits(FlagPattern, es) == []
  {
    if |es| > 0 {
      assert PlainEntry(es[0]);
      NoFlags(es[1..]);
    }
  }

  /** No entry lets a scan stray from the keys. */
  ghost predicate CalmTable(es: seq<Entry>) {
    forall p :: Calm(p, es, [])
  }

  /** The parser undoes the printer, and does not need the closing brace. */
  lemma ParsePrint(es: seq<Entry>, c: Claims, end: string)
    requires PlainEntries(es) && CalmTable(es) && IsOrderOf(es, c)
    requires end == "}" || end == ""
    ensures Parse("{" + BodyText(es, end)) == c
  {
    hide Scan, BodyText, Calm;
    forall p
      ensures Scan(p, "{" + BodyText(es, end)) == Hits(p, es)
    {
      ScanTable(p, es, end);
    }
    CollectHits(StringPattern, map[], es);
    CollectHits(NumberPattern, AddAll(StringPattern, map[], es), es);
    NoFlags(es);
    AddBoth(es, c);
  }

  // ---- Two characters cut off ----

  /** What separates an entry from the entries before it. */
  function Lead(pre: seq<Entry>): (s: string) {
    if |pre| == 0 then "" else ","
  }

  function KeyThen(k: string, v: string): (s: string) {
    "\"" + (k + ("\":" + v))
  }

  function CutEntryText(e: Entry): (s: string)
    requires e.1.Str? || e.1.Int?
  {
    KeyThen(e.0, if e.1.Str? then "\"" + e.1.text else CutNumeral(e.1.num))
  }

  lemma GlueLast(k: string, v: string, last: string)
    ensures KeyThen(k, v + last) == KeyThen(k, v) + last
  {
  }

  lemma EntryIsKeyThen(e: Entry)
    requires PlainEntry(e)
    ensures EntryText(e) == KeyThen(e.0, ValueText(e.1))
  {
    hide IntText;
  }

  lemma CutEntry(e: Entry)
    requires PlainEntry(e)
    ensures EntryText(e) == CutEntryText(e) + [EntryText(e)[|EntryText(e)| - 1]]
  {
    hide EntryText, IntText, KeyThen;
    EntryIsKeyThen(e);
    if e.1.Str? {
      GlueLast(e.0, "\"" + e.1.text, "\"");
    } else {
      var d := IntText(e.1.num);
      GlueLast(e.0, CutNumeral(e.1.num), [d[|d| - 1]]);
      assert d == CutNumeral(e.1.num) + [d[|d| - 1]];
    }
  }

  lemma {:induction false} BodySnoc(es: seq<Entry>, end: string)
    requires PlainEntries(es) && |es| > 0
    ensures var pre, last := es[..|es| - 1], es[|es| - 1];
            BodyText(es, end) == BodyText(pre, Lead(pre) + (EntryText(last) + end))
    decreases |es|
  {
    hide EntryText;
    var pre, last := es[..|es| - 1], es[|es| - 1];
    if |es| == 1 {
      assert es[1..] == [] && Lead(pre) + (EntryText(last) + end) == EntryText(last) + end;
    } else {
      BodySnoc(es[1..], end);
      assert es[1..][..|es| - 2] == pre[1..];
      if |es| == 2 {
        assert pre[1..] == [];
        assert "" + (EntryText(last) + end) == EntryText(last) + end;
      }
    }
  }

  lemma {:induction false} BodyTake(es: seq<Entry>, end: string, cut: string)
    requires PlainEntries(es)
    ensures BodyText(es, end + cut) == BodyText(es, end) + cut
    decreases |es|
  {
    hide EntryText;
    if |es| > 0 {
      if |es| > 1 {
        BodyTake(es[1..], end, cut);
        assert "," + (BodyText(es[1..], end) + cut) == ("," + BodyText(es[1..], end)) + cut;
      }
      assert RestText(es[1..], end + cut) == RestText(es[1..], end) + cut;
    }
  }

  /** The printed table without its last two characters. */
  lemma CutText(es: seq<Entry>)
    requires PlainEntries(es) && |es| > 0
    ensures var pre, s := es[..|es| - 1], "{" + BodyText(es, "}");
            |s| >= 2 && s[..|s| - 2] == "{" + BodyText(pre, Lead(pre) + CutEntryText(es[|es| - 1]))
  {
    hide EntryText, CutEntryText, BodyText;
    var pre, last := es[..|es| - 1], es[|es| - 1];
    BodySnoc(es, "}");
    assert PlainEntry(last);
    CutEntry(last);
    var cut := [EntryText(last)[|EntryText(last)| - 1]] + "}";
    assert Lead(pre) + (EntryText(last) + "}") == (Lead(pre) + CutEntryText(last)) + cut;
    BodyTake(pre, Lead(pre) + CutEntryText(last), cut);
  }

  /** The match a cut entry still produces. */
  function CutHits(p: Pattern, e: Entry): (hits: seq<(string, string)>) {
    if p == NumberPattern && e.1.Int? && CutNumeral(e.1.num) != "" then [(e.0, CutNumeral(e.1.num))] else []
  }

  /** The pieces a cut last entry adds. */
  function CutPieces(e: Entry): (ps: seq<string>)
    requires e.1.Str? || e.1.Int?
  {
    if e.1.Str? then [e.0, ":", e.1.text] else [e.0, ":" + CutNumeral(e.1.num)]
  }

  lemma QuotedCut(lead: string, e: Entry)
    requires PlainEntry(e)
    ensures Quoted([lead] + CutPieces(e)) == lead + CutEntryText(e)
  {
    hide Quoted, PlainText, IntText, CutNumeral;
    if e.1.Str? {
      assert CutPieces(e) == [e.0] + ([":"] + [e.1.text]);
      QuotedCons(":", [e.1.text]);
      QuotedCons(e.0, [":"] + [e.1.text]);
      QuotedOne(e.1.text);
      assert CutEntryText(e) == "\"" + (e.0 + ("\"" + (":" + ("\"" + e.1.text))));
    } else {
      var d := ":" + CutNumeral(e.1.num);
      assert CutPieces(e) == [e.0] + [d];
      QuotedCons(e.0, [d]);
      QuotedOne(d);
      assert CutEntryText(e) == "\"" + (e.0 + ("\"" + d));
    }
    QuotedCons(lead, CutPieces(e));
  }

  lemma QuotedOne(s: string)
    ensures Quoted([s]) == s
  {
  }

  lemma {:induction false} QuotedConcat(ps: seq<string>, last: string, qs: seq<string>)
    requires |qs| > 0
    ensures Quoted(ps + ([last] + qs)) == Quoted(ps + [last]) + ("\"" + Quoted(qs))
    decreases |ps|
  {
    hide Quoted;
    if |ps| == 0 {
      assert ps + ([last] + qs) == [last] + qs && ps + [last] == [last];
      QuotedCons(last, qs);
      QuotedOne(last);
    } else {
      QuotedConcat(ps[1..], last, qs);
      assert ps + ([last] + qs) == [ps[0]] + (ps[1..] + ([last] + qs)) && ps + [last] == [ps[0]] + (ps[1..] + [last]);
      QuotedCons(ps[0], ps[1..] + ([last] + qs));
      QuotedCons(ps[0], ps[1..] + [last]);
      Regroup(ps[0], Quoted(ps[1..] + [last]), "\"" + Quoted(qs));
    }
  }

  lemma Regroup(a: string, b: string, c: string)
    ensures a + ("\"" + (b + c)) == (a + ("\"" + b)) + c
  {
  }

  lemma CutFinds(p: Pattern, ps: seq<string>, i: nat, e: Entry)
    requires PlainEntry(e) && i + 1 + |CutPieces(e)| == |ps| && ps[i + 1..] == CutPieces(e)
    requires e.1.Str? ==> Inline(p, e.1.text) == None
    ensures Captures(Finds(p, ps, i)) == CutHits(p, e)
  {
    hide Finds, AfterColon, IntText, CutNumeral, PlainText;
    InlineOfString();
    assert ps[i + 1] == ps[i + 1..][0] && ps[i + 2] == ps[i + 1..][1];
    if e.1.Str? {
      assert ps[i + 3] == ps[i + 1..][2];
      ColonAlone();
      FindsStep(p, ps, i);
      FindsStep(p, ps, i + 1);
      FindsStep(p, ps, i + 2);
      NothingAfter(p, ps, i + 3);
    } else {
      var d := CutNumeral(e.1.num);
      CutDigits(e.1.num);
      NumeralInline(d, "");
      assert d + "" == d;
      FindsStep(p, ps, i);
      FindsStep(p, ps, i + 1);
      NothingAfter(p, ps, i + 2);
    }
  }

  lemma CutDigits(i: int)
    ensures forall j :: 0 <= j < |CutNumeral(i)| ==> IsNumberChar(CutNumeral(i)[j])
  {
    hide IntText;
    DigitsAreNumberChars(i);
  }

  /** The entries before the last are passed as quietly when the last is cut. */
  lemma {:induction false} CalmBeforeCut(p: Pattern, es: seq<Entry>)
    requires PlainEntries(es) && |es| > 0 && Calm(p, es, [])
    ensures PlainEntry(es[|es| - 1])
    ensures Calm(p, es[..|es| - 1], CutPieces(es[|es| - 1]))
    ensures es[|es| - 1].1.Str? ==> Inline(p, es[|es| - 1].1.text) == None
    decreases |es|
  {
    hide Inline, ColonOnly, PlainText, CutNumeral;
    InlineOfStringOnly(p);
    var pre, last := es[..|es| - 1], es[|es| - 1];
    assert PlainEntry(last);
    if |es| == 1 {
    } else {
      assert PlainEntries(es[1..]);
      CalmBeforeCut(p, es[1..]);
      assert es[1..][..|es| - 2] == pre[1..];
      if |es| == 2 {
        assert es[1..] == [last] && [last][1..] == [] && pre[1..] == [];
      } else {
        assert Width(es[1..]) >= 3 && Width(pre[1..]) >= 2;
      }
    }
  }

  lemma InlineOfStringOnly(p: Pattern)
    ensures p == StringPattern ==> forall s :: Inline(p, s) == None
  {
  }

  /** The pieces of a cut table. */
  lemma CutTablePieces(es: seq<Entry>)
    requires PlainEntries(es) && |es| > 0
    ensures PlainEntry(es[|es| - 1])
    ensures var pre, last := es[..|es| - 1], es[|es| - 1];
            PiecesOf("{" + BodyText(pre, Lead(pre) + CutEntryText(last))) == TablePieces("{", pre, ",") + CutPieces(last)
  {
    hide TablePieces, PiecesOf, CutPieces, CutEntryText, Quoted, BodyText, PlainText;
    var pre, last := es[..|es| - 1], es[|es| - 1];
    assert PlainEntry(last);
    var a, extra := TablePieces("{", pre, ","), CutPieces(last);
    CutQuoteFree(last);
    assert NoQuote("{") && NoQuote(",");
    TableQuoteFree("{", pre, ",");
    QuotedTable("{", pre, ",");
    assert a + extra == a[..|a| - 1] + ([a[|a| - 1]] + extra) && a == a[..|a| - 1] + [a[|a| - 1]];
    QuotedConcat(a[..|a| - 1], a[|a| - 1], extra);
    QuotedCut("", last);
    QuotedCons("", extra);
    assert "" + ("\"" + Quoted(extra)) == "\"" + Quoted(extra) && "" + CutEntryText(last) == CutEntryText(last);
    if |pre| > 0 {
      BodyTake(pre, ",", CutEntryText(last));
      assert ("{" + BodyText(pre, ",")) + CutEntryText(last) == "{" + (BodyText(pre, ",") + CutEntryText(last));
    } else {
      NoBody(pre, "" + CutEntryText(last));
    }
    PiecesUnique(a + extra);
  }

  lemma NoBody(es: seq<Entry>, end: string)
    requires |es| == 0
    ensures BodyText(es, end) == end
  {
  }

  lemma CutQuoteFree(e: Entry)
    requires PlainEntry(e)
    ensures QuoteFree(CutPieces(e)) && |CutPieces(e)| > 0
  {
    hide CutNumeral, IntText;
    if e.1.Int? { CutDigits(e.1.num); }
  }

  lemma ScanCut(p: Pattern, es: seq<Entry>)
    requires PlainEntries(es) && |es| > 0 && Calm(p, es, [])
    ensures PlainEntry(es[|es| - 1])
    ensures var pre, last := es[..|es| - 1], es[|es| - 1];
            Scan(p, "{" + BodyText(pre, Lead(pre) + CutEntryText(last))) == Hits(p, pre) + CutHits(p, last)
  {
    hide Scan, Finds, Calm, PiecesOf, TablePieces, BodyText, CutEntryText, CutHits, Inline, PlainText;
    var pre, last := es[..|es| - 1], es[|es| - 1];
    CalmBeforeCut(p, es);
    CutTablePieces(es);
    ScanOfAnyText(p, "{" + BodyText(pre, Lead(pre) + CutEntryText(last)));
    var ps := TablePieces("{", pre, ",") + CutPieces(last);
    assert ps[0..] == ps;
    TableFinds(p, ps, 0, "{", pre, ",", CutPieces(last));
    assert ps[Width(pre) + 1..] == CutPieces(last);
    CutFinds(p, ps, Width(pre), last);
    KeyFindsCaptures(p, 0, pre);
    CapturesAppend(KeyFinds(p, 0, pre), Finds(p, ps, Width(pre)));
  }

  lemma CapturesAppend(a: seq<Find>, b: seq<Find>)
    ensures Captures(a + b) == Captures(a) + Captures(b)
  {
  }

  lemma {:induction false} CollectAppend(p: Pattern, m: Claims, a: seq<(string, string)>, b: seq<(string, string)>)
    ensures Collect(p, m, a + b) == Collect(p, Collect(p, m, a), b)
    decreases |a|
  {
    if |a| == 0 {
      assert a + b == b;
    } else {
      assert (a + b)[1..] == a[1..] + b;
      CollectAppend(p, Put(p, m, a[0].0, a[0].1), a[1..], b);
    }
  }

  /** The claims left when the printed table has lost its last two characters. */
  function CutClaims(es: seq<Entry>, c: Claims): (r: Claims)
    requires |es| > 0
  {
    var last := es[|es| - 1];
    if last.1.Int? && CutValue(last.1.num).Some? then c[last.0 := CutValue(last.1.num).value] else c - {last.0}
  }

  lemma OrderOfInit(es: seq<Entry>, c: Claims)
    requires |es| > 0 && IsOrderOf(es, c)
    ensures IsOrderOf(es[..|es| - 1], c - {es[|es| - 1].0})
  {
    var pre, last := es[..|es| - 1], es[|es| - 1];
    assert forall i :: 0 <= i < |pre| ==> pre[i] == es[i] && es[i].0 != last.0;
    forall k | k in c - {last.0}
      ensures exists i :: 0 <= i < |pre| && pre[i].0 == k
    {
      var i :| 0 <= i < |es| && es[i].0 == k;
      assert pre[i].0 == k;
    }
  }

  lemma ParseOfCutText(es: seq<Entry>, c: Claims)
    requires PlainEntries(es) && CalmTable(es) && |es| > 0 && IsOrderOf(es, c)
    ensures PlainEntry(es[|es| - 1])
    ensures var pre, last := es[..|es| - 1], es[|es| - 1];
            Parse("{" + BodyText(pre, Lead(pre) + CutEntryText(last)))
            == Collect(NumberPattern, c - {last.0}, CutHits(NumberPattern, last))
  {
    hide Scan, BodyText, CutEntryText, Collect, CutHits, Calm;
    var pre, last := es[..|es| - 1], es[|es| - 1];
    assert CutHits(StringPattern, last) == [] && CutHits(FlagPattern, last) == [] by { NoCutHits(last); }
    ScanCut(StringPattern, es);
    ScanCut(NumberPattern, es);
    ScanCut(FlagPattern, es);
    NoFlags(pre);
    OrderOfInit(es, c);
    AddBoth(pre, c - {last.0});
    var m := AddAll(StringPattern, map[], pre);
    CollectHits(StringPattern, map[], pre);
    assert Hits(StringPattern, pre) + [] == Hits(StringPattern, pre);
    CollectHits(NumberPattern, m, pre);
    CollectAppend(NumberPattern, m, Hits(NumberPattern, pre), CutHits(NumberPattern, last));
    CollectNothing(FlagPattern, Collect(NumberPattern, c - {last.0}, CutHits(NumberPattern, last)));
  }

  lemma NoCutHits(e: Entry)
    ensures CutHits(StringPattern, e) == [] && CutHits(FlagPattern, e) == []
  {
  }

  lemma CollectNothing(p: Pattern, m: Claims)
    ensures Collect(p, m, []) == m
  {
  }

  /**
   Without its last two characters the printed table still yields every entry but the last; of the
   last an integer keeps all digits but one, and anything else is lost.
   */
  lemma ParseCut(es: seq<Entry>, c: Claims)
    requires PlainEntries(es) && CalmTable(es) && |es| > 0 && IsOrderOf(es, c)
    ensures var s := "{" + BodyText(es, "}"); |s| >= 2 && Parse(s[..|s| - 2]) == CutClaims(es, c)
  {
    hide Parse, BodyText, CutEntryText, ToNumber, CutValue, CalmTable;
    var last := es[|es| - 1];
    CutText(es);
    ParseOfCutText(es, c);
    assert PlainEntry(last);
    if last.1.Int? {
      ToNumberOfCut(last.1.num);
      CutPut(last, c);
    }
  }

  lemma CutPut(e: Entry, c: Claims)
    requires PlainEntry(e) && e.1.Int?
    ensures Collect(NumberPattern, c - {e.0}, CutHits(NumberPattern, e))
            == match CutValue(e.1.num) case Some(v) => c[e.0 := v] case None => c - {e.0}
  {
    ToNumberOfCut(e.1.num);
    var m := c - {e.0};
    var d := CutNumeral(e.1.num);
    assert m - {e.0} == m;
    if d != "" {
      CollectNothing(NumberPattern, Put(NumberPattern, m, e.0, d));
      assert Collect(NumberPattern, m, [(e.0, d)]) == Put(NumberPattern, m, e.0, d);
      assert CutValue(e.1.num).Some? ==> m[e.0 := CutValue(e.1.num).value] == c[e.0 := CutValue(e.1.num).value];
    }
  }
}
