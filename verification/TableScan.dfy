/**
 What one scan of `parse_json_obj` finds in a printed table.  Every match begins at the quote of a
 key exactly when no text or key looks like a colon and a value behind a closing quote.
 */
module TableScan {
  import opened Wrappers
  import opened Json
  import opened JsonScan
  import opened JsonRoundTrip
  import opened JsonPieces
  import opened Numerals

  // ---- The matches of one scan ----

  function PatternOf(v: LuaValue): (p: Pattern) {
    if v.Str? then StringPattern else if v.Int? then NumberPattern else FlagPattern
  }

  function CaptureOf(v: LuaValue): (s: string) {
    if v.Str? then v.text else if v.Int? then IntText(v.num) else ""
  }

  /** The matches the scan for `p` should report for the entries, in printing order. */
  function Hits(p: Pattern, es: seq<Entry>): (hits: seq<(string, string)>) {
    if |es| == 0 then []
    else (if PatternOf(es[0].1) == p then [(es[0].0, CaptureOf(es[0].1))] else []) + Hits(p, es[1..])
  }

  /** The same with their places: each begins at the opening quote of its key. */
  function KeyFinds(p: Pattern, b: nat, es: seq<Entry>): (fs: seq<Find>)
    decreases |es|
  {
    if |es| == 0 then []
    else
      (if PatternOf(es[0].1) == p then [Find(b, es[0].0, CaptureOf(es[0].1))] else [])
      + KeyFinds(p, b + PiecesPer(es[0]), es[1..])
  }

  lemma {:induction false} KeyFindsCaptures(p: Pattern, b: nat, es: seq<Entry>)
    ensures Captures(KeyFinds(p, b, es)) == Hits(p, es)
    decreases |es|
  {
    if |es| > 0 {
      KeyFindsCaptures(p, b + PiecesPer(es[0]), es[1..]);
      var rest := KeyFinds(p, b + PiecesPer(es[0]), es[1..]);
      if PatternOf(es[0].1) == p {
        assert KeyFinds(p, b, es)[1..] == rest;
      } else {
        assert KeyFinds(p, b, es) == rest;
      }
    }
  }

  // ---- The pieces of a printed table ----

  /** An entry with text adds its key, the colon, the text and what follows; a number two pieces. */
  function PiecesPer(e: Entry): (n: nat) {
    if e.1.Str? then 4 else 2
  }

  function Width(es: seq<Entry>): (n: nat) {
    if |es| == 0 then 0 else PiecesPer(es[0]) + Width(es[1..])
  }

  /** What separates the first entry from the rest, or ends it. */
  function Separator(es: seq<Entry>, end: string): (s: string) {
    if |es| > 1 then "," else end
  }

  /** The piece the first entry leaves the scan in. */
  function NextLead(es: seq<Entry>, end: string): (s: string)
    requires |es| > 0
  {
    if es[0].1.Int? then ":" + (IntText(es[0].1.num) + Separator(es, end)) else Separator(es, end)
  }

  function TablePieces(lead: string, es: seq<Entry>, end: string): (ps: seq<string>)
    requires forall i :: 0 <= i < |es| ==> es[i].1.Str? || es[i].1.Int?
    ensures |ps| == Width(es) + 1 && ps[0] == lead
    decreases |es|
  {
    if |es| == 0 then [lead]
    else
      (if es[0].1.Str? then [lead, es[0].0, ":", es[0].1.text] else [lead, es[0].0])
      + TablePieces(NextLead(es, end), es[1..], end)
  }

  lemma QuotedCons(p: string, ps: seq<string>)
    requires |ps| > 0
    ensures Quoted([p] + ps) == p + ("\"" + Quoted(ps))
  {
    assert ([p] + ps)[1..] == ps;
  }

  lemma PiecesCons(lead: string, es: seq<Entry>, end: string)
    requires PlainEntries(es) && |es| > 0
    ensures PlainEntry(es[0])
    ensures var rest := TablePieces(NextLead(es, end), es[1..], end);
            TablePieces(lead, es, end)
            == if es[0].1.Str? then [lead] + ([es[0].0] + ([":"] + ([es[0].1.text] + rest))) else [lead] + ([es[0].0] + rest)
  {
    hide PlainText;
    assert PlainEntry(es[0]);
  }

  lemma BodyCons(es: seq<Entry>, end: string)
    requires PlainEntries(es) && |es| > 0
    ensures BodyText(es, end) == EntryText(es[0]) + (if |es| > 1 then "," + BodyText(es[1..], end) else end)
  {
    hide EntryText, PlainText;
    assert PlainEntry(es[0]);
  }

  lemma EntryQuotes(e: Entry, t: string)
    requires PlainEntry(e)
    ensures e.1.Str? ==> "\"" + (e.0 + ("\"" + (":" + ("\"" + (e.1.text + ("\"" + t)))))) == EntryText(e) + t
    ensures e.1.Int? ==> "\"" + (e.0 + ("\"" + ((":" + IntText(e.1.num)) + t))) == EntryText(e) + t
  {
    hide IntText;
  }

  lemma GlueNumber(n: string, sep: string, body: string)
    ensures (":" + (n + sep)) + body == (":" + n) + (sep + body)
    ensures body == "" ==> ":" + (n + sep) == (":" + n) + sep && sep + body == sep
  {
  }

  /** The printed entries are these pieces with quotes between them. */
  lemma {:induction false} QuotedTable(lead: string, es: seq<Entry>, end: string)
    requires PlainEntries(es)
    ensures Quoted(TablePieces(lead, es, end)) == if |es| == 0 then lead else lead + BodyText(es, end)
    decreases |es|
  {
    if |es| > 0 {
      hide Quoted, EntryText, BodyText, TablePieces, PlainText, IntText;
      var rest := TablePieces(NextLead(es, end), es[1..], end);
      QuotedTable(NextLead(es, end), es[1..], end);
      PiecesCons(lead, es, end);
      BodyCons(es, end);
      var e := es[0];
      var t := if |es| > 1 then "," + BodyText(es[1..], end) else end;
      if e.1.Str? {
        assert Quoted(rest) == t;
        QuotedCons(e.1.text, rest);
        QuotedCons(":", [e.1.text] + rest);
        QuotedCons(e.0, [":"] + ([e.1.text] + rest));
        QuotedCons(lead, [e.0] + ([":"] + ([e.1.text] + rest)));
        EntryQuotes(e, t);
      } else {
        GlueNumber(IntText(e.1.num), Separator(es, end), if |es| > 1 then BodyText(es[1..], end) else "");
        QuotedCons(e.0, rest);
        QuotedCons(lead, [e.0] + rest);
        EntryQuotes(e, t);
      }
    }
  }

  // ---- When the scans stay on the keys ----

  /**
   The scan for `p` passes entry `e` without a match inside it or across to the next key: `more` says
   that two or more pieces follow that key.
   */
  predicate Quiet(p: Pattern, e: Entry, next: Option<string>, more: bool) {
    || PatternOf(e.1) == p
    || (&& (e.1.Str? ==> Inline(p, e.1.text) == None)
        && (next.Some? ==> Inline(p, next.value) == None && !(p == StringPattern && more && ColonOnly(next.value))))
  }

  function NextKey(es: seq<Entry>, extra: seq<string>): (k: Option<string>)
    requires |es| > 0
  {
    if |es| > 1 then Some(es[1].0) else if |extra| > 0 then Some(extra[0]) else None
  }

  /** Every entry is passed quietly, `extra` being pieces after the last one. */
  predicate Calm(p: Pattern, es: seq<Entry>, extra: seq<string>) {
    |es| > 0 ==> Quiet(p, es[0], NextKey(es, extra), Width(es[1..]) + |extra| >= 3) && Calm(p, es[1..], extra)
  }

  lemma {:induction false} FindsFrom(p: Pattern, ps: seq<string>, i: nat)
    ensures forall f :: f in Finds(p, ps, i) ==> f.at >= i
    decreases |ps| - i
  {
    hide FoundAt;
    if i + 1 < |ps| {
      match FoundAt(p, ps, i)
      case None => FindsFrom(p, ps, i + 1);
      case Some((_, next)) => FindsFrom(p, ps, next);
    }
  }

  lemma {:induction false} KeyFindsFrom(p: Pattern, b: nat, es: seq<Entry>)
    ensures forall f :: f in KeyFinds(p, b, es) ==> f.at >= b
    decreases |es|
  {
    if |es| > 0 { KeyFindsFrom(p, b + PiecesPer(es[0]), es[1..]); }
  }

  /** Pieces that cannot begin with a colon. */
  lemma NoColon(s: string)
    requires s == "" || (s[0] != ':' && !IsSpace(s[0]))
    ensures AfterColon(s) == None
  {
  }

  lemma NumeralInline(d: string, sep: string)
    requires forall i :: 0 <= i < |d| ==> IsNumberChar(d[i])
    requires sep == "" || sep == "," || sep == "}"
    ensures Inline(NumberPattern, ":" + (d + sep)) == if d == "" then None else Some(d)
    ensures Inline(FlagPattern, ":" + (d + sep)) == None
    ensures d != "" ==> !ColonOnly(":" + (d + sep))
  {
    hide SkipSpaces, NumberRun, AfterColon;
    var w := d + sep;
    assert w == "" || w[0] == if d == "" then sep[0] else d[0];
    AfterColonIs(w);
    NumberRunAppend(d, sep);
    AllNumber(d);
    assert w[..|d|] == d;
  }

  lemma AfterColonIs(w: string)
    requires w == "" || !IsSpace(w[0])
    ensures AfterColon(":" + w) == Some(w)
  {
    hide SkipSpaces;
    var s := ":" + w;
    assert s[0] == ':' && s[1..] == w;
    NoSpaces(s);
    NoSpaces(w);
  }

  lemma {:induction false} AllNumber(d: string)
    requires forall i :: 0 <= i < |d| ==> IsNumberChar(d[i])
    ensures NumberRun(d) == |d|
  {
    if |d| > 0 { AllNumber(d[1..]); }
  }

  lemma ColonAlone()
    ensures ColonOnly(":") && forall p :: Inline(p, ":") == None
  {
    NoSpaces(":");
    NoSpaces("");
    assert ":"[1..] == "";
  }

  lemma FindsStep(p: Pattern, ps: seq<string>, i: nat)
    requires i + 1 < |ps|
    ensures Finds(p, ps, i)
            == match FoundAt(p, ps, i)
               case None => Finds(p, ps, i + 1)
               case Some((v, next)) => [Find(i, ps[i + 1], v)] + Finds(p, ps, next)
  {
  }

  /** An entry with text, all its pieces being in place from `b` on. */
  lemma TextEntry(p: Pattern, ps: seq<string>, b: nat, e: Entry, next: Option<string>, more: bool)
    requires PlainEntry(e) && e.1.Str? && b + 4 < |ps|
    requires ps[b + 1] == e.0 && ps[b + 2] == ":" && ps[b + 3] == e.1.text
    requires next.Some? ==> b + 5 < |ps| && ps[b + 5] == next.value && ps[b + 4] == ","
    requires next == None ==> b + 5 == |ps| && (ps[b + 4] == "" || ps[b + 4] == "}")
    ensures p == StringPattern ==> Finds(p, ps, b) == [Find(b, e.0, e.1.text)] + Finds(p, ps, b + 4)
    ensures p != StringPattern && Quiet(p, e, next, more) ==> Finds(p, ps, b) == Finds(p, ps, b + 4)
    ensures p != StringPattern && !Quiet(p, e, next, more) ==> |Finds(p, ps, b)| > 0 && b < Finds(p, ps, b)[0].at < b + 4
  {
    hide Finds, Inline, AfterColon, PlainText;
    InlineOfString();
    ColonAlone();
    NoColon(ps[b + 4]);
    assert Inline(p, ps[b + 4]) == None && !ColonOnly(ps[b + 4]) by { InlineNeedsColon(p, ps[b + 4]); }
    FindsStep(p, ps, b);
    FindsStep(p, ps, b + 1);
    FindsStep(p, ps, b + 2);
    FindsStep(p, ps, b + 3);
  }

  lemma InlineNeedsColon(p: Pattern, s: string)
    requires AfterColon(s) == None
    ensures Inline(p, s) == None && !ColonOnly(s)
  {
    hide AfterColon;
  }

  lemma InlineOfString()
    ensures forall s :: Inline(StringPattern, s) == None
  {
  }

  lemma NumberEntry(p: Pattern, ps: seq<string>, b: nat, e: Entry, sep: string, next: Option<string>, more: bool)
    requires PlainEntry(e) && e.1.Int? && b + 2 < |ps|
    requires ps[b + 1] == e.0 && ps[b + 2] == ":" + (IntText(e.1.num) + sep) && (sep == "" || sep == "," || sep == "}")
    requires next.Some? ==> b + 3 < |ps| && ps[b + 3] == next.value
    requires next == None ==> b + 3 == |ps|
    requires more <==> b + 5 < |ps|
    ensures p == NumberPattern ==> Finds(p, ps, b) == [Find(b, e.0, IntText(e.1.num))] + Finds(p, ps, b + 2)
    ensures p != NumberPattern && Quiet(p, e, next, more) ==> Finds(p, ps, b) == Finds(p, ps, b + 2)
    ensures p != NumberPattern && !Quiet(p, e, next, more) ==> |Finds(p, ps, b)| > 0 && b < Finds(p, ps, b)[0].at < b + 2
  {
    hide Finds, AfterColon, NumberRun, PlainText, IntText;
    InlineOfString();
    DigitsAreNumberChars(e.1.num);
    NumeralInline(IntText(e.1.num), sep);
    FindsStep(p, ps, b);
    FindsStep(p, ps, b + 1);
  }

  /** What the scan does with the first entry of a table. */
  lemma FirstEntry(p: Pattern, ps: seq<string>, b: nat, lead: string, es: seq<Entry>, end: string, extra: seq<string>)
    requires PlainEntries(es) && |es| > 0 && b <= |ps| && ps[b..] == TablePieces(lead, es, end) + extra
    requires if |extra| > 0 then end == "," else end == "" || end == "}"
    ensures var e, c := es[0], b + PiecesPer(es[0]);
            var quiet := Quiet(p, e, NextKey(es, extra), Width(es[1..]) + |extra| >= 3);
            && (PatternOf(e.1) == p ==> quiet && Finds(p, ps, b) == [Find(b, e.0, CaptureOf(e.1))] + Finds(p, ps, c))
            && (PatternOf(e.1) != p && quiet ==> Finds(p, ps, b) == Finds(p, ps, c))
            && (!quiet ==> |Finds(p, ps, b)| > 0 && Finds(p, ps, b)[0].at < c)
  {
    hide Finds, Inline, ColonOnly, PlainText, IntText, TablePieces;
    EntryPieces(ps, b, lead, es, end, extra);
    var e, next, more := es[0], NextKey(es, extra), Width(es[1..]) + |extra| >= 3;
    assert PlainEntry(e);
    if e.1.Str? {
      TextEntry(p, ps, b, e, next, more);
    } else {
      NumberEntry(p, ps, b, e, Separator(es, end), next, more);
    }
  }

  /**
   From the first piece of the table on, the matches are one for each entry of the kind at the quote
   of its key, and then those of the rest, exactly when every entry is passed quietly.
   */
  lemma {:induction false} TableFinds(p: Pattern, ps: seq<string>, b: nat, lead: string, es: seq<Entry>, end: string,
      extra: seq<string>)
    requires PlainEntries(es) && b <= |ps| && ps[b..] == TablePieces(lead, es, end) + extra
    requires if |extra| > 0 then end == "," else end == "" || end == "}"
    ensures Finds(p, ps, b) == KeyFinds(p, b, es) + Finds(p, ps, b + Width(es)) <==> Calm(p, es, extra)
    decreases |es|
  {
    hide Finds, Quiet, PlainText, NextLead, TablePieces, NextKey, PatternOf, KeyFinds, Width, Calm;
    if |es| == 0 {
      NoEntries(p, b, es, extra);
      assert [] + Finds(p, ps, b) == Finds(p, ps, b);
    } else {
      OneMore(p, es, extra);
      var c := b + PiecesPer(es[0]);
      EntryPieces(ps, b, lead, es, end, extra);
      TableFinds(p, ps, c, NextLead(es, end), es[1..], end, extra);
      FirstEntry(p, ps, b, lead, es, end, extra);
      TableStep(p, ps, b, es, b + Width(es), Quiet(p, es[0], NextKey(es, extra), Width(es[1..]) + |extra| >= 3));
    }
  }

  /** Where the pieces of the first entry are. */
  lemma EntryPieces(ps: seq<string>, b: nat, lead: string, es: seq<Entry>, end: string, extra: seq<string>)
    requires PlainEntries(es) && |es| > 0 && b <= |ps| && ps[b..] == TablePieces(lead, es, end) + extra
    requires if |extra| > 0 then end == "," else end == "" || end == "}"
    ensures var w := PiecesPer(es[0]);
            && b + w + Width(es[1..]) + 1 + |extra| == |ps|
            && ps[b + w..] == TablePieces(NextLead(es, end), es[1..], end) + extra
            && ps[b + 1] == es[0].0 && ps[b + w] == NextLead(es, end)
            && (es[0].1.Str? ==> ps[b + 2] == ":" && ps[b + 3] == es[0].1.text)
            && (NextKey(es, extra).Some? ==> b + w + 1 < |ps| && ps[b + w + 1] == NextKey(es, extra).value)
            && (NextKey(es, extra) == None ==> b + w + 1 == |ps|)
            && (NextKey(es, extra) == None <==> Separator(es, end) != ",")
  {
    hide NextLead, PlainText, TablePieces, IntText, Width, NextKey, Separator;
    var e, rest := es[0], TablePieces(NextLead(es, end), es[1..], end) + extra;
    PiecesCons(lead, es, end);
    RestPieces(es, end, extra);
    var next := TablePieces(NextLead(es, end), es[1..], end);
    if e.1.Str? {
      FourFirst(lead, e.0, e.1.text, next, extra);
      Slices(ps, b, [lead, e.0, ":", e.1.text], rest);
    } else {
      TwoFirst(lead, e.0, next, extra);
      Slices(ps, b, [lead, e.0], rest);
    }
  }

  lemma FourFirst(lead: string, k: string, v: string, next: seq<string>, extra: seq<string>)
    ensures ([lead] + ([k] + ([":"] + ([v] + next)))) + extra == [lead, k, ":", v] + (next + extra)
  {
  }

  lemma TwoFirst(lead: string, k: string, next: seq<string>, extra: seq<string>)
    ensures ([lead] + ([k] + next)) + extra == [lead, k] + (next + extra)
  {
  }

  /** The pieces behind the first entry. */
  lemma RestPieces(es: seq<Entry>, end: string, extra: seq<string>)
    requires PlainEntries(es) && |es| > 0
    requires if |extra| > 0 then end == "," else end == "" || end == "}"
    ensures var rest := TablePieces(NextLead(es, end), es[1..], end) + extra;
            && |rest| == Width(es[1..]) + 1 + |extra| && rest[0] == NextLead(es, end)
            && (NextKey(es, extra).Some? ==> |rest| > 1 && rest[1] == NextKey(es, extra).value)
            && (NextKey(es, extra) == None ==> |rest| == 1)
            && (NextKey(es, extra) == None <==> Separator(es, end) != ",")
  {
    hide NextLead, PlainText, TablePieces, IntText, Width;
    var next := TablePieces(NextLead(es, end), es[1..], end);
    if |es| > 1 {
      SecondPiece(NextLead(es, end), es[1..], end);
      assert (next + extra)[1] == next[1];
    } else {
      NoWidth(es[1..]);
      if |extra| > 0 { assert (next + extra)[1] == extra[0]; }
    }
  }

  lemma NoWidth(es: seq<Entry>)
    requires |es| == 0
    ensures Width(es) == 0
  {
  }

  /** One entry more on either account. */
  lemma OneMore(p: Pattern, es: seq<Entry>, extra: seq<string>)
    requires |es| > 0
    ensures Width(es) == PiecesPer(es[0]) + Width(es[1..])
    ensures Calm(p, es, extra) <==>
              Quiet(p, es[0], NextKey(es, extra), Width(es[1..]) + |extra| >= 3) && Calm(p, es[1..], extra)
  {
    hide Quiet, NextKey;
  }

  lemma SecondPiece(lead: string, es: seq<Entry>, end: string)
    requires PlainEntries(es) && |es| > 0
    ensures |TablePieces(lead, es, end)| > 1 && TablePieces(lead, es, end)[1] == es[0].0
  {
    hide PlainText, TablePieces;
    PiecesCons(lead, es, end);
  }

  lemma Slices(ps: seq<string>, b: nat, first: seq<string>, rest: seq<string>)
    requires b <= |ps| && ps[b..] == first + rest
    ensures |ps| == b + |first| + |rest| && ps[b + |first|..] == rest
    ensures forall i :: 0 <= i < |first| ==> ps[b + i] == first[i]
    ensures forall i :: 0 <= i < |rest| ==> ps[b + |first| + i] == rest[i]
  {
    assert forall i :: 0 <= i < |first| + |rest| ==> ps[b + i] == ps[b..][i];
    assert forall i :: 0 <= i < |rest| ==> ps[b + (|first| + i)] == rest[i];
  }

  /** Peeling the first entry off both sides. */
  lemma TableStep(p: Pattern, ps: seq<string>, b: nat, es: seq<Entry>, stop: nat, quiet: bool)
    requires |es| > 0 && stop == b + Width(es)
    requires PatternOf(es[0].1) == p ==>
               Finds(p, ps, b) == [Find(b, es[0].0, CaptureOf(es[0].1))] + Finds(p, ps, b + PiecesPer(es[0]))
    requires PatternOf(es[0].1) == p ==> quiet
    requires PatternOf(es[0].1) != p && quiet ==> Finds(p, ps, b) == Finds(p, ps, b + PiecesPer(es[0]))
    requires !quiet ==> |Finds(p, ps, b)| > 0 && Finds(p, ps, b)[0].at < b + PiecesPer(es[0])
    ensures var c := b + PiecesPer(es[0]);
            Finds(p, ps, b) == KeyFinds(p, b, es) + Finds(p, ps, stop)
            <==> quiet && Finds(p, ps, c) == KeyFinds(p, c, es[1..]) + Finds(p, ps, stop)
  {
    hide Finds;
    var c := b + PiecesPer(es[0]);
    var all := KeyFinds(p, c, es[1..]) + Finds(p, ps, stop);
    if PatternOf(es[0].1) == p {
      var f := Find(b, es[0].0, CaptureOf(es[0].1));
      assert KeyFinds(p, b, es) + Finds(p, ps, stop) == [f] + all;
      assert ([f] + all)[1..] == all && ([f] + Finds(p, ps, c))[1..] == Finds(p, ps, c);
    } else {
      assert KeyFinds(p, b, es) == KeyFinds(p, c, es[1..]);
      if !quiet {
        KeyFindsFrom(p, c, es[1..]);
        FindsFrom(p, ps, stop);
        if |all| > 0 { assert all[0] in all; }
      }
    }
  }

  // ---- The scan of a whole table ----

  lemma {:induction false} TableQuoteFree(lead: string, es: seq<Entry>, end: string)
    requires PlainEntries(es) && NoQuote(lead) && NoQuote(end)
    ensures QuoteFree(TablePieces(lead, es, end))
    decreases |es|
  {
    if |es| > 0 {
      hide IntText;
      assert PlainEntry(es[0]);
      if es[0].1.Int? { DigitsAreNumberChars(es[0].1.num); }
      assert NoQuote(NextLead(es, end));
      TableQuoteFree(NextLead(es, end), es[1..], end);
    }
  }

  lemma PiecesStep(x: string, t: string)
    requires NoQuote(x)
    ensures PiecesOf(x) == [x] && PiecesOf(x + ("\"" + t)) == [x] + PiecesOf(t)
  {
    hide QuoteAt;
    var s := x + ("\"" + t);
    QuoteAtAppend(x, "\"" + t);
    QuoteFirst(t);
    assert s[..|x|] == x && s[|x| + 1..] == t;
    QuoteAtAppend(x, "");
    QuoteAtNothing();
    assert x + "" == x;
  }

  lemma {:induction false} PiecesUnique(ps: seq<string>)
    requires |ps| > 0 && QuoteFree(ps)
    ensures PiecesOf(Quoted(ps)) == ps
    decreases |ps|
  {
    hide PiecesOf;
    if |ps| == 1 {
      PiecesStep(ps[0], "");
    } else {
      PiecesUnique(ps[1..]);
      PiecesStep(ps[0], Quoted(ps[1..]));
    }
  }

  function Printed(es: seq<Entry>, end: string): (s: string)
    requires PlainEntries(es)
  {
    "{" + BodyText(es, end)
  }

  lemma PrintedPieces(es: seq<Entry>, end: string)
    requires PlainEntries(es) && (end == "}" || end == "")
    ensures PiecesOf(Printed(es, end)) == if |es| == 0 then ["{" + end] else TablePieces("{", es, end)
  {
    hide TablePieces, PiecesOf;
    var ps := if |es| == 0 then ["{" + end] else TablePieces("{", es, end);
    assert NoQuote("{") && NoQuote(end) && NoQuote("{" + end);
    TableQuoteFree("{", es, end);
    QuotedTable("{", es, end);
    PiecesUnique(ps);
  }

  /**
   In a printed table the matches of a scan are one for each entry of its kind, each beginning at the
   opening quote of that entry's key, if and only if every adjacent pair of entries is passed quietly.
   */
  lemma MatchesAtKeys(p: Pattern, es: seq<Entry>, end: string)
    requires PlainEntries(es) && (end == "}" || end == "")
    ensures Finds(p, PiecesOf(Printed(es, end)), 0) == KeyFinds(p, 0, es) <==> Calm(p, es, [])
  {
    hide TablePieces, PiecesOf, Finds, Calm, KeyFinds;
    PrintedPieces(es, end);
    if |es| == 0 {
      NothingAfter(p, ["{" + end], 0);
      NoEntries(p, 0, es, []);
    } else {
      var ps := TablePieces("{", es, end);
      assert ps[0..] == ps + [];
      TableFinds(p, ps, 0, "{", es, end, []);
      NothingAfter(p, ps, Width(es));
      assert KeyFinds(p, 0, es) + [] == KeyFinds(p, 0, es);
    }
  }

  lemma NoEntries(p: Pattern, b: nat, es: seq<Entry>, extra: seq<string>)
    requires |es| == 0
    ensures KeyFinds(p, b, es) == [] && Calm(p, es, extra) && Width(es) == 0
  {
  }

  lemma NothingAfter(p: Pattern, ps: seq<string>, i: nat)
    requires i + 1 >= |ps|
    ensures Finds(p, ps, i) == []
  {
  }

  /** Then the scan reports exactly the entries of its kind, in printing order. */
  lemma ScanTable(p: Pattern, es: seq<Entry>, end: string)
    requires PlainEntries(es) && Calm(p, es, []) && (end == "}" || end == "")
    ensures Scan(p, Printed(es, end)) == Hits(p, es)
  {
    hide Scan, Finds, Printed, Calm, PiecesOf;
    MatchesAtKeys(p, es, end);
    ScanOfAnyText(p, Printed(es, end));
    KeyFindsCaptures(p, 0, es);
  }
}
