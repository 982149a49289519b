/**
 Flat claims and their printed text: the fragment on which the parser of plugins/lib/jwt.lua is to
 undo the printer of src/lua/engine.rs.
 */
module JsonRoundTrip {
  import opened Utf8
  import opened Json
  import opened JsonScan
  import opened JsonPieces

  type Entry = (string, LuaValue)

  // ---- The fragment ----

  /** Text that prints as it is: valid UTF-8 without a quote. */
  ghost predicate PlainText(s: string) {
    Valid(s) && NoQuote(s)
  }

  ghost predicate PlainValue(v: LuaValue) {
    match v
    case Str(text) => PlainText(text)
    case Int(i) => INT64_MIN <= i <= INT64_MAX
    case _ => false
  }

  ghost predicate PlainEntry(e: Entry) {
    |e.0| > 0 && PlainText(e.0) && PlainValue(e.1)
  }

  ghost predicate PlainEntries(es: seq<Entry>) {
    forall i :: 0 <= i < |es| ==> PlainEntry(es[i])
  }

  ghost predicate DistinctKeys(es: seq<Entry>) {
    forall i, j :: 0 <= i < j < |es| ==> es[i].0 != es[j].0
  }

  /** `es` lists the entries of the table `c`, each once. */
  ghost predicate IsOrderOf(es: seq<Entry>, c: Claims) {
    && DistinctKeys(es)
    && (forall i :: 0 <= i < |es| ==> es[i].0 in c && c[es[i].0] == es[i].1)
    && (forall k :: k in c ==> exists i :: 0 <= i < |es| && es[i].0 == k)
  }

  /** The Lua table a plugin hands to `json.encode`. */
  function TableOf(es: seq<Entry>): (v: LuaValue) {
    Table([], PairsOf(es))
  }

  function PairsOf(es: seq<Entry>): (ps: seq<Pair>)
    ensures |ps| == |es| && forall i :: 0 <= i < |es| ==> ps[i] == Pair(Str(es[i].0), es[i].1)
  {
    if |es| == 0 then [] else [Pair(Str(es[0].0), es[0].1)] + PairsOf(es[1..])
  }

  // ---- The printed text ----

  function ValueText(v: LuaValue): (s: string)
    requires v.Str? || v.Int?
  {
    if v.Str? then "\"" + v.text + "\"" else IntText(v.num)
  }

  function EntryText(e: Entry): (s: string)
    requires e.1.Str? || e.1.Int?
  {
    "\"" + e.0 + "\":" + ValueText(e.1)
  }

  /** The entries after the first, each behind a comma, and then `end`. */
  function RestText(es: seq<Entry>, end: string): (s: string)
    requires forall i :: 0 <= i < |es| ==> es[i].1.Str? || es[i].1.Int?
    decreases |es|, 1
  {
    if |es| == 0 then end else "," + BodyText(es, end)
  }

  /** All entries and then `end`, without the opening brace. */
  function BodyText(es: seq<Entry>, end: string): (s: string)
    requires forall i :: 0 <= i < |es| ==> es[i].1.Str? || es[i].1.Int?
    decreases |es|, 0
  {
    if |es| == 0 then end else EntryText(es[0]) + RestText(es[1..], end)
  }

  lemma {:induction false} EscapePlain(s: string)
    requires NoQuote(s)
    ensures Escape(s) == s
  {
    if |s| > 0 { EscapePlain(s[1..]); }
  }

  lemma PlainPrintable(es: seq<Entry>)
    requires PlainEntries(es)
    ensures Printable(TableOf(es))
  {
    forall i | 0 <= i < |es|
      ensures Printable(PairsOf(es)[i].key) && Printable(PairsOf(es)[i].value)
    {
      assert PlainEntry(es[i]);
    }
  }

  lemma PrintEntry(e: Entry)
    requires PlainEntry(e)
    ensures Print(Str(e.0)) + ":" + Print(e.1) == EntryText(e)
  {
    EscapePlain(e.0);
    if e.1.Str? { EscapePlain(e.1.text); }
    assert Print(Str(e.0)) == "\"" + e.0 + "\"";
    assert Print(e.1) == ValueText(e.1);
    assert "\"" + e.0 + "\"" + ":" == "\"" + e.0 + "\":";
  }

  function EntryTexts(es: seq<Entry>): (parts: seq<string>)
    requires forall i :: 0 <= i < |es| ==> es[i].1.Str? || es[i].1.Int?
    ensures |parts| == |es|
  {
    if |es| == 0 then [] else [EntryText(es[0])] + EntryTexts(es[1..])
  }

  lemma {:induction false} PrintPairsText(es: seq<Entry>)
    requires PlainEntries(es)
    ensures Printable(TableOf(es))
    ensures PrintPairs(PairsOf(es)) == EntryTexts(es)
  {
    PlainPrintable(es);
    if |es| > 0 {
      assert PlainEntry(es[0]);
      PrintEntry(es[0]);
      PrintPairsText(es[1..]);
      assert PairsOf(es)[1..] == PairsOf(es[1..]);
      assert PrintPair(PairsOf(es)[0]) == EntryText(es[0]);
    }
  }

  lemma {:induction false} JoinText(es: seq<Entry>, end: string)
    requires forall i :: 0 <= i < |es| ==> es[i].1.Str? || es[i].1.Int?
    ensures Join(EntryTexts(es)) + end == BodyText(es, end)
  {
    if |es| == 1 {
      assert es[1..] == [];
      assert EntryTexts(es) == [EntryText(es[0])];
    } else if |es| > 1 {
      JoinText(es[1..], end);
      Glue(EntryText(es[0]), Join(EntryTexts(es[1..])), end);
    }
  }

  lemma Glue(first: string, rest: string, end: string)
    ensures (first + "," + rest) + end == first + ("," + (rest + end))
  {
  }

  /** The text of a plain table is its entries between braces. */
  lemma PrintText(es: seq<Entry>)
    requires PlainEntries(es)
    ensures Printable(TableOf(es)) && Print(TableOf(es)) == "{" + BodyText(es, "}")
  {
    hide PrintPairs, EntryTexts, PairsOf, Join, BodyText, PlainText;
    PrintPairsText(es);
    JoinText(es, "}");
    var body := Join(EntryTexts(es));
    assert ("{" + body) + "}" == "{" + (body + "}");
  }
}
