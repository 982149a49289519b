/**
 One scan of `parse_json_obj` in terms of the pieces of text between quotes: exact for every text.
 A match begins at a quote, its key is the next piece, and the piece after that must be a colon and
 the value, or a colon alone when the value is the string that follows.
 */
module JsonPieces {
  import opened Wrappers
  import opened JsonScan

  ghost predicate NoQuote(s: string) {
    forall i :: 0 <= i < |s| ==> s[i] != '"'
  }

  ghost predicate QuoteFree(ps: seq<string>) {
    forall i :: 0 <= i < |ps| ==> NoQuote(ps[i])
  }

  /** The pieces with a quote between any two. */
  function Quoted(ps: seq<string>): (s: string)
    requires |ps| > 0
  {
    if |ps| == 1 then ps[0] else ps[0] + ("\"" + Quoted(ps[1..]))
  }

  /** What follows piece `i`, from its closing quote on. */
  function Tail(ps: seq<string>, i: nat): (s: string)
    requires i < |ps|
  {
    if i + 1 == |ps| then "" else "\"" + Quoted(ps[i + 1..])
  }

  // ---- What one scan finds ----

  /** What `^%s*:%s*` leaves of `s`. */
  function AfterColon(s: string): (r: Option<string>) {
    var t := SkipSpaces(s);
    if |t| > 0 && t[0] == ':' then Some(SkipSpaces(t[1..])) else None
  }

  predicate ColonOnly(s: string) {
    AfterColon(s) == Some("")
  }

  /** The number or flag right after the colon. */
  function Inline(p: Pattern, s: string): (v: Option<string>) {
    match AfterColon(s)
    case None => None
    case Some(w) =>
      match p
      case StringPattern => None
      case NumberPattern => if NumberRun(w) == 0 then None else Some(w[..NumberRun(w)])
      case FlagPattern => if FLAG_TEXT <= w then Some(FLAG_TEXT) else None
  }

  /** The captured value of a match at the quote after piece `i`, and the piece the scan goes on in. */
  function FoundAt(p: Pattern, ps: seq<string>, i: nat): (r: Option<(string, nat)>)
    ensures r.Some? ==> i < r.value.1 < |ps|
  {
    if i + 2 >= |ps| || ps[i + 1] == "" then None
    else if p == StringPattern then
      if ColonOnly(ps[i + 2]) && i + 4 < |ps| then Some((ps[i + 3], i + 4)) else None
    else
      match Inline(p, ps[i + 2]) case None => None case Some(v) => Some((v, i + 2))
  }

  /** A match: the piece before its first quote, and its captures. */
  datatype Find = Find(at: nat, key: string, val: string)

  /** All matches from piece `i` on. */
  function Finds(p: Pattern, ps: seq<string>, i: nat): (fs: seq<Find>)
    decreases |ps| - i
  {
    if i + 1 >= |ps| then []
    else
      match FoundAt(p, ps, i)
      case None => Finds(p, ps, i + 1)
      case Some((v, next)) => [Find(i, ps[i + 1], v)] + Finds(p, ps, next)
  }

  function Captures(fs: seq<Find>): (hits: seq<(string, string)>)
    ensures |hits| == |fs| && forall i :: 0 <= i < |fs| ==> hits[i] == (fs[i].key, fs[i].val)
  {
    if |fs| == 0 then [] else [(fs[0].key, fs[0].val)] + Captures(fs[1..])
  }

  // ---- The scan is that ----

  lemma {:induction false} QuoteAtAppend(u: string, t: string)
    requires NoQuote(u)
    ensures QuoteAt(u + t) == |u| + QuoteAt(t)
  {
    if |u| == 0 {
      assert u + t == t;
    } else {
      QuoteAtAppend(u[1..], t);
      assert (u + t)[1..] == u[1..] + t;
    }
  }

  lemma ScanMiss(p: Pattern, s: string)
    requires |s| > 0 && MatchHere(p, s) == None
    ensures Scan(p, s) == Scan(p, s[1..])
  {
  }

  lemma ScanHit(p: Pattern, s: string, h: Hit)
    requires |s| > 0 && MatchHere(p, s) == Some(h)
    ensures Scan(p, s) == [(h.key, h.val)] + Scan(p, h.rest)
  {
  }

  /** No match starts inside a text without quotes. */
  lemma {:induction false} SkipNoQuote(p: Pattern, u: string, t: string)
    requires NoQuote(u)
    ensures Scan(p, u + t) == Scan(p, t)
  {
    hide Scan;
    if |u| == 0 {
      assert u + t == t;
    } else {
      ScanMiss(p, u + t);
      SkipNoQuote(p, u[1..], t);
      assert (u + t)[1..] == u[1..] + t;
    }
  }

  lemma NoSpaces(t: string)
    requires t == "" || !IsSpace(t[0])
    ensures SkipSpaces(t) == t
  {
  }

  lemma SpaceSkipped(s: string)
    requires s != "" && IsSpace(s[0])
    ensures SkipSpaces(s) == SkipSpaces(s[1..])
  {
  }

  /** A quote or the end stops a run of spaces. */
  lemma {:induction false} SkipSpacesAppend(s: string, t: string)
    requires t == "" || t[0] == '"'
    ensures SkipSpaces(s + t) == SkipSpaces(s) + t
  {
    hide SkipSpaces;
    if |s| == 0 {
      assert s + t == t;
      NoSpaces(t);
      NoSpaces("");
    } else if IsSpace(s[0]) {
      assert (s + t)[1..] == s[1..] + t;
      SpaceSkipped(s);
      SpaceSkipped(s + t);
      SkipSpacesAppend(s[1..], t);
    } else {
      NoSpaces(s);
      NoSpaces(s + t);
    }
  }

  lemma {:induction false} NumberRunAppend(s: string, t: string)
    requires t == "" || !IsNumberChar(t[0])
    ensures NumberRun(s + t) == NumberRun(s)
  {
    if |s| == 0 {
      assert s + t == t;
    } else {
      NumberRunAppend(s[1..], t);
      assert (s + t)[1..] == s[1..] + t;
    }
  }

  lemma PrefixAppend(f: string, s: string, t: string)
    requires NoQuote(f) && (t == "" || t[0] == '"')
    ensures f <= s + t <==> f <= s
  {
    if |s| < |f| && t != "" { assert (s + t)[|s|] == '"'; }
    if |f| <= |s| { assert (s + t)[..|f|] == s[..|f|]; }
  }

  lemma TailStep(ps: seq<string>, i: nat)
    requires i + 1 < |ps|
    ensures Quoted(ps[i + 1..]) == ps[i + 1] + Tail(ps, i + 1)
    ensures Tail(ps, i) == "\"" + (ps[i + 1] + Tail(ps, i + 1))
  {
    assert ps[i + 1..][1..] == ps[i + 2..];
    if i + 2 == |ps| { assert ps[i + 1] + "" == ps[i + 1]; }
  }

  /** `^%s*:%s*` on the text after a key. */
  function ColonText(r: string): (t: Option<string>) {
    var t := SkipSpaces(r);
    if |t| > 0 && t[0] == ':' then Some(SkipSpaces(t[1..])) else None
  }

  lemma KeyText(s: string, k: string, r: string)
    requires s == "\"" + (k + ("\"" + r)) && NoQuote(k)
    ensures MatchKey(s) == if k == "" || ColonText(r) == None then None else Some((k, ColonText(r).value))
  {
    hide SkipSpaces, QuoteAt;
    assert s[1..] == k + ("\"" + r);
    QuoteAtAppend(k, "\"" + r);
    QuoteFirst(r);
    assert s[|k| + 2..] == r && s[1..|k| + 1] == k;
  }

  /** `"([^"]+)"%s*:%s*` in terms of the pieces. */
  lemma KeyInPieces(ps: seq<string>, i: nat)
    requires QuoteFree(ps) && i + 1 < |ps|
    ensures MatchKey(Tail(ps, i))
            == if i + 2 >= |ps| || ps[i + 1] == "" then None
               else match AfterColon(ps[i + 2])
                    case None => None
                    case Some(w) => Some((ps[i + 1], w + Tail(ps, i + 2)))
  {
    hide SkipSpaces, MatchKey, AfterColon, ColonText, Tail;
    var s, k := Tail(ps, i), ps[i + 1];
    TailStep(ps, i);
    if i + 2 == |ps| {
      LastTail(ps, i + 1);
      assert s == "\"" + k;
      NoMoreQuote(s, k);
    } else {
      TailStep(ps, i + 1);
      TailQuote(ps, i + 2);
      ColonInPieces(ps[i + 2], Tail(ps, i + 2));
      KeyText(s, k, ps[i + 2] + Tail(ps, i + 2));
    }
  }

  lemma LastTail(ps: seq<string>, i: nat)
    requires i + 1 == |ps|
    ensures Tail(ps, i) == ""
  {
  }

  lemma TailQuote(ps: seq<string>, i: nat)
    requires i < |ps|
    ensures Tail(ps, i) == "" || Tail(ps, i)[0] == '"'
  {
    hide Quoted;
  }

  lemma QuoteFirst(t: string)
    ensures QuoteAt("\"" + t) == 0
  {
  }

  lemma NoMoreQuote(s: string, k: string)
    requires s == "\"" + k && NoQuote(k)
    ensures MatchKey(s) == None
  {
    hide QuoteAt, SkipSpaces;
    assert s[1..] == k + "";
    QuoteAtAppend(k, "");
  }

  lemma ColonInPieces(y: string, q: string)
    requires q == "" || q[0] == '"'
    ensures ColonText(y + q) == match AfterColon(y) case None => None case Some(w) => Some(w + q)
  {
    hide SkipSpaces;
    SkipSpacesAppend(y, q);
    var u := SkipSpaces(y);
    if |u| > 0 {
      assert (u + q)[0] == u[0] && (u + q)[1..] == u[1..] + q;
      SkipSpacesAppend(u[1..], q);
    } else {
      assert u + q == q;
    }
  }

  /** The value part in terms of the pieces; `w` is what the colon left of piece `i`. */
  lemma ValueInPieces(p: Pattern, ps: seq<string>, i: nat, w: string)
    requires QuoteFree(ps) && i < |ps| && NoQuote(w)
    ensures MatchValue(p, w + Tail(ps, i))
            == match p
               case StringPattern =>
                 if w == "" && i + 2 < |ps| then Some((ps[i + 1], ps[i + 2] + Tail(ps, i + 2))) else None
               case NumberPattern =>
                 if NumberRun(w) == 0 then None else Some((w[..NumberRun(w)], w[NumberRun(w)..] + Tail(ps, i)))
               case FlagPattern =>
                 if FLAG_TEXT <= w then Some((FLAG_TEXT, w[|FLAG_TEXT|..] + Tail(ps, i))) else None
  {
    hide QuoteAt, Quoted, NumberRun;
    var q := Tail(ps, i);
    var t := w + q;
    match p
    case StringPattern =>
      if w == "" {
        assert t == q;
        if i + 1 < |ps| {
          TailStep(ps, i);
          StringInPieces(ps, i);
        }
      } else {
        assert t[0] == w[0];
      }
    case NumberPattern =>
      NumberRunAppend(w, q);
      var n := NumberRun(w);
      assert t[..n] == w[..n] && t[n..] == w[n..] + q;
    case FlagPattern =>
      PrefixAppend(FLAG_TEXT, w, q);
      if FLAG_TEXT <= w { assert t[|FLAG_TEXT|..] == w[|FLAG_TEXT|..] + q; }
  }

  lemma StringText(t: string, x: string, r: string)
    requires t == "\"" + (x + r) && NoQuote(x) && (r == "" || r[0] == '"')
    ensures MatchValue(StringPattern, t) == if r == "" then None else Some((x, r[1..]))
  {
    hide QuoteAt;
    assert t[1..] == x + r;
    QuoteAtAppend(x, r);
    if r == "" {
      QuoteAtNothing();
    } else {
      assert r == "\"" + r[1..];
      QuoteFirst(r[1..]);
      assert t[1..|x| + 1] == x && t[|x| + 2..] == r[1..];
    }
  }

  lemma StringInPieces(ps: seq<string>, i: nat)
    requires QuoteFree(ps) && i + 1 < |ps|
    ensures MatchValue(StringPattern, Tail(ps, i))
            == if i + 2 < |ps| then Some((ps[i + 1], ps[i + 2] + Tail(ps, i + 2))) else None
  {
    hide MatchValue, Tail;
    TailStep(ps, i);
    TailQuote(ps, i + 1);
    StringText(Tail(ps, i), ps[i + 1], Tail(ps, i + 1));
    if i + 2 < |ps| {
      TailStep(ps, i + 1);
      var r := ps[i + 2] + Tail(ps, i + 2);
      assert Tail(ps, i + 1)[1..] == r;
    } else {
      LastTail(ps, i + 1);
    }
  }

  lemma QuoteAtNothing()
    ensures QuoteAt("") == 0
  {
  }

  lemma ColonLeaves(s: string)
    requires NoQuote(s)
    ensures AfterColon(s).Some? ==> NoQuote(AfterColon(s).value)
  {
    hide SkipSpaces;
    var t := SkipSpaces(s);
    if |t| > 0 {
      var w := SkipSpaces(t[1..]);
      assert w == t[1..][|t[1..]| - |w|..];
    }
  }

  /** A match at a quote, in terms of the pieces. */
  lemma MatchInPieces(p: Pattern, ps: seq<string>, i: nat)
    requires QuoteFree(ps) && i + 1 < |ps|
    ensures match FoundAt(p, ps, i)
            case None => MatchHere(p, Tail(ps, i)) == None
            case Some((v, next)) =>
              exists x: string :: NoQuote(x) && MatchHere(p, Tail(ps, i)) == Some(Hit(ps[i + 1], v, x + Tail(ps, next)))
  {
    hide AfterColon, MatchKey, MatchValue, Tail, NumberRun;
    KeyInPieces(ps, i);
    if i + 2 < |ps| && ps[i + 1] != "" && AfterColon(ps[i + 2]).Some? {
      var w := AfterColon(ps[i + 2]).value;
      ColonLeaves(ps[i + 2]);
      ValueInPieces(p, ps, i + 2, w);
      if FoundAt(p, ps, i).Some? {
        var (v, next) := FoundAt(p, ps, i).value;
        var x := match p
                 case StringPattern => ps[i + 4]
                 case NumberPattern => w[NumberRun(w)..]
                 case FlagPattern => w[|FLAG_TEXT|..];
        assert NoQuote(x) && MatchHere(p, Tail(ps, i)) == Some(Hit(ps[i + 1], v, x + Tail(ps, next)));
      }
    }
  }

  /** For every text: the scan reports the captures of what the pieces say, in order. */
  lemma {:induction false} ScanIsFinds(p: Pattern, ps: seq<string>, i: nat, x: string)
    requires QuoteFree(ps) && i < |ps| && NoQuote(x)
    ensures Scan(p, x + Tail(ps, i)) == Captures(Finds(p, ps, i))
    decreases |ps| - i
  {
    hide Scan, MatchHere, Tail, FoundAt;
    SkipNoQuote(p, x, Tail(ps, i));
    if i + 1 == |ps| {
      NothingLeft(p, ps, i);
    } else {
      TailStep(ps, i);
      MatchInPieces(p, ps, i);
      var s := Tail(ps, i);
      match FoundAt(p, ps, i)
      case None =>
        ScanMiss(p, s);
        assert s[1..] == ps[i + 1] + Tail(ps, i + 1);
        ScanIsFinds(p, ps, i + 1, ps[i + 1]);
      case Some((v, next)) =>
        var y: string :| NoQuote(y) && MatchHere(p, s) == Some(Hit(ps[i + 1], v, y + Tail(ps, next)));
        ScanHit(p, s, Hit(ps[i + 1], v, y + Tail(ps, next)));
        ScanIsFinds(p, ps, next, y);
        FindsHit(p, ps, i, v, next);
    }
  }

  lemma NothingLeft(p: Pattern, ps: seq<string>, i: nat)
    requires i + 1 == |ps|
    ensures Scan(p, Tail(ps, i)) == [] && Captures(Finds(p, ps, i)) == []
  {
  }

  lemma FindsHit(p: Pattern, ps: seq<string>, i: nat, v: string, next: nat)
    requires i + 1 < |ps| && FoundAt(p, ps, i) == Some((v, next))
    ensures Captures(Finds(p, ps, i)) == [(ps[i + 1], v)] + Captures(Finds(p, ps, next))
  {
    hide FoundAt;
    var f := Find(i, ps[i + 1], v);
    assert ([f] + Finds(p, ps, next))[1..] == Finds(p, ps, next);
  }

  // ---- Every text has pieces ----

  function PiecesOf(s: string): (ps: seq<string>)
    ensures |ps| > 0
  {
    var n := QuoteAt(s);
    if n == |s| then [s] else [s[..n]] + PiecesOf(s[n + 1..])
  }

  lemma {:induction false} QuotedPieces(s: string)
    ensures QuoteFree(PiecesOf(s)) && Quoted(PiecesOf(s)) == s
    decreases |s|
  {
    var n := QuoteAt(s);
    if n < |s| {
      QuotedPieces(s[n + 1..]);
      assert s == s[..n] + ("\"" + s[n + 1..]);
      assert PiecesOf(s)[1..] == PiecesOf(s[n + 1..]);
    }
  }

  /** The scan of any text at all. */
  lemma ScanOfAnyText(p: Pattern, s: string)
    ensures Scan(p, s) == Captures(Finds(p, PiecesOf(s), 0))
  {
    hide Scan, Finds, PiecesOf, Tail;
    QuotedPieces(s);
    var ps := PiecesOf(s);
    QuotedFirst(ps);
    ScanIsFinds(p, ps, 0, ps[0]);
  }

  lemma QuotedFirst(ps: seq<string>)
    requires |ps| > 0
    ensures Quoted(ps) == ps[0] + Tail(ps, 0)
  {
    if |ps| == 1 { assert ps[0] + "" == ps[0]; }
  }
}
