/** The regular expression matcher of grep.c. A C string is the sequence of its
    characters before the terminating NUL. The main theorem, MatchCorrect, says that
    match finds exactly the texts with a substring in the language of the pattern. */
module Grep {

  // ----- The matcher -----

  /** matchhere: the pattern at the start of the text. */
  function MatchHere(re: string, text: string): bool
    decreases |re|, |text|, 1
  {
    if re == [] then true
    else if |re| > 1 && re[1] == '*' then MatchStar(re[0], re[2..], text)
    else if re == "$" then text == []
    else text != [] && (re[0] == '.' || re[0] == text[0]) && MatchHere(re[1..], text[1..])
  }

  /** matchstar: c* and then the pattern at the start of the text. */
  function MatchStar(c: char, re: string, text: string): bool
    decreases |re|, |text|, 2
  {
    MatchHere(re, text) || (text != [] && (text[0] == c || c == '.') && MatchStar(c, re, text[1..]))
  }

  /** match's search from each position of the text on, the end included. */
  function MatchFrom(re: string, text: string): bool
    decreases |text|
  {
    MatchHere(re, text) || (text != [] && MatchFrom(re, text[1..]))
  }

  function Match(re: string, text: string): bool {
    if re != [] && re[0] == '^' then MatchHere(re[1..], text) else MatchFrom(re, text)
  }

  method RunMatchHere(re: string, text: string) returns (r: bool)
    ensures r == MatchHere(re, text)
    decreases |re|, 0
  {
    if re == [] {
      return true;
    }
    if |re| > 1 && re[1] == '*' {
      r := RunMatchStar(re[0], re[2..], text);
      return;
    }
    if re[0] == '$' && |re| == 1 {
      return text == [];
    }
    if text != [] && (re[0] == '.' || re[0] == text[0]) {
      r := RunMatchHere(re[1..], text[1..]);
      return;
    }
    return false;
  }

  method RunMatchStar(c: char, re: string, text: string) returns (r: bool)
    ensures r == MatchStar(c, re, text)
    decreases |re|, 1
  {
    var t := text;
    while true
      invariant MatchStar(c, re, text) == MatchStar(c, re, t)
      decreases |t|
    {
      r := RunMatchHere(re, t);
      if r {
        return;
      }
      if t == [] || !(t[0] == c || c == '.') {
        return false;
      }
      t := t[1..];
    }
  }

  method RunMatch(re: string, text: string) returns (r: bool)
    ensures r == Match(re, text)
  {
    if re != [] && re[0] == '^' {
      r := RunMatchHere(re[1..], text);
      return;
    }
    var t := text;
    while true
      invariant MatchFrom(re, text) == MatchFrom(re, t)
      decreases |t|
    {
      r := RunMatchHere(re, t);
      if r {
        return;
      }
      if t == [] {
        return false;
      }
      t := t[1..];
    }
  }

  // ----- What patterns mean -----

  /** One character of a class, or any number of them; the class '.' is every one. */
  datatype Item = One(c: char) | Star(c: char)

  predicate Accepts(c: char, x: char) {
    c == '.' || c == x
  }

  /** The strings an item stands for. */
  predicate Piece(it: Item, p: string) {
    match it
    case One(c) => |p| == 1 && Accepts(c, p[0])
    case Star(c) => forall i :: 0 <= i < |p| ==> Accepts(c, p[i])
  }

  function Concat(ps: seq<string>): string {
    if ps == [] then "" else ps[0] + Concat(ps[1..])
  }

  predicate Pieces(items: seq<Item>, ps: seq<string>) {
    |ps| == |items| && forall i :: 0 <= i < |ps| ==> Piece(items[i], ps[i])
  }

  /** The language of a pattern: one string of each item, in order. */
  ghost predicate InLanguage(items: seq<Item>, w: string) {
    exists ps :: Pieces(items, ps) && Concat(ps) == w
  }

  /** The items of a pattern without its '^', and whether it ends in the anchor '$'. A
      '*' stars whatever precedes it, and a '*', '^' or '$' elsewhere is a literal. */
  function Items(re: string): seq<Item> {
    if re == [] then []
    else if |re| > 1 && re[1] == '*' then [Star(re[0])] + Items(re[2..])
    else if re == "$" then []
    else [One(re[0])] + Items(re[1..])
  }

  predicate EndAnchored(re: string) {
    if re == [] then false
    else if |re| > 1 && re[1] == '*' then EndAnchored(re[2..])
    else re == "$" || EndAnchored(re[1..])
  }

  /** A prefix of the text is in the language, all of the text if the end is anchored. */
  ghost predicate PrefixMatches(re: string, text: string) {
    exists k :: 0 <= k <= |text| && (EndAnchored(re) ==> k == |text|) && InLanguage(Items(re), text[..k])
  }

  /** Some substring of the text is in the language, where the anchors allow it. */
  ghost predicate Meaning(re: string, text: string) {
    if re != [] && re[0] == '^' then PrefixMatches(re[1..], text)
    else exists i :: 0 <= i <= |text| && PrefixMatches(re, text[i..])
  }

  lemma LanguageNil(w: string)
    ensures InLanguage([], w) <==> w == ""
  {
    if w == "" {
      assert Pieces([], []) && Concat([]) == w;
    }
  }

  /** The first item takes the first p characters and the others the rest. */
  lemma LanguageCons(it: Item, items: seq<Item>, w: string)
    ensures InLanguage([it] + items, w) <==> exists p :: 0 <= p <= |w| && Piece(it, w[..p]) && InLanguage(items, w[p..])
  {
    if InLanguage([it] + items, w) {
      var ps :| Pieces([it] + items, ps) && Concat(ps) == w;
      var p := |ps[0]|;
      assert forall i :: 0 <= i < |ps[1..]| ==> items[i] == ([it] + items)[i + 1];
      assert w[..p] == ps[0] && w[p..] == Concat(ps[1..]) && Pieces(items, ps[1..]);
    }
    if p :| 0 <= p <= |w| && Piece(it, w[..p]) && InLanguage(items, w[p..]) {
      var ps :| Pieces(items, ps) && Concat(ps) == w[p..];
      assert ([w[..p]] + ps)[1..] == ps;
      assert Pieces([it] + items, [w[..p]] + ps) && Concat([w[..p]] + ps) == w;
    }
  }

  /** The text starts with p characters of the item, and the rest of the pattern follows. */
  ghost predicate ItemThen(it: Item, re: string, text: string, p: nat) {
    p <= |text| && Piece(it, text[..p]) && PrefixMatches(re, text[p..])
  }

  lemma PrefixCons(re: string, it: Item, rest: string, text: string)
    requires Items(re) == [it] + Items(rest) && EndAnchored(re) == EndAnchored(rest)
    ensures PrefixMatches(re, text) <==> exists p: nat :: ItemThen(it, rest, text, p)
  {
    if PrefixMatches(re, text) {
      var k :| 0 <= k <= |text| && (EndAnchored(re) ==> k == |text|) && InLanguage(Items(re), text[..k]);
      LanguageCons(it, Items(rest), text[..k]);
      var p :| 0 <= p <= k && Piece(it, text[..k][..p]) && InLanguage(Items(rest), text[..k][p..]);
      assert text[..k][..p] == text[..p] && text[..k][p..] == text[p..][..k - p];
      assert ItemThen(it, rest, text, p);
    }
    if p: nat :| ItemThen(it, rest, text, p) {
      var j :| 0 <= j <= |text[p..]| && (EndAnchored(rest) ==> j == |text[p..]|) && InLanguage(Items(rest), text[p..][..j]);
      var k := p + j;
      assert text[..k][..p] == text[..p] && text[..k][p..] == text[p..][..j];
      LanguageCons(it, Items(rest), text[..k]);
    }
  }

  lemma PrefixNil(re: string, text: string)
    requires Items(re) == []
    ensures PrefixMatches(re, text) <==> (EndAnchored(re) ==> text == [])
  {
    forall k | 0 <= k <= |text| {
      LanguageNil(text[..k]);
    }
    if EndAnchored(re) ==> text == [] {
      assert text[..0] == "" && InLanguage(Items(re), text[..0]);
    }
  }

  /** One more character of a starred class. */
  lemma StarStep(c: char, re: string, text: string)
    requires text != []
    ensures (exists p: nat :: ItemThen(Star(c), re, text, p))
            <==> PrefixMatches(re, text) || (Accepts(c, text[0]) && exists p: nat :: ItemThen(Star(c), re, text[1..], p))
  {
    if p: nat :| ItemThen(Star(c), re, text, p) {
      if p == 0 {
        assert text[0..] == text;
      } else {
        assert text[1..][..p - 1] == text[..p][1..] && text[p..] == text[1..][p - 1..];
        assert ItemThen(Star(c), re, text[1..], p - 1);
        assert Accepts(c, text[..p][0]);
      }
    }
    if PrefixMatches(re, text) {
      assert text[0..] == text;
      assert ItemThen(Star(c), re, text, 0);
    }
    if Accepts(c, text[0]) {
      if p: nat :| ItemThen(Star(c), re, text[1..], p) {
        assert text[..p + 1] == [text[0]] + text[1..][..p] && text[p + 1..] == text[1..][p..];
        assert ItemThen(Star(c), re, text, p + 1);
      }
    }
  }

  lemma {:induction false} StarCorrect(c: char, re: string, text: string)
    ensures MatchStar(c, re, text) <==> exists p: nat :: ItemThen(Star(c), re, text, p)
    decreases |re|, |text|, 2
  {
    HereCorrect(re, text);
    if text == [] {
      assert text[0..] == text;
      assert PrefixMatches(re, text) ==> ItemThen(Star(c), re, text, 0);
    } else {
      StarStep(c, re, text);
      StarCorrect(c, re, text[1..]);
    }
  }

  /** matchhere decides whether a prefix of the text matches. */
  lemma {:induction false} HereCorrect(re: string, text: string)
    ensures MatchHere(re, text) <==> PrefixMatches(re, text)
    decreases |re|, |text|, 1
  {
    if re == [] || re == "$" {
      PrefixNil(re, text);
    } else if |re| > 1 && re[1] == '*' {
      PrefixCons(re, Star(re[0]), re[2..], text);
      StarCorrect(re[0], re[2..], text);
    } else {
      PrefixCons(re, One(re[0]), re[1..], text);
      if text != [] {
        HereCorrect(re[1..], text[1..]);
        assert ItemThen(One(re[0]), re[1..], text, 1) <==> Accepts(re[0], text[0]) && PrefixMatches(re[1..], text[1..]);
      }
    }
  }

  lemma {:induction false} FromCorrect(re: string, text: string)
    ensures MatchFrom(re, text) <==> exists i :: 0 <= i <= |text| && PrefixMatches(re, text[i..])
    decreases |text|
  {
    HereCorrect(re, text);
    assert text[0..] == text;
    if text != [] {
      FromCorrect(re, text[1..]);
      if i :| 0 <= i <= |text[1..]| && PrefixMatches(re, text[1..][i..]) {
        assert text[1..][i..] == text[i + 1..];
      }
      if i :| 1 <= i <= |text| && PrefixMatches(re, text[i..]) {
        assert text[1..][i - 1..] == text[i..];
      }
    }
  }

  /** match is true exactly of the texts that have a matching substring. */
  lemma MatchCorrect(re: string, text: string)
    ensures Match(re, text) <==> Meaning(re, text)
  {
    if re != [] && re[0] == '^' {
      HereCorrect(re[1..], text);
    } else {
      FromCorrect(re, text);
    }
  }
}
