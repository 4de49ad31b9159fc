/**
  The regular expression matcher of grep.c against the language of its patterns.
  A C string is the sequence of its characters without the terminating NUL, and
  a pointer into it the rest of the sequence.
 */
module Grep {

  // ---- patterns and their language ----

  /** '.' or a literal character. */
  datatype Atom = Any | Lit(c: char)

  datatype Item = One(a: Atom) | Star(a: Atom)

  /** atEnd: the pattern ends in '$'. */
  datatype Pattern = Pattern(items: seq<Item>, atEnd: bool)

  function AtomOf(c: char): Atom {
    if c == '.' then Any else Lit(c)
  }

  predicate Fits(a: Atom, c: char) {
    a == Any || a == Lit(c)
  }

  /** A character followed by '*' is repeated, a '$' at the very end anchors; all other characters stand for
      themselves. */
  function Parse(re: string): Pattern {
    if re == [] then Pattern([], false)
    else if |re| >= 2 && re[1] == '*' then
      var p := Parse(re[2..]);
      Pattern([Star(AtomOf(re[0]))] + p.items, p.atEnd)
    else if re == "$" then Pattern([], true)
    else
      var p := Parse(re[1..]);
      Pattern([One(AtomOf(re[0]))] + p.items, p.atEnd)
  }

  ghost predicate InItem(it: Item, w: string) {
    match it
    case One(a) => |w| == 1 && Fits(a, w[0])
    case Star(a) => forall i: nat :: i < |w| ==> Fits(a, w[i])
  }

  function Concat(ws: seq<string>): string {
    if ws == [] then [] else ws[0] + Concat(ws[1..])
  }

  /** ws are words of the items, one each. */
  ghost predicate Spells(items: seq<Item>, ws: seq<string>) {
    |ws| == |items| && forall i: nat :: i < |items| ==> InItem(items[i], ws[i])
  }

  ghost predicate InLang(items: seq<Item>, s: string) {
    exists ws: seq<string> :: Spells(items, ws) && Concat(ws) == s
  }

  /** Some substring text[i..j] is in the language, up to the end of the text if the pattern says so. */
  ghost predicate Occurs(p: Pattern, text: string, i: nat, j: nat) {
    i <= j <= |text| && InLang(p.items, text[i..j]) && (p.atEnd ==> j == |text|)
  }

  ghost predicate OccursHere(p: Pattern, text: string) {
    exists j: nat :: Occurs(p, text, 0, j)
  }

  ghost predicate Matches(re: string, text: string) {
    if re != [] && re[0] == '^' then OccursHere(Parse(re[1..]), text)
    else exists i: nat, j: nat :: Occurs(Parse(re), text, i, j)
  }

  // ---- the matcher ----

  method Match(re: string, text: string) returns (r: bool)
    ensures r <==> Matches(re, text)
  {
    hide Parse, InLang;
    if re != [] && re[0] == '^' {
      r := MatchHere(re[1..], text);
      return;
    }
    var t, i := text, 0;
    while true
      invariant 0 <= i <= |text| && t == text[i..]
      invariant forall k: nat :: k < i ==> !OccursHere(Parse(re), text[k..])
      decreases |text| - i
    {
      var here := MatchHere(re, t);
      if here {
        FromHere(Parse(re), text, i);
        return true;
      }
      if t == [] { break; }
      t, i := t[1..], i + 1;
    }
    if exists i: nat, j: nat :: Occurs(Parse(re), text, i, j) {
      var i: nat, j: nat :| Occurs(Parse(re), text, i, j);
      ToHere(Parse(re), text, i, j);
    }
    return false;
  }

  method MatchHere(re: string, text: string) returns (r: bool)
    ensures r <==> OccursHere(Parse(re), text)
    decreases |re|, 0
  {
    hide InLang;
    if re == [] {
      NothingHere(text);
      return true;
    }
    if |re| >= 2 && re[1] == '*' {
      StarHere(AtomOf(re[0]), Parse(re[2..]), text);
      r := MatchStar(re[0], re[2..], text);
      return;
    }
    if re[0] == '$' && |re| == 1 {
      EndHere(text);
      return text == [];
    }
    OneHere(AtomOf(re[0]), Parse(re[1..]), text);
    if text != [] && (re[0] == '.' || re[0] == text[0]) {
      r := MatchHere(re[1..], text[1..]);
      return;
    }
    return false;
  }

  method MatchStar(c: char, re: string, text: string) returns (r: bool)
    ensures r <==> exists k: nat :: Run(AtomOf(c), text, k) && OccursHere(Parse(re), text[k..])
    decreases |re|, 1
  {
    hide Parse, InLang;
    var t, k := text, 0;
    while true
      invariant 0 <= k <= |text| && t == text[k..] && Run(AtomOf(c), text, k)
      invariant forall m: nat :: m < k ==> !OccursHere(Parse(re), text[m..])
      decreases |text| - k
    {
      var here := MatchHere(re, t);
      if here { return true; }
      if t == [] { break; }
      var d := t[0];
      if !(d == c || c == '.') {
        assert forall m: nat :: m > k ==> !Run(AtomOf(c), text, m) by { assert text[k] == d; }
        break;
      }
      t, k := t[1..], k + 1;
    }
    return false;
  }

  /** The first k characters of text all fit a. */
  ghost predicate Run(a: Atom, text: string, k: nat) {
    k <= |text| && forall i: nat :: i < k ==> Fits(a, text[i])
  }

  // ---- the language, item by item ----

  lemma FromHere(p: Pattern, text: string, i: nat)
    requires i <= |text| && OccursHere(p, text[i..])
    ensures exists j: nat :: Occurs(p, text, i, j)
  {
    hide InLang;
    var j: nat :| Occurs(p, text[i..], 0, j);
    assert text[i..][0..j] == text[i..i+j];
    assert Occurs(p, text, i, i + j);
  }

  lemma ToHere(p: Pattern, text: string, i: nat, j: nat)
    requires Occurs(p, text, i, j)
    ensures OccursHere(p, text[i..])
  {
    hide InLang;
    assert text[i..][0..j-i] == text[i..j];
    assert Occurs(p, text[i..], 0, j - i);
  }

  lemma NothingHere(text: string)
    ensures OccursHere(Pattern([], false), text)
  {
    assert Spells([], []) && Concat([]) == text[0..0];
    assert Occurs(Pattern([], false), text, 0, 0);
  }

  lemma EndHere(text: string)
    ensures OccursHere(Pattern([], true), text) <==> text == []
  {
    if text == [] {
      assert Spells([], []) && Concat([]) == text[0..0];
      assert Occurs(Pattern([], true), text, 0, 0);
    }
    if OccursHere(Pattern([], true), text) {
      var j: nat :| Occurs(Pattern([], true), text, 0, j);
      var ws: seq<string> :| Spells([], ws) && Concat(ws) == text[0..j];
    }
  }

  /** A word of an item and then items is a word of the item followed by one of the items. */
  lemma InLangCons(it: Item, items: seq<Item>, s: string)
    ensures InLang([it] + items, s) <==> exists k: nat :: k <= |s| && InItem(it, s[..k]) && InLang(items, s[k..])
  {
    if InLang([it] + items, s) {
      var ws: seq<string> :| Spells([it] + items, ws) && Concat(ws) == s;
      var k := |ws[0]|;
      assert InItem(([it] + items)[0], ws[0]) && s[..k] == ws[0] && s[k..] == Concat(ws[1..]);
      assert Spells(items, ws[1..]) by {
        forall i: nat | i < |items|
          ensures InItem(items[i], ws[1..][i]) { assert InItem(([it] + items)[i+1], ws[i+1]); }
      }
    }
    forall k: nat | k <= |s| && InItem(it, s[..k]) && InLang(items, s[k..]) ensures InLang([it] + items, s) {
      var ws: seq<string> :| Spells(items, ws) && Concat(ws) == s[k..];
      var all := [s[..k]] + ws;
      assert all[1..] == ws;
      assert Spells([it] + items, all) && Concat(all) == s;
    }
  }

  lemma OneHere(a: Atom, p: Pattern, text: string)
    ensures OccursHere(Pattern([One(a)] + p.items, p.atEnd), text) <==>
            text != [] && Fits(a, text[0]) && OccursHere(p, text[1..])
  {
    hide InLang;
    var q := Pattern([One(a)] + p.items, p.atEnd);
    if OccursHere(q, text) {
      var j: nat :| Occurs(q, text, 0, j);
      InLangCons(One(a), p.items, text[0..j]);
      var k: nat :| k <= j && InItem(One(a), text[0..j][..k]) && InLang(p.items, text[0..j][k..]);
      assert text[0..j][1..] == text[1..][0..j-1];
      assert Occurs(p, text[1..], 0, j - 1);
    }
    if text != [] && Fits(a, text[0]) && OccursHere(p, text[1..]) {
      var j: nat :| Occurs(p, text[1..], 0, j);
      var s := text[0..j+1];
      assert s[1..] == text[1..][0..j] && InItem(One(a), s[..1]);
      InLangCons(One(a), p.items, s);
      assert Occurs(q, text, 0, j + 1);
    }
  }

  lemma StarHere(a: Atom, p: Pattern, text: string)
    ensures OccursHere(Pattern([Star(a)] + p.items, p.atEnd), text) <==>
            exists k: nat :: Run(a, text, k) && OccursHere(p, text[k..])
  {
    hide InLang;
    var q := Pattern([Star(a)] + p.items, p.atEnd);
    if OccursHere(q, text) {
      var j: nat :| Occurs(q, text, 0, j);
      InLangCons(Star(a), p.items, text[0..j]);
      var k: nat :| k <= j && InItem(Star(a), text[0..j][..k]) && InLang(p.items, text[0..j][k..]);
      forall i: nat | i < k ensures Fits(a, text[i]) { assert text[0..j][..k][i] == text[i]; }
      assert text[0..j][k..] == text[k..][0..j-k];
      assert Run(a, text, k) && Occurs(p, text[k..], 0, j - k);
    }
    forall k: nat | Run(a, text, k) && OccursHere(p, text[k..]) ensures OccursHere(q, text) {
      var j: nat :| Occurs(p, text[k..], 0, j);
      var s := text[0..k+j];
      assert s[..k] == text[..k] && s[k..] == text[k..][0..j] && InItem(Star(a), s[..k]);
      InLangCons(Star(a), p.items, s);
      assert Occurs(q, text, 0, k + j);
    }
  }
}
