/** The matcher of `grep`. C strings are sequences without their terminator. */
module Grep {

  // ---------- Patterns and their language ----------

  /** One character, or a run of one character; `.` stands for any. */
  datatype Item = One(c: char) | Star(c: char)

  /** `end` says that the match must reach the end of the text. */
  datatype Pattern = Pattern(items: seq<Item>, end: bool)

  function Parse(re: string): Pattern {
    if re == "" then Pattern([], false)
    else if |re| >= 2 && re[1] == '*' then
      var rest := Parse(re[2..]); Pattern([Star(re[0])] + rest.items, rest.end)
    else if re == "$" then Pattern([], true)
    else var rest := Parse(re[1..]); Pattern([One(re[0])] + rest.items, rest.end)
  }

  function Spell(item: Item): string {
    if item.Star? then [item.c, '*'] else [item.c]
  }

  function SpellAll(items: seq<Item>): string {
    if items == [] then "" else Spell(items[0]) + SpellAll(items[1..])
  }

  /** A pattern written out. */
  function Written(p: Pattern): string {
    SpellAll(p.items) + if p.end then "$" else ""
  }

  /** Patterns that can be written: no single character has a `*` behind it, and a single `$` is not last. */
  predicate Writable(p: Pattern) {
    && (forall i :: 0 < i < |p.items| && p.items[i].c == '*' ==> p.items[i - 1].Star?)
    && (p.items != [] && p.items[|p.items| - 1] == One('$') ==> p.end)
  }

  lemma ItemFirst(item: Item, rest: Pattern)
    ensures Written(Pattern([item] + rest.items, rest.end)) == Spell(item) + Written(rest)
    ensures Writable(Pattern([item] + rest.items, rest.end)) <==>
      && Writable(rest) && (rest.items != [] && rest.items[0].c == '*' ==> item.Star?)
      && (rest.items == [] && item == One('$') ==> rest.end)
  {
    var items := [item] + rest.items;
    assert items[1..] == rest.items;
    assert forall i :: 0 <= i < |rest.items| ==> items[i + 1] == rest.items[i];
  }

  /** Every regular expression is the text of the pattern it is read as. */
  lemma {:induction false} ParseSpells(re: string)
    ensures Written(Parse(re)) == re && Writable(Parse(re))
    ensures Parse(re).items != [] ==> re != "" && Parse(re).items[0].c == re[0]
  {
    if |re| >= 2 && re[1] == '*' {
      ParseSpells(re[2..]);
      ItemFirst(Star(re[0]), Parse(re[2..]));
      assert re == [re[0], '*'] + re[2..];
    } else if re != "" && re != "$" {
      ParseSpells(re[1..]);
      ItemFirst(One(re[0]), Parse(re[1..]));
      assert re == [re[0]] + re[1..];
    }
  }

  /** Every pattern that can be written is read back. */
  lemma {:induction false} ParseWritten(p: Pattern)
    requires Writable(p)
    ensures Parse(Written(p)) == p
    decreases |p.items|
  {
    if p.items != [] {
      var item, rest := p.items[0], Pattern(p.items[1..], p.end);
      assert p == Pattern([item] + rest.items, rest.end);
      ItemFirst(item, rest);
      ParseWritten(rest);
      WrittenStart(rest);
      ParseFirst(item, Written(rest));
    }
  }

  lemma ParseFirst(item: Item, re: string)
    requires item.One? ==> (re != "" ==> re[0] != '*') && (item.c == '$' ==> re != "")
    ensures var rest := Parse(re); Parse(Spell(item) + re) == Pattern([item] + rest.items, rest.end)
  {
    var all := Spell(item) + re;
    if item.Star? {
      assert all[2..] == re;
    } else {
      assert all[1..] == re;
    }
  }

  lemma WrittenStart(p: Pattern)
    ensures Written(p) == "" <==> p.items == [] && !p.end
    ensures p.items != [] ==> Written(p)[0] == p.items[0].c
    ensures p.items == [] && p.end ==> Written(p) == "$"
  {
  }

  predicate Fits(c: char, x: char) {
    c == '.' || x == c
  }

  /** The words of one item. */
  predicate Denotes(item: Item, w: string) {
    match item
    case One(c) => |w| == 1 && Fits(c, w[0])
    case Star(c) => forall i :: 0 <= i < |w| ==> Fits(c, w[i])
  }

  function Concat(parts: seq<string>): string {
    if parts == [] then "" else parts[0] + Concat(parts[1..])
  }

  ghost predicate Splits(items: seq<Item>, parts: seq<string>, w: string) {
    && |parts| == |items| && Concat(parts) == w
    && forall i :: 0 <= i < |items| ==> Denotes(items[i], parts[i])
  }

  /** A word is in the language of a pattern if it splits into words of the items. */
  ghost predicate InLanguage(items: seq<Item>, w: string) {
    exists parts :: Splits(items, parts, w)
  }

  /** A match of `p` in `text` from position `i` to `j`. */
  ghost predicate MatchAt(p: Pattern, text: string, i: nat, j: nat) {
    i <= j <= |text| && InLanguage(p.items, text[i..j]) && (p.end ==> j == |text|)
  }

  ghost predicate HasPrefix(p: Pattern, text: string) {
    exists j: nat :: MatchAt(p, text, 0, j)
  }

  lemma ConsIn(item: Item, rest: seq<Item>, w: string, n: nat)
    requires n <= |w| && Denotes(item, w[..n]) && InLanguage(rest, w[n..])
    ensures InLanguage([item] + rest, w)
  {
    var parts :| Splits(rest, parts, w[n..]);
    var all := [w[..n]] + parts;
    assert all[1..] == parts && w[..n] + w[n..] == w;
    assert Splits([item] + rest, all, w);
  }

  lemma ConsOut(item: Item, rest: seq<Item>, w: string) returns (n: nat)
    requires InLanguage([item] + rest, w)
    ensures n <= |w| && Denotes(item, w[..n]) && InLanguage(rest, w[n..])
  {
    var all :| Splits([item] + rest, all, w);
    var parts := all[1..];
    n := |all[0]|;
    assert all == [all[0]] + parts && w == all[0] + Concat(parts);
    assert w[..n] == all[0] && w[n..] == Concat(parts);
    assert Denotes(([item] + rest)[0], all[0]);
    forall i | 0 <= i < |rest| ensures Denotes(rest[i], parts[i]) {
      assert Denotes(([item] + rest)[i + 1], all[i + 1]);
    }
    assert Splits(rest, parts, w[n..]);
  }

  // ---------- Prefixes, case by case ----------

  lemma EmptyPattern(text: string)
    ensures HasPrefix(Pattern([], false), text)
  {
    assert Splits([], [], text[0..0]);
    assert MatchAt(Pattern([], false), text, 0, 0);
  }

  lemma EndPattern(text: string)
    ensures HasPrefix(Pattern([], true), text) <==> text == ""
  {
    if text == "" {
      assert Splits([], [], text[0..0]);
      assert MatchAt(Pattern([], true), text, 0, 0);
    }
    if j: nat :| MatchAt(Pattern([], true), text, 0, j) {
      var parts :| Splits([], parts, text[0..j]);
    }
  }

  /** `n` characters of the text for the first item, a prefix of what follows for the rest. */
  lemma PrefixIn(item: Item, rest: Pattern, text: string, n: nat)
    requires n <= |text| && Denotes(item, text[..n]) && HasPrefix(rest, text[n..])
    ensures HasPrefix(Pattern([item] + rest.items, rest.end), text)
  {
    var j: nat :| MatchAt(rest, text[n..], 0, j);
    var w := text[0..n + j];
    assert w[..n] == text[..n] && w[n..] == text[n..][0..j];
    ConsIn(item, rest.items, w, n);
    assert MatchAt(Pattern([item] + rest.items, rest.end), text, 0, n + j);
  }

  lemma PrefixOut(item: Item, rest: Pattern, text: string) returns (n: nat)
    requires HasPrefix(Pattern([item] + rest.items, rest.end), text)
    ensures n <= |text| && Denotes(item, text[..n]) && HasPrefix(rest, text[n..])
  {
    var j: nat :| MatchAt(Pattern([item] + rest.items, rest.end), text, 0, j);
    var w := text[0..j];
    n := ConsOut(item, rest.items, w);
    assert w[..n] == text[..n] && w[n..] == text[n..][0..j - n];
    assert MatchAt(rest, text[n..], 0, j - n);
  }

  // ---------- The matcher ----------

  /** A pattern at the beginning of the text. */
  method MatchHere(re: string, text: string) returns (r: bool)
    ensures r <==> HasPrefix(Parse(re), text)
    decreases |re|, 0
  {
    if re == "" {
      EmptyPattern(text);
      return true;
    }
    if |re| >= 2 && re[1] == '*' {
      r := MatchStar(re[0], re[2..], text);
      return;
    }
    if re == "$" {
      EndPattern(text);
      return text == "";
    }
    ghost var rest := Parse(re[1..]);
    if text != "" && (re[0] == '.' || re[0] == text[0]) {
      r := MatchHere(re[1..], text[1..]);
      if r {
        PrefixIn(One(re[0]), rest, text, 1);
      }
    } else {
      r := false;
    }
    if HasPrefix(Parse(re), text) {
      ghost var n := PrefixOut(One(re[0]), rest, text);
    }
  }

  /** A run of `c` and then a pattern, at the beginning of the text. */
  method MatchStar(c: char, re: string, text: string) returns (r: bool)
    ensures r <==> HasPrefix(Pattern([Star(c)] + Parse(re).items, Parse(re).end), text)
    decreases |re|, 1
  {
    ghost var rest := Parse(re);
    var i := 0;
    while true
      invariant i <= |text| && Denotes(Star(c), text[..i])
      invariant forall n: nat :: n < i ==> !HasPrefix(rest, text[n..])
      decreases |text| - i
    {
      r := MatchHere(re, text[i..]);
      if r {
        PrefixIn(Star(c), rest, text, i);
        return;
      }
      if i == |text| || !(text[i] == c || c == '.') {
        break;
      }
      i := i + 1;
    }
    if HasPrefix(Pattern([Star(c)] + rest.items, rest.end), text) {
      ghost var n := PrefixOut(Star(c), rest, text);
    }
    return false;
  }

  /** The pattern of a whole regular expression: `^` at the start ties it to the start of the text. */
  predicate Anchored(re: string) {
    |re| > 0 && re[0] == '^'
  }

  function Body(re: string): Pattern {
    if Anchored(re) then Parse(re[1..]) else Parse(re)
  }

  lemma PrefixAt(p: Pattern, text: string, i: nat)
    requires i <= |text|
    ensures HasPrefix(p, text[i..]) <==> exists j: nat :: MatchAt(p, text, i, j)
  {
    if j: nat :| MatchAt(p, text[i..], 0, j) {
      assert text[i..][0..j] == text[i..i + j];
      assert MatchAt(p, text, i, i + j);
    }
    if j: nat :| MatchAt(p, text, i, j) {
      assert text[i..][0..j - i] == text[i..j];
      assert MatchAt(p, text[i..], 0, j - i);
    }
  }

  /** `match` holds exactly when some substring is in the language of the pattern, at the start of the
      text after `^` and up to its end before a final `$`. */
  method Match(re: string, text: string) returns (r: bool)
    ensures r <==> exists i: nat, j: nat :: MatchAt(Body(re), text, i, j) && (Anchored(re) ==> i == 0)
  {
    if Anchored(re) {
      r := MatchHere(re[1..], text);
      assert text[0..] == text;
      PrefixAt(Body(re), text, 0);
      return;
    }
    var k := 0;
    while true
      invariant k <= |text|
      invariant forall i: nat, j: nat :: i < k ==> !MatchAt(Parse(re), text, i, j)
      decreases |text| - k
    {
      r := MatchHere(re, text[k..]);
      PrefixAt(Parse(re), text, k);
      if r {
        ghost var j: nat :| MatchAt(Body(re), text, k, j);
        return;
      }
      if k == |text| {
        return false;
      }
      k := k + 1;
    }
  }

  // ---------- What patterns mean ----------

  /** A character without a special meaning. */
  predicate Literal(c: char) {
    c != '.' && c != '*' && c != '^' && c != '$'
  }

  predicate Literals(re: string) {
    forall i :: 0 <= i < |re| ==> Literal(re[i])
  }

  function Ones(re: string): seq<Item> {
    seq(|re|, i requires 0 <= i < |re| => One(re[i]))
  }

  lemma {:induction false} LiteralParse(re: string)
    requires Literals(re)
    ensures Parse(re) == Pattern(Ones(re), false)
  {
    if re == "" {
      assert Ones(re) == [];
    } else {
      LiteralParse(re[1..]);
      assert Ones(re) == [One(re[0])] + Ones(re[1..]);
    }
  }

  lemma {:induction false} LiteralLanguage(re: string, w: string)
    requires Literals(re)
    ensures InLanguage(Ones(re), w) <==> w == re
  {
    if re == "" {
      assert Ones(re) == [];
      if w == "" {
        assert Splits([], [], w);
      }
    } else {
      assert Ones(re) == [One(re[0])] + Ones(re[1..]);
      if w == re {
        LiteralLanguage(re[1..], w[1..]);
        ConsIn(One(re[0]), Ones(re[1..]), w, 1);
      }
      if InLanguage(Ones(re), w) {
        var n := ConsOut(One(re[0]), Ones(re[1..]), w);
        LiteralLanguage(re[1..], w[n..]);
        assert w == [w[0]] + w[1..];
      }
    }
  }

  /** A pattern without special characters matches exactly the texts that contain it. */
  lemma LiteralMatch(re: string, text: string)
    requires Literals(re)
    ensures !Anchored(re)
    ensures (exists i: nat, j: nat :: MatchAt(Body(re), text, i, j)) <==> exists i: nat :: Occurs(re, text, i)
  {
    LiteralParse(re);
    if i: nat, j: nat :| MatchAt(Body(re), text, i, j) {
      LiteralLanguage(re, text[i..j]);
      assert Occurs(re, text, i);
    }
    if i: nat :| Occurs(re, text, i) {
      LiteralLanguage(re, text[i..i + |re|]);
      assert MatchAt(Body(re), text, i, i + |re|);
    }
  }

  predicate Occurs(re: string, text: string, i: nat) {
    i + |re| <= |text| && text[i..i + |re|] == re
  }

  /** `.` stands for any one character, `.*` for anything, and `c*` for any run of `c`. */
  lemma ItemMeans(item: Item, w: string)
    ensures InLanguage([item], w) <==>
      if item.One? then |w| == 1 && (item.c == '.' || w[0] == item.c)
      else item.c == '.' || forall i :: 0 <= i < |w| ==> w[i] == item.c
  {
    assert [item] + [] == [item];
    if InLanguage([item], w) {
      var n := ConsOut(item, [], w);
      var parts :| Splits([], parts, w[n..]);
      assert w[..n] == w;
    }
    if Denotes(item, w) {
      assert w[..|w|] == w && w[|w|..] == "";
      assert Splits([], [], w[|w|..]);
      ConsIn(item, [], w, |w|);
    }
  }
}
