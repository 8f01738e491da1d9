/** The syntax of command lines as a grammar over tokens, and the proof that the parser accepts exactly the
    lines of this grammar and gives each its meaning. */
module ShellSyntax {
  import opened Common
  import opened ShellGrammar
  import opened ShellRoundTrip
  import opened ShellWords

  // ---------- The grammar ----------

  /** A word, or a redirection: an operator and a file. */
  datatype Item = Arg(word: Word) | Red(op: Token, file: Word)

  /** A simple command, or a line in parentheses with redirections behind it. */
  datatype Part = Simple(items: seq<Item>) | Block(line: Line, items: seq<Item>)

  /** Parts with `|` between them. */
  datatype Pipeline = Last(part: Part) | Piped(part: Part, more: Pipeline)

  /** Pipelines, each with any number of `&` behind it, and `;` between them. */
  datatype Line = Only(pipe: Pipeline, amps: nat) | Then(pipe: Pipeline, amps: nat, more: Line)

  predicate RedOk(item: Item) {
    item.Red? && item.op in {Symbol('<'), Symbol('>'), Append}
  }

  predicate AllReds(items: seq<Item>) {
    forall i :: 0 <= i < |items| ==> RedOk(items[i])
  }

  predicate ItemsOk(items: seq<Item>) {
    forall i :: 0 <= i < |items| ==> items[i].Arg? || RedOk(items[i])
  }

  /** The words of a simple command. */
  function WordsOf(items: seq<Item>): seq<Word> {
    if items == [] then [] else (if items[0].Arg? then [items[0].word] else []) + WordsOf(items[1..])
  }

  predicate PartOk(p: Part) {
    match p
    case Simple(items) => ItemsOk(items) && |WordsOf(items)| < MAXARGS
    case Block(line, items) => LineOk(line) && AllReds(items)
  }

  predicate PipeOk(p: Pipeline) {
    match p
    case Last(part) => PartOk(part)
    case Piped(part, more) => PartOk(part) && PipeOk(more)
  }

  predicate LineOk(l: Line) {
    match l
    case Only(pipe, _) => PipeOk(pipe)
    case Then(pipe, _, more) => PipeOk(pipe) && LineOk(more)
  }

  // ---------- Its tokens ----------

  function FlatItem(item: Item): seq<Token> {
    if item.Arg? then [Name(item.word)] else [item.op, Name(item.file)]
  }

  function FlatItems(items: seq<Item>): seq<Token> {
    if items == [] then [] else FlatItem(items[0]) + FlatItems(items[1..])
  }

  function Amps(n: nat): seq<Token> {
    if n == 0 then [] else [Symbol('&')] + Amps(n - 1)
  }

  function FlatPart(p: Part): seq<Token> {
    match p
    case Simple(items) => FlatItems(items)
    case Block(line, items) => [Symbol('(')] + FlatLine(line) + [Symbol(')')] + FlatItems(items)
  }

  function FlatPipe(p: Pipeline): seq<Token> {
    match p
    case Last(part) => FlatPart(part)
    case Piped(part, more) => FlatPart(part) + [Symbol('|')] + FlatPipe(more)
  }

  function FlatLine(l: Line): seq<Token> {
    match l
    case Only(pipe, n) => FlatPipe(pipe) + Amps(n)
    case Then(pipe, n, more) => FlatPipe(pipe) + Amps(n) + [Symbol(';')] + FlatLine(more)
  }

  // ---------- Its meaning ----------

  /** The redirections apply from left to right, the first one innermost. */
  function Redirected(c: Cmd<Word>, items: seq<Item>): Cmd<Word>
    decreases |items|
  {
    if items == [] then c
    else if items[0].Arg? then Redirected(c, items[1..])
    else Redirected(Redir(c, items[0].file, items[0].op != Symbol('<')), items[1..])
  }

  function Backed(c: Cmd<Word>, n: nat): Cmd<Word> {
    if n == 0 then c else Back(Backed(c, n - 1))
  }

  function PartMeans(p: Part): Cmd<Word> {
    match p
    case Simple(items) => Redirected(Exec(WordsOf(items)), items)
    case Block(line, items) => Redirected(LineMeans(line), items)
  }

  /** Pipes associate to the right. */
  function PipeMeans(p: Pipeline): Cmd<Word> {
    match p
    case Last(part) => PartMeans(part)
    case Piped(part, more) => Pipe(PartMeans(part), PipeMeans(more))
  }

  /** So do lists; `&` binds its own pipeline only. */
  function LineMeans(l: Line): Cmd<Word> {
    match l
    case Only(pipe, n) => Backed(PipeMeans(pipe), n)
    case Then(pipe, n, more) => List(Backed(PipeMeans(pipe), n), LineMeans(more))
  }

  // ---------- Tokens of a line ----------

  /** The tokens of the rest of a line. */
  function Tokens(s: string): seq<Token>
    decreases |s|
  {
    var (tok, s1) := GetToken(s);
    if tok.End? then [] else [tok] + Tokens(s1)
  }

  lemma TokensSkip(s: string)
    ensures Tokens(Skip(s)) == Tokens(s)
  {
    SkipAgain(s);
  }

  lemma NoTokens(s: string)
    ensures Tokens(s) == [] <==> Skip(s) == ""
  {
  }

  /** The first character of a token is one of these. */
  predicate StartsWith(tok: Token, toks: string) {
    match tok
    case Symbol(c) => c in toks
    case Append => '>' in toks
    case _ => false
  }

  lemma PeekIs(s: string, toks: string)
    requires forall i :: 0 <= i < |toks| ==> IsSymbol(toks[i])
    ensures Peek(s, toks) <==> Tokens(s) != [] && StartsWith(Tokens(s)[0], toks)
  {
    var t := Skip(s);
    if t != "" && t[0] in toks {
      var i :| 0 <= i < |toks| && toks[i] == t[0];
      assert IsSymbol(t[0]);
    }
  }

  // ---------- The parser on tokens ----------

  /** The next token starts with one of these characters. */
  predicate At(ts: seq<Token>, toks: string) {
    ts != [] && StartsWith(ts[0], toks)
  }

  function TakeRedirs(ts: seq<Token>): (r: Option<(seq<(Word, bool)>, seq<Token>)>)
    ensures r.Some? ==> |r.value.1| <= |ts|
  {
    if !At(ts, "<>") then Some(([], ts))
    else if |ts| < 2 || !ts[1].Name? then None
    else
      match TakeRedirs(ts[2..])
      case None => None
      case Some(m) => Some(([(ts[1].word, ts[0] != Symbol('<'))] + m.0, m.1))
  }

  function TakeArgs(ts: seq<Token>, n: nat): (r: Option<(Args, seq<Token>)>)
    ensures r.Some? ==> |r.value.1| <= |ts|
    decreases |ts|
  {
    if ts == [] || At(ts, "|)&;") then Some((Args([], []), ts))
    else if !ts[0].Name? || n + 1 >= MAXARGS then None
    else
      match TakeRedirs(ts[1..])
      case None => None
      case Some(m) =>
        match TakeArgs(m.1, n + 1)
        case None => None
        case Some(k) => Some((Args([ts[0].word] + k.0.words, m.0 + k.0.redirs), k.1))
  }

  function TakePart(ts: seq<Token>): (r: Option<(Cmd<Word>, seq<Token>)>)
    ensures r.Some? ==> |r.value.1| <= |ts|
    decreases |ts|, 0
  {
    if At(ts, "(") then
      match TakeLine(ts[1..])
      case None => None
      case Some(l) =>
        if !At(l.1, ")") then None
        else
          match TakeRedirs(l.1[1..])
          case None => None
          case Some(m) => Some((Wrap(l.0, m.0), m.1))
    else
      match TakeRedirs(ts)
      case None => None
      case Some(m) =>
        match TakeArgs(m.1, 0)
        case None => None
        case Some(k) => Some((Wrap(Exec(k.0.words), m.0 + k.0.redirs), k.1))
  }

  function TakePipe(ts: seq<Token>): (r: Option<(Cmd<Word>, seq<Token>)>)
    ensures r.Some? ==> |r.value.1| <= |ts|
    decreases |ts|, 1
  {
    match TakePart(ts)
    case None => None
    case Some(p) =>
      if !At(p.1, "|") then Some(p)
      else
        match TakePipe(p.1[1..])
        case None => None
        case Some(m) => Some((Pipe(p.0, m.0), m.1))
  }

  function TakeAmps(c: Cmd<Word>, ts: seq<Token>): (r: (Cmd<Word>, seq<Token>))
    ensures |r.1| <= |ts|
    decreases |ts|
  {
    if At(ts, "&") then TakeAmps(Back(c), ts[1..]) else (c, ts)
  }

  function TakeLine(ts: seq<Token>): (r: Option<(Cmd<Word>, seq<Token>)>)
    ensures r.Some? ==> |r.value.1| <= |ts|
    decreases |ts|, 2
  {
    match TakePipe(ts)
    case None => None
    case Some(p) =>
      var b := TakeAmps(p.0, p.1);
      if !At(b.1, ";") then Some(b)
      else
        match TakeLine(b.1[1..])
        case None => None
        case Some(m) => Some((List(b.0, m.0), m.1))
  }

  /** The same outcome on the text and on its tokens. */
  ghost predicate Same<T>(r: Result<T>, q: Option<(T, seq<Token>)>) {
    if r.Ok? then q.Some? && q.value.0 == r.value && q.value.1 == Tokens(r.rest) else q.None?
  }

  /** The next token, or none. */
  lemma Next(s: string)
    ensures var (tok, s1) := GetToken(s);
      if tok.End? then Tokens(s) == [] && Tokens(s1) == []
      else Tokens(s) != [] && Tokens(s)[0] == tok && Tokens(s)[1..] == Tokens(s1)
  {
  }

  lemma {:induction false} SameRedirs(s: string)
    ensures Same(Redirs(s), TakeRedirs(Tokens(s)))
    decreases |s|
  {
    PeekIs(s, "<>");
    TokensSkip(s);
    if Peek(s, "<>") {
      Next(s);
      var s1 := GetToken(s).1;
      Next(s1);
      SameRedirs(GetToken(s1).1);
    }
  }

  lemma ArgsStep(s: string, n: nat)
    requires !Peek(s, "|)&;") && GetToken(s).0.Name? && n + 1 < MAXARGS && Redirs(GetToken(s).1).Ok?
    ensures var tok, m := GetToken(s).0, Redirs(GetToken(s).1);
      var k := ExecArgs(m.rest, n + 1);
      ExecArgs(s, n) == if k.Ok? then Ok(Args([tok.word] + k.value.words, m.value + k.value.redirs), k.rest) else Panic
  {
  }

  lemma TakeStep(ts: seq<Token>, n: nat)
    requires ts != [] && ts[0].Name? && n + 1 < MAXARGS && TakeRedirs(ts[1..]).Some?
    ensures var m := TakeRedirs(ts[1..]).value;
      var k := TakeArgs(m.1, n + 1);
      TakeArgs(ts, n) == if k.Some? then Some((Args([ts[0].word] + k.value.0.words, m.0 + k.value.0.redirs), k.value.1)) else None
  {
  }

  /** No further word: the end, an operator, or too many. */
  lemma LastArgs(s: string, n: nat)
    requires Peek(s, "|)&;") || !GetToken(s).0.Name? || n + 1 >= MAXARGS || Redirs(GetToken(s).1).Panic?
    ensures Same(ExecArgs(s, n), TakeArgs(Tokens(s), n))
  {
    PeekIs(s, "|)&;");
    TokensSkip(s);
    Next(s);
    SameRedirs(GetToken(s).1);
  }

  lemma {:induction false} SameArgs(s: string, n: nat)
    ensures Same(ExecArgs(s, n), TakeArgs(Tokens(s), n))
    decreases |s|
  {
    var (tok, s1) := GetToken(s);
    if Peek(s, "|)&;") || !tok.Name? || n + 1 >= MAXARGS || Redirs(s1).Panic? {
      LastArgs(s, n);
    } else {
      Next(s);
      SameRedirs(s1);
      SameArgs(Redirs(s1).rest, n + 1);
      ArgsStep(s, n);
      TakeStep(Tokens(s), n);
    }
  }

  lemma {:induction false} SamePart(s: string)
    ensures Same(ParseExec(s), TakePart(Tokens(s)))
    decreases |s|, 0
  {
    PeekIs(s, "(");
    if Peek(s, "(") {
      Next(s);
      var s1 := GetToken(s).1;
      SameLine(s1);
      if ParseLine(s1).Ok? {
        var s2 := ParseLine(s1).rest;
        PeekIs(s2, ")");
        Next(s2);
        SameRedirs(GetToken(s2).1);
      }
    } else {
      SameRedirs(s);
      if Redirs(s).Ok? {
        SameArgs(Redirs(s).rest, 0);
      }
    }
  }

  lemma {:induction false} SamePipe(s: string)
    ensures Same(ParsePipe(s), TakePipe(Tokens(s)))
    decreases |s|, 1
  {
    SamePart(s);
    if ParseExec(s).Ok? {
      var s1 := ParseExec(s).rest;
      PeekIs(s1, "|");
      TokensSkip(s1);
      if Peek(s1, "|") {
        Next(s1);
        SamePipe(GetToken(s1).1);
      }
    }
  }

  lemma {:induction false} SameAmps(c: Cmd<Word>, s: string)
    ensures var r, q := Backs(c, s), TakeAmps(c, Tokens(s)); r.0 == q.0 && Tokens(r.1) == q.1
    decreases |s|
  {
    PeekIs(s, "&");
    TokensSkip(s);
    if Peek(s, "&") {
      Next(s);
      SameAmps(Back(c), GetToken(s).1);
    }
  }

  lemma {:induction false} SameLine(s: string)
    ensures Same(ParseLine(s), TakeLine(Tokens(s)))
    decreases |s|, 2
  {
    SamePipe(s);
    if ParsePipe(s).Ok? {
      var c, s1 := ParsePipe(s).value, ParsePipe(s).rest;
      SameAmps(c, s1);
      var s2 := Backs(c, s1).1;
      PeekIs(s2, ";");
      TokensSkip(s2);
      if Peek(s2, ";") {
        Next(s2);
        SameLine(GetToken(s2).1);
      }
    }
  }

  // ---------- Sequences ----------

  lemma Assoc3<T>(a: seq<T>, b: seq<T>, c: seq<T>)
    ensures a + (b + c) == (a + b) + c
  {
  }

  /** A first element, and two more pieces in front of the rest. */
  lemma Glue(ts: seq<Token>, a: seq<Token>, m: seq<Token>, b: seq<Token>, rest: seq<Token>)
    requires ts != [] && ts[1..] == a + m && m == b + rest
    ensures ts == ([ts[0]] + (a + b)) + rest
  {
    assert ts == [ts[0]] + ts[1..];
    Assoc3(a, b, rest);
    Assoc3([ts[0]], a + b, rest);
  }

  /** A first and a middle element. */
  lemma GlueTwo(ts: seq<Token>, a: seq<Token>, m: seq<Token>, b: seq<Token>, rest: seq<Token>)
    requires ts != [] && ts[1..] == a + m && m != [] && m[1..] == b + rest
    ensures ts == [ts[0]] + a + [m[0]] + b + rest
  {
    assert ts == [ts[0]] + ts[1..] && m == [m[0]] + m[1..];
  }

  lemma GlueOne(a: seq<Token>, m: seq<Token>, b: seq<Token>, rest: seq<Token>)
    requires m != [] && m[1..] == b + rest
    ensures a + m == a + [m[0]] + b + rest
  {
    assert m == [m[0]] + m[1..];
  }

  // ---------- Items ----------

  /** The redirections of a command, as the parser collects them. */
  function Reds(items: seq<Item>): seq<(Word, bool)> {
    if items == [] then []
    else (if items[0].Red? then [(items[0].file, items[0].op != Symbol('<'))] else []) + Reds(items[1..])
  }

  lemma {:induction false} RedirectedIsWrap(c: Cmd<Word>, items: seq<Item>)
    ensures Redirected(c, items) == Wrap(c, Reds(items))
    decreases |items|
  {
    if items != [] {
      if items[0].Arg? {
        RedirectedIsWrap(c, items[1..]);
        assert [] + Reds(items[1..]) == Reds(items[1..]);
      } else {
        var r := (items[0].file, items[0].op != Symbol('<'));
        RedirectedIsWrap(Redir(c, r.0, r.1), items[1..]);
        assert Reds(items)[1..] == Reds(items[1..]);
      }
    }
  }

  lemma {:induction false} FlatJoin(a: seq<Item>, b: seq<Item>)
    ensures FlatItems(a + b) == FlatItems(a) + FlatItems(b)
  {
    if a == [] {
      assert a + b == b;
    } else {
      assert (a + b)[1..] == a[1..] + b && (a + b)[0] == a[0];
      FlatJoin(a[1..], b);
      Assoc3(FlatItem(a[0]), FlatItems(a[1..]), FlatItems(b));
    }
  }

  lemma {:induction false} WordsJoin(a: seq<Item>, b: seq<Item>)
    ensures WordsOf(a + b) == WordsOf(a) + WordsOf(b)
  {
    if a == [] {
      assert a + b == b;
    } else {
      assert (a + b)[1..] == a[1..] + b && (a + b)[0] == a[0];
      WordsJoin(a[1..], b);
      Assoc3(if a[0].Arg? then [a[0].word] else [], WordsOf(a[1..]), WordsOf(b));
    }
  }

  lemma {:induction false} RedsJoin(a: seq<Item>, b: seq<Item>)
    ensures Reds(a + b) == Reds(a) + Reds(b)
  {
    if a == [] {
      assert a + b == b;
    } else {
      assert (a + b)[1..] == a[1..] + b && (a + b)[0] == a[0];
      RedsJoin(a[1..], b);
      Assoc3(if a[0].Red? then [(a[0].file, a[0].op != Symbol('<'))] else [], Reds(a[1..]), Reds(b));
    }
  }

  lemma {:induction false} RedsHaveNoWords(items: seq<Item>)
    requires AllReds(items)
    ensures WordsOf(items) == []
  {
    if items != [] {
      RedsHaveNoWords(items[1..]);
    }
  }

  lemma ArgThenReds(w: Word, reds: seq<Item>, more: seq<Item>)
    requires AllReds(reds) && ItemsOk(more)
    ensures var items := [Arg(w)] + (reds + more);
      && ItemsOk(items) && WordsOf(items) == [w] + WordsOf(more) && Reds(items) == Reds(reds) + Reds(more)
      && FlatItems(items) == [Name(w)] + (FlatItems(reds) + FlatItems(more))
  {
    FlatJoin(reds, more);
    WordsJoin(reds, more);
    RedsJoin(reds, more);
    RedsHaveNoWords(reds);
    assert ([Arg(w)] + (reds + more))[1..] == reds + more;
  }

  /** Redirections in front of a simple command. */
  lemma RedsThenItems(reds: seq<Item>, items: seq<Item>)
    requires AllReds(reds) && ItemsOk(items)
    ensures ItemsOk(reds + items) && WordsOf(reds + items) == WordsOf(items)
    ensures Reds(reds + items) == Reds(reds) + Reds(items) && FlatItems(reds + items) == FlatItems(reds) + FlatItems(items)
  {
    FlatJoin(reds, items);
    WordsJoin(reds, items);
    RedsJoin(reds, items);
    RedsHaveNoWords(reds);
  }

  // ---------- What the parser accepts is in the grammar ----------

  lemma RedFirst(op: Token, file: Word, more: seq<Item>)
    ensures var items := [Red(op, file)] + more;
      && Reds(items) == [(file, op != Symbol('<'))] + Reds(more) && FlatItems(items) == [op, Name(file)] + FlatItems(more)
      && (RedOk(Red(op, file)) && AllReds(more) ==> AllReds(items))
  {
    assert ([Red(op, file)] + more)[1..] == more;
  }

  lemma {:induction false} RedirsSound(ts: seq<Token>) returns (items: seq<Item>)
    ensures var r := TakeRedirs(ts);
      r.Some? ==> AllReds(items) && Reds(items) == r.value.0 && ts == FlatItems(items) + r.value.1
    decreases |ts|
  {
    items := [];
    if At(ts, "<>") && |ts| >= 2 && ts[1].Name? {
      var more := RedirsSound(ts[2..]);
      if TakeRedirs(ts[2..]).Some? {
        RedFirst(ts[0], ts[1].word, more);
        items := [Red(ts[0], ts[1].word)] + more;
        Assoc3([ts[0], ts[1]], FlatItems(more), TakeRedirs(ts[2..]).value.1);
        assert ts == [ts[0], ts[1]] + ts[2..];
      }
    }
  }

  lemma {:induction false} ArgsSound(ts: seq<Token>, n: nat) returns (items: seq<Item>)
    requires n < MAXARGS
    ensures var r := TakeArgs(ts, n);
      r.Some? ==>
        && ItemsOk(items) && WordsOf(items) == r.value.0.words && Reds(items) == r.value.0.redirs
        && n + |WordsOf(items)| < MAXARGS && ts == FlatItems(items) + r.value.1
    decreases |ts|
  {
    items := [];
    if ts != [] && ts[0].Name? && n + 1 < MAXARGS && TakeRedirs(ts[1..]).Some? {
      var reds := RedirsSound(ts[1..]);
      var rest := TakeRedirs(ts[1..]).value.1;
      var more := ArgsSound(rest, n + 1);
      if TakeArgs(rest, n + 1).Some? {
        items := [Arg(ts[0].word)] + (reds + more);
        TakeStep(ts, n);
        ArgThenReds(ts[0].word, reds, more);
        Glue(ts, FlatItems(reds), rest, FlatItems(more), TakeArgs(rest, n + 1).value.1);
      }
    }
  }

  lemma {:induction false} SimpleSound(ts: seq<Token>) returns (p: Part)
    requires !At(ts, "(")
    ensures var r := TakePart(ts);
      r.Some? ==> PartOk(p) && PartMeans(p) == r.value.0 && ts == FlatPart(p) + r.value.1
  {
    p := Simple([]);
    var reds := RedirsSound(ts);
    if TakeRedirs(ts).Some? {
      var rest := TakeRedirs(ts).value.1;
      var items := ArgsSound(rest, 0);
      if TakeArgs(rest, 0).Some? {
        p := Simple(reds + items);
        RedsThenItems(reds, items);
        RedirectedIsWrap(Exec(WordsOf(reds + items)), reds + items);
        Assoc3(FlatItems(reds), FlatItems(items), TakeArgs(rest, 0).value.1);
      }
    }
  }

  lemma {:induction false} PartSound(ts: seq<Token>) returns (p: Part)
    ensures var r := TakePart(ts);
      r.Some? ==> PartOk(p) && PartMeans(p) == r.value.0 && ts == FlatPart(p) + r.value.1
    decreases |ts|, 0
  {
    if !At(ts, "(") {
      p := SimpleSound(ts);
    } else {
      p := Simple([]);
      var l := LineSound(ts[1..]);
      var r := TakeLine(ts[1..]);
      if r.Some? && At(r.value.1, ")") {
        var rest := r.value.1;
        var items := RedirsSound(rest[1..]);
        p := Block(l, items);
        RedirectedIsWrap(LineMeans(l), items);
        if TakeRedirs(rest[1..]).Some? {
          GlueTwo(ts, FlatLine(l), rest, FlatItems(items), TakeRedirs(rest[1..]).value.1);
        }
      }
    }
  }

  lemma {:induction false} PipeSound(ts: seq<Token>) returns (p: Pipeline)
    ensures var r := TakePipe(ts);
      r.Some? ==> PipeOk(p) && PipeMeans(p) == r.value.0 && ts == FlatPipe(p) + r.value.1
    decreases |ts|, 1
  {
    var part := PartSound(ts);
    var r := TakePart(ts);
    p := Last(part);
    if r.Some? && At(r.value.1, "|") {
      var rest := r.value.1;
      var more := PipeSound(rest[1..]);
      p := Piped(part, more);
      if TakePipe(rest[1..]).Some? {
        GlueOne(FlatPart(part), rest, FlatPipe(more), TakePipe(rest[1..]).value.1);
      }
    }
  }

  lemma {:induction false} BackedBack(c: Cmd<Word>, n: nat)
    ensures Backed(Back(c), n) == Backed(c, n + 1)
  {
    if n > 0 {
      BackedBack(c, n - 1);
    }
  }

  lemma {:induction false} AmpsSound(c: Cmd<Word>, ts: seq<Token>) returns (n: nat)
    ensures var r := TakeAmps(c, ts); r.0 == Backed(c, n) && ts == Amps(n) + r.1
    decreases |ts|
  {
    n := 0;
    if At(ts, "&") {
      var m := AmpsSound(Back(c), ts[1..]);
      BackedBack(c, m);
      n := m + 1;
      assert ts == [Symbol('&')] + ts[1..];
    }
  }

  lemma {:induction false} LineSound(ts: seq<Token>) returns (l: Line)
    ensures var r := TakeLine(ts);
      r.Some? ==> LineOk(l) && LineMeans(l) == r.value.0 && ts == FlatLine(l) + r.value.1
    decreases |ts|, 2
  {
    var pipe := PipeSound(ts);
    l := Only(pipe, 0);
    if TakePipe(ts).Some? {
      var c, s := TakePipe(ts).value.0, TakePipe(ts).value.1;
      var n := AmpsSound(c, s);
      var rest := TakeAmps(c, s).1;
      Assoc3(FlatPipe(pipe), Amps(n), rest);
      l := Only(pipe, n);
      if At(rest, ";") {
        var more := LineSound(rest[1..]);
        l := Then(pipe, n, more);
        if TakeLine(rest[1..]).Some? {
          GlueOne(FlatPipe(pipe) + Amps(n), rest, FlatLine(more), TakeLine(rest[1..]).value.1);
        }
      }
    }
  }

  // ---------- What is in the grammar, the parser accepts ----------

  lemma {:induction false} RedirsComplete(items: seq<Item>, more: seq<Token>)
    requires AllReds(items) && !At(more, "<>")
    ensures TakeRedirs(FlatItems(items) + more) == Some((Reds(items), more))
  {
    if items == [] {
      assert FlatItems(items) + more == more;
    } else {
      var op, file := items[0].op, items[0].file;
      assert RedOk(items[0]) && items == [Red(op, file)] + items[1..];
      RedFirst(op, file, items[1..]);
      RedirsComplete(items[1..], more);
      TwoFirst(op, Name(file), FlatItems(items[1..]), more);
    }
  }

  lemma TwoFirst(a: Token, b: Token, s: seq<Token>, more: seq<Token>)
    ensures var ts := [a, b] + s + more; |ts| >= 2 && ts[0] == a && ts[1] == b && ts[2..] == s + more
  {
  }

  /** The redirections that an item list starts with. */
  function LeadingReds(items: seq<Item>): (k: nat)
    ensures k <= |items| && (k < |items| ==> items[k].Arg?) && forall i :: 0 <= i < k ==> items[i].Red?
  {
    if items == [] || items[0].Arg? then 0 else 1 + LeadingReds(items[1..])
  }

  /** Nothing more, or an operator that ends a simple command. */
  predicate Ends(more: seq<Token>, toks: string) {
    more == [] || At(more, toks)
  }

  lemma FirstItem(items: seq<Item>, more: seq<Token>)
    requires Ends(more, "|)&;") && (items == [] || items[0].Arg?)
    ensures var ts := FlatItems(items) + more;
      && !At(ts, "<>") && !At(ts, "(")
      && (items == [] ==> ts == more) && (items != [] ==> ts[0] == Name(items[0].word))
  {
  }

  /** A word, the redirections behind it, and the other items. */
  lemma SplitFirst(items: seq<Item>, more: seq<Token>) returns (reds: seq<Item>, rest: seq<Item>)
    requires ItemsOk(items) && items != [] && items[0].Arg?
    ensures AllReds(reds) && ItemsOk(rest) && (rest == [] || rest[0].Arg?) && |rest| < |items|
    ensures WordsOf(items) == [items[0].word] + WordsOf(rest) && Reds(items) == Reds(reds) + Reds(rest)
    ensures var ts := FlatItems(items) + more; ts != [] && ts[1..] == FlatItems(reds) + (FlatItems(rest) + more)
  {
    var tail := items[1..];
    var k := LeadingReds(tail);
    reds, rest := tail[..k], tail[k..];
    assert AllReds(reds) by {
      forall i | 0 <= i < k ensures RedOk(reds[i]) {
        assert reds[i] == items[i + 1];
      }
    }
    assert ItemsOk(rest) by {
      forall i | 0 <= i < |rest| ensures rest[i].Arg? || RedOk(rest[i]) {
        assert rest[i] == items[i + 1 + k];
      }
    }
    assert items == [Arg(items[0].word)] + (reds + rest);
    ArgThenReds(items[0].word, reds, rest);
    Assoc3(FlatItems(reds), FlatItems(rest), more);
    assert (FlatItems(items) + more)[1..] == (FlatItems(reds) + FlatItems(rest)) + more;
  }

  lemma {:induction false} ArgsComplete(items: seq<Item>, more: seq<Token>, n: nat)
    requires ItemsOk(items) && Ends(more, "|)&;") && (items == [] || items[0].Arg?) && n + |WordsOf(items)| < MAXARGS
    ensures TakeArgs(FlatItems(items) + more, n) == Some((Args(WordsOf(items), Reds(items)), more))
    decreases |items|
  {
    FirstItem(items, more);
    if items != [] {
      var reds, rest := SplitFirst(items, more);
      FirstItem(rest, more);
      RedirsComplete(reds, FlatItems(rest) + more);
      ArgsComplete(rest, more, n + 1);
    }
  }

  lemma SplitReds(items: seq<Item>, more: seq<Token>) returns (reds: seq<Item>, rest: seq<Item>)
    requires ItemsOk(items)
    ensures AllReds(reds) && ItemsOk(rest) && (rest == [] || rest[0].Arg?) && WordsOf(items) == WordsOf(rest)
    ensures Reds(items) == Reds(reds) + Reds(rest) && FlatItems(items) + more == FlatItems(reds) + (FlatItems(rest) + more)
  {
    var k := LeadingReds(items);
    reds, rest := items[..k], items[k..];
    assert items == reds + rest;
    RedsThenItems(reds, rest);
    Assoc3(FlatItems(reds), FlatItems(rest), more);
  }

  lemma SimpleComplete(items: seq<Item>, more: seq<Token>)
    requires PartOk(Simple(items)) && Ends(more, "|)&;")
    ensures TakePart(FlatItems(items) + more) == Some((PartMeans(Simple(items)), more))
  {
    var reds, rest := SplitReds(items, more);
    FirstItem(rest, more);
    RedirsComplete(reds, FlatItems(rest) + more);
    NotOpen(reds, FlatItems(rest) + more);
    ArgsComplete(rest, more, 0);
    RedirectedIsWrap(Exec(WordsOf(items)), items);
  }

  lemma NotOpen(reds: seq<Item>, more: seq<Token>)
    requires AllReds(reds) && !At(more, "(")
    ensures !At(FlatItems(reds) + more, "(")
  {
    if reds == [] {
      assert FlatItems(reds) + more == more;
    } else {
      assert RedOk(reds[0]) && (FlatItems(reds) + more)[0] == reds[0].op;
    }
  }

  lemma BlockTokens(line: Line, items: seq<Item>, more: seq<Token>)
    ensures var ts := FlatPart(Block(line, items)) + more;
      ts != [] && ts[0] == Symbol('(') && ts[1..] == FlatLine(line) + ([Symbol(')')] + (FlatItems(items) + more))
  {
    var a, b, c := FlatLine(line), [Symbol(')')], FlatItems(items);
    assert [Symbol('(')] + a + b + c + more == [Symbol('(')] + (a + (b + (c + more)));
  }

  lemma {:induction false} PartComplete(p: Part, more: seq<Token>)
    requires PartOk(p) && Ends(more, "|)&;")
    ensures TakePart(FlatPart(p) + more) == Some((PartMeans(p), more))
    decreases p
  {
    match p {
      case Simple(items) => SimpleComplete(items, more);
      case Block(line, items) =>
        var close := [Symbol(')')] + (FlatItems(items) + more);
        BlockTokens(line, items, more);
        LineComplete(line, close);
        assert close[1..] == FlatItems(items) + more;
        RedirsComplete(items, more);
        RedirectedIsWrap(LineMeans(line), items);
    }
  }

  lemma {:induction false} PipeComplete(p: Pipeline, more: seq<Token>)
    requires PipeOk(p) && Ends(more, ")&;")
    ensures TakePipe(FlatPipe(p) + more) == Some((PipeMeans(p), more))
    decreases p
  {
    match p {
      case Last(part) => PartComplete(part, more);
      case Piped(part, next) =>
        var rest := [Symbol('|')] + (FlatPipe(next) + more);
        assert FlatPipe(p) + more == FlatPart(part) + rest;
        PartComplete(part, rest);
        assert rest[1..] == FlatPipe(next) + more;
        PipeComplete(next, more);
    }
  }

  lemma {:induction false} AmpsComplete(c: Cmd<Word>, n: nat, more: seq<Token>)
    requires !At(more, "&")
    ensures TakeAmps(c, Amps(n) + more) == (Backed(c, n), more)
    decreases n
  {
    if n == 0 {
      assert Amps(n) + more == more;
    } else {
      AmpsComplete(Back(c), n - 1, more);
      BackedBack(c, n - 1);
      assert (Amps(n) + more)[1..] == Amps(n - 1) + more;
    }
  }

  lemma AmpsEnd(n: nat, more: seq<Token>)
    requires Ends(more, ");")
    ensures Ends(Amps(n) + more, ")&;")
  {
    if n == 0 {
      assert Amps(n) + more == more;
    }
  }

  lemma {:induction false} LineComplete(l: Line, more: seq<Token>)
    requires LineOk(l) && Ends(more, ")")
    ensures TakeLine(FlatLine(l) + more) == Some((LineMeans(l), more))
    decreases l
  {
    var n := l.amps;
    var next := if l.Then? then [Symbol(';')] + (FlatLine(l.more) + more) else more;
    AmpsEnd(n, next);
    assert FlatLine(l) + more == FlatPipe(l.pipe) + (Amps(n) + next);
    PipeComplete(l.pipe, Amps(n) + next);
    AmpsComplete(PipeMeans(l.pipe), n, next);
    if l.Then? {
      assert next[1..] == FlatLine(l.more) + more;
      LineComplete(l.more, more);
    }
  }

  // ---------- The parser is exact ----------

  /** `text` is the line `l` of the grammar. */
  predicate Reads(text: string, l: Line) {
    LineOk(l) && Tokens(text) == FlatLine(l)
  }

  /** A text is accepted if and only if it is a line of the grammar, and the command is what that line
      means. */
  lemma ParsesExactly(text: string, c: Cmd<Word>)
    ensures ParseCmd(text) == Ok(c, "") <==> exists l: Line :: Reads(text, l) && LineMeans(l) == c
  {
    SameLine(text);
    if ParseCmd(text) == Ok(c, "") {
      NoTokens(ParseLine(text).rest);
      var l := LineSound(Tokens(text));
      assert FlatLine(l) + [] == FlatLine(l);
      assert Reads(text, l);
    }
    if l: Line :| Reads(text, l) && LineMeans(l) == c {
      LineComplete(l, []);
      assert FlatLine(l) + [] == FlatLine(l);
      NoTokens(ParseLine(text).rest);
    }
  }

  // ---------- No word is dropped, and none is made up ----------

  /** `w` is a longest run of word characters of the line, with its place. */
  predicate IsRun(text: string, w: Word) {
    && w.end < w.at <= |text| && text[|text| - w.at..|text| - w.end] == w.text && Legal(w.text)
    && (w.at < |text| ==> !IsWordChar(text[|text| - w.at - 1]))
    && (w.end > 0 ==> !IsWordChar(text[|text| - w.end]))
  }

  /** The character where `at` characters are left on the line. */
  lemma CharAt(s: string, text: string, at: nat)
    requires SuffixOf(s, text) && 0 < at <= |s|
    ensures text[|text| - at] == s[|s| - at]
  {
  }

  lemma RunStart(text: string, w: Word)
    requires IsRun(text, w)
    ensures IsWordChar(text[|text| - w.at])
  {
    assert w.text[0] == text[|text| - w.at];
  }

  lemma {:induction false} SkipToRun(s: string, text: string, w: Word)
    requires SuffixOf(s, text) && IsRun(text, w) && w.at <= |s|
    ensures SuffixOf(Skip(s), text) && w.at <= |Skip(s)|
  {
    if s != "" && IsSpace(s[0]) {
      RunStart(text, w);
      CharAt(s, text, w.at);
      DropSuffix(s, text, 1);
      SkipToRun(s[1..], text, w);
    }
  }

  /** A run that starts behind a word token, or is that token. */
  lemma RunInWord(t: string, text: string, w: Word)
    requires SuffixOf(t, text) && IsRun(text, w) && w.at <= |t| && t != "" && IsWordChar(t[0])
    ensures var n := WordLen(t); w == Word(t[..n], |t|, |t| - n) || w.at <= |t| - n
  {
    var n := WordLen(t);
    if w.at == |t| {
      SameRun(t, text, w, n);
    } else {
      CharAt(t, text, w.at + 1);
    }
  }

  lemma SameRun(t: string, text: string, w: Word, n: nat)
    requires SuffixOf(t, text) && IsRun(text, w) && w.at == |t| && 0 < n <= |t|
    requires (forall i :: 0 <= i < n ==> IsWordChar(t[i])) && (n < |t| ==> !IsWordChar(t[n]))
    ensures w == Word(t[..n], |t|, |t| - n)
  {
    var m := w.at - w.end;
    assert w.text == t[..m] by {
      assert text[|text| - |t|..] == t;
    }
    if w.end > 0 {
      CharAt(t, text, w.end);
    }
  }

  lemma {:induction false} RunIsToken(s: string, text: string, w: Word)
    requires SuffixOf(s, text) && IsRun(text, w) && w.at <= |s|
    ensures Name(w) in Tokens(s)
    decreases |s|
  {
    SkipToRun(s, text, w);
    var t := Skip(s);
    RunStart(text, w);
    CharAt(t, text, w.at);
    if IsSymbol(t[0]) {
      var k := if t[0] == '>' && |t| > 1 && t[1] == '>' then 2 else 1;
      RunBehind(t, text, w, k);
      DropSuffix(t, text, k);
      RunIsToken(t[k..], text, w);
      TokensSkip(t[k..]);
    } else {
      var n := WordLen(t);
      RunInWord(t, text, w);
      if w.at <= |t| - n {
        DropSuffix(t, text, n);
        RunIsToken(t[n..], text, w);
        TokensSkip(t[n..]);
      }
    }
  }

  /** No run starts with an operator. */
  lemma RunBehind(t: string, text: string, w: Word, k: nat)
    requires SuffixOf(t, text) && IsRun(text, w) && w.at <= |t| && k <= |t| && k <= 2
    requires forall i :: 0 <= i < k ==> !IsWordChar(t[i])
    ensures w.at <= |t| - k
  {
    RunStart(text, w);
    CharAt(t, text, w.at);
  }

  /** No word goes on from before `s` into it. */
  ghost predicate Boundary(s: string, text: string) {
    SuffixOf(s, text) && (0 < |s| < |text| ==> !IsWordChar(text[|text| - |s| - 1]) || !IsWordChar(s[0]))
  }

  lemma {:induction false} SkipBoundary(s: string, text: string)
    requires Boundary(s, text)
    ensures Boundary(Skip(s), text)
  {
    if s != "" && IsSpace(s[0]) {
      DropSuffix(s, text, 1);
      CharAt(s, text, |s|);
      SkipBoundary(s[1..], text);
    }
  }

  lemma {:induction false} TokenIsRun(s: string, text: string, w: Word)
    requires Boundary(s, text) && Name(w) in Tokens(s)
    ensures IsRun(text, w)
    decreases |s|
  {
    SkipBoundary(s, text);
    var t := Skip(s);
    if IsSymbol(t[0]) {
      var k := if t[0] == '>' && |t| > 1 && t[1] == '>' then 2 else 1;
      DropSuffix(t, text, k);
      CharAt(t, text, |t| - k + 1);
      TokensSkip(t[k..]);
      TokenIsRun(t[k..], text, w);
    } else {
      var n := WordLen(t);
      if w == Word(t[..n], |t|, |t| - n) {
        WordHere(t, text, n);
      } else {
        DropSuffix(t, text, n);
        TokensSkip(t[n..]);
        TokenIsRun(t[n..], text, w);
      }
    }
  }

  lemma {:induction false} ItemNames(items: seq<Item>, w: Word)
    requires ItemsOk(items)
    ensures Name(w) in FlatItems(items) <==> w in WordsOf(items) || exists i :: 0 <= i < |items| && items[i].Red? && items[i].file == w
  {
    if items != [] {
      ItemNames(items[1..], w);
      forall i | 0 < i < |items| ensures items[i] == items[1..][i - 1] {
      }
    }
  }

  lemma {:induction false} RedirectedWords(c: Cmd<Word>, items: seq<Item>, w: Word)
    ensures WordIn(Redirected(c, items), w) <==>
      WordIn(c, w) || exists i :: 0 <= i < |items| && items[i].Red? && items[i].file == w
    decreases |items|
  {
    if items != [] {
      var d := if items[0].Arg? then c else Redir(c, items[0].file, items[0].op != Symbol('<'));
      RedirectedWords(d, items[1..], w);
      forall i | 0 < i < |items| ensures items[i] == items[1..][i - 1] {
      }
    }
  }

  lemma {:induction false} BackedWords(c: Cmd<Word>, n: nat, w: Word)
    ensures WordIn(Backed(c, n), w) <==> WordIn(c, w)
    ensures Name(w) !in Amps(n)
  {
    if n > 0 {
      BackedWords(c, n - 1, w);
    }
  }

  lemma {:induction false} PartNames(p: Part, w: Word)
    requires PartOk(p)
    ensures Name(w) in FlatPart(p) <==> WordIn(PartMeans(p), w)
    decreases p
  {
    ItemNames(p.items, w);
    match p {
      case Simple(items) => RedirectedWords(Exec(WordsOf(items)), items, w);
      case Block(line, items) =>
        LineNames(line, w);
        RedirectedWords(LineMeans(line), items, w);
        RedsHaveNoWords(items);
    }
  }

  lemma {:induction false} PipeNames(p: Pipeline, w: Word)
    requires PipeOk(p)
    ensures Name(w) in FlatPipe(p) <==> WordIn(PipeMeans(p), w)
    decreases p
  {
    PartNames(p.part, w);
    if p.Piped? {
      PipeNames(p.more, w);
    }
  }

  lemma {:induction false} LineNames(l: Line, w: Word)
    requires LineOk(l)
    ensures Name(w) in FlatLine(l) <==> WordIn(LineMeans(l), w)
    decreases l
  {
    PipeNames(l.pipe, w);
    BackedWords(PipeMeans(l.pipe), l.amps, w);
    if l.Then? {
      LineNames(l.more, w);
    }
  }

  /** The words of a parsed command, arguments and files, are exactly the longest runs of word characters
      of its line. */
  lemma WordsExactly(text: string, w: Word)
    requires ParseCmd(text).Ok?
    ensures WordIn(ParseCmd(text).value, w) <==> IsRun(text, w)
  {
    var c := ParseCmd(text).value;
    ParsesExactly(text, c);
    var l: Line :| Reads(text, l) && LineMeans(l) == c;
    LineNames(l, w);
    assert text[0..] == text;
    if IsRun(text, w) {
      RunIsToken(text, text, w);
    }
    if Name(w) in Tokens(text) {
      TokenIsRun(text, text, w);
    }
  }

  // ---------- Nothing else is dropped ----------

  /** A line without its white space. */
  function Squeeze(s: string): string {
    if s == "" then "" else (if IsSpace(s[0]) then "" else [s[0]]) + Squeeze(s[1..])
  }

  function Spelling(tok: Token): string {
    match tok
    case End => ""
    case Symbol(c) => [c]
    case Append => ">>"
    case Name(w) => w.text
  }

  function Spell(ts: seq<Token>): string {
    if ts == [] then "" else Spelling(ts[0]) + Spell(ts[1..])
  }

  lemma {:induction false} SqueezeSkip(s: string)
    ensures Squeeze(Skip(s)) == Squeeze(s)
  {
    if s != "" && IsSpace(s[0]) {
      SqueezeSkip(s[1..]);
      assert "" + Squeeze(s[1..]) == Squeeze(s[1..]);
    }
  }

  lemma {:induction false} SqueezeFirst(s: string, k: nat)
    requires k <= |s| && forall i :: 0 <= i < k ==> !IsSpace(s[i])
    ensures Squeeze(s) == s[..k] + Squeeze(s[k..])
  {
    if k == 0 {
      assert s[..0] + Squeeze(s[0..]) == Squeeze(s) by {
        assert s[0..] == s;
      }
    } else {
      SqueezeFirst(s[1..], k - 1);
      assert s[1..][k - 1..] == s[k..] && s[..k] == [s[0]] + s[1..][..k - 1];
    }
  }

  /** The tokens spell the line, but for its white space. */
  lemma {:induction false} TokensSpell(s: string)
    ensures Spell(Tokens(s)) == Squeeze(s)
    decreases |s|
  {
    var t := Skip(s);
    SqueezeSkip(s);
    if t != "" {
      var k := if t[0] == '>' && |t| > 1 && t[1] == '>' then 2 else if IsSymbol(t[0]) then 1 else WordLen(t);
      SqueezeFirst(t, k);
      TokensSpell(t[k..]);
      TokensSkip(t[k..]);
      Next(s);
      assert Spelling(GetToken(s).0) == t[..k];
    }
  }

  // ---------- A word behind `&` ----------

  /** Behind `&` comes nothing, or `&`, `;` or `)`. */
  predicate AmpOk(ts: seq<Token>) {
    forall i :: 0 <= i < |ts| - 1 && ts[i] == Symbol('&') ==> StartsWith(ts[i + 1], "&;)")
  }

  lemma AmpJoin(a: seq<Token>, b: seq<Token>)
    requires AmpOk(a) && AmpOk(b)
    requires a != [] && b != [] && a[|a| - 1] == Symbol('&') ==> StartsWith(b[0], "&;)")
    ensures AmpOk(a + b)
  {
  }

  lemma {:induction false} ItemsAmp(items: seq<Item>)
    requires ItemsOk(items)
    ensures Symbol('&') !in FlatItems(items)
  {
    if items != [] {
      ItemsAmp(items[1..]);
    }
  }

  lemma {:induction false} AmpsAmp(n: nat)
    ensures AmpOk(Amps(n)) && (n > 0 ==> StartsWith(Amps(n)[0], "&;)"))
  {
    if n > 0 {
      AmpsAmp(n - 1);
      AmpJoin([Symbol('&')], Amps(n - 1));
    }
  }

  lemma {:induction false} PartAmp(p: Part)
    requires PartOk(p)
    ensures AmpOk(FlatPart(p)) && (FlatPart(p) != [] ==> FlatPart(p)[|FlatPart(p)| - 1] != Symbol('&'))
    decreases p
  {
    ItemsAmp(p.items);
    if p.Block? {
      LineAmp(p.line);
      AmpJoin([Symbol('(')], FlatLine(p.line));
      AmpJoin([Symbol('(')] + FlatLine(p.line), [Symbol(')')]);
      AmpJoin([Symbol('(')] + FlatLine(p.line) + [Symbol(')')], FlatItems(p.items));
    }
  }

  lemma {:induction false} PipeAmp(p: Pipeline)
    requires PipeOk(p)
    ensures AmpOk(FlatPipe(p)) && (FlatPipe(p) != [] ==> FlatPipe(p)[|FlatPipe(p)| - 1] != Symbol('&'))
    decreases p
  {
    PartAmp(p.part);
    if p.Piped? {
      PipeAmp(p.more);
      AmpJoin(FlatPart(p.part), [Symbol('|')]);
      AmpJoin(FlatPart(p.part) + [Symbol('|')], FlatPipe(p.more));
    }
  }

  lemma {:induction false} LineAmp(l: Line)
    requires LineOk(l)
    ensures AmpOk(FlatLine(l))
    decreases l
  {
    PipeAmp(l.pipe);
    AmpsAmp(l.amps);
    var a := FlatPipe(l.pipe) + Amps(l.amps);
    AmpJoin(FlatPipe(l.pipe), Amps(l.amps));
    if l.Then? {
      LineAmp(l.more);
      AmpJoin(a, [Symbol(';')]);
      AmpJoin(a + [Symbol(';')], FlatLine(l.more));
    }
  }

  /** `&` does not separate commands: a line with a word behind it, as in `c & d`, is a syntax error. */
  lemma NoWordBehindAmp(text: string, i: nat)
    requires i + 1 < |Tokens(text)| && Tokens(text)[i] == Symbol('&') && Tokens(text)[i + 1].Name?
    ensures ParseCmd(text).Panic?
  {
    if ParseCmd(text).Ok? {
      ParsesExactly(text, ParseCmd(text).value);
      var l: Line :| Reads(text, l) && LineMeans(l) == ParseCmd(text).value;
      LineAmp(l);
    }
  }
}
