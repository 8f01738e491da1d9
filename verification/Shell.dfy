/** The grammar of the shell, as functions from the rest of the line to a command and what is left. */
module ShellGrammar {

  /** The most arguments of one command, with room for the final null. */
  const MAXARGS: nat := 10

  predicate IsSpace(c: char) {
    c == ' ' || c == '\t' || c == '\r' || c == '\n' || c == '\U{0b}'
  }

  predicate IsSymbol(c: char) {
    c == '<' || c == '|' || c == '>' || c == '&' || c == ';' || c == '(' || c == ')'
  }

  predicate IsWordChar(c: char) {
    !IsSpace(c) && !IsSymbol(c)
  }

  /** A word of the line. `at` and `end` are the numbers of characters left on the line where it starts
      and just behind it. */
  datatype Word = Word(text: string, at: nat, end: nat)

  /** A redirection is for input, or for output (`>` and `>>` alike). */
  datatype Cmd<W> =
    | Exec(args: seq<W>)
    | Redir(cmd: Cmd<W>, file: W, out: bool)
    | Pipe(left: Cmd<W>, right: Cmd<W>)
    | List(left: Cmd<W>, right: Cmd<W>)
    | Back(cmd: Cmd<W>)

  /** A syntax error stops the shell. */
  datatype Result<T> = Ok(value: T, rest: string) | Panic

  // ---------- Tokens ----------

  function Skip(s: string): (r: string)
    ensures |r| <= |s| && (r != "" ==> !IsSpace(r[0]))
  {
    if s != "" && IsSpace(s[0]) then Skip(s[1..]) else s
  }

  /** How many word characters the line starts with. */
  function WordLen(s: string): (n: nat)
    ensures n <= |s| && (forall i :: 0 <= i < n ==> IsWordChar(s[i])) && (n < |s| ==> !IsWordChar(s[n]))
  {
    if s != "" && IsWordChar(s[0]) then 1 + WordLen(s[1..]) else 0
  }

  datatype Token = End | Symbol(c: char) | Append | Name(word: Word)

  /** The next token; the white space behind it is skipped too. */
  function GetToken(s: string): (r: (Token, string))
    ensures |r.1| <= |s| && (r.0 != End ==> |r.1| < |s|)
  {
    var t := Skip(s);
    if t == "" then (End, "")
    else if t[0] == '>' && |t| > 1 && t[1] == '>' then (Append, Skip(t[2..]))
    else if IsSymbol(t[0]) then (Symbol(t[0]), Skip(t[1..]))
    else
      var n := WordLen(t);
      (Name(Word(t[..n], |t|, |t| - n)), Skip(t[n..]))
  }

  /** The next character is one of these. */
  predicate Peek(s: string, toks: string) {
    var t := Skip(s);
    t != "" && t[0] in toks
  }

  // ---------- Commands ----------

  function Wrap<W>(c: Cmd<W>, rs: seq<(W, bool)>): Cmd<W>
    decreases |rs|
  {
    if rs == [] then c else Wrap(Redir(c, rs[0].0, rs[0].1), rs[1..])
  }

  function Redirs(s: string): (r: Result<seq<(Word, bool)>>)
    ensures r.Ok? ==> |r.rest| <= |s|
    decreases |s|
  {
    if !Peek(s, "<>") then Ok([], Skip(s))
    else
      var (tok, s1) := GetToken(s);
      var (file, s2) := GetToken(s1);
      if !file.Name? then Panic
      else
        match Redirs(s2)
        case Panic => Panic
        case Ok(more, rest) => Ok([(file.word, tok != Symbol('<'))] + more, rest)
  }

  datatype Args = Args(words: seq<Word>, redirs: seq<(Word, bool)>)

  /** The words and redirections of a simple command that already has `n` words. */
  function ExecArgs(s: string, n: nat): (r: Result<Args>)
    ensures r.Ok? ==> |r.rest| <= |s|
    decreases |s|
  {
    if Peek(s, "|)&;") then Ok(Args([], []), Skip(s))
    else
      var (tok, s1) := GetToken(s);
      if tok.End? then Ok(Args([], []), s1)
      else if !tok.Name? || n + 1 >= MAXARGS then Panic
      else
        match Redirs(s1)
        case Panic => Panic
        case Ok(rs, s2) =>
          match ExecArgs(s2, n + 1)
          case Panic => Panic
          case Ok(more, rest) => Ok(Args([tok.word] + more.words, rs + more.redirs), rest)
  }

  function ParseExec(s: string): (r: Result<Cmd<Word>>)
    ensures r.Ok? ==> |r.rest| <= |s|
    decreases |s|, 0
  {
    if Peek(s, "(") then
      var (_, s1) := GetToken(s);
      match ParseLine(s1)
      case Panic => Panic
      case Ok(c, s2) =>
        if !Peek(s2, ")") then Panic
        else
          var (_, s3) := GetToken(s2);
          match Redirs(s3)
          case Panic => Panic
          case Ok(rs, rest) => Ok(Wrap(c, rs), rest)
    else
      match Redirs(s)
      case Panic => Panic
      case Ok(rs, s1) =>
        match ExecArgs(s1, 0)
        case Panic => Panic
        case Ok(args, rest) => Ok(Wrap(Exec(args.words), rs + args.redirs), rest)
  }

  function ParsePipe(s: string): (r: Result<Cmd<Word>>)
    ensures r.Ok? ==> |r.rest| <= |s|
    decreases |s|, 1
  {
    match ParseExec(s)
    case Panic => Panic
    case Ok(c, s1) =>
      if !Peek(s1, "|") then Ok(c, Skip(s1))
      else
        match ParsePipe(GetToken(s1).1)
        case Panic => Panic
        case Ok(right, rest) => Ok(Pipe(c, right), rest)
  }

  /** Each `&` puts the command so far into the background. */
  function Backs(c: Cmd<Word>, s: string): (r: (Cmd<Word>, string))
    ensures |r.1| <= |s|
    decreases |s|
  {
    if Peek(s, "&") then Backs(Back(c), GetToken(s).1) else (c, Skip(s))
  }

  function ParseLine(s: string): (r: Result<Cmd<Word>>)
    ensures r.Ok? ==> |r.rest| <= |s|
    decreases |s|, 2
  {
    match ParsePipe(s)
    case Panic => Panic
    case Ok(c, s1) =>
      var (b, s2) := Backs(c, s1);
      if !Peek(s2, ";") then Ok(b, Skip(s2))
      else
        match ParseLine(GetToken(s2).1)
        case Panic => Panic
        case Ok(right, rest) => Ok(List(b, right), rest)
  }

  /** A whole line: nothing may be left over. */
  function ParseCmd(s: string): Result<Cmd<Word>> {
    match ParseLine(s)
    case Panic => Panic
    case Ok(c, rest) => if Skip(rest) == "" then Ok(c, "") else Panic
  }
}

/** Every command has a text that parses back to it. */
module ShellRoundTrip {
  import opened ShellGrammar

  predicate Legal(w: string) {
    w != "" && forall i :: 0 <= i < |w| ==> IsWordChar(w[i])
  }

  /** Commands the parser can build: legal words, and no more of them than fit. */
  predicate WellFormed(c: Cmd<string>) {
    match c
    case Exec(args) => |args| < MAXARGS && forall i :: 0 <= i < |args| ==> Legal(args[i])
    case Redir(d, file, _) => WellFormed(d) && Legal(file)
    case Pipe(l, r) => WellFormed(l) && WellFormed(r)
    case List(l, r) => WellFormed(l) && WellFormed(r)
    case Back(d) => WellFormed(d)
  }

  function ShowWords(ws: seq<string>): string {
    if ws == [] then "" else ws[0] + " " + ShowWords(ws[1..])
  }

  function Paren(s: string): string {
    "(" + s + ")"
  }

  /** The canonical text, with parentheses round every part. */
  function Show(c: Cmd<string>): string {
    match c
    case Exec(args) => ShowWords(args)
    case Redir(d, file, out) => Paren(Show(d)) + [if out then '>' else '<'] + file
    case Pipe(l, r) => Paren(Show(l)) + ['|'] + Paren(Show(r))
    case List(l, r) => Paren(Show(l)) + [';'] + Paren(Show(r))
    case Back(d) => Paren(Show(d)) + ['&']
  }

  function Texts(ws: seq<Word>): (r: seq<string>)
    ensures |r| == |ws|
  {
    seq(|ws|, i requires 0 <= i < |ws| => ws[i].text)
  }

  /** The command without the places of its words. */
  function Strip(c: Cmd<Word>): Cmd<string> {
    match c
    case Exec(args) => Exec(Texts(args))
    case Redir(d, file, out) => Redir(Strip(d), file.text, out)
    case Pipe(l, r) => Pipe(Strip(l), Strip(r))
    case List(l, r) => List(Strip(l), Strip(r))
    case Back(d) => Back(Strip(d))
  }

  /** What can follow a command inside a line: the end, or the parenthesis that closes it. */
  predicate Closes(post: string) {
    post == "" || post[0] == ')'
  }

  // ---------- Tokens ----------

  lemma {:induction false} WordLenIs(w: string, post: string)
    requires (forall i :: 0 <= i < |w| ==> IsWordChar(w[i])) && (post != "" ==> !IsWordChar(post[0]))
    ensures WordLen(w + post) == |w|
  {
    if w == "" {
      assert w + post == post;
    } else {
      WordLenIs(w[1..], post);
      assert (w + post)[1..] == w[1..] + post;
    }
  }

  lemma NameToken(w: string, post: string)
    requires Legal(w) && (post != "" ==> !IsWordChar(post[0]))
    ensures GetToken(w + post) == (Name(Word(w, |w + post|, |post|)), Skip(post))
  {
    var s := w + post;
    assert s[0] == w[0] && IsWordChar(w[0]);
    WordLenIs(w, post);
    assert s[..|w|] == w && s[|w|..] == post;
  }

  lemma SymbolToken(c: char, post: string)
    requires IsSymbol(c) && (c == '>' ==> post == "" || post[0] != '>')
    ensures GetToken([c] + post) == (Symbol(c), Skip(post))
  {
    var s := [c] + post;
    assert s[0] == c && s[1..] == post;
  }

  lemma NoSpace(s: string)
    requires s == "" || !IsSpace(s[0])
    ensures Skip(s) == s
  {
  }

  lemma {:induction false} SkipAgain(s: string)
    ensures Skip(Skip(s)) == Skip(s)
  {
    if s != "" && IsSpace(s[0]) {
      SkipAgain(s[1..]);
    }
  }

  // ---------- Simple commands ----------

  /** A line that starts with neither white space nor a redirection. */
  predicate Plain(s: string) {
    s == "" || (!IsSpace(s[0]) && s[0] != '<' && s[0] != '>')
  }

  lemma NoRedirs(s: string)
    requires Plain(s)
    ensures Redirs(s) == Ok([], s)
  {
    NoSpace(s);
  }

  lemma ShowWordsStart(ws: seq<string>, post: string)
    requires (forall i :: 0 <= i < |ws| ==> Legal(ws[i])) && Closes(post)
    ensures var s := ShowWords(ws) + post;
      Plain(s) && (s != "" ==> if ws == [] then s[0] == ')' else IsWordChar(s[0]))
  {
    if ws != [] {
      var s := ShowWords(ws) + post;
      assert s[0] == ws[0][0] && IsWordChar(ws[0][0]);
    }
  }

  /** One word of a simple command. */
  lemma ExecStep(s: string, n: nat, word: Word, s1: string)
    requires !Peek(s, "|)&;") && GetToken(s) == (Name(word), s1) && Redirs(s1) == Ok([], s1) && n + 1 < MAXARGS
    ensures var m := ExecArgs(s1, n + 1);
      ExecArgs(s, n) == if m.Ok? then Ok(Args([word] + m.value.words, m.value.redirs), m.rest) else Panic
  {
    var m := ExecArgs(s1, n + 1);
    if m.Ok? {
      assert [] + m.value.redirs == m.value.redirs;
    }
  }

  lemma WordThenSpace(w: string, more: string)
    requires Legal(w) && (more == "" || !IsSpace(more[0]))
    ensures var s := w + (" " + more);
      !Peek(s, "|)&;") && GetToken(s) == (Name(Word(w, |s|, |s| - |w|)), more)
  {
    var s, post := w + (" " + more), " " + more;
    assert s[0] == w[0] && IsWordChar(w[0]);
    NoSpace(s);
    NameToken(w, post);
    assert post[1..] == more;
    NoSpace(more);
  }

  lemma {:induction false} WordsRoundTrip(ws: seq<string>, post: string, n: nat)
    requires (forall i :: 0 <= i < |ws| ==> Legal(ws[i])) && Closes(post) && n + |ws| < MAXARGS
    ensures var r := ExecArgs(ShowWords(ws) + post, n);
      r.Ok? && r.rest == post && Texts(r.value.words) == ws && r.value.redirs == []
    decreases |ws|
  {
    if ws == [] {
      NoSpace(post);
      assert ShowWords(ws) + post == post;
    } else {
      WordsRoundTrip(ws[1..], post, n + 1);
      OneMoreWord(ws, post, n);
    }
  }

  lemma ShowWordsCons(ws: seq<string>, post: string)
    requires ws != []
    ensures ShowWords(ws) + post == ws[0] + (" " + (ShowWords(ws[1..]) + post))
  {
  }

  lemma OneMoreWord(ws: seq<string>, post: string, n: nat)
    requires ws != [] && (forall i :: 0 <= i < |ws| ==> Legal(ws[i])) && Closes(post) && n + 1 < MAXARGS
    requires var m := ExecArgs(ShowWords(ws[1..]) + post, n + 1);
      m.Ok? && m.rest == post && Texts(m.value.words) == ws[1..] && m.value.redirs == []
    ensures var r := ExecArgs(ShowWords(ws) + post, n);
      r.Ok? && r.rest == post && Texts(r.value.words) == ws && r.value.redirs == []
  {
    var s, more := ShowWords(ws) + post, ShowWords(ws[1..]) + post;
    ShowWordsCons(ws, post);
    ShowWordsStart(ws[1..], post);
    WordThenSpace(ws[0], more);
    NoRedirs(more);
    var word := Word(ws[0], |s|, |s| - |ws[0]|);
    ExecStep(s, n, word, more);
    var words := ExecArgs(more, n + 1).value.words;
    assert ([word] + words)[1..] == words;
    FirstText([word] + words, ws);
  }

  lemma FirstText(words: seq<Word>, ws: seq<string>)
    requires words != [] && ws != [] && words[0].text == ws[0] && Texts(words[1..]) == ws[1..]
    ensures Texts(words) == ws
  {
    var r := Texts(words);
    forall i | 0 <= i < |r| ensures r[i] == ws[i] {
      if i > 0 {
        assert Texts(words[1..])[i - 1] == words[1..][i - 1].text;
      }
    }
  }

  // ---------- Parts in parentheses ----------

  lemma ShowStart(c: Cmd<string>, post: string)
    requires WellFormed(c) && Closes(post)
    ensures Plain(Show(c) + post)
  {
    match c {
      case Exec(args) => ShowWordsStart(args, post);
      case _ => assert (Show(c) + post)[0] == '(';
    }
  }

  /** A part in parentheses, and what follows it. */
  lemma BlockIs(c: Cmd<string>, d: Cmd<Word>, after: string)
    requires WellFormed(c) && (after == "" || !IsSpace(after[0]))
    requires ParseLine(Show(c) + (")" + after)) == Ok(d, ")" + after)
    ensures var r := Redirs(after);
      ParseExec(Paren(Show(c)) + after) == if r.Ok? then Ok(Wrap(d, r.value), r.rest) else Panic
  {
    var s, body := Paren(Show(c)) + after, Show(c) + (")" + after);
    assert s == ['('] + body && s[0] == '(';
    ShowStart(c, ")" + after);
    NoSpace(s);
    NoSpace(body);
    SymbolToken('(', body);
    NoSpace(")" + after);
    assert ")" + after == [')'] + after;
    SymbolToken(')', after);
    NoSpace(after);
  }

  /** A command that closes the line. */
  lemma LineEnd(s: string, d: Cmd<Word>, post: string)
    requires ParseExec(s) == Ok(d, post) && Closes(post)
    ensures ParsePipe(s) == Ok(d, post) && ParseLine(s) == Ok(d, post)
  {
    NoSpace(post);
  }

  /** A part in parentheses, and an operator behind it. */
  lemma PartThen(c: Cmd<string>, d: Cmd<Word>, op: char, right: string)
    requires WellFormed(c) && (op == '|' || op == ';' || op == '&') && (right == "" || !IsSpace(right[0]))
    requires ParseLine(Show(c) + (")" + ([op] + right))) == Ok(d, ")" + ([op] + right))
    ensures var after := [op] + right;
      && ParseExec(Paren(Show(c)) + after) == Ok(d, after)
      && GetToken(after) == (Symbol(op), right) && Skip(after) == after && after[0] == op
  {
    var after := [op] + right;
    BlockIs(c, d, after);
    NoRedirs(after);
    NoSpace(after);
    SymbolToken(op, right);
    NoSpace(right);
  }

  lemma PipeStep(s: string, d: Cmd<Word>, s1: string, right: string, e: Cmd<Word>, post: string)
    requires ParseExec(s) == Ok(d, s1) && Skip(s1) == s1 && s1 != "" && s1[0] == '|' && GetToken(s1) == (Symbol('|'), right)
    requires ParsePipe(right) == Ok(e, post) && Closes(post)
    ensures ParseLine(s) == Ok(Pipe(d, e), post)
  {
    NoSpace(post);
    assert ParsePipe(s) == Ok(Pipe(d, e), post);
  }

  lemma ListStep(s: string, d: Cmd<Word>, s1: string, right: string, e: Cmd<Word>, post: string)
    requires ParseExec(s) == Ok(d, s1) && Skip(s1) == s1 && s1 != "" && s1[0] == ';' && GetToken(s1) == (Symbol(';'), right)
    requires ParseLine(right) == Ok(e, post) && Closes(post)
    ensures ParseLine(s) == Ok(List(d, e), post)
  {
    assert ParsePipe(s) == Ok(d, s1);
    assert Backs(d, s1) == (d, s1);
  }

  lemma BackStep(s: string, d: Cmd<Word>, s1: string, post: string)
    requires ParseExec(s) == Ok(d, s1) && Skip(s1) == s1 && s1 != "" && s1[0] == '&' && GetToken(s1) == (Symbol('&'), post)
    requires Closes(post)
    ensures ParseLine(s) == Ok(Back(d), post)
  {
    NoSpace(post);
    assert ParsePipe(s) == Ok(d, s1);
    assert Backs(Back(d), post) == (Back(d), post);
    assert Backs(d, s1) == (Back(d), post);
  }

  lemma RedirStep(s: string, op: char, tail: string, word: Word, post: string)
    requires Skip(s) == s && s != "" && s[0] == op && (op == '<' || op == '>') && GetToken(s) == (Symbol(op), tail)
    requires GetToken(tail) == (Name(word), post) && Closes(post)
    ensures Redirs(s) == Ok([(word, op == '>')], post)
  {
    NoRedirs(post);
    assert [(word, op == '>')] + [] == [(word, op == '>')];
  }

  lemma FileToken(op: char, file: string, post: string)
    requires (op == '<' || op == '>') && Legal(file) && Closes(post)
    ensures var tail := file + post;
      var after := [op] + tail;
      && GetToken(after) == (Symbol(op), tail) && Skip(after) == after && after[0] == op
      && GetToken(tail) == (Name(Word(file, |tail|, |post|)), post)
  {
    var tail := file + post;
    var after := [op] + tail;
    assert tail[0] == file[0] && IsWordChar(file[0]);
    SymbolToken(op, tail);
    NoSpace(after);
    NoSpace(tail);
    NameToken(file, post);
    NoSpace(post);
  }

  lemma WithRedir(c: Cmd<string>, d: Cmd<Word>, file: string, out: bool, post: string)
    requires WellFormed(c) && Legal(file) && Closes(post)
    requires var after := [if out then '>' else '<'] + (file + post); ParseLine(Show(c) + (")" + after)) == Ok(d, ")" + after)
    ensures ParseLine(Show(Redir(c, file, out)) + post) == Ok(Redir(d, Word(file, |file + post|, |post|), out), post)
  {
    var op := if out then '>' else '<';
    var after := [op] + (file + post);
    FileToken(op, file, post);
    BlockIs(c, d, after);
    var word := Word(file, |file + post|, |post|);
    RedirStep(after, op, file + post, word, post);
    var s := Show(Redir(c, file, out)) + post;
    Assoc(Paren(Show(c)), [op], file, post);
    assert Wrap(d, [(word, out)]) == Redir(d, word, out);
    LineEnd(s, Redir(d, word, out), post);
  }

  /** The right-hand part of a pipe or a list. */
  lemma LastPart(r: Cmd<string>, e: Cmd<Word>, post: string)
    requires WellFormed(r) && Closes(post) && ParseLine(Show(r) + (")" + post)) == Ok(e, ")" + post)
    ensures var right := Paren(Show(r)) + post; ParsePipe(right) == Ok(e, post) && ParseLine(right) == Ok(e, post)
  {
    BlockIs(r, e, post);
    NoRedirs(post);
    LineEnd(Paren(Show(r)) + post, e, post);
  }

  lemma SimpleRoundTrip(args: seq<string>, post: string)
    requires WellFormed(Exec(args)) && Closes(post)
    ensures var r := ParseLine(ShowWords(args) + post); r.Ok? && r.rest == post && Strip(r.value) == Exec(args)
  {
    var s := ShowWords(args) + post;
    ShowWordsStart(args, post);
    NoRedirs(s);
    NoSpace(s);
    WordsRoundTrip(args, post, 0);
    var r := ExecArgs(s, 0);
    assert [] + r.value.redirs == [];
    LineEnd(s, Exec(r.value.words), post);
  }

  lemma InBackground(c: Cmd<string>, d: Cmd<Word>, post: string)
    requires WellFormed(c) && Closes(post)
    requires ParseLine(Show(c) + (")" + (['&'] + post))) == Ok(d, ")" + (['&'] + post))
    ensures ParseLine(Paren(Show(c)) + ['&'] + post) == Ok(Back(d), post)
  {
    PartThen(c, d, '&', post);
    AssocTwo(Paren(Show(c)), ['&'], post);
    BackStep(Paren(Show(c)) + (['&'] + post), d, ['&'] + post, post);
  }

  /** Two parts with an operator between them. */
  lemma TwoParts(l: Cmd<string>, r: Cmd<string>, op: char, d: Cmd<Word>, e: Cmd<Word>, post: string)
    requires WellFormed(l) && WellFormed(r) && Closes(post) && (op == '|' || op == ';')
    requires var after := [op] + (Paren(Show(r)) + post); ParseLine(Show(l) + (")" + after)) == Ok(d, ")" + after)
    requires ParseLine(Show(r) + (")" + post)) == Ok(e, ")" + post)
    ensures ParseLine(Paren(Show(l)) + [op] + Paren(Show(r)) + post)
      == Ok(if op == '|' then Pipe(d, e) else List(d, e), post)
  {
    var right := Paren(Show(r)) + post;
    assert right[0] == '(';
    PartThen(l, d, op, right);
    LastPart(r, e, post);
    Assoc(Paren(Show(l)), [op], Paren(Show(r)), post);
    var s, after := Paren(Show(l)) + ([op] + right), [op] + right;
    if op == '|' {
      PipeStep(s, d, after, right, e, post);
    } else {
      ListStep(s, d, after, right, e, post);
    }
  }

  lemma AssocTwo(a: string, b: string, c: string)
    ensures a + b + c == a + (b + c)
  {
  }

  lemma Assoc(a: string, b: string, c: string, d: string)
    ensures a + b + c + d == a + (b + (c + d))
  {
  }

  /** Parsing the canonical text of a command gives the command, and leaves what follows. */
  lemma {:induction false} RoundTrip(c: Cmd<string>, post: string)
    requires WellFormed(c) && Closes(post)
    ensures var r := ParseLine(Show(c) + post); r.Ok? && r.rest == post && Strip(r.value) == c
    decreases c
  {
    match c {
      case Exec(args) =>
        SimpleRoundTrip(args, post);
      case Redir(d, file, out) =>
        var after := [if out then '>' else '<'] + (file + post);
        RoundTrip(d, ")" + after);
        WithRedir(d, ParseLine(Show(d) + (")" + after)).value, file, out, post);
      case Back(d) =>
        RoundTrip(d, ")" + (['&'] + post));
        InBackground(d, ParseLine(Show(d) + (")" + (['&'] + post))).value, post);
      case Pipe(l, r) =>
        var right := Paren(Show(r)) + post;
        RoundTrip(l, ")" + (['|'] + right));
        RoundTrip(r, ")" + post);
        TwoParts(l, r, '|', ParseLine(Show(l) + (")" + (['|'] + right))).value, ParseLine(Show(r) + (")" + post)).value, post);
      case List(l, r) =>
        var right := Paren(Show(r)) + post;
        RoundTrip(l, ")" + ([';'] + right));
        RoundTrip(r, ")" + post);
        TwoParts(l, r, ';', ParseLine(Show(l) + (")" + ([';'] + right))).value, ParseLine(Show(r) + (")" + post)).value, post);
    }
  }

  /** A whole line with the canonical text of a command is that command. */
  lemma LineRoundTrip(c: Cmd<string>)
    requires WellFormed(c)
    ensures var r := ParseCmd(Show(c)); r.Ok? && Strip(r.value) == c
  {
    RoundTrip(c, "");
    assert Show(c) + "" == Show(c);
  }
}

/** Where the words of a parsed command are in the line. */
module ShellWords {
  import opened ShellGrammar
  import opened ShellRoundTrip

  ghost predicate SuffixOf(s: string, text: string) {
    |s| <= |text| && text[|text| - |s|..] == s
  }

  /** The word stands in the line where it says, and what follows it is not part of a word. */
  ghost predicate WordOk(text: string, w: Word) {
    && w.end < w.at <= |text| && text[|text| - w.at..|text| - w.end] == w.text && Legal(w.text)
    && (w.end > 0 ==> !IsWordChar(text[|text| - w.end]))
  }

  ghost predicate AllOk(text: string, ws: seq<Word>) {
    forall i :: 0 <= i < |ws| ==> WordOk(text, ws[i])
  }

  ghost predicate FilesOk(text: string, rs: seq<(Word, bool)>) {
    forall i :: 0 <= i < |rs| ==> WordOk(text, rs[i].0)
  }

  ghost predicate WordsOk(text: string, c: Cmd<Word>) {
    match c
    case Exec(args) => |args| < MAXARGS && AllOk(text, args)
    case Redir(d, file, _) => WordsOk(text, d) && WordOk(text, file)
    case Pipe(l, r) => WordsOk(text, l) && WordsOk(text, r)
    case List(l, r) => WordsOk(text, l) && WordsOk(text, r)
    case Back(d) => WordsOk(text, d)
  }

  lemma DropSuffix(s: string, text: string, k: nat)
    requires SuffixOf(s, text) && k <= |s|
    ensures SuffixOf(s[k..], text)
  {
  }

  lemma {:induction false} SkipSuffix(s: string, text: string)
    requires SuffixOf(s, text)
    ensures SuffixOf(Skip(s), text)
  {
    if s != "" && IsSpace(s[0]) {
      DropSuffix(s, text, 1);
      SkipSuffix(s[1..], text);
    }
  }

  lemma TokenOk(s: string, text: string)
    requires SuffixOf(s, text)
    ensures SuffixOf(GetToken(s).1, text) && (GetToken(s).0.Name? ==> WordOk(text, GetToken(s).0.word))
  {
    var t := Skip(s);
    SkipSuffix(s, text);
    if t != "" {
      DropSuffix(t, text, 1);
      SkipSuffix(t[1..], text);
      if t[0] == '>' && |t| > 1 && t[1] == '>' {
        DropSuffix(t, text, 2);
        SkipSuffix(t[2..], text);
      } else if !IsSymbol(t[0]) {
        var n := WordLen(t);
        DropSuffix(t, text, n);
        SkipSuffix(t[n..], text);
        WordHere(t, text, n);
      }
    }
  }

  lemma WordHere(t: string, text: string, n: nat)
    requires SuffixOf(t, text) && 0 < n <= |t| && (forall i :: 0 <= i < n ==> IsWordChar(t[i])) && (n < |t| ==> !IsWordChar(t[n]))
    ensures WordOk(text, Word(t[..n], |t|, |t| - n))
  {
    var at := |text| - |t|;
    assert text[at..][..n] == text[at..at + n];
    assert n < |t| ==> text[at + n] == t[n];
  }

  lemma {:induction false} RedirsOk(s: string, text: string)
    requires SuffixOf(s, text)
    ensures var r := Redirs(s); r.Ok? ==> SuffixOf(r.rest, text) && FilesOk(text, r.value)
    decreases |s|
  {
    SkipSuffix(s, text);
    if Peek(s, "<>") {
      TokenOk(s, text);
      var s1 := GetToken(s).1;
      TokenOk(s1, text);
      if GetToken(s1).0.Name? {
        RedirsOk(GetToken(s1).1, text);
      }
    }
  }

  lemma {:induction false} ExecArgsOk(s: string, n: nat, text: string)
    requires SuffixOf(s, text)
    ensures var r := ExecArgs(s, n); r.Ok? ==> SuffixOf(r.rest, text) && AllOk(text, r.value.words) && FilesOk(text, r.value.redirs)
    decreases |s|
  {
    SkipSuffix(s, text);
    TokenOk(s, text);
    var (tok, s1) := GetToken(s);
    if !Peek(s, "|)&;") && tok.Name? {
      RedirsOk(s1, text);
      var rs := Redirs(s1);
      if rs.Ok? {
        ExecArgsOk(rs.rest, n + 1, text);
        var more := ExecArgs(rs.rest, n + 1);
        if more.Ok? {
          ArgsConsOk(text, tok.word, rs.value, more.value);
        }
      }
    }
  }

  lemma {:induction false} ArgsFit(s: string, n: nat)
    requires n < MAXARGS
    ensures var r := ExecArgs(s, n); r.Ok? ==> n + |r.value.words| < MAXARGS
    decreases |s|
  {
    var (tok, s1) := GetToken(s);
    if !Peek(s, "|)&;") && tok.Name? && n + 1 < MAXARGS && Redirs(s1).Ok? {
      ArgsFit(Redirs(s1).rest, n + 1);
    }
  }

  lemma ArgsConsOk(text: string, w: Word, rs: seq<(Word, bool)>, more: Args)
    requires WordOk(text, w) && FilesOk(text, rs) && AllOk(text, more.words) && FilesOk(text, more.redirs)
    ensures AllOk(text, [w] + more.words) && FilesOk(text, rs + more.redirs)
  {
  }

  lemma {:induction false} WrapOk(text: string, c: Cmd<Word>, rs: seq<(Word, bool)>)
    requires WordsOk(text, c) && FilesOk(text, rs)
    ensures WordsOk(text, Wrap(c, rs))
    decreases |rs|
  {
    if rs != [] {
      WrapOk(text, Redir(c, rs[0].0, rs[0].1), rs[1..]);
    }
  }

  lemma {:induction false} ExecOk(s: string, text: string)
    requires SuffixOf(s, text)
    ensures var r := ParseExec(s); r.Ok? ==> SuffixOf(r.rest, text) && WordsOk(text, r.value)
    decreases |s|, 0
  {
    if Peek(s, "(") {
      TokenOk(s, text);
      var s1 := GetToken(s).1;
      LineOk(s1, text);
      if ParseLine(s1).Ok? {
        var c, s2 := ParseLine(s1).value, ParseLine(s1).rest;
        TokenOk(s2, text);
        RedirsOk(GetToken(s2).1, text);
        if Redirs(GetToken(s2).1).Ok? {
          WrapOk(text, c, Redirs(GetToken(s2).1).value);
        }
      }
    } else {
      RedirsOk(s, text);
      if Redirs(s).Ok? {
        ExecArgsOk(Redirs(s).rest, 0, text);
        ArgsFit(Redirs(s).rest, 0);
        var r := ExecArgs(Redirs(s).rest, 0);
        if r.Ok? {
          WrapOk(text, Exec(r.value.words), Redirs(s).value + r.value.redirs);
        }
      }
    }
  }

  lemma {:induction false} PipeOk(s: string, text: string)
    requires SuffixOf(s, text)
    ensures var r := ParsePipe(s); r.Ok? ==> SuffixOf(r.rest, text) && WordsOk(text, r.value)
    decreases |s|, 1
  {
    ExecOk(s, text);
    if ParseExec(s).Ok? {
      var s1 := ParseExec(s).rest;
      SkipSuffix(s1, text);
      if Peek(s1, "|") {
        TokenOk(s1, text);
        PipeOk(GetToken(s1).1, text);
      }
    }
  }

  lemma {:induction false} BacksOk(c: Cmd<Word>, s: string, text: string)
    requires SuffixOf(s, text) && WordsOk(text, c)
    ensures SuffixOf(Backs(c, s).1, text) && WordsOk(text, Backs(c, s).0)
    decreases |s|
  {
    SkipSuffix(s, text);
    if Peek(s, "&") {
      TokenOk(s, text);
      BacksOk(Back(c), GetToken(s).1, text);
    }
  }

  lemma {:induction false} LineOk(s: string, text: string)
    requires SuffixOf(s, text)
    ensures var r := ParseLine(s); r.Ok? ==> SuffixOf(r.rest, text) && WordsOk(text, r.value)
    decreases |s|, 2
  {
    PipeOk(s, text);
    if ParsePipe(s).Ok? {
      var c, s1 := ParsePipe(s).value, ParsePipe(s).rest;
      BacksOk(c, s1, text);
      var s2 := Backs(c, s1).1;
      SkipSuffix(s2, text);
      if Peek(s2, ";") {
        TokenOk(s2, text);
        LineOk(GetToken(s2).1, text);
      }
    }
  }

  /** Every word of a parsed line stands where the command says. */
  lemma ParsedWordsOk(text: string)
    ensures var r := ParseCmd(text); r.Ok? ==> WordsOk(text, r.value)
  {
    assert text[0..] == text;
    LineOk(text, text);
  }

  lemma {:induction false} WordsOkIsWellFormed(text: string, c: Cmd<Word>)
    requires WordsOk(text, c)
    ensures WellFormed(Strip(c))
  {
    match c {
      case Exec(args) =>
        forall i | 0 <= i < |args| ensures Legal(Texts(args)[i]) {
          assert WordOk(text, args[i]);
        }
      case Redir(d, file, _) => WordsOkIsWellFormed(text, d);
      case Pipe(l, r) =>
        WordsOkIsWellFormed(text, l);
        WordsOkIsWellFormed(text, r);
      case List(l, r) =>
        WordsOkIsWellFormed(text, l);
        WordsOkIsWellFormed(text, r);
      case Back(d) => WordsOkIsWellFormed(text, d);
    }
  }

  predicate ParsesTo(text: string, c: Cmd<string>) {
    ParseCmd(text).Ok? && Strip(ParseCmd(text).value) == c
  }

  /** The parser builds exactly the well-formed commands. */
  lemma BuildsExactly(c: Cmd<string>)
    ensures WellFormed(c) <==> exists text :: ParsesTo(text, c)
  {
    if WellFormed(c) {
      LineRoundTrip(c);
      assert ParsesTo(Show(c), c);
    }
    forall text | ParsesTo(text, c) ensures WellFormed(c) {
      ParsedWordsOk(text);
      WordsOkIsWellFormed(text, ParseCmd(text).value);
    }
  }

  // ---------- Terminating the words ----------

  ghost predicate EndsAt(w: Word, n: nat, i: nat) {
    w.end <= n && i == n - w.end
  }

  ghost predicate SomeEndsAt(ws: seq<Word>, n: nat, i: nat) {
    exists k :: 0 <= k < |ws| && EndsAt(ws[k], n, i)
  }

  /** Some word of the command ends at position `i` of a line of length `n`. */
  ghost predicate EndIn(c: Cmd<Word>, n: nat, i: nat) {
    match c
    case Exec(args) => SomeEndsAt(args, n, i)
    case Redir(d, file, _) => EndIn(d, n, i) || EndsAt(file, n, i)
    case Pipe(l, r) => EndIn(l, n, i) || EndIn(r, n, i)
    case List(l, r) => EndIn(l, n, i) || EndIn(r, n, i)
    case Back(d) => EndIn(d, n, i)
  }

  /** `w` is a word of the command. */
  ghost predicate WordIn(c: Cmd<Word>, w: Word) {
    match c
    case Exec(args) => w in args
    case Redir(d, file, _) => WordIn(d, w) || w == file
    case Pipe(l, r) => WordIn(l, w) || WordIn(r, w)
    case List(l, r) => WordIn(l, w) || WordIn(r, w)
    case Back(d) => WordIn(d, w)
  }

  /** Words end where no word goes on. */
  lemma {:induction false} EndsOutside(text: string, c: Cmd<Word>, i: nat)
    requires WordsOk(text, c) && EndIn(c, |text|, i)
    ensures i <= |text| && (i < |text| ==> !IsWordChar(text[i]))
  {
    match c {
      case Exec(args) =>
        var k :| 0 <= k < |args| && EndsAt(args[k], |text|, i);
        assert WordOk(text, args[k]);
      case Redir(d, file, _) =>
        if EndIn(d, |text|, i) {
          EndsOutside(text, d, i);
        } else {
          assert WordOk(text, file);
        }
      case Pipe(l, r) =>
        if EndIn(l, |text|, i) {
          EndsOutside(text, l, i);
        } else {
          EndsOutside(text, r, i);
        }
      case List(l, r) =>
        if EndIn(l, |text|, i) {
          EndsOutside(text, l, i);
        } else {
          EndsOutside(text, r, i);
        }
      case Back(d) => EndsOutside(text, d, i);
    }
  }

  lemma {:induction false} OwnEnd(text: string, c: Cmd<Word>, w: Word)
    requires WordsOk(text, c) && WordIn(c, w)
    ensures WordOk(text, w) && EndIn(c, |text|, |text| - w.end)
  {
    match c {
      case Exec(args) =>
        var k :| 0 <= k < |args| && args[k] == w;
        assert EndsAt(args[k], |text|, |text| - w.end);
      case Redir(d, file, _) =>
        if WordIn(d, w) {
          OwnEnd(text, d, w);
        }
      case Pipe(l, r) =>
        if WordIn(l, w) {
          OwnEnd(text, l, w);
        } else {
          OwnEnd(text, r, w);
        }
      case List(l, r) =>
        if WordIn(l, w) {
          OwnEnd(text, l, w);
        } else {
          OwnEnd(text, r, w);
        }
      case Back(d) => OwnEnd(text, d, w);
    }
  }

  /** The characters from position `q` up to the first null. */
  function CString(buf: seq<char>, q: nat): string
    decreases |buf| - q
  {
    if q < |buf| && buf[q] != '\0' then [buf[q]] + CString(buf, q + 1) else ""
  }

  lemma {:induction false} CStringIs(buf: seq<char>, q: nat, w: string)
    requires q + |w| < |buf| && buf[q..q + |w|] == w && buf[q + |w|] == '\0' && '\0' !in w
    ensures CString(buf, q) == w
    decreases |w|
  {
    if w != "" {
      assert buf[q] == w[0] && w[0] in w;
      assert buf[q + 1..q + |w|] == w[1..];
      forall x | x in w[1..] ensures x in w {
      }
      CStringIs(buf, q + 1, w[1..]);
      assert w == [w[0]] + w[1..];
    }
  }

  ghost predicate Terminated(text: string, buf: seq<char>, c: Cmd<Word>) {
    |buf| == |text| + 1 && forall i: nat :: i < |buf| ==> TerminatedAt(text, buf, c, i)
  }

  ghost predicate TerminatedAt(text: string, buf: seq<char>, c: Cmd<Word>, i: nat)
    requires i < |buf|
  {
    buf[i] == if EndIn(c, |text|, i) || i >= |text| then '\0' else text[i]
  }

  /** After all words have been terminated, each reads as itself: no terminator falls inside a word. */
  lemma ReadsBack(text: string, buf: seq<char>, c: Cmd<Word>, w: Word)
    requires WordsOk(text, c) && Terminated(text, buf, c) && WordIn(c, w) && '\0' !in text
    ensures w.at <= |text| && CString(buf, |text| - w.at) == w.text
  {
    OwnEnd(text, c, w);
    var q, e := |text| - w.at, |text| - w.end;
    assert TerminatedAt(text, buf, c, e);
    forall i: nat | q <= i < e ensures buf[i] == text[i] {
      assert TerminatedAt(text, buf, c, i);
      assert text[i] == w.text[i - q];
      if EndIn(c, |text|, i) {
        EndsOutside(text, c, i);
      }
    }
    assert buf[q..e] == w.text;
    forall x | x in w.text ensures x in text {
      var j :| 0 <= j < |w.text| && w.text[j] == x;
      assert text[q + j] == x;
    }
    CStringIs(buf, q, w.text);
  }
}

/** The parser and `nulterminate` themselves; `p` is the cursor `*ps` into the line. */
module ShellParser {
  import opened Common
  import opened ShellGrammar
  import ShellRoundTrip
  import opened ShellWords

  /** The cursor stands where the grammar says. */
  ghost predicate At(text: string, p: nat, rest: string) {
    p <= |text| && text[p..] == rest
  }

  ghost predicate Agrees<T>(r: Result<T>, c: Option<T>, text: string, p: nat) {
    if r.Ok? then c == Some(r.value) && At(text, p, r.rest) else c == None
  }

  lemma Advance(text: string, p: nat, k: nat)
    requires p + k <= |text|
    ensures text[p..][k..] == text[p + k..]
    ensures p < |text| ==> text[p..] != "" && text[p..][0] == text[p]
  {
  }

  method SkipSpace(text: string, p: nat) returns (s: nat)
    requires p <= |text|
    ensures p <= s && At(text, s, Skip(text[p..]))
  {
    s := p;
    while s < |text| && IsSpace(text[s])
      invariant p <= s <= |text| && Skip(text[s..]) == Skip(text[p..])
    {
      Advance(text, s, 1);
      s := s + 1;
    }
  }

  method PeekAt(text: string, p: nat, toks: string) returns (b: bool, s: nat)
    requires p <= |text|
    ensures p <= s && At(text, s, Skip(text[p..])) && b == Peek(text[p..], toks)
  {
    s := SkipSpace(text, p);
    b := s < |text| && text[s] in toks;
  }

  method ScanWord(text: string, q: nat) returns (s: nat)
    requires q <= |text|
    ensures q <= s <= |text| && s - q == WordLen(text[q..])
    ensures text[q..][..s - q] == text[q..s] && text[q..][s - q..] == text[s..]
  {
    s := q;
    while s < |text| && !IsSpace(text[s]) && !IsSymbol(text[s])
      invariant q <= s <= |text| && WordLen(text[q..]) == s - q + WordLen(text[s..])
    {
      Advance(text, s, 1);
      s := s + 1;
    }
  }

  method NextToken(text: string, p: nat) returns (tok: Token, next: nat)
    requires p <= |text|
    ensures next <= |text| && GetToken(text[p..]) == (tok, text[next..])
  {
    var s := SkipSpace(text, p);
    if s == |text| {
      return End, s;
    }
    var q := s;
    if text[s] == '>' && s + 1 < |text| && text[s + 1] == '>' {
      Advance(text, q, 2);
      s := s + 2;
      tok := Append;
    } else if IsSymbol(text[s]) {
      Advance(text, q, 1);
      s := s + 1;
      tok := Symbol(text[q]);
    } else {
      s := ScanWord(text, q);
      tok := Name(Word(text[q..s], |text| - q, |text| - s));
    }
    next := SkipSpace(text, s);
  }

  /** The redirections at the cursor, in order. */
  method ParseRedirs(text: string, p: nat) returns (rs: Option<seq<(Word, bool)>>, next: nat)
    requires p <= |text|
    ensures Agrees(Redirs(text[p..]), rs, text, next)
  {
    var found: seq<(Word, bool)> := [];
    next := p;
    var more;
    more, next := PeekAt(text, next, "<>");
    SkipTwice(text[p..]);
    PrependNothing(Redirs(text[p..]));
    while more
      invariant next <= |text| && more == Peek(text[next..], "<>")
      invariant !more ==> Skip(text[next..]) == text[next..]
      invariant Redirs(text[p..]) == Prepend(found, Redirs(text[next..]))
      decreases |text| - next
    {
      var tok, file, here := End, End, next;
      tok, next := NextToken(text, next);
      file, next := NextToken(text, next);
      if !file.Name? {
        return None, next;
      }
      RedirsNext(text[here..], found);
      found := found + [(file.word, tok != Symbol('<'))];
      SkipTwice(text[next..]);
      more, next := PeekAt(text, next, "<>");
    }
    assert found + [] == found;
    return Some(found), next;
  }

  lemma PrependNothing(r: Result<seq<(Word, bool)>>)
    ensures Prepend([], r) == r
  {
    if r.Ok? {
      assert [] + r.value == r.value;
    }
  }

  function Prepend(found: seq<(Word, bool)>, r: Result<seq<(Word, bool)>>): Result<seq<(Word, bool)>> {
    if r.Ok? then Ok(found + r.value, r.rest) else Panic
  }

  /** Skipping white space first makes no difference. */
  lemma SkipTwice(s: string)
    ensures Skip(Skip(s)) == Skip(s) && GetToken(Skip(s)) == GetToken(s) && Redirs(Skip(s)) == Redirs(s)
    ensures forall toks :: Peek(Skip(s), toks) == Peek(s, toks)
  {
    ShellRoundTrip.SkipAgain(s);
  }

  lemma RedirsNext(s: string, found: seq<(Word, bool)>)
    requires Peek(s, "<>") && GetToken(GetToken(s).1).0.Name?
    ensures var (tok, s1) := GetToken(s);
      var (file, s2) := GetToken(s1);
      Prepend(found, Redirs(s)) == Prepend(found + [(file.word, tok != Symbol('<'))], Redirs(s2))
  {
    var (tok, s1) := GetToken(s);
    var (file, s2) := GetToken(s1);
    var one, r := [(file.word, tok != Symbol('<'))], Redirs(s2);
    if r.Ok? {
      assert found + (one + r.value) == found + one + r.value;
    }
  }

  // ---------- Simple commands ----------

  function Join(args: seq<Word>, rs: seq<(Word, bool)>, r: Result<Args>): Result<Args> {
    if r.Ok? then Ok(Args(args + r.value.words, rs + r.value.redirs), r.rest) else Panic
  }

  lemma JoinNothing(r: Result<Args>)
    ensures Join([], [], r) == r
  {
    if r.Ok? {
      assert [] + r.value.words == r.value.words && [] + r.value.redirs == r.value.redirs;
    }
  }

  lemma JoinNext(s: string, n: nat, args: seq<Word>, rs: seq<(Word, bool)>, word: Word, s1: string, more: seq<(Word, bool)>, s2: string)
    requires !Peek(s, "|)&;") && GetToken(s) == (Name(word), s1) && n + 1 < MAXARGS && Redirs(s1) == Ok(more, s2)
    ensures Join(args, rs, ExecArgs(s, n)) == Join(args + [word], rs + more, ExecArgs(s2, n + 1))
  {
    var r := ExecArgs(s2, n + 1);
    if r.Ok? {
      assert args + ([word] + r.value.words) == args + [word] + r.value.words;
      assert rs + (more + r.value.redirs) == rs + more + r.value.redirs;
    }
  }

  lemma ExecArgsSkip(s: string, n: nat)
    ensures ExecArgs(Skip(s), n) == ExecArgs(s, n)
  {
    SkipTwice(s);
  }

  /** One word with the redirections behind it; or the end of the command, or a syntax error. */
  datatype Round = Stop | Error | More(word: Word, redirs: seq<(Word, bool)>)

  method ParseArg(text: string, p: nat, n: nat, ghost args: seq<Word>, ghost rs: seq<(Word, bool)>, ghost goal: Result<Args>)
    returns (r: Round, next: nat)
    requires p <= |text| && n < MAXARGS && goal == Join(args, rs, ExecArgs(text[p..], n))
    ensures next <= |text|
    ensures r.Stop? ==> goal == Ok(Args(args, rs), text[next..])
    ensures r.Error? ==> goal.Panic?
    ensures r.More? ==> p < next <= |text| && n + 1 < MAXARGS
    ensures r.More? ==> goal == Join(args + [r.word], rs + r.redirs, ExecArgs(text[next..], n + 1))
  {
    ExecArgsSkip(text[p..], n);
    SkipTwice(text[p..]);
    assert args + [] == args && rs + [] == rs;
    var stop, tok := false, End;
    stop, next := PeekAt(text, p, "|)&;");
    ghost var s := text[next..];
    r := Stop;
    if !stop {
      tok, next := NextToken(text, next);
      if !tok.End? {
        r := Error;
        if tok.Name? && n + 1 < MAXARGS {
          r, next := ParseArgRedirs(text, next, n, s, tok.word, args, rs);
        }
      }
    }
  }

  /** The redirections behind a word. */
  method ParseArgRedirs(text: string, p: nat, n: nat, ghost s: string, word: Word, ghost args: seq<Word>, ghost rs: seq<(Word, bool)>)
    returns (r: Round, next: nat)
    requires p <= |text| && n + 1 < MAXARGS && !Peek(s, "|)&;") && GetToken(s) == (Name(word), text[p..])
    ensures next <= |text| && !r.Stop?
    ensures r.Error? ==> ExecArgs(s, n).Panic?
    ensures r.More? ==> p <= next && r.word == word
    ensures r.More? ==>
      Join(args, rs, ExecArgs(s, n)) == Join(args + [r.word], rs + r.redirs, ExecArgs(text[next..], n + 1))
  {
    var more;
    more, next := ParseRedirs(text, p);
    if more.None? {
      r, next := Error, p;
    } else {
      assert |text[next..]| <= |text[p..]|;
      JoinNext(s, n, args, rs, word, text[p..], more.value, text[next..]);
      r := More(word, more.value);
    }
  }

  /** `args` and `rs` are the first words and redirections of `goal`, and `rest` holds the others. */
  ghost predicate Collects(goal: Result<Args>, round: Round, args: seq<Word>, rs: seq<(Word, bool)>, rest: string) {
    match round
    case More(_, _) => goal == Join(args, rs, ExecArgs(rest, |args|))
    case Stop => goal == Ok(Args(args, rs), rest)
    case Error => goal.Panic?
  }

  /** The loop of `parseexec`: words up to an operator or the end, with redirections between them. */
  method ParseArgs(text: string, p: nat) returns (r: Option<Args>, next: nat)
    requires p <= |text|
    ensures Agrees(ExecArgs(text[p..], 0), r, text, next)
  {
    var round, args, rs := More(Word("", 0, 0), []), [], [];
    next := p;
    ghost var goal := ExecArgs(text[p..], 0);
    JoinNothing(goal);
    while round.More?
      invariant next <= |text| && |args| < MAXARGS && Collects(goal, round, args, rs, text[next..])
      decreases round.More?, |text| - next
    {
      round, next, args, rs := MoreArgs(text, next, args, rs, goal);
    }
    return if round.Stop? then Some(Args(args, rs)) else None, next;
  }

  /** One turn of the loop. */
  method MoreArgs(text: string, p: nat, args: seq<Word>, rs: seq<(Word, bool)>, ghost goal: Result<Args>)
    returns (round: Round, next: nat, args': seq<Word>, rs': seq<(Word, bool)>)
    requires p <= |text| && |args| < MAXARGS && goal == Join(args, rs, ExecArgs(text[p..], |args|))
    ensures next <= |text| && |args'| < MAXARGS && (round.More? ==> p < next)
    ensures Collects(goal, round, args', rs', text[next..])
  {
    round, next := ParseArg(text, p, |args|, args, rs, goal);
    args', rs' := args, rs;
    if round.More? {
      args', rs' := args + [round.word], rs + round.redirs;
      CollectsMore(goal, args, rs, round, text[next..]);
    }
  }

  lemma CollectsMore(goal: Result<Args>, args: seq<Word>, rs: seq<(Word, bool)>, round: Round, rest: string)
    requires round.More? && goal == Join(args + [round.word], rs + round.redirs, ExecArgs(rest, |args| + 1))
    ensures Collects(goal, round, args + [round.word], rs + round.redirs, rest)
  {
    assert |args + [round.word]| == |args| + 1;
  }

  // ---------- The recursive part ----------

  /** `parseexec` with `parseblock`. */
  method ParseExecAt(text: string, p: nat) returns (c: Option<Cmd<Word>>, next: nat)
    requires p <= |text|
    ensures Agrees(ParseExec(text[p..]), c, text, next)
    decreases |text| - p, 0
  {
    var open, start := PeekAt(text, p, "(");
    SkipTwice(text[p..]);
    if open {
      var tok;
      tok, next := NextToken(text, start);
      assert |text[next..]| < |text[p..]|;
      c, next := ParseLineAt(text, next);
      if c.None? {
        return;
      }
      ghost var s2 := text[next..];
      SkipTwice(s2);
      var close;
      close, next := PeekAt(text, next, ")");
      if !close {
        return None, next;
      }
      tok, next := NextToken(text, next);
      var rs;
      rs, next := ParseRedirs(text, next);
      return if rs.Some? then Some(Wrap(c.value, rs.value)) else None, next;
    }
    var rs;
    rs, next := ParseRedirs(text, start);
    if rs.None? {
      return None, next;
    }
    var args;
    args, next := ParseArgs(text, next);
    if args.None? {
      return None, next;
    }
    return Some(Wrap(Exec(args.value.words), rs.value + args.value.redirs)), next;
  }

  method ParsePipeAt(text: string, p: nat) returns (c: Option<Cmd<Word>>, next: nat)
    requires p <= |text|
    ensures Agrees(ParsePipe(text[p..]), c, text, next)
    decreases |text| - p, 1
  {
    c, next := ParseExecAt(text, p);
    if c.None? {
      return;
    }
    assert |text[next..]| <= |text[p..]|;
    SkipTwice(text[next..]);
    var pipe, tok, right := false, End, None;
    pipe, next := PeekAt(text, next, "|");
    if pipe {
      tok, next := NextToken(text, next);
      right, next := ParsePipeAt(text, next);
      return if right.Some? then Some(Pipe(c.value, right.value)) else None, next;
    }
  }

  method ParseLineAt(text: string, p: nat) returns (c: Option<Cmd<Word>>, next: nat)
    requires p <= |text|
    ensures Agrees(ParseLine(text[p..]), c, text, next)
    decreases |text| - p, 2
  {
    c, next := ParsePipeAt(text, p);
    if c.None? {
      return;
    }
    assert |text[next..]| <= |text[p..]|;
    var cmd;
    cmd, next := ParseBacks(text, next, c.value);
    SkipTwice(text[next..]);
    var list, tok, right := false, End, None;
    list, next := PeekAt(text, next, ";");
    if list {
      tok, next := NextToken(text, next);
      right, next := ParseLineAt(text, next);
      return if right.Some? then Some(List(cmd, right.value)) else None, next;
    }
    return Some(cmd), next;
  }

  /** The loop over `&`. */
  method ParseBacks(text: string, p: nat, c: Cmd<Word>) returns (cmd: Cmd<Word>, next: nat)
    requires p <= |text|
    ensures next <= |text| && Backs(c, text[p..]) == (cmd, text[next..]) && |text[next..]| <= |text[p..]|
  {
    cmd, next := c, p;
    var back, tok := true, End;
    while back
      invariant next <= |text| && |text[next..]| <= |text[p..]|
      invariant back ==> Backs(c, text[p..]) == Backs(cmd, text[next..])
      invariant !back ==> Backs(c, text[p..]) == (cmd, text[next..])
      decreases back, |text| - next
    {
      SkipTwice(text[next..]);
      back, next := PeekAt(text, next, "&");
      if back {
        tok, next := NextToken(text, next);
        cmd := Back(cmd);
      }
    }
  }

  // ---------- nulterminate ----------

  /** A null behind every word, and no other change. */
  method NulTerminate(c: Cmd<Word>, buf: array<char>, n: nat)
    requires buf.Length == n + 1
    modifies buf
    ensures forall i: nat :: i <= n ==> NulledAt(c, n, old(buf[..]), buf[..], i)
    decreases c
  {
    match c {
      case Exec(args) =>
        NulWords(args, buf, n);
      case Redir(d, file, _) =>
        NulTerminate(d, buf, n);
        ghost var mid := buf[..];
        if file.end <= n {
          buf[n - file.end] := '\0';
        }
        assert forall i: nat :: i <= n ==> NulledAt(d, n, old(buf[..]), mid, i) ==> NulledAt(c, n, old(buf[..]), buf[..], i);
      case Pipe(l, r) =>
        NulTerminate(l, buf, n);
        ghost var mid := buf[..];
        NulTerminate(r, buf, n);
        NulledBoth(l, r, n, old(buf[..]), mid, buf[..]);
      case List(l, r) =>
        NulTerminate(l, buf, n);
        ghost var mid := buf[..];
        NulTerminate(r, buf, n);
        NulledBoth(l, r, n, old(buf[..]), mid, buf[..]);
      case Back(d) =>
        NulTerminate(d, buf, n);
        assert forall i: nat :: i <= n ==> NulledAt(d, n, old(buf[..]), buf[..], i) ==> NulledAt(c, n, old(buf[..]), buf[..], i);
    }
  }

  lemma NulledBoth(l: Cmd<Word>, r: Cmd<Word>, n: nat, before: seq<char>, mid: seq<char>, after: seq<char>)
    requires forall i: nat :: i <= n ==> NulledAt(l, n, before, mid, i)
    requires forall i: nat :: i <= n ==> NulledAt(r, n, mid, after, i)
    ensures forall i: nat :: i <= n ==> NulledAt(Pipe(l, r), n, before, after, i)
    ensures forall i: nat :: i <= n ==> NulledAt(List(l, r), n, before, after, i)
  {
    forall i: nat | i <= n
      ensures NulledAt(Pipe(l, r), n, before, after, i) && NulledAt(List(l, r), n, before, after, i)
    {
      assert NulledAt(l, n, before, mid, i) && NulledAt(r, n, mid, after, i);
    }
  }

  method NulWords(args: seq<Word>, buf: array<char>, n: nat)
    requires buf.Length == n + 1
    modifies buf
    ensures forall i: nat :: i <= n ==> NulledAt(Exec(args), n, old(buf[..]), buf[..], i)
  {
    var k := 0;
    while k < |args|
      invariant k <= |args|
      invariant forall i: nat :: i <= n ==> NulledAt(Exec(args[..k]), n, old(buf[..]), buf[..], i)
    {
      ghost var mid := buf[..];
      if args[k].end <= n {
        buf[n - args[k].end] := '\0';
      }
      ghost var more := args[..k + 1];
      forall i: nat | i <= n ensures NulledAt(Exec(more), n, old(buf[..]), buf[..], i) {
        assert NulledAt(Exec(args[..k]), n, old(buf[..]), mid, i);
        MoreEnds(args, k, n, i);
      }
      k := k + 1;
    }
    assert args[..k] == args;
  }

  lemma MoreEnds(args: seq<Word>, k: nat, n: nat, i: nat)
    requires k < |args|
    ensures SomeEndsAt(args[..k + 1], n, i) <==> SomeEndsAt(args[..k], n, i) || EndsAt(args[k], n, i)
  {
    var a, b := args[..k], args[..k + 1];
    if SomeEndsAt(a, n, i) {
      var m :| 0 <= m < |a| && EndsAt(a[m], n, i);
      assert EndsAt(b[m], n, i);
    }
    if EndsAt(args[k], n, i) {
      assert EndsAt(b[k], n, i);
    }
    if SomeEndsAt(b, n, i) {
      var m :| 0 <= m < |b| && EndsAt(b[m], n, i);
      assert m < k ==> EndsAt(a[m], n, i);
    }
  }

  ghost predicate NulledAt(c: Cmd<Word>, n: nat, before: seq<char>, after: seq<char>, i: nat) {
    i < |before| && i < |after| && after[i] == if EndIn(c, n, i) then '\0' else before[i]
  }

  // ---------- parsecmd ----------

  /** `parsecmd`: the command of the line, and the line with every word terminated. Each word, read from
      where it starts up to the first null, is itself. */
  method ParseCommand(text: string, buf: array<char>) returns (c: Option<Cmd<Word>>)
    requires '\0' !in text && buf.Length == |text| + 1 && buf[..] == text + ['\0']
    modifies buf
    ensures c == var r := ParseCmd(text); if r.Ok? then Some(r.value) else None
    ensures c.Some? ==> forall w :: WordIn(c.value, w) ==> w.at <= |text| && CString(buf[..], |text| - w.at) == w.text
  {
    assert text[0..] == text;
    var cmd, p := ParseLineAt(text, 0);
    if cmd.None? {
      return None;
    }
    SkipTwice(text[p..]);
    var more;
    more, p := PeekAt(text, p, "");
    if p != |text| {
      return None;
    }
    ParsedWordsOk(text);
    NulTerminate(cmd.value, buf, |text|);
    forall i: nat | i < buf.Length ensures TerminatedAt(text, buf[..], cmd.value, i) {
      assert NulledAt(cmd.value, |text|, text + ['\0'], buf[..], i);
    }
    forall w | WordIn(cmd.value, w) ensures w.at <= |text| && CString(buf[..], |text| - w.at) == w.text {
      ReadsBack(text, buf[..], cmd.value, w);
    }
    return cmd;
  }
}
