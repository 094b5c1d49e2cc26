/** The language of user/sh.c: tokens of a line, the tree they stand for, and a printer whose output parses
    back to the tree it was given. */
module ShellModel {
  const MAXARGS: nat := 10

  // ----- characters and tokens

  predicate Space(c: char) {
    c == ' ' || c == '\t' || c == '\r' || c == '\n' || c == '\U{0B}'
  }

  predicate Symbol(c: char) {
    c == '<' || c == '|' || c == '>' || c == '&' || c == ';' || c == '(' || c == ')'
  }

  predicate WordChar(c: char) {
    !Space(c) && !Symbol(c)
  }

  /** A word, or a symbol; '+' is the symbol '>>'. */
  datatype Token = Word(w: string) | Sym(c: char)

  function Skip(s: string, p: nat): (r: nat)
    requires p <= |s|
    ensures p <= r <= |s| && (r < |s| ==> !Space(s[r])) && forall i :: p <= i < r ==> Space(s[i])
    decreases |s| - p
  {
    if p < |s| && Space(s[p]) then Skip(s, p + 1) else p
  }

  function WordEnd(s: string, p: nat): (r: nat)
    requires p <= |s|
    ensures p <= r <= |s| && (r < |s| ==> !WordChar(s[r])) && forall i :: p <= i < r ==> WordChar(s[i])
    decreases |s| - p
  {
    if p < |s| && WordChar(s[p]) then WordEnd(s, p + 1) else p
  }

  /** The token at a place that is not white space, and where it ends. */
  function TokenAt(s: string, p: nat): (r: (Token, nat))
    requires p < |s| && !Space(s[p])
    ensures p < r.1 <= |s|
  {
    if s[p] == '>' && p + 1 < |s| && s[p + 1] == '>' then (Sym('+'), p + 2)
    else if Symbol(s[p]) then (Sym(s[p]), p + 1)
    else (Word(s[p..WordEnd(s, p)]), WordEnd(s, p))
  }

  /** The tokens of s from p on. */
  function Lex(s: string, p: nat): seq<Token>
    requires p <= |s|
    decreases |s| - p
  {
    var q := Skip(s, p);
    if q == |s| then [] else [TokenAt(s, q).0] + Lex(s, TokenAt(s, q).1)
  }

  // ----- trees

  /** op is '<', '>' or '+'. */
  datatype Redirection = Redirection(file: string, op: char)

  datatype Cmd =
    | Exec(argv: seq<string>)
    | Redir(cmd: Cmd, r: Redirection)
    | Pipe(left: Cmd, right: Cmd)
    | List(left: Cmd, right: Cmd)
    | Back(cmd: Cmd)

  /** Redirections go around a command from the inside out. */
  function Wrap(c: Cmd, rs: seq<Redirection>): Cmd
    decreases |rs|
  {
    if rs == [] then c else Wrap(Redir(c, rs[0]), rs[1..])
  }

  // ----- the grammar, as a parser of token sequences

  datatype Parsed = Ok(cmd: Cmd, rest: seq<Token>) | Err
  datatype Redirs = Found(rs: seq<Redirection>, rest: seq<Token>) | Bad

  predicate IsSym(t: seq<Token>, c: char) {
    t != [] && t[0] == Sym(c)
  }

  predicate IsRedir(t: seq<Token>) {
    IsSym(t, '<') || IsSym(t, '>') || IsSym(t, '+')
  }

  /** parseredirs: any number of redirections. */
  function ParseRedirs(t: seq<Token>): (r: Redirs)
    ensures r.Found? ==> |r.rest| <= |t| && !IsRedir(r.rest)
    decreases |t|
  {
    if !IsRedir(t) then Found([], t)
    else if |t| < 2 || !t[1].Word? then Bad
    else match ParseRedirs(t[2..])
      case Bad => Bad
      case Found(rs, rest) => Found([Redirection(t[1].w, t[0].c)] + rs, rest)
  }

  predicate EndsExec(t: seq<Token>) {
    t == [] || IsSym(t, '|') || IsSym(t, ')') || IsSym(t, '&') || IsSym(t, ';')
  }

  /** The rest of parseexec's loop, with what has been collected so far. */
  function ParseArgs(argv: seq<string>, rs: seq<Redirection>, t: seq<Token>): (r: Parsed)
    ensures r.Ok? ==> |r.rest| <= |t|
    decreases |t|
  {
    if EndsExec(t) then Ok(Wrap(Exec(argv), rs), t)
    else if !t[0].Word? || |argv| + 1 >= MAXARGS then Err
    else match ParseRedirs(t[1..])
      case Bad => Err
      case Found(more, rest) => ParseArgs(argv + [t[0].w], rs + more, rest)
  }

  function ParseExec(t: seq<Token>): (r: Parsed)
    ensures r.Ok? ==> |r.rest| <= |t|
    decreases |t|, 0
  {
    if IsSym(t, '(') then
      match ParseLine(t[1..])
      case Err => Err
      case Ok(c, rest) =>
        if !IsSym(rest, ')') then Err
        else match ParseRedirs(rest[1..])
          case Bad => Err
          case Found(rs, after) => Ok(Wrap(c, rs), after)
    else match ParseRedirs(t)
      case Bad => Err
      case Found(rs, rest) => ParseArgs([], rs, rest)
  }

  function ParsePipe(t: seq<Token>): (r: Parsed)
    ensures r.Ok? ==> |r.rest| <= |t|
    decreases |t|, 1
  {
    match ParseExec(t)
    case Err => Err
    case Ok(c, rest) =>
      if !IsSym(rest, '|') then Ok(c, rest)
      else match ParsePipe(rest[1..])
        case Err => Err
        case Ok(d, after) => Ok(Pipe(c, d), after)
  }

  function ParseBacks(c: Cmd, t: seq<Token>): (r: (Cmd, seq<Token>))
    ensures |r.1| <= |t| && !IsSym(r.1, '&')
    decreases |t|
  {
    if IsSym(t, '&') then ParseBacks(Back(c), t[1..]) else (c, t)
  }

  function ParseLine(t: seq<Token>): (r: Parsed)
    ensures r.Ok? ==> |r.rest| <= |t|
    decreases |t|, 2
  {
    match ParsePipe(t)
    case Err => Err
    case Ok(c0, rest0) =>
      var (c, rest) := ParseBacks(c0, rest0);
      if !IsSym(rest, ';') then Ok(c, rest)
      else match ParseLine(rest[1..])
        case Err => Err
        case Ok(d, after) => Ok(List(c, d), after)
  }

  /** parsecmd: the whole line. */
  function ParseCmd(s: string): Parsed {
    match ParseLine(Lex(s, 0))
    case Err => Err
    case Ok(c, rest) => if rest == [] then Ok(c, []) else Err
  }

  // ----- the printer

  /** The command under all redirections, and those redirections, innermost first. */
  function Core(c: Cmd): Cmd {
    if c.Redir? then Core(c.cmd) else c
  }

  function Around(c: Cmd): seq<Redirection> {
    if c.Redir? then Around(c.cmd) + [c.r] else []
  }

  function Size(c: Cmd): nat {
    match c
    case Exec(_) => 1
    case Redir(d, _) => 1 + Size(d)
    case Pipe(l, r) => 1 + Size(l) + Size(r)
    case List(l, r) => 1 + Size(l) + Size(r)
    case Back(d) => 1 + Size(d)
  }

  lemma {:induction false} CoreSize(c: Cmd)
    ensures Size(Core(c)) <= Size(c) && !Core(c).Redir?
    ensures c.Redir? ==> Size(Core(c)) < Size(c)
  {
    if c.Redir? {
      CoreSize(c.cmd);
    }
  }

  /** The four levels of the grammar, and the one at which a command can be taken apart. */
  function Home(c: Cmd): nat {
    match c
    case List(_, _) => 0
    case Back(_) => 1
    case Pipe(_, _) => 2
    case Exec(_) => 3
    case Redir(_, _) => 3
  }

  function Rank(level: nat, c: Cmd): nat
    requires level < 4
  {
    if Home(c) >= level then Home(c) - level else Home(c) + 4 - level
  }

  function Words(argv: seq<string>): seq<Token> {
    if argv == [] then [] else [Word(argv[0])] + Words(argv[1..])
  }

  function RedirToks(rs: seq<Redirection>): seq<Token> {
    if rs == [] then [] else [Sym(rs[0].op), Word(rs[0].file)] + RedirToks(rs[1..])
  }

  function ShowLine(c: Cmd): seq<Token>
    decreases Size(c), Rank(0, c)
  {
    if c.List? then ShowBack(c.left) + [Sym(';')] + ShowLine(c.right) else ShowBack(c)
  }

  function ShowBack(c: Cmd): seq<Token>
    decreases Size(c), Rank(1, c)
  {
    if c.Back? then ShowBack(c.cmd) + [Sym('&')] else ShowPipe(c)
  }

  function ShowPipe(c: Cmd): seq<Token>
    decreases Size(c), Rank(2, c)
  {
    if c.Pipe? then ShowExec(c.left) + [Sym('|')] + ShowPipe(c.right) else ShowExec(c)
  }

  function ShowExec(c: Cmd): seq<Token>
    decreases Size(c), Rank(3, c)
  {
    CoreSize(c);
    var core := Core(c);
    (if core.Exec? then Words(core.argv) else [Sym('(')] + ShowLine(core) + [Sym(')')]) + RedirToks(Around(c))
  }

  function TokenText(t: Token): string {
    match t
    case Word(w) => w
    case Sym(c) => if c == '+' then ">>" else [c]
  }

  function Text(ts: seq<Token>): string {
    if ts == [] then "" else TokenText(ts[0]) + " " + Text(ts[1..])
  }

  /** The line that stands for a tree. */
  function Show(c: Cmd): string {
    Text(ShowLine(c))
  }

  // ----- what can be printed

  predicate WordOk(w: string) {
    w != "" && forall i :: 0 <= i < |w| ==> WordChar(w[i])
  }

  predicate TokenOk(t: Token) {
    match t
    case Word(w) => WordOk(w)
    case Sym(c) => Symbol(c) || c == '+'
  }

  predicate RedirOk(r: Redirection) {
    WordOk(r.file) && (r.op == '<' || r.op == '>' || r.op == '+')
  }

  /** A tree of words with fewer than MAXARGS arguments a command. */
  predicate CmdOk(c: Cmd) {
    match c
    case Exec(argv) => |argv| < MAXARGS && forall i :: 0 <= i < |argv| ==> WordOk(argv[i])
    case Redir(d, r) => RedirOk(r) && CmdOk(d)
    case Pipe(l, r) => CmdOk(l) && CmdOk(r)
    case List(l, r) => CmdOk(l) && CmdOk(r)
    case Back(d) => CmdOk(d)
  }

  // ----- printing and parsing again

  lemma {:induction false} WrapAround(c: Cmd)
    ensures Wrap(Core(c), Around(c)) == c
  {
    if c.Redir? {
      WrapAround(c.cmd);
      WrapSnoc(Core(c.cmd), Around(c.cmd), c.r);
    }
  }

  lemma {:induction false} WrapSnoc(c: Cmd, rs: seq<Redirection>, r: Redirection)
    ensures Wrap(c, rs + [r]) == Redir(Wrap(c, rs), r)
    decreases |rs|
  {
    if rs == [] {
      assert ([r])[1..] == [];
    } else {
      assert (rs + [r])[1..] == rs[1..] + [r];
      WrapSnoc(Redir(c, rs[0]), rs[1..], r);
    }
  }

  lemma {:induction false} AroundOk(c: Cmd)
    requires CmdOk(c)
    ensures CmdOk(Core(c)) && forall i :: 0 <= i < |Around(c)| ==> RedirOk(Around(c)[i])
  {
    if c.Redir? {
      AroundOk(c.cmd);
    }
  }

  lemma {:induction false} RedirsBack(rs: seq<Redirection>, f: seq<Token>)
    requires (forall i :: 0 <= i < |rs| ==> RedirOk(rs[i])) && !IsRedir(f)
    ensures ParseRedirs(RedirToks(rs) + f) == Found(rs, f)
    decreases |rs|
  {
    var t := RedirToks(rs) + f;
    if rs == [] {
      assert t == f;
    } else {
      assert t[0] == Sym(rs[0].op) && t[1] == Word(rs[0].file);
      assert t[2..] == RedirToks(rs[1..]) + f;
      RedirsBack(rs[1..], f);
      assert [rs[0]] + rs[1..] == rs;
    }
  }

  /** The words of a simple command, with its redirections after them. */
  lemma {:induction false} ArgsBack(done: seq<string>, argv: seq<string>, rs: seq<Redirection>, f: seq<Token>)
    requires |done| + |argv| < MAXARGS && EndsExec(f)
    requires argv == [] ==> rs == []
    requires forall i :: 0 <= i < |rs| ==> RedirOk(rs[i])
    ensures ParseArgs(done, [], Words(argv) + RedirToks(rs) + f) == Ok(Wrap(Exec(done + argv), rs), f)
    decreases |argv|
  {
    var t := Words(argv) + RedirToks(rs) + f;
    if argv == [] {
      assert t == f && done + argv == done;
    } else {
      hide RedirOk, Wrap;
      var rest := Words(argv[1..]) + RedirToks(rs) + f;
      WordsHead(argv, RedirToks(rs));
      assert t[0] == Word(argv[0]) && t[1..] == rest;
      assert done + [argv[0]] + argv[1..] == done + argv;
      if |argv| == 1 {
        assert rest == RedirToks(rs) + f;
        RedirsBack(rs, f);
        assert done + [argv[0]] == done + argv;
        ArgsLast(done, argv[0], t, rs, f);
      } else {
        WordsHead(argv[1..], RedirToks(rs));
        ArgsBack(done + [argv[0]], argv[1..], rs, f);
        ArgsNext(done, argv[0], t);
      }
    }
  }

  lemma ArgsLast(done: seq<string>, w: string, t: seq<Token>, rs: seq<Redirection>, f: seq<Token>)
    requires t != [] && t[0] == Word(w) && |done| + 1 < MAXARGS && ParseRedirs(t[1..]) == Found(rs, f) && EndsExec(f)
    ensures ParseArgs(done, [], t) == Ok(Wrap(Exec(done + [w]), rs), f)
  {
    hide ParseRedirs, Wrap;
    assert [] + rs == rs;
  }

  lemma ArgsNext(done: seq<string>, w: string, t: seq<Token>)
    requires |t| > 1 && t[0] == Word(w) && t[1].Word? && |done| + 1 < MAXARGS
    ensures ParseArgs(done, [], t) == ParseArgs(done + [w], [], t[1..])
  {
    var none: seq<Redirection> := [];
    assert ParseRedirs(t[1..]) == Found(none, t[1..]);
    assert none + none == none;
  }

  predicate EndsLine(f: seq<Token>) {
    f == [] || IsSym(f, ')')
  }

  predicate EndsPipe(f: seq<Token>) {
    EndsLine(f) || IsSym(f, '&') || IsSym(f, ';')
  }

  /** A command's tokens do not start like a redirection or '(' does unless it is one; what matters is that
      printing a command and parsing it returns the command and leaves what follows. */
  lemma {:induction false} ExecBack(c: Cmd, f: seq<Token>)
    requires CmdOk(c) && EndsExec(f)
    ensures ParseExec(ShowExec(c) + f) == Ok(c, f)
    decreases Size(c), Rank(3, c)
  {
    CoreSize(c);
    AroundOk(c);
    WrapAround(c);
    var core, rs := Core(c), Around(c);
    var t := ShowExec(c) + f;
    if core.Exec? {
      assert t == Words(core.argv) + RedirToks(rs) + f;
      SimpleBack(core.argv, rs, f);
    } else {
      var tail := RedirToks(rs) + f;
      var close := [Sym(')')] + tail;
      assert t == [Sym('(')] + (ShowLine(core) + close);
      hide ShowExec, ShowLine, RedirToks, Wrap, CmdOk, Core, Around, RedirOk;
      LineBack(core, close);
      RedirsBack(rs, f);
      BlockBack(ShowLine(core) + close, core, close, tail, rs, f);
    }
  }

  /** A parenthesised line and the redirections after it. */
  lemma BlockBack(inner: seq<Token>, c: Cmd, close: seq<Token>, tail: seq<Token>, rs: seq<Redirection>, f: seq<Token>)
    requires ParseLine(inner) == Ok(c, close) && close == [Sym(')')] + tail && ParseRedirs(tail) == Found(rs, f)
    ensures ParseExec([Sym('(')] + inner) == Ok(Wrap(c, rs), f)
  {
    hide ParseLine, ParseRedirs, Wrap;
    assert ([Sym('(')] + inner)[1..] == inner;
    assert close[1..] == tail;
  }

  lemma SimpleBack(argv: seq<string>, rs: seq<Redirection>, f: seq<Token>)
    requires CmdOk(Exec(argv)) && EndsExec(f) && forall i :: 0 <= i < |rs| ==> RedirOk(rs[i])
    ensures ParseExec(Words(argv) + RedirToks(rs) + f) == Ok(Wrap(Exec(argv), rs), f)
  {
    hide ParseArgs, ParseExec, ParseRedirs, RedirToks, Wrap, WordOk, RedirOk;
    if argv == [] {
      assert Words(argv) + RedirToks(rs) + f == RedirToks(rs) + f;
      RedirsFirst(rs, f);
    } else {
      ArgsBack([], argv, rs, f);
      assert [] + argv == argv;
      WordsHead(argv, RedirToks(rs));
      WordFirst(Words(argv) + RedirToks(rs) + f);
    }
  }

  lemma WordsHead(argv: seq<string>, g: seq<Token>)
    requires argv != []
    ensures var t := Words(argv) + g; t != [] && t[0] == Word(argv[0]) && t[1..] == Words(argv[1..]) + g
  {
    var rest := Words(argv[1..]);
    assert Words(argv) == [Word(argv[0])] + rest;
    Head(Word(argv[0]), rest, g);
  }

  lemma Head(x: Token, rest: seq<Token>, g: seq<Token>)
    ensures var t := [x] + rest + g; t != [] && t[0] == x && t[1..] == rest + g
  {
  }

  lemma WordFirst(t: seq<Token>)
    requires t != [] && t[0].Word?
    ensures ParseExec(t) == ParseArgs([], [], t)
  {
    assert ParseRedirs(t) == Found([], t);
  }

  /** A command without words: only redirections. */
  lemma RedirsFirst(rs: seq<Redirection>, f: seq<Token>)
    requires EndsExec(f) && forall i :: 0 <= i < |rs| ==> RedirOk(rs[i])
    ensures ParseExec(RedirToks(rs) + f) == Ok(Wrap(Exec([]), rs), f)
  {
    hide Wrap;
    RedirsBack(rs, f);
    var t := RedirToks(rs) + f;
    if rs == [] {
      assert t == f;
    } else {
      assert t[0] == Sym(rs[0].op);
    }
    assert !IsSym(t, '(');
  }

  lemma {:induction false} PipeBack(c: Cmd, f: seq<Token>)
    requires CmdOk(c) && EndsPipe(f)
    ensures ParsePipe(ShowPipe(c) + f) == Ok(c, f)
    decreases Size(c), Rank(2, c)
  {
    if c.Pipe? {
      var tail := [Sym('|')] + (ShowPipe(c.right) + f);
      assert ShowPipe(c) + f == ShowExec(c.left) + tail;
      ExecBack(c.left, tail);
      assert tail[1..] == ShowPipe(c.right) + f;
      PipeBack(c.right, f);
    } else {
      ExecBack(c, f);
    }
  }

  /** How many '&' follow the innermost command of a run of them. */
  lemma {:induction false} BackBack(c: Cmd, f: seq<Token>)
    requires CmdOk(c) && EndsPipe(f)
    ensures var t := ShowBack(c) + f;
      ParsePipe(t).Ok? && ParseBacks(ParsePipe(t).cmd, ParsePipe(t).rest) == ParseBacks(c, f)
    decreases Size(c), Rank(1, c)
  {
    if c.Back? {
      var g := [Sym('&')] + f;
      assert ShowBack(c) + f == ShowBack(c.cmd) + g;
      BackBack(c.cmd, g);
      assert g[1..] == f;
    } else {
      PipeBack(c, f);
    }
  }

  lemma {:induction false} LineBack(c: Cmd, f: seq<Token>)
    requires CmdOk(c) && EndsLine(f)
    ensures ParseLine(ShowLine(c) + f) == Ok(c, f)
    decreases Size(c), Rank(0, c)
  {
    if c.List? {
      var tail := [Sym(';')] + (ShowLine(c.right) + f);
      assert ShowLine(c) + f == ShowBack(c.left) + tail;
      BackBack(c.left, tail);
      assert tail[1..] == ShowLine(c.right) + f;
      LineBack(c.right, f);
    } else {
      BackBack(c, f);
    }
  }

  // ----- reading the printed text

  lemma SkipFrom(s: string, p: nat)
    requires p < |s| && Space(s[p])
    ensures Lex(s, p) == Lex(s, p + 1)
  {
  }

  lemma {:induction false} WordEndAt(s: string, p: nat, e: nat)
    requires p <= e <= |s| && (forall i :: p <= i < e ==> WordChar(s[i])) && (e < |s| ==> !WordChar(s[e]))
    ensures WordEnd(s, p) == e
    decreases e - p
  {
    if p < e {
      WordEndAt(s, p + 1, e);
    }
  }

  predicate AllTokensOk(ts: seq<Token>) {
    forall i :: 0 <= i < |ts| ==> TokenOk(ts[i])
  }

  /** The text of tokens reads back as those tokens, wherever it stands. */
  lemma {:induction false} LexBack(pre: string, ts: seq<Token>)
    requires AllTokensOk(ts)
    ensures Lex(pre + Text(ts), |pre|) == ts
    decreases |ts|
  {
    hide TokenText, TokenOk;
    if ts == [] {
      assert pre + Text(ts) == pre;
    } else {
      var w, more := TokenText(ts[0]), Text(ts[1..]);
      assert TokenOk(ts[0]);
      LexOne(pre, ts[0], more);
      assert AllTokensOk(ts[1..]);
      LexBack(pre + w + " ", ts[1..]);
      hide Text, Lex, AllTokensOk;
      TextStep(ts);
      assert ts == [ts[0]] + ts[1..];
    }
  }

  /** The first token of a text, and where the rest begins. */
  lemma LexOne(pre: string, t: Token, more: string)
    requires TokenOk(t)
    ensures var w := TokenText(t);
      Lex(pre + (w + " " + more), |pre|) == [t] + Lex(pre + w + " " + more, |pre + w + " "|)
  {
    hide TokenAt, Space, WordChar, TokenText, Lex, TokenOk;
    var w, p := TokenText(t), |pre|;
    var s := pre + (w + " " + more);
    Placed(pre, w, more);
    TokenBack(s, p, t);
    LexStep(s, p);
    SpaceIsSpace();
    SkipFrom(s, p + |w|);
    assert |pre + w + " "| == p + |w| + 1;
  }

  lemma TextStep(ts: seq<Token>)
    requires ts != []
    ensures Text(ts) == TokenText(ts[0]) + " " + Text(ts[1..])
  {
  }

  lemma SpaceIsSpace()
    ensures Space(' ')
  {
  }

  lemma LexStep(s: string, p: nat)
    requires p < |s| && !Space(s[p])
    ensures Lex(s, p) == [TokenAt(s, p).0] + Lex(s, TokenAt(s, p).1)
  {
  }

  lemma Placed(pre: string, w: string, more: string)
    ensures var s := pre + (w + " " + more); var p := |pre|;
      |s| > p + |w| && s[p..p + |w|] == w && s[p + |w|] == ' ' && s == pre + w + " " + more
  {
  }

  lemma TokenBack(s: string, p: nat, t: Token)
    requires TokenOk(t) && p + |TokenText(t)| < |s| && s[p + |TokenText(t)|] == ' '
    requires s[p..p + |TokenText(t)|] == TokenText(t)
    ensures p < |s| && !Space(s[p]) && TokenAt(s, p) == (t, p + |TokenText(t)|)
  {
    var w := TokenText(t);
    var e := p + |w|;
    assert |w| > 0;
    assert forall i :: p <= i < e ==> s[i] == s[p..e][i - p] == w[i - p];
    assert s[p] == w[0];
    if t.Word? {
      WordEndAt(s, p, e);
    }
  }

  lemma {:induction false} WordsOk(argv: seq<string>)
    requires forall i :: 0 <= i < |argv| ==> WordOk(argv[i])
    ensures AllTokensOk(Words(argv))
    decreases |argv|
  {
    if argv != [] {
      WordsOk(argv[1..]);
    }
  }

  lemma {:induction false} RedirToksOk(rs: seq<Redirection>)
    requires forall i :: 0 <= i < |rs| ==> RedirOk(rs[i])
    ensures AllTokensOk(RedirToks(rs))
    decreases |rs|
  {
    if rs != [] {
      RedirToksOk(rs[1..]);
    }
  }

  lemma {:induction false} LineToksOk(c: Cmd, level: nat)
    requires CmdOk(c) && level < 4
    ensures AllTokensOk(
      if level == 0 then ShowLine(c) else if level == 1 then ShowBack(c)
      else if level == 2 then ShowPipe(c) else ShowExec(c))
    decreases Size(c), Rank(level, c)
  {
    if level == 0 {
      if c.List? {
        LineToksOk(c.left, 1);
        LineToksOk(c.right, 0);
      } else {
        LineToksOk(c, 1);
      }
    } else if level == 1 {
      if c.Back? {
        LineToksOk(c.cmd, 1);
      } else {
        LineToksOk(c, 2);
      }
    } else if level == 2 {
      if c.Pipe? {
        LineToksOk(c.left, 3);
        LineToksOk(c.right, 2);
      } else {
        LineToksOk(c, 3);
      }
    } else {
      CoreSize(c);
      AroundOk(c);
      RedirToksOk(Around(c));
      var core := Core(c);
      if core.Exec? {
        WordsOk(core.argv);
      } else {
        LineToksOk(core, 0);
      }
    }
  }

  /** Printing a tree and parsing the line returns the tree. */
  lemma ShowThenParse(c: Cmd)
    requires CmdOk(c)
    ensures ParseCmd(Show(c)) == Ok(c, [])
  {
    LineToksOk(c, 0);
    LexBack("", ShowLine(c));
    assert "" + Show(c) == Show(c);
    LineBack(c, []);
    assert ShowLine(c) + [] == ShowLine(c);
  }

  // ----- what may follow a background command

  /** Behind '&', parseline goes on only at ';'; anything else is left for its caller. */
  lemma AfterBackground(c: Cmd, f: seq<Token>)
    requires CmdOk(c) && !IsSym(f, '&')
    ensures ParseLine(ShowBack(Back(c)) + f) ==
      if !IsSym(f, ';') then Ok(Back(c), f)
      else match ParseLine(f[1..])
        case Err => Err
        case Ok(d, rest) => Ok(List(Back(c), d), rest)
  {
    var g := [Sym('&')] + f;
    assert ShowBack(Back(c)) + f == ShowBack(c) + g;
    BackBack(c, g);
    assert g[1..] == f;
  }

  /** So a whole line with a background command in front is accepted exactly if that is all, or if a line that
      is accepted follows behind ';'. */
  lemma BackgroundLine(c: Cmd, f: seq<Token>)
    requires CmdOk(c) && AllTokensOk(f) && !IsSym(f, '&')
    ensures ParseCmd(Text(ShowBack(Back(c)) + f)).Ok? <==>
      f == [] || (IsSym(f, ';') && ParseLine(f[1..]).Ok? && ParseLine(f[1..]).rest == [])
  {
    var ts := ShowBack(Back(c)) + f;
    LineToksOk(Back(c), 1);
    LexBack("", ts);
    assert "" + Text(ts) == Text(ts);
    AfterBackground(c, f);
  }

  /** A short line that this rules out. */
  lemma BackgroundThenWord()
    ensures ParseCmd("a & b").Err?
  {
    hide Lex;
    var c, w := Exec(["a"]), [Word("b")];
    assert WordOk("a");
    ShowBackOne();
    AfterBackground(c, w);
    LexRefused("a & b");
    assert [Word("a"), Sym('&')] + w == [Word("a"), Sym('&'), Word("b")];
  }

  /** And the way to write it. */
  lemma BackgroundThenLine()
    ensures ParseCmd("a & ; b") == Ok(List(Back(Exec(["a"])), Exec(["b"])), [])
  {
    hide Lex;
    var c, w := Exec(["a"]), [Word("b")];
    assert WordOk("a") && WordOk("b");
    ShowBackOne();
    AfterBackground(c, [Sym(';')] + w);
    assert ([Sym(';')] + w)[1..] == w;
    assert Words(["b"]) + RedirToks([]) + [] == w;
    SimpleBack(["b"], [], []);
    LexAccepted("a & ; b");
    assert [Word("a"), Sym('&')] + ([Sym(';')] + w) == [Word("a"), Sym('&'), Sym(';'), Word("b")];
  }

  lemma ShowBackOne()
    ensures ShowBack(Back(Exec(["a"]))) == [Word("a"), Sym('&')]
  {
    assert ShowExec(Exec(["a"])) == Words(["a"]) + RedirToks([]) == [Word("a")];
  }

  lemma LexRefused(s: string)
    requires |s| == 5 && s[0] == 'a' && s[1] == ' ' && s[2] == '&' && s[3] == ' ' && s[4] == 'b'
    ensures Lex(s, 0) == [Word("a"), Sym('&'), Word("b")]
  {
    hide Lex;
    LexWord(s, 0, 1);
    SkipFrom(s, 1);
    LexStep(s, 2);
    SkipFrom(s, 3);
    LexWord(s, 4, 5);
    LexNone(s);
    assert s[0..1] == "a" && s[4..5] == "b" && TokenAt(s, 2) == (Sym('&'), 3);
  }

  lemma LexAccepted(s: string)
    requires |s| == 7 && s[0] == 'a' && s[1] == ' ' && s[2] == '&' && s[3] == ' ' && s[4] == ';' && s[5] == ' '
      && s[6] == 'b'
    ensures Lex(s, 0) == [Word("a"), Sym('&'), Sym(';'), Word("b")]
  {
    hide Lex;
    LexWord(s, 0, 1);
    SkipFrom(s, 1);
    LexStep(s, 2);
    SkipFrom(s, 3);
    LexStep(s, 4);
    SkipFrom(s, 5);
    LexWord(s, 6, 7);
    LexNone(s);
    assert s[0..1] == "a" && s[6..7] == "b" && TokenAt(s, 2) == (Sym('&'), 3) && TokenAt(s, 4) == (Sym(';'), 5);
  }

  lemma LexNone(s: string)
    ensures Lex(s, |s|) == []
  {
  }

  /** A word from p up to e. */
  lemma LexWord(s: string, p: nat, e: nat)
    requires p < e <= |s| && (forall i :: p <= i < e ==> WordChar(s[i])) && (e < |s| ==> !WordChar(s[e]))
    ensures Lex(s, p) == [Word(s[p..e])] + Lex(s, e)
  {
    WordEndAt(s, p, e);
    assert WordChar(s[p]);
    LexStep(s, p);
  }

  // ----- what the parser accepts can be printed

  lemma {:induction false} LexTokensOk(s: string, p: nat)
    requires p <= |s|
    ensures AllTokensOk(Lex(s, p))
    decreases |s| - p
  {
    var q := Skip(s, p);
    if q < |s| {
      LexTokensOk(s, TokenAt(s, q).1);
      assert TokenOk(TokenAt(s, q).0);
    }
  }

  lemma {:induction false} RedirsAreOk(t: seq<Token>)
    requires AllTokensOk(t)
    ensures match ParseRedirs(t)
      case Bad => true
      case Found(rs, rest) => AllTokensOk(rest) && AllRedirsOk(rs)
    decreases |t|
  {
    if IsRedir(t) && |t| >= 2 && t[1].Word? {
      assert TokenOk(t[1]);
      assert AllTokensOk(t[2..]);
      RedirsAreOk(t[2..]);
    }
  }

  predicate AllRedirsOk(rs: seq<Redirection>) {
    forall i :: 0 <= i < |rs| ==> RedirOk(rs[i])
  }

  lemma {:induction false} WrapOk(c: Cmd, rs: seq<Redirection>)
    requires CmdOk(c) && AllRedirsOk(rs)
    ensures CmdOk(Wrap(c, rs))
    decreases |rs|
  {
    if rs != [] {
      assert RedirOk(rs[0]);
      WrapOk(Redir(c, rs[0]), rs[1..]);
    }
  }

  predicate ResultOk(r: Parsed) {
    r.Ok? ==> CmdOk(r.cmd) && AllTokensOk(r.rest)
  }

  lemma {:induction false} ArgsAreOk(argv: seq<string>, rs: seq<Redirection>, t: seq<Token>)
    requires AllTokensOk(t) && AllRedirsOk(rs) && CmdOk(Exec(argv))
    ensures ResultOk(ParseArgs(argv, rs, t))
    decreases |t|
  {
    if EndsExec(t) {
      WrapOk(Exec(argv), rs);
    } else if t[0].Word? && |argv| + 1 < MAXARGS {
      assert TokenOk(t[0]);
      assert AllTokensOk(t[1..]);
      RedirsAreOk(t[1..]);
      match ParseRedirs(t[1..])
      case Bad =>
      case Found(more, rest) => ArgsAreOk(argv + [t[0].w], rs + more, rest);
    }
  }

  lemma {:induction false} ExecIsOk(t: seq<Token>)
    requires AllTokensOk(t)
    ensures ResultOk(ParseExec(t))
    decreases |t|, 0
  {
    if IsSym(t, '(') {
      assert AllTokensOk(t[1..]);
      LineIsOk(t[1..]);
      match ParseLine(t[1..])
      case Err =>
      case Ok(c, rest) =>
        if IsSym(rest, ')') {
          assert AllTokensOk(rest[1..]);
          RedirsAreOk(rest[1..]);
          match ParseRedirs(rest[1..])
          case Bad =>
          case Found(rs, after) => WrapOk(c, rs);
        }
    } else {
      RedirsAreOk(t);
      match ParseRedirs(t)
      case Bad =>
      case Found(rs, rest) => ArgsAreOk([], rs, rest);
    }
  }

  lemma {:induction false} PipeIsOk(t: seq<Token>)
    requires AllTokensOk(t)
    ensures ResultOk(ParsePipe(t))
    decreases |t|, 1
  {
    ExecIsOk(t);
    match ParseExec(t)
    case Err =>
    case Ok(c, rest) =>
      if IsSym(rest, '|') {
        assert AllTokensOk(rest[1..]);
        PipeIsOk(rest[1..]);
      }
  }

  lemma {:induction false} BacksAreOk(c: Cmd, t: seq<Token>)
    requires CmdOk(c) && AllTokensOk(t)
    ensures CmdOk(ParseBacks(c, t).0) && AllTokensOk(ParseBacks(c, t).1)
    decreases |t|
  {
    if IsSym(t, '&') {
      assert AllTokensOk(t[1..]);
      BacksAreOk(Back(c), t[1..]);
    }
  }

  lemma {:induction false} LineIsOk(t: seq<Token>)
    requires AllTokensOk(t)
    ensures ResultOk(ParseLine(t))
    decreases |t|, 2
  {
    PipeIsOk(t);
    match ParsePipe(t)
    case Err =>
    case Ok(c0, rest0) =>
      BacksAreOk(c0, rest0);
      var rest := ParseBacks(c0, rest0).1;
      if IsSym(rest, ';') {
        assert AllTokensOk(rest[1..]);
        LineIsOk(rest[1..]);
      }
  }

  /** Whatever line the shell accepts, printing its tree gives a line with the same tree. */
  lemma ParseThenShow(s: string)
    requires ParseCmd(s).Ok?
    ensures CmdOk(ParseCmd(s).cmd) && ParseCmd(Show(ParseCmd(s).cmd)) == ParseCmd(s)
  {
    LexTokensOk(s, 0);
    LineIsOk(Lex(s, 0));
    ShowThenParse(ParseCmd(s).cmd);
  }
}
