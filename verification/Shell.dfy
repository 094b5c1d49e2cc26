/** The parser of user/sh.c, reading a line character by character, and nulterminate. */
module Shell {
  import opened Basics
  import opened ShellModel

  /** Where a word lies in the line. */
  datatype Span = Span(q: nat, e: nat)

  /** A command as the parser builds it, pointing into the line. */
  datatype Node =
    | ExecNode(argv: seq<Span>)
    | RedirNode(cmd: Node, file: Span, op: char)
    | PipeNode(left: Node, right: Node)
    | ListNode(left: Node, right: Node)
    | BackNode(cmd: Node)

  /** A whole word: what follows it is not part of a word. */
  predicate SpanOk(s: string, w: Span) {
    && w.q < w.e <= |s|
    && (forall i :: w.q <= i < w.e ==> WordChar(s[i]))
    && (w.e < |s| ==> !WordChar(s[w.e]))
  }

  predicate TreeOk(s: string, n: Node) {
    match n
    case ExecNode(argv) => forall i :: 0 <= i < |argv| ==> SpanOk(s, argv[i])
    case RedirNode(d, file, _) => SpanOk(s, file) && TreeOk(s, d)
    case PipeNode(l, r) => TreeOk(s, l) && TreeOk(s, r)
    case ListNode(l, r) => TreeOk(s, l) && TreeOk(s, r)
    case BackNode(d) => TreeOk(s, d)
  }

  function WordAt(s: string, w: Span): string
    requires SpanOk(s, w)
  {
    s[w.q..w.e]
  }

  function WordsOf(s: string, argv: seq<Span>): (r: seq<string>)
    requires TreeOk(s, ExecNode(argv))
    ensures |r| == |argv|
  {
    if argv == [] then []
    else
      assert SpanOk(s, argv[0]);
      [WordAt(s, argv[0])] + WordsOf(s, argv[1..])
  }

  /** The tree of words that a tree of pointers stands for. */
  function View(s: string, n: Node): Cmd
    requires TreeOk(s, n)
  {
    match n
    case ExecNode(argv) => Exec(WordsOf(s, argv))
    case RedirNode(d, file, op) => Redir(View(s, d), Redirection(WordAt(s, file), op))
    case PipeNode(l, r) => Pipe(View(s, l), View(s, r))
    case ListNode(l, r) => List(View(s, l), View(s, r))
    case BackNode(d) => Back(View(s, d))
  }

  // ----- gettoken and peek

  /** The code gettoken returns for a token. */
  function Code(t: Token): char {
    if t.Word? then 'a' else t.c
  }

  lemma LexEnd(s: string, p: nat)
    requires p <= |s| && Skip(s, p) == |s|
    ensures Lex(s, p) == [] && Lex(s, |s|) == []
  {
  }

  lemma {:induction false} LexSkip(s: string, p: nat, q: nat)
    requires p <= q <= |s| && forall i :: p <= i < q ==> Space(s[i])
    ensures Lex(s, q) == Lex(s, p)
    decreases q - p
  {
    if p < q {
      SkipFrom(s, p);
      LexSkip(s, p + 1, q);
    }
  }

  lemma {:induction false} SkipStops(s: string, p: nat, q: nat)
    requires p <= q <= |s| && (forall i :: p <= i < q ==> Space(s[i])) && (q < |s| ==> !Space(s[q]))
    ensures Skip(s, p) == q
    decreases q - p
  {
    if p < q {
      SkipStops(s, p + 1, q);
    }
  }

  /** gettoken: the next token's code and place, and the position after it and the white space behind it.
      Code 0 is the end of the line. */
  method GetToken(s: string, p: nat) returns (tok: char, w: Span, next: nat)
    requires p <= |s| && NoNul(s)
    ensures p <= next <= |s|
    ensures Lex(s, p) == [] ==> tok == '\0' && next == |s|
    ensures Lex(s, p) != [] ==> tok == Code(Lex(s, p)[0]) && tok != '\0' && next > p && Lex(s, next) == Lex(s, p)[1..]
    ensures Lex(s, p) != [] && Lex(s, p)[0].Word? ==> SpanOk(s, w) && WordAt(s, w) == Lex(s, p)[0].w
  {
    var q := p;
    while q < |s| && Space(s[q])
      invariant p <= q <= |s| && forall i :: p <= i < q ==> Space(s[i])
    {
      q := q + 1;
    }
    SkipStops(s, p, q);
    var e := q;
    if q == |s| {
      LexEnd(s, p);
      tok := '\0';
    } else if Symbol(s[q]) && s[q] != '>' {
      tok, e := s[q], q + 1;
    } else if s[q] == '>' {
      tok, e := '>', q + 1;
      if e < |s| && s[e] == '>' {
        tok, e := '+', e + 1;
      }
    } else {
      tok := 'a';
      while e < |s| && !Space(s[e]) && !Symbol(s[e])
        invariant q <= e <= |s| && forall i :: q <= i < e ==> WordChar(s[i])
      {
        e := e + 1;
      }
      WordEndAt(s, q, e);
    }
    w := Span(q, e);
    assert q < |s| ==> TokenAt(s, q).1 == e && tok == Code(TokenAt(s, q).0) && tok != '\0';
    next := e;
    while next < |s| && Space(s[next])
      invariant e <= next <= |s| && forall i :: e <= i < next ==> Space(s[i])
    {
      next := next + 1;
    }
    LexSkip(s, e, next);
  }

  /** peek: is the next character, past white space, one of toks? */
  method Peek(s: string, p: nat, toks: string) returns (yes: bool, next: nat)
    requires p <= |s|
    ensures next == Skip(s, p) && Lex(s, next) == Lex(s, p)
    ensures yes <==> next < |s| && s[next] in toks
  {
    next := p;
    while next < |s| && Space(s[next])
      invariant p <= next <= |s| && forall i :: p <= i < next ==> Space(s[i])
    {
      next := next + 1;
    }
    SkipStops(s, p, next);
    LexSkip(s, p, next);
    yes := next < |s| && s[next] in toks;
  }

  /** What a character tells about the token it starts. */
  lemma StartOf(s: string, p: nat)
    requires p <= |s| && (p < |s| ==> !Space(s[p]))
    ensures p == |s| <==> Lex(s, p) == []
    ensures p < |s| ==> forall c :: Symbol(c) && c != '>' ==> (IsSym(Lex(s, p), c) <==> s[p] == c)
    ensures p < |s| ==> (IsRedir(Lex(s, p)) <==> s[p] == '<' || s[p] == '>')
    ensures p < |s| ==> Lex(s, p)[0] == TokenAt(s, p).0
  {
  }

  // ----- the parse functions; not ok is a syntax error

  /** n is the tree of c, and the tokens from p on are `rest`. */
  predicate Stands(s: string, n: Node, p: nat, c: Cmd, rest: seq<Token>) {
    p <= |s| && TreeOk(s, n) && View(s, n) == c && Lex(s, p) == rest
  }

  /** parseredirs. */
  method ParseRedirections(s: string, cmd: Node, p: nat) returns (ok: bool, n: Node, next: nat)
    requires p <= |s| && NoNul(s) && TreeOk(s, cmd)
    ensures p <= next <= |s|
    ensures match ParseRedirs(Lex(s, p))
      case Bad => !ok
      case Found(rs, rest) => ok && Stands(s, n, next, Wrap(View(s, cmd), rs), rest)
  {
    hide Lex, Skip, ParseRedirs, View, TreeOk, After;
    n := cmd;
    ghost var done: seq<Redirection> := [];
    AfterStart(ParseRedirs(Lex(s, p)));
    WrapNone(View(s, cmd));
    var yes;
    yes, next := Peek(s, p, "<>");
    StartOf(s, next);
    while yes
      invariant p <= next <= |s| && TreeOk(s, n) && View(s, n) == Wrap(View(s, cmd), done)
      invariant yes <==> IsRedir(Lex(s, next))
      invariant After(done, ParseRedirs(Lex(s, next))) == ParseRedirs(Lex(s, p))
      decreases |s| - next
    {
      ghost var t := Lex(s, next);
      ok, n, next := OneRedirection(s, n, next);
      RedirsStep(t);
      if !ok {
        AfterBad(done);
        return;
      }
      ghost var r := Redirection(t[1].w, t[0].c);
      WrapSnoc(View(s, cmd), done, r);
      AfterOne(done, r, ParseRedirs(t[2..]));
      done := done + [r];
      yes, next := Peek(s, next, "<>");
      StartOf(s, next);
    }
    AfterNone(done, Lex(s, next));
    ok := true;
  }

  /** One turn of parseredirs' loop. */
  method OneRedirection(s: string, cmd: Node, p: nat) returns (ok: bool, n: Node, next: nat)
    requires p <= |s| && NoNul(s) && TreeOk(s, cmd) && IsRedir(Lex(s, p))
    ensures p < next <= |s|
    ensures ok <==> |Lex(s, p)| >= 2 && Lex(s, p)[1].Word?
    ensures ok ==> TreeOk(s, n) && View(s, n) == Redir(View(s, cmd), Redirection(Lex(s, p)[1].w, Lex(s, p)[0].c))
    ensures ok ==> Lex(s, next) == Lex(s, p)[2..]
  {
    hide Lex, SpanOk, WordAt;
    ghost var t := Lex(s, p);
    n := cmd;
    var tok, w, file;
    tok, w, next := GetToken(s, p);
    ghost var t1 := Lex(s, next);
    tok, file, next := NextWord(s, next, tok);
    ok := tok != '\0';
    if ok {
      assert t1[0] == t[1] && t1[1..] == t[2..];
      n := RedirNode(cmd, file, tok);
    }
  }

  lemma AfterStart(r: Redirs)
    ensures After([], r) == r
  {
    if r.Found? {
      assert [] + r.rs == r.rs;
    }
  }

  lemma WrapNone(c: Cmd)
    ensures Wrap(c, []) == c
  {
  }

  lemma RedirsStep(t: seq<Token>)
    requires IsRedir(t)
    ensures ParseRedirs(t) ==
      if |t| < 2 || !t[1].Word? then Bad else After([Redirection(t[1].w, t[0].c)], ParseRedirs(t[2..]))
  {
  }

  lemma AfterBad(done: seq<Redirection>)
    ensures After(done, Bad) == Bad
  {
  }

  lemma AfterNone(done: seq<Redirection>, t: seq<Token>)
    requires !IsRedir(t)
    ensures After(done, ParseRedirs(t)) == Found(done, t)
  {
    assert done + [] == done;
  }

  /** The file name that must follow a redirection symbol; code 0 if there is none. */
  method NextWord(s: string, p: nat, op: char) returns (tok: char, file: Span, next: nat)
    requires p <= |s| && NoNul(s) && op != '\0'
    ensures p <= next <= |s|
    ensures tok == '\0' <==> Lex(s, p) == [] || !Lex(s, p)[0].Word?
    ensures tok != '\0' ==>
      tok == op && SpanOk(s, file) && WordAt(s, file) == Lex(s, p)[0].w && Lex(s, next) == Lex(s, p)[1..]
  {
    tok, file, next := GetToken(s, p);
    WordCode(s, p);
    tok := if tok == 'a' then op else '\0';
  }

  lemma WordCode(s: string, p: nat)
    requires p <= |s|
    ensures Lex(s, p) != [] ==> (Code(Lex(s, p)[0]) == 'a' <==> Lex(s, p)[0].Word?)
  {
    LexTokensOk(s, p);
    assert Lex(s, p) != [] ==> TokenOk(Lex(s, p)[0]);
  }

  /** A result with redirections already read put in front. */
  function After(done: seq<Redirection>, r: Redirs): Redirs {
    match r
    case Bad => Bad
    case Found(rs, rest) => Found(done + rs, rest)
  }

  lemma AfterOne(done: seq<Redirection>, r: Redirection, rest: Redirs)
    ensures After(done + [r], rest) == After(done, After([r], rest))
  {
    if rest.Found? {
      assert done + [r] + rest.rs == done + ([r] + rest.rs);
    }
  }

  /** The arguments go into the command that parseexec started with, inside all redirections around it. */
  function WithArgs(n: Node, argv: seq<Span>): Node {
    match n
    case RedirNode(d, file, op) => RedirNode(WithArgs(d, argv), file, op)
    case ExecNode(_) => ExecNode(argv)
    case _ => n
  }

  function SetArgs(c: Cmd, argv: seq<string>): Cmd {
    match c
    case Redir(d, r) => Redir(SetArgs(d, argv), r)
    case Exec(_) => Exec(argv)
    case _ => c
  }

  lemma {:induction false} SetArgsWrap(c: Cmd, rs: seq<Redirection>, argv: seq<string>)
    ensures SetArgs(Wrap(c, rs), argv) == Wrap(SetArgs(c, argv), rs)
    decreases |rs|
  {
    if rs != [] {
      SetArgsWrap(Redir(c, rs[0]), rs[1..], argv);
    }
  }

  lemma {:induction false} ViewWithArgs(s: string, n: Node, argv: seq<Span>)
    requires TreeOk(s, n) && TreeOk(s, ExecNode(argv))
    ensures TreeOk(s, WithArgs(n, argv)) && View(s, WithArgs(n, argv)) == SetArgs(View(s, n), WordsOf(s, argv))
  {
    match n
    case RedirNode(d, _, _) => ViewWithArgs(s, d, argv);
    case _ =>
  }

  lemma {:induction false} WordsOfPush(s: string, argv: seq<Span>, w: Span)
    requires TreeOk(s, ExecNode(argv)) && SpanOk(s, w)
    ensures TreeOk(s, ExecNode(argv + [w])) && WordsOf(s, argv + [w]) == WordsOf(s, argv) + [WordAt(s, w)]
    decreases |argv|
  {
    if argv == [] {
      assert argv + [w] == [w];
    } else {
      assert (argv + [w])[1..] == argv[1..] + [w];
      assert TreeOk(s, ExecNode(argv[1..]));
      WordsOfPush(s, argv[1..], w);
    }
  }

  /** What a parse function returned, against what the grammar says. */
  predicate Agrees(s: string, want: Parsed, ok: bool, n: Node, next: nat) {
    match want
    case Err => !ok
    case Ok(c, rest) => ok && Stands(s, n, next, c, rest)
  }

  lemma EndsExecChar(s: string, p: nat)
    requires p <= |s| && (p < |s| ==> !Space(s[p]))
    ensures (p < |s| && s[p] in "|)&;") || p == |s| <==> EndsExec(Lex(s, p))
    ensures p == |s| ==> Lex(s, p) == []
  {
    StartOf(s, p);
  }

  lemma {:induction false} WrapTwice(c: Cmd, rs: seq<Redirection>, more: seq<Redirection>)
    ensures Wrap(Wrap(c, rs), more) == Wrap(c, rs + more)
    decreases |rs|
  {
    if rs == [] {
      assert rs + more == more;
    } else {
      assert (rs + more)[1..] == rs[1..] + more;
      WrapTwice(Redir(c, rs[0]), rs[1..], more);
    }
  }

  lemma ArgsStep(argv: seq<string>, rs: seq<Redirection>, t: seq<Token>)
    ensures ParseArgs(argv, rs, t) ==
      if EndsExec(t) then Ok(Wrap(Exec(argv), rs), t)
      else if !t[0].Word? || |argv| + 1 >= MAXARGS then Err
      else if ParseRedirs(t[1..]).Bad? then Err
      else ParseArgs(argv + [t[0].w], rs + ParseRedirs(t[1..]).rs, ParseRedirs(t[1..]).rest)
  {
  }

  /** One turn of parseexec's loop: an argument and the redirections after it. */
  method OneArgument(s: string, cmd: Node, args: seq<Span>, p: nat, w: Span, tok: char, ghost t: seq<Token>)
    returns (ok: bool, n: Node, argv: seq<Span>, next: nat)
    requires p <= |s| && NoNul(s) && TreeOk(s, cmd) && TreeOk(s, ExecNode(args))
    requires t != [] && tok == Code(t[0]) && (tok == 'a' <==> t[0].Word?) && Lex(s, p) == t[1..]
    requires t[0].Word? ==> SpanOk(s, w) && WordAt(s, w) == t[0].w
    ensures p <= next <= |s|
    ensures !t[0].Word? || |args| + 1 >= MAXARGS ==> !ok
    ensures t[0].Word? && |args| + 1 < MAXARGS ==> (ok <==> ParseRedirs(t[1..]).Found?)
    ensures ok ==> TreeOk(s, n) && TreeOk(s, ExecNode(argv)) && |argv| == |args| + 1 && ParseRedirs(t[1..]).Found?
    ensures ok ==>
      WordsOf(s, argv) == WordsOf(s, args) + [t[0].w] && View(s, n) == Wrap(View(s, cmd), ParseRedirs(t[1..]).rs)
    ensures ok ==> Lex(s, next) == ParseRedirs(t[1..]).rest
  {
    hide Lex, ParseRedirs, View, TreeOk, Wrap, SpanOk, WordAt, WordsOf;
    n, argv, next := cmd, args, p;
    if tok != 'a' {
      return false, n, argv, next;     // panic: syntax
    }
    WordsOfPush(s, args, w);
    argv := args + [w];
    if |argv| >= MAXARGS {
      return false, n, argv, next;     // panic: too many args
    }
    ok, n, next := ParseRedirections(s, cmd, p);
  }

  /** parseexec for a simple command: words and redirections in any order. */
  method ParseSimple(s: string, p: nat) returns (ok: bool, n: Node, next: nat)
    requires p <= |s| && NoNul(s) && !IsSym(Lex(s, p), '(')
    ensures p <= next <= |s| && Agrees(s, ParseExec(Lex(s, p)), ok, n, next)
  {
    hide Lex, Skip, ParseRedirs, View, TreeOk, Wrap, SetArgs, WithArgs, SpanOk, WordAt, ParseArgs, WordsOf, EndsExec;
    EmptyExec(s);
    var argv: seq<Span> := [];
    ok, n, next := ParseRedirections(s, ExecNode([]), p);
    if !ok {
      return;
    }
    ghost var rs := ParseRedirs(Lex(s, p)).rs;
    var yes;
    yes, next := Peek(s, next, "|)&;");
    EndsExecChar(s, next);
    while !yes
      invariant p <= next <= |s| && TreeOk(s, n) && TreeOk(s, ExecNode(argv)) && |argv| < MAXARGS
      invariant View(s, n) == Wrap(Exec([]), rs)
      invariant yes ==> EndsExec(Lex(s, next))
      invariant EndsExec(Lex(s, next)) ==> yes || Lex(s, next) == []
      invariant ParseExec(Lex(s, p)) == ParseArgs(WordsOf(s, argv), rs, Lex(s, next))
      decreases |s| - next
    {
      ghost var t := Lex(s, next);
      var tok, w, after := GetToken(s, next);
      WordCode(s, next);
      NothingEnds();
      if tok == '\0' {
        break;
      }
      ghost var had := WordsOf(s, argv);
      ArgsStep(had, rs, t);
      WordsLength(s, argv);
      ok, n, argv, next := OneArgument(s, n, argv, after, w, tok, t);
      if !ok {
        return;
      }
      ghost var more := ParseRedirs(t[1..]).rs;
      WrapTwice(Exec([]), rs, more);
      rs := rs + more;
      yes, next := Peek(s, next, "|)&;");
      EndsExecChar(s, next);
    }
    ArgsStep(WordsOf(s, argv), rs, Lex(s, next));
    ViewWithArgs(s, n, argv);
    SetArgsWrap(Exec([]), rs, WordsOf(s, argv));
    SetArgsExec(WordsOf(s, argv));
    n := WithArgs(n, argv);
    ok := true;
  }

  lemma SetArgsExec(argv: seq<string>)
    ensures SetArgs(Exec([]), argv) == Exec(argv)
  {
  }

  lemma NothingEnds()
    ensures EndsExec([])
  {
  }

  lemma WordsLength(s: string, argv: seq<Span>)
    requires TreeOk(s, ExecNode(argv))
    ensures |WordsOf(s, argv)| == |argv|
  {
  }

  lemma EmptyExec(s: string)
    ensures TreeOk(s, ExecNode([])) && View(s, ExecNode([])) == Exec([]) && WordsOf(s, []) == []
  {
  }

  /** parseblock: a line in parentheses, and redirections around it. */
  method ParseBlock(s: string, p: nat) returns (ok: bool, n: Node, next: nat)
    requires p <= |s| && NoNul(s) && IsSym(Lex(s, p), '(')
    ensures p <= next <= |s| && Agrees(s, ParseExec(Lex(s, p)), ok, n, next)
    decreases |s| - p, 0
  {
    hide Lex, ParseRedirs, ParseLine, View, TreeOk, Wrap;
    ghost var t := Lex(s, p);
    var tok, w, yes;
    tok, w, next := GetToken(s, p);
    ok, n, next := ParseLineAt(s, next);
    if !ok {
      return;
    }
    ghost var c := View(s, n);
    yes, next := Peek(s, next, ")");
    StartOf(s, next);
    EmptyHasNoSym(Lex(s, next));
    if !yes {
      return false, n, next;           // panic: syntax - missing )
    }
    tok, w, next := GetToken(s, next);
    ok, n, next := ParseRedirections(s, n, next);
  }

  lemma EmptyHasNoSym(t: seq<Token>)
    ensures t == [] ==> forall c :: !IsSym(t, c)
  {
  }

  /** parseexec. */
  method ParseExecAt(s: string, p: nat) returns (ok: bool, n: Node, next: nat)
    requires p <= |s| && NoNul(s)
    ensures p <= next <= |s| && Agrees(s, ParseExec(Lex(s, p)), ok, n, next)
    decreases |s| - p, 1
  {
    hide Lex, ParseExec, Agrees, Skip;
    var yes;
    yes, next := Peek(s, p, "(");
    StartOf(s, next);
    SkipRange(s, p);
    EmptyHasNoSym(Lex(s, next));
    if yes {
      ok, n, next := ParseBlock(s, next);
    } else {
      ok, n, next := ParseSimple(s, next);
    }
  }

  lemma SkipRange(s: string, p: nat)
    requires p <= |s|
    ensures p <= Skip(s, p) <= |s|
  {
  }

  /** parsepipe. */
  method ParsePipeAt(s: string, p: nat) returns (ok: bool, n: Node, next: nat)
    requires p <= |s| && NoNul(s)
    ensures p <= next <= |s| && Agrees(s, ParsePipe(Lex(s, p)), ok, n, next)
    decreases |s| - p, 2
  {
    hide Lex, ParseExec, Skip, View, TreeOk;
    ok, n, next := ParseExecAt(s, p);
    if !ok {
      return;
    }
    var yes;
    yes, next := Peek(s, next, "|");
    StartOf(s, next);
    EmptyHasNoSym(Lex(s, next));
    if yes {
      var tok, w, right;
      tok, w, next := GetToken(s, next);
      ok, right, next := ParsePipeAt(s, next);
      ViewPipe(s, n, right, ok);
      n := PipeNode(n, right);
    }
  }

  lemma ViewPipe(s: string, l: Node, r: Node, ok: bool)
    ensures ok && TreeOk(s, l) && TreeOk(s, r) ==>
      && TreeOk(s, PipeNode(l, r)) && View(s, PipeNode(l, r)) == Pipe(View(s, l), View(s, r))
      && TreeOk(s, ListNode(l, r)) && View(s, ListNode(l, r)) == List(View(s, l), View(s, r))
  {
  }

  lemma ViewBack(s: string, d: Node)
    requires TreeOk(s, d)
    ensures TreeOk(s, BackNode(d)) && View(s, BackNode(d)) == Back(View(s, d))
  {
  }

  lemma BacksStep(c: Cmd, t: seq<Token>)
    ensures ParseBacks(c, t) == if IsSym(t, '&') then ParseBacks(Back(c), t[1..]) else (c, t)
  {
  }

  /** parseline. */
  method ParseLineAt(s: string, p: nat) returns (ok: bool, n: Node, next: nat)
    requires p <= |s| && NoNul(s)
    ensures p <= next <= |s| && Agrees(s, ParseLine(Lex(s, p)), ok, n, next)
    decreases |s| - p, 3
  {
    hide Lex, ParsePipe, Skip, View, TreeOk, ParseBacks;
    ok, n, next := ParsePipeAt(s, p);
    if !ok {
      return;
    }
    ghost var first := ParsePipe(Lex(s, p));
    var yes;
    yes, next := Peek(s, next, "&");
    StartOf(s, next);
    EmptyHasNoSym(Lex(s, next));
    while yes
      invariant p <= next <= |s| && TreeOk(s, n) && (yes <==> IsSym(Lex(s, next), '&'))
      invariant ParseBacks(first.cmd, first.rest) == ParseBacks(View(s, n), Lex(s, next))
      decreases |s| - next
    {
      BacksStep(View(s, n), Lex(s, next));
      ViewBack(s, n);
      var tok, w;
      tok, w, next := GetToken(s, next);
      n := BackNode(n);
      yes, next := Peek(s, next, "&");
      StartOf(s, next);
      EmptyHasNoSym(Lex(s, next));
    }
    BacksStep(View(s, n), Lex(s, next));
    yes, next := Peek(s, next, ";");
    StartOf(s, next);
    EmptyHasNoSym(Lex(s, next));
    if yes {
      var tok, w, right;
      tok, w, next := GetToken(s, next);
      ok, right, next := ParseLineAt(s, next);
      ViewPipe(s, n, right, ok);
      n := ListNode(n, right);
    }
  }

  /** parsecmd, up to nulterminate: the tree of the whole line, or a syntax error. */
  method ParseCommand(s: string) returns (ok: bool, n: Node)
    requires NoNul(s)
    ensures ok <==> ParseCmd(s).Ok?
    ensures ok ==> TreeOk(s, n) && View(s, n) == ParseCmd(s).cmd
  {
    hide Lex, ParseLine, Skip, View, TreeOk;
    var next;
    ok, n, next := ParseLineAt(s, 0);
    if !ok {
      return;
    }
    var yes;
    yes, next := Peek(s, next, "");
    StartOf(s, next);
    ok := next == |s|;                  // else panic: leftovers
  }

  // ----- nulterminate

  /** The words a tree points to. */
  function Spans(n: Node): seq<Span> {
    match n
    case ExecNode(argv) => argv
    case RedirNode(d, file, _) => Spans(d) + [file]
    case PipeNode(l, r) => Spans(l) + Spans(r)
    case ListNode(l, r) => Spans(l) + Spans(r)
    case BackNode(d) => Spans(d)
  }

  lemma {:induction false} SpansOk(s: string, n: Node)
    requires TreeOk(s, n)
    ensures forall i :: 0 <= i < |Spans(n)| ==> SpanOk(s, Spans(n)[i])
  {
    match n
    case ExecNode(_) =>
    case RedirNode(d, _, _) => SpansOk(s, d);
    case PipeNode(l, r) => SpansOk(s, l); SpansOk(s, r);
    case ListNode(l, r) => SpansOk(s, l); SpansOk(s, r);
    case BackNode(d) => SpansOk(s, d);
  }

  /** One of the words ends at position i. */
  predicate EndsAt(ws: seq<Span>, i: int) {
    exists k :: 0 <= k < |ws| && ws[k].e == i
  }

  lemma EndsJoin(a: seq<Span>, b: seq<Span>, i: int)
    ensures EndsAt(a + b, i) <==> EndsAt(a, i) || EndsAt(b, i)
  {
    if EndsAt(a, i) {
      var k :| 0 <= k < |a| && a[k].e == i;
      assert (a + b)[k].e == i;
    }
    if EndsAt(b, i) {
      var k :| 0 <= k < |b| && b[k].e == i;
      assert (a + b)[|a| + k].e == i;
    }
    if EndsAt(a + b, i) {
      var k :| 0 <= k < |a + b| && (a + b)[k].e == i;
      assert if k < |a| then a[k].e == i else b[k - |a|].e == i;
    }
  }

  /** The buffer after NULs have been written at the ends of the given words. */
  ghost predicate Terminated(before: seq<char>, after: seq<char>, ws: seq<Span>) {
    |after| == |before| && forall i :: 0 <= i < |before| ==> TerminatedAt(before, after, ws, i)
  }

  predicate TerminatedAt(before: seq<char>, after: seq<char>, ws: seq<Span>, i: nat)
    requires i < |before| == |after|
  {
    after[i] == if EndsAt(ws, i) then '\0' else before[i]
  }

  lemma TerminatedTwice(a: seq<char>, b: seq<char>, c: seq<char>, ws: seq<Span>, vs: seq<Span>)
    requires Terminated(a, b, ws) && Terminated(b, c, vs)
    ensures Terminated(a, c, ws + vs)
  {
    var all := ws + vs;
    forall i | 0 <= i < |a| ensures TerminatedAt(a, c, all, i) {
      assert TerminatedAt(a, b, ws, i) && TerminatedAt(b, c, vs, i);
      EndsJoin(ws, vs, i);
    }
  }

  lemma TerminatedOne(a: seq<char>, w: Span)
    requires w.e < |a|
    ensures Terminated(a, a[w.e := '\0'], [w])
  {
    var b, ws := a[w.e := '\0'], [w];
    forall i | 0 <= i < |a| ensures TerminatedAt(a, b, ws, i) {
      assert ws[0].e == w.e;
    }
  }

  lemma TerminatedNone(a: seq<char>)
    ensures Terminated(a, a, [])
  {
    var none: seq<Span> := [];
    forall i | 0 <= i < |a| ensures TerminatedAt(a, a, none, i) {
    }
  }

  /** nulterminate: a NUL after every argument and file name, and no other change. */
  method NulTerminate(s: string, n: Node, buf: array<char>)
    requires TreeOk(s, n) && buf.Length == |s| + 1
    modifies buf
    ensures Terminated(old(buf[..]), buf[..], Spans(n))
    decreases n
  {
    hide SpanOk, Terminated, EndsAt;
    ghost var start := buf[..];
    TerminatedNone(start);
    match n {
      case ExecNode(argv) =>
        var i := 0;
        assert argv[..0] == [];
        while i < |argv|
          invariant 0 <= i <= |argv| && Terminated(start, buf[..], argv[..i])
        {
          EndInLine(s, argv[i]);
          ghost var mid := buf[..];
          TerminatedOne(mid, argv[i]);
          buf[argv[i].e] := '\0';
          assert buf[..] == mid[argv[i].e := '\0'];
          TerminatedTwice(start, mid, buf[..], argv[..i], [argv[i]]);
          assert argv[..i + 1] == argv[..i] + [argv[i]];
          i := i + 1;
        }
        assert argv[..i] == argv;
      case RedirNode(d, file, _) =>
        NulTerminate(s, d, buf);
        EndInLine(s, file);
        ghost var mid := buf[..];
        TerminatedOne(mid, file);
        buf[file.e] := '\0';
        assert buf[..] == mid[file.e := '\0'];
        TerminatedTwice(start, mid, buf[..], Spans(d), [file]);
      case PipeNode(l, r) =>
        NulTerminate(s, l, buf);
        ghost var mid := buf[..];
        NulTerminate(s, r, buf);
        TerminatedTwice(start, mid, buf[..], Spans(l), Spans(r));
      case ListNode(l, r) =>
        NulTerminate(s, l, buf);
        ghost var mid := buf[..];
        NulTerminate(s, r, buf);
        TerminatedTwice(start, mid, buf[..], Spans(l), Spans(r));
      case BackNode(d) =>
        NulTerminate(s, d, buf);
    }
  }

  lemma EndInLine(s: string, w: Span)
    requires SpanOk(s, w)
    ensures w.e <= |s|
  {
  }

  /** w is the C string at position q. */
  predicate CString(buf: seq<char>, q: nat, w: string) {
    q + |w| < |buf| && buf[q..q + |w|] == w && buf[q + |w|] == '\0' && NoNul(w)
  }

  /** After nulterminate every word of the tree is a C string of its own: its NUL falls outside every word. */
  lemma TokensAreStrings(s: string, n: Node, before: seq<char>, after: seq<char>, k: nat)
    requires NoNul(s) && TreeOk(s, n) && before == s + ['\0'] && Terminated(before, after, Spans(n)) && k < |Spans(n)|
    ensures SpanOk(s, Spans(n)[k]) && CString(after, Spans(n)[k].q, WordAt(s, Spans(n)[k]))
  {
    var ws := Spans(n);
    var w := ws[k];
    SpansOk(s, n);
    assert SpanOk(s, w);
    forall i | w.q <= i < w.e ensures after[i] == s[i] {
      assert TerminatedAt(before, after, ws, i);
      forall j | 0 <= j < |ws| ensures ws[j].e != i {
        assert SpanOk(s, ws[j]);
      }
    }
    assert after[w.q..w.e] == s[w.q..w.e];
    assert TerminatedAt(before, after, ws, w.e) && ws[k].e == w.e;
  }
}
