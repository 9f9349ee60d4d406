/** A printer for command trees, and the proof that the parser of sh.c reads back what it prints. */
module ShellRoundTrip {
  import opened ShellModel

  datatype RedirText = RedirText(file: string, out: bool)

  /** A command with its words written out. */
  datatype Tree =
    | TExec(args: seq<string>)
    | TRedir(sub: Tree, to: RedirText)
    | TPipe(left: Tree, right: Tree)
    | TList(left: Tree, right: Tree)
    | TBack(sub: Tree)

  // ---------------------------------------------------------------- from positions to words

  function Text(buf: Line, s: Slice): string { if s.lo <= s.hi <= |buf| then buf[s.lo..s.hi] else "" }

  function Texts(buf: Line, args: seq<Slice>): (r: seq<string>)
    ensures |r| == |args| && forall i :: 0 <= i < |args| ==> r[i] == Text(buf, args[i])
  {
    seq(|args|, i requires 0 <= i < |args| => Text(buf, args[i]))
  }

  function RedirTexts(buf: Line, rs: seq<Redirection>): (r: seq<RedirText>)
    ensures |r| == |rs| && forall i :: 0 <= i < |rs| ==> r[i] == RedirText(Text(buf, rs[i].file), rs[i].out)
  {
    seq(|rs|, i requires 0 <= i < |rs| => RedirText(Text(buf, rs[i].file), rs[i].out))
  }

  /** The tree a parsed command stands for. */
  function Read(buf: Line, c: Cmd): Tree {
    match c
    case Exec(args) => TExec(Texts(buf, args))
    case Redir(sub, to) => TRedir(Read(buf, sub), RedirText(Text(buf, to.file), to.out))
    case Pipe(left, right) => TPipe(Read(buf, left), Read(buf, right))
    case List(left, right) => TList(Read(buf, left), Read(buf, right))
    case Back(sub) => TBack(Read(buf, sub))
  }

  function WrapTree(t: Tree, rs: seq<RedirText>): Tree {
    if rs == [] then t else TRedir(WrapTree(t, rs[..|rs| - 1]), rs[|rs| - 1])
  }

  lemma {:induction false} ReadWrap(buf: Line, c: Cmd, rs: seq<Redirection>)
    ensures Read(buf, Wrap(c, rs)) == WrapTree(Read(buf, c), RedirTexts(buf, rs))
    decreases |rs|
  {
    if rs != [] {
      var n := |rs| - 1;
      ReadWrap(buf, c, rs[..n]);
      assert RedirTexts(buf, rs)[..n] == RedirTexts(buf, rs[..n]);
    }
  }

  // ---------------------------------------------------------------- the printer

  /** Nonempty, without white space, symbols or NUL. */
  predicate GoodWord(w: string) { w != [] && forall i :: 0 <= i < |w| ==> WordChar(w[i]) }

  /** Which characters those are. */
  lemma WordCharIs(c: char)
    ensures WordChar(c) <==> c !in [' ', '\t', '\r', '\n', '\U{000B}', '<', '|', '>', '&', ';', '(', ')', '\0']
  {}

  /** Trees the shell can hold: good words, and few enough arguments. */
  predicate Good(t: Tree) {
    match t
    case TExec(args) => |args| <= 9 && forall i :: 0 <= i < |args| ==> GoodWord(args[i])
    case TRedir(sub, to) => Good(sub) && GoodWord(to.file)
    case TPipe(left, right) => Good(left) && Good(right)
    case TList(left, right) => Good(left) && Good(right)
    case TBack(sub) => Good(sub)
  }

  function PrintWords(args: seq<string>): string {
    if args == [] then "" else args[0] + " " + PrintWords(args[1..])
  }

  function PrintRedir(r: RedirText): string { [if r.out then '>' else '<'] + (r.file + " ") }

  function PrintRedirs(rs: seq<RedirText>): string {
    if rs == [] then "" else PrintRedir(rs[0]) + PrintRedirs(rs[1..])
  }

  /** Positions of the four printers in the order they call each other on the same tree. */
  function LineRank(t: Tree): nat { match t case TList(_, _) => 0 case TBack(_) => 1 case TPipe(_, _) => 2 case _ => 3 }
  function BackRank(t: Tree): nat { match t case TList(_, _) => 3 case TBack(_) => 0 case TPipe(_, _) => 1 case _ => 2 }
  function PipeRank(t: Tree): nat { match t case TList(_, _) => 2 case TBack(_) => 3 case TPipe(_, _) => 0 case _ => 1 }
  function ExecRank(t: Tree): nat { match t case TList(_, _) => 1 case TBack(_) => 2 case TPipe(_, _) => 3 case _ => 0 }

  function PrintLine(t: Tree): string
    decreases t, LineRank(t)
  {
    if t.TList? then PrintBack(t.left) + ";" + PrintLine(t.right) else PrintBack(t)
  }

  function PrintBack(t: Tree): string
    decreases t, BackRank(t)
  {
    if t.TBack? then PrintBack(t.sub) + "&" else PrintPipe(t)
  }

  function PrintPipe(t: Tree): string
    decreases t, PipeRank(t)
  {
    if t.TPipe? then PrintExec(t.left) + "|" + PrintPipe(t.right) else PrintExec(t)
  }

  /** Parentheses only around what is not a simple command with its redirections. */
  function PrintExec(t: Tree): string
    decreases t, ExecRank(t)
  {
    match t
    case TExec(args) => PrintWords(args)
    case TRedir(sub, to) => PrintExec(sub) + PrintRedir(to)
    case _ => "(" + PrintLine(t) + ")"
  }

  // ---------------------------------------------------------------- tokens of printed text

  lemma Assoc(a: string, b: string, c: string)
    ensures a + b + c == a + (b + c)
  {}

  lemma FirstOf(a: string, b: string)
    requires a != ""
    ensures First(a + b) == a[0]
  {}

  function First(s: string): char { if s == "" then '\0' else s[0] }

  /** The rest of the line from p on is s. */
  predicate At(buf: Line, p: nat, s: string) { p <= |buf| && buf[p..] == s }

  lemma AtTail(buf: Line, p: nat, a: string, rest: string)
    requires At(buf, p, a + rest)
    ensures p + |a| <= |buf| && At(buf, p + |a|, rest) && Text(buf, Slice(p, p + |a|)) == a
    ensures forall i :: p <= i < p + |a| ==> buf[i] == a[i - p]
  {}

  lemma NextIs(buf: Line, p: nat, s: string)
    requires At(buf, p, s) && !Space(First(s))
    ensures p <= |buf| && Skip(buf, p) == p && NextChar(buf, p) == First(s)
  {}

  lemma {:induction false} WordEndAt(buf: Line, p: nat, e: nat)
    requires p <= e <= |buf| && (forall i :: p <= i < e ==> WordChar(buf[i])) && (e == |buf| || !WordChar(buf[e]))
    ensures WordEnd(buf, p) == e
    decreases e - p
  {}

  lemma TokenWord(buf: Line, p: nat, w: string, rest: string)
    requires At(buf, p, w + (" " + rest)) && GoodWord(w) && !Space(First(rest))
    ensures p + |w| + 1 <= |buf| && At(buf, p + |w| + 1, rest) && Text(buf, Slice(p, p + |w|)) == w
    ensures GetToken(buf, p) == Token('a', p, p + |w|, p + |w| + 1) && NextChar(buf, p) == w[0] && Skip(buf, p) == p
  {
    AtTail(buf, p, w, " " + rest);
    AtTail(buf, p + |w|, " ", rest);
    hide At, Text;
    assert buf[p] == w[0] && buf[p + |w|] == ' ';
    WordEndAt(buf, p, p + |w|);
    NextIs(buf, p + |w| + 1, rest);
  }

  lemma TokenSymbol(buf: Line, p: nat, c: char, rest: string)
    requires At(buf, p, [c] + rest) && Symbol(c) && !Space(First(rest)) && (c == '>' ==> First(rest) != '>')
    ensures p + 1 <= |buf| && At(buf, p + 1, rest)
    ensures GetToken(buf, p) == Token(c, p, p + 1, p + 1) && NextChar(buf, p) == c && Skip(buf, p) == p
  {
    AtTail(buf, p, [c], rest);
    assert buf[p] == c;
    if p + 1 < |buf| { assert buf[p + 1..][0] == buf[p + 1]; }
    hide At;
    NextIs(buf, p + 1, rest);
  }

  // ---------------------------------------------------------------- redirections

  predicate GoodRedirs(rs: seq<RedirText>) { forall i :: 0 <= i < |rs| ==> GoodWord(rs[i].file) }

  predicate GoodWords(args: seq<string>) { forall i :: 0 <= i < |args| ==> GoodWord(args[i]) }

  lemma RedirsStop(buf: Line, rs: seq<Redirection>, p: nat, rest: string)
    requires At(buf, p, rest) && !Space(First(rest)) && First(rest) != '<' && First(rest) != '>'
    ensures p <= |buf| && ParseRedirs(buf, rs, p) == Ok(rs, p)
  {}

  lemma RedirText1(r: RedirText, rest: string)
    ensures PrintRedir(r) + rest == [if r.out then '>' else '<'] + (r.file + (" " + rest))
    ensures |PrintRedir(r)| == |r.file| + 2
  {}

  lemma RedirsUnfold(buf: Line, rs: seq<Redirection>, p: nat)
    requires p <= |buf| && (NextChar(buf, p) == '<' || NextChar(buf, p) == '>')
    ensures var t := GetToken(buf, p); var f := GetToken(buf, t.pos);
      f.kind == 'a' ==>
        ParseRedirs(buf, rs, p) == ParseRedirs(buf, rs + [Redirection(Slice(f.q, f.eq), t.kind != '<')], f.pos)
  {}

  /** One round of parseredirs on a printed redirection. */
  lemma RedirsStep(buf: Line, rs: seq<Redirection>, p: nat, r: RedirText, rest: string) returns (s: Slice)
    requires At(buf, p, PrintRedir(r) + rest) && GoodWord(r.file) && !Space(First(rest))
    ensures p + |PrintRedir(r)| <= |buf| && At(buf, p + |PrintRedir(r)|, rest) && Text(buf, s) == r.file
    ensures ParseRedirs(buf, rs, p) == ParseRedirs(buf, rs + [Redirection(s, r.out)], p + |PrintRedir(r)|)
  {
    hide ParseRedirs, GetToken, Skip, At, First, NextChar, PrintRedir, Text;
    var c := if r.out then '>' else '<';
    RedirText1(r, rest);
    FirstOf(r.file, " " + rest);
    TokenSymbol(buf, p, c, r.file + (" " + rest));
    TokenWord(buf, p + 1, r.file, rest);
    RedirsUnfold(buf, rs, p);
    s := Slice(p + 1, p + 1 + |r.file|);
  }

  lemma PrintRedirsCons(rs: seq<RedirText>, rest: string)
    requires rs != []
    ensures PrintRedirs(rs) + rest == PrintRedir(rs[0]) + (PrintRedirs(rs[1..]) + rest)
    ensures |PrintRedirs(rs)| == |PrintRedir(rs[0])| + |PrintRedirs(rs[1..])|
    ensures First(PrintRedirs(rs) + rest) == if rs[0].out then '>' else '<'
  {}

  lemma PrintRedirsNil(rest: string)
    ensures PrintRedirs([]) + rest == rest && |PrintRedirs([])| == 0
  {}

  lemma RedirsStart(rs: seq<RedirText>, rest: string)
    requires !Space(First(rest))
    ensures !Space(First(PrintRedirs(rs) + rest))
    ensures First(PrintRedirs(rs) + rest) in {'<', '>', First(rest)}
  {}

  lemma {:induction false} RedirsParse(buf: Line, rs0: seq<Redirection>, p: nat, rs: seq<RedirText>, rest: string)
    requires At(buf, p, PrintRedirs(rs) + rest) && GoodRedirs(rs)
    requires !Space(First(rest)) && First(rest) != '<' && First(rest) != '>'
    ensures p <= |buf| && var r := ParseRedirs(buf, rs0, p);
      r.Ok? && r.pos == p + |PrintRedirs(rs)| && At(buf, r.pos, rest) &&
        RedirTexts(buf, r.value) == RedirTexts(buf, rs0) + rs
    decreases |rs|
  {
    hide ParseRedirs, PrintRedirs, PrintRedir, Text, RedirTexts, First, At;
    if rs == [] {
      PrintRedirsNil(rest);
      RedirsStop(buf, rs0, p, rest);
    } else {
      PrintRedirsCons(rs, rest);
      RedirsStart(rs[1..], rest);
      var s := RedirsStep(buf, rs0, p, rs[0], PrintRedirs(rs[1..]) + rest);
      var rs1 := rs0 + [Redirection(s, rs[0].out)];
      RedirsParse(buf, rs1, p + |PrintRedir(rs[0])|, rs[1..], rest);
      assert RedirTexts(buf, rs1) == RedirTexts(buf, rs0) + [rs[0]];
      assert [rs[0]] + rs[1..] == rs;
    }
  }

  // ---------------------------------------------------------------- simple commands

  /** The redirections around a command, innermost first, and the command inside them. */
  function Redirs(t: Tree): seq<RedirText> { if t.TRedir? then Redirs(t.sub) + [t.to] else [] }

  function Core(t: Tree): Tree { if t.TRedir? then Core(t.sub) else t }

  lemma {:induction false} WrapCore(t: Tree)
    ensures WrapTree(Core(t), Redirs(t)) == t && !Core(t).TRedir?
    ensures Good(t) ==> Good(Core(t)) && GoodRedirs(Redirs(t))
    ensures t.TRedir? ==> Core(t) < t
  {
    if t.TRedir? {
      WrapCore(t.sub);
      assert Redirs(t)[..|Redirs(t)| - 1] == Redirs(t.sub);
    }
  }

  lemma {:induction false} PrintRedirsSnoc(rs: seq<RedirText>, r: RedirText)
    ensures PrintRedirs(rs + [r]) == PrintRedirs(rs) + PrintRedir(r)
    decreases |rs|
  {
    if rs == [] {
      assert PrintRedirs([r]) == PrintRedir(r) + PrintRedirs([]);
    } else {
      PrintRedirsSnoc(rs[1..], r);
      assert (rs + [r])[0] == rs[0] && (rs + [r])[1..] == rs[1..] + [r];
      Assoc(PrintRedir(rs[0]), PrintRedirs(rs[1..]), PrintRedir(r));
    }
  }

  lemma {:induction false} PrintCore(t: Tree)
    ensures PrintExec(t) == PrintExec(Core(t)) + PrintRedirs(Redirs(t))
  {
    if t.TRedir? {
      PrintCore(t.sub);
      PrintRedirsSnoc(Redirs(t.sub), t.to);
      Assoc(PrintExec(Core(t)), PrintRedirs(Redirs(t.sub)), PrintRedir(t.to));
    }
  }

  /** What may come after a command: the end, or a symbol that ends it. */
  predicate AfterExec(c: char) { c == '\0' || c == '|' || c == '&' || c == ';' || c == ')' }

  lemma ArgsDone(buf: Line, args: seq<Slice>, rs: seq<Redirection>, p: nat, rest: string)
    requires At(buf, p, rest) && AfterExec(First(rest))
    ensures p <= |buf| && ParseArgs(buf, args, rs, p) == Ok(Wrap(Exec(args), rs), p)
  {
    hide At, First, Wrap, ParseRedirs;
    NextIs(buf, p, rest);
    if First(rest) != '\0' { assert NextChar(buf, p) in "|)&;"; }
  }

  lemma ArgsUnfold(buf: Line, args: seq<Slice>, p: nat, t: Token)
    requires p <= |buf| && !Symbol(NextChar(buf, p)) && GetToken(buf, p) == t && t.kind == 'a' && t.pos <= |buf|
    requires |args| + 1 < MAXARGS
    ensures var more := ParseRedirs(buf, [], t.pos);
      ParseArgs(buf, args, [], p) == if more.Err? then Err
        else ParseArgs(buf, args + [Slice(t.q, t.eq)], more.value, more.pos)
  {}

  /** One round of parseexec's loop on a printed word. */
  lemma ArgsStep(buf: Line, args: seq<Slice>, p: nat, w: string, tail: string)
    requires At(buf, p, w + (" " + tail)) && GoodWord(w) && !Space(First(tail)) && |args| + 1 < MAXARGS
    ensures p + |w| + 1 <= |buf| && At(buf, p + |w| + 1, tail) && Text(buf, Slice(p, p + |w|)) == w
    ensures var more := ParseRedirs(buf, [], p + |w| + 1);
      ParseArgs(buf, args, [], p) == if more.Err? then Err
        else ParseArgs(buf, args + [Slice(p, p + |w|)], more.value, more.pos)
  {
    hide GetToken, Skip, At, First, NextChar, Text, ParseRedirs, ParseArgs;
    TokenWord(buf, p, w, tail);
    assert WordChar(w[0]);
    ArgsUnfold(buf, args, p, Token('a', p, p + |w|, p + |w| + 1));
  }

  lemma PrintWordsCons(args: seq<string>, rest: string)
    requires args != [] && GoodWords(args)
    ensures PrintWords(args) + rest == args[0] + (" " + (PrintWords(args[1..]) + rest))
    ensures |PrintWords(args)| == |args[0]| + 1 + |PrintWords(args[1..])|
    ensures WordChar(First(PrintWords(args) + rest))
  {
    Assoc(args[0] + " ", PrintWords(args[1..]), rest);
    Assoc(args[0], " ", PrintWords(args[1..]) + rest);
    assert GoodWord(args[0]);
    FirstOf(args[0], " " + (PrintWords(args[1..]) + rest));
  }

  lemma PrintWordsNil(rest: string)
    ensures PrintWords([]) + rest == rest && |PrintWords([])| == 0
  {}

  lemma TailStart(args: seq<string>, rs: seq<RedirText>, rest: string)
    requires GoodWords(args) && !Space(First(rest))
    ensures !Space(First(PrintWords(args) + (PrintRedirs(rs) + rest)))
  {}

  lemma LastArg(buf: Line, args: seq<Slice>, p: nat, rs: seq<RedirText>, rest: string)
    requires At(buf, p, PrintRedirs(rs) + rest) && GoodRedirs(rs) && AfterExec(First(rest))
    ensures p <= |buf| && ParseRedirs(buf, [], p).Ok?
    ensures var more := ParseRedirs(buf, [], p);
      ExecRead(buf, ParseArgs(buf, args, more.value, more.pos), p + |PrintRedirs(rs)|,
        WrapTree(TExec(Texts(buf, args)), rs), rest)
  {
    hide ParseArgs, ParseRedirs, PrintRedirs, WrapTree, Texts, Wrap, At, First, RedirTexts;
    RedirsParse(buf, [], p, rs, rest);
    var more := ParseRedirs(buf, [], p);
    ArgsDone(buf, args, more.value, more.pos, rest);
    ReadWrap(buf, Exec(args), more.value);
    assert RedirTexts(buf, []) + rs == rs;
  }

  /** A parse that read the tree and stopped at e, before rest. */
  predicate ExecRead(buf: Line, r: Result<Cmd>, e: nat, t: Tree, rest: string) {
    r.Ok? && r.pos == e && At(buf, e, rest) && Read(buf, r.value) == t
  }

  /** Words, then the redirections, then the end of a simple command. */
  lemma {:induction false} ArgsParse(buf: Line, args0: seq<Slice>, p: nat, args: seq<string>, rs: seq<RedirText>,
                                     rest: string)
    requires At(buf, p, PrintWords(args) + (PrintRedirs(rs) + rest)) && args != []
    requires GoodWords(args) && GoodRedirs(rs) && AfterExec(First(rest)) && |args0| + |args| < MAXARGS
    ensures p <= |buf|
    ensures ExecRead(buf, ParseArgs(buf, args0, [], p), p + |PrintWords(args)| + |PrintRedirs(rs)|,
      WrapTree(TExec(Texts(buf, args0) + args), rs), rest)
    decreases |args|
  {
    hide ParseArgs, ParseRedirs, PrintWords, PrintRedirs, WrapTree, Texts, RedirTexts, At, First, ExecRead, Text;
    var w, tail := args[0], PrintWords(args[1..]) + (PrintRedirs(rs) + rest);
    TailStart(args[1..], rs, rest);
    PrintWordsCons(args, PrintRedirs(rs) + rest);
    ArgsStep(buf, args0, p, w, tail);
    var p1 := p + |w| + 1;
    var args1 := args0 + [Slice(p, p + |w|)];
    assert Texts(buf, args1) == Texts(buf, args0) + [w];
    if |args| == 1 {
      PrintWordsNil(PrintRedirs(rs) + rest);
      LastArg(buf, args1, p1, rs, rest);
      assert Texts(buf, args0) + [w] == Texts(buf, args0) + args;
    } else {
      PrintWordsCons(args[1..], PrintRedirs(rs) + rest);
      RedirsStop(buf, [], p1, tail);
      ArgsParse(buf, args1, p1, args[1..], rs, rest);
      assert Texts(buf, args0) + [w] + args[1..] == Texts(buf, args0) + args;
    }
  }

  lemma SimpleParse(buf: Line, p: nat, args: seq<string>, rs: seq<RedirText>, rest: string)
    requires At(buf, p, PrintWords(args) + (PrintRedirs(rs) + rest))
    requires GoodWords(args) && GoodRedirs(rs) && AfterExec(First(rest)) && |args| < MAXARGS
    ensures p <= |buf| &&
      ExecRead(buf, ParseExec(buf, p), p + |PrintWords(args)| + |PrintRedirs(rs)|, WrapTree(TExec(args), rs), rest)
  {
    hide ParseArgs, ParseRedirs, PrintWords, PrintRedirs, WrapTree, Texts, RedirTexts, At, First, ExecRead, ParseBlock,
      NextChar;
    TailStart(args, rs, rest);
    NextIs(buf, p, PrintWords(args) + (PrintRedirs(rs) + rest));
    assert Texts(buf, []) == [];
    if args == [] {
      PrintWordsNil(PrintRedirs(rs) + rest);
      RedirsStart(rs, rest);
      LastArg(buf, [], p, rs, rest);
    } else {
      PrintWordsCons(args, PrintRedirs(rs) + rest);
      RedirsStop(buf, [], p, PrintWords(args) + (PrintRedirs(rs) + rest));
      ArgsParse(buf, [], p, args, rs, rest);
      assert [] + args == args;
    }
  }

  // ---------------------------------------------------------------- the grammar

  predicate AfterPipe(c: char) { c == '\0' || c == '&' || c == ';' || c == ')' }
  predicate AfterBack(c: char) { c == '\0' || c == ';' || c == ')' }
  predicate AfterLine(c: char) { c == '\0' || c == ')' }

  /** A list of n ampersands. */
  function Amps(n: nat): string { if n == 0 then "" else "&" + Amps(n - 1) }

  function BackCount(t: Tree): nat { if t.TBack? then BackCount(t.sub) + 1 else 0 }

  function BackCore(t: Tree): Tree { if t.TBack? then BackCore(t.sub) else t }

  function Backs(t: Tree, n: nat): Tree
    decreases n
  {
    if n == 0 then t else Backs(TBack(t), n - 1)
  }

  lemma {:induction false} BacksOut(t: Tree, n: nat)
    ensures Backs(TBack(t), n) == TBack(Backs(t, n))
    decreases n
  {
    if n > 0 { BacksOut(TBack(t), n - 1); }
  }

  lemma {:induction false} AmpsSnoc(n: nat)
    ensures Amps(n) + "&" == Amps(n + 1)
  {
    if n > 0 {
      AmpsSnoc(n - 1);
      Assoc("&", Amps(n - 1), "&");
    }
  }

  lemma {:induction false} BackShape(t: Tree)
    ensures PrintBack(t) == PrintPipe(BackCore(t)) + Amps(BackCount(t)) && Backs(BackCore(t), BackCount(t)) == t
    ensures Good(t) ==> Good(BackCore(t))
    ensures !BackCore(t).TBack? && (t.TBack? ==> BackCore(t) < t)
  {
    if t.TBack? {
      BackShape(t.sub);
      AmpsSnoc(BackCount(t.sub));
      Assoc(PrintPipe(BackCore(t)), Amps(BackCount(t.sub)), "&");
      BacksOut(BackCore(t), BackCount(t.sub));
    } else {
      assert PrintPipe(t) + "" == PrintPipe(t);
    }
  }

  lemma AmpsCons(n: nat, rest: string)
    requires n > 0
    ensures Amps(n) + rest == "&" + (Amps(n - 1) + rest) && |Amps(n)| == 1 + |Amps(n - 1)|
  {}

  lemma AmpsStart(n: nat, rest: string)
    ensures First(Amps(n) + rest) == if n > 0 then '&' else First(rest)
    ensures n == 0 ==> Amps(n) + rest == rest && |Amps(n)| == 0
  {}

  lemma BacksUnfold(buf: Line, c: Cmd, p: nat)
    requires p <= |buf|
    ensures NextChar(buf, p) == '&' ==> ParseBacks(buf, c, p) == ParseBacks(buf, Back(c), GetToken(buf, p).pos)
    ensures NextChar(buf, p) != '&' ==> ParseBacks(buf, c, p) == Ok(c, Skip(buf, p))
  {}

  /** parseline's loop reads the ampersands. */
  lemma {:induction false} BacksParse(buf: Line, c: Cmd, p: nat, n: nat, rest: string)
    requires At(buf, p, Amps(n) + rest) && AfterBack(First(rest))
    ensures p <= |buf| && ExecRead(buf, ParseBacks(buf, c, p), p + |Amps(n)|, Backs(Read(buf, c), n), rest)
    decreases n
  {
    hide ParseBacks, At, First, NextChar, Skip, GetToken, Amps;
    AmpsStart(n, rest);
    NextIs(buf, p, Amps(n) + rest);
    BacksUnfold(buf, c, p);
    if n > 0 {
      AmpsCons(n, rest);
      AmpsStart(n - 1, rest);
      TokenSymbol(buf, p, '&', Amps(n - 1) + rest);
      BacksParse(buf, Back(c), p + 1, n - 1, rest);
    }
  }

  // ---------------------------------------------------------- printed text starts with no white space and has no NUL

  predicate Clean(s: string) { (s == "" || !Space(s[0])) && '\0' !in s }

  lemma CleanPlus(a: string, b: string)
    requires Clean(a) && Clean(b)
    ensures Clean(a + b)
  {}

  lemma CleanFirst(a: string, rest: string)
    requires Clean(a) && !Space(First(rest))
    ensures !Space(First(a + rest))
  {}

  lemma WordClean(w: string)
    requires GoodWord(w)
    ensures Clean(w + " ")
  {}

  lemma {:induction false} WordsClean(args: seq<string>)
    requires GoodWords(args)
    ensures Clean(PrintWords(args))
    decreases |args|
  {
    if args != [] {
      assert GoodWord(args[0]);
      WordClean(args[0]);
      WordsClean(args[1..]);
      CleanPlus(args[0] + " ", PrintWords(args[1..]));
    }
  }

  lemma RedirClean(r: RedirText)
    requires GoodWord(r.file)
    ensures Clean(PrintRedir(r))
  {}

  lemma {:induction false} LineClean(t: Tree)
    requires Good(t)
    ensures Clean(PrintLine(t))
    decreases t, LineRank(t)
  {
    if t.TList? {
      BackClean(t.left);
      LineClean(t.right);
      CleanPlus(PrintBack(t.left), ";");
      CleanPlus(PrintBack(t.left) + ";", PrintLine(t.right));
    } else {
      BackClean(t);
    }
  }

  lemma {:induction false} BackClean(t: Tree)
    requires Good(t)
    ensures Clean(PrintBack(t))
    decreases t, BackRank(t)
  {
    if t.TBack? {
      BackClean(t.sub);
      CleanPlus(PrintBack(t.sub), "&");
    } else {
      PipeClean(t);
    }
  }

  lemma {:induction false} PipeClean(t: Tree)
    requires Good(t)
    ensures Clean(PrintPipe(t))
    decreases t, PipeRank(t)
  {
    if t.TPipe? {
      ExecClean(t.left);
      PipeClean(t.right);
      CleanPlus(PrintExec(t.left), "|");
      CleanPlus(PrintExec(t.left) + "|", PrintPipe(t.right));
    } else {
      ExecClean(t);
    }
  }

  lemma {:induction false} ExecClean(t: Tree)
    requires Good(t)
    ensures Clean(PrintExec(t))
    decreases t, ExecRank(t)
  {
    match t
    case TExec(args) => WordsClean(args);
    case TRedir(sub, to) =>
      ExecClean(sub);
      RedirClean(to);
      CleanPlus(PrintExec(sub), PrintRedir(to));
    case _ =>
      LineClean(t);
      CleanPlus("(", PrintLine(t));
      CleanPlus("(" + PrintLine(t), ")");
  }

  // ---------------------------------------------------------------- one level of the grammar at a time

  lemma ExecUnfold(buf: Line, p: nat)
    requires p <= |buf| && NextChar(buf, p) == '('
    ensures var open := GetToken(buf, p); var inner := ParseLine(buf, open.pos);
      inner.Ok? && NextChar(buf, inner.pos) == ')' ==>
        var rs := ParseRedirs(buf, [], GetToken(buf, inner.pos).pos);
        ParseExec(buf, p) == if rs.Err? then Err else Ok(Wrap(inner.value, rs.value), rs.pos)
  {
    hide GetToken, NextChar, ParseLine, ParseRedirs, Wrap;
    assert '(' in "(" && ')' in ")";
  }

  lemma PipeUnfold(buf: Line, p: nat)
    requires p <= |buf|
    ensures var left := ParseExec(buf, p);
      left.Ok? ==>
        var right := ParsePipe(buf, GetToken(buf, left.pos).pos);
        ParsePipe(buf, p) == if NextChar(buf, left.pos) != '|' then Ok(left.value, Skip(buf, left.pos))
                             else if right.Err? then Err else Ok(Pipe(left.value, right.value), right.pos)
  {}

  lemma LineUnfold(buf: Line, p: nat)
    requires p <= |buf|
    ensures var first := ParsePipe(buf, p);
      first.Ok? ==>
        var backs := ParseBacks(buf, first.value, first.pos);
        var rest := ParseLine(buf, GetToken(buf, backs.pos).pos);
        ParseLine(buf, p) == if NextChar(buf, backs.pos) != ';' then Ok(backs.value, Skip(buf, backs.pos))
                             else if rest.Err? then Err else Ok(List(backs.value, rest.value), rest.pos)
  {}

  /** The text of a parenthesised command with its redirections, piece by piece. */
  lemma BlockText(t: Tree, rest: string)
    requires !Core(t).TExec? && !Core(t).TRedir?
    ensures PrintExec(t) + rest == ['('] + (PrintLine(Core(t)) + ([')'] + (PrintRedirs(Redirs(t)) + rest)))
    ensures |PrintExec(t)| == |PrintLine(Core(t))| + 2 + |PrintRedirs(Redirs(t))|
  {
    PrintCore(t);
    var l, rs := PrintLine(Core(t)), PrintRedirs(Redirs(t));
    assert PrintExec(Core(t)) == "(" + l + ")";
    hide PrintLine, PrintRedirs, PrintExec, Core, Redirs;
    Assoc("(" + l + ")", rs, rest);
    Assoc("(" + l, ")", rs + rest);
    Assoc("(", l, ")" + (rs + rest));
  }

  lemma PipeText(t: Tree, rest: string)
    requires t.TPipe?
    ensures PrintPipe(t) + rest == PrintExec(t.left) + (['|'] + (PrintPipe(t.right) + rest))
    ensures |PrintPipe(t)| == |PrintExec(t.left)| + 1 + |PrintPipe(t.right)|
  {}

  lemma ListText(t: Tree, rest: string)
    requires t.TList?
    ensures PrintLine(t) + rest == PrintBack(t.left) + ([';'] + (PrintLine(t.right) + rest))
    ensures |PrintLine(t)| == |PrintBack(t.left)| + 1 + |PrintLine(t.right)|
  {}

  lemma OneLevel(t: Tree)
    ensures !t.TPipe? ==> PrintPipe(t) == PrintExec(t)
    ensures !t.TList? ==> PrintLine(t) == PrintBack(t)
  {}

  lemma SimpleText(t: Tree, rest: string)
    requires Core(t).TExec?
    ensures PrintExec(t) + rest == PrintWords(Core(t).args) + (PrintRedirs(Redirs(t)) + rest)
    ensures |PrintExec(t)| == |PrintWords(Core(t).args)| + |PrintRedirs(Redirs(t))|
  {
    PrintCore(t);
    Assoc(PrintWords(Core(t).args), PrintRedirs(Redirs(t)), rest);
  }

  /** parseexec reads back a command printed with its parentheses and redirections. */
  lemma {:induction false} ExecParse(buf: Line, p: nat, t: Tree, rest: string)
    requires At(buf, p, PrintExec(t) + rest) && Good(t) && AfterExec(First(rest))
    ensures p <= |buf| && ExecRead(buf, ParseExec(buf, p), p + |PrintExec(t)|, t, rest)
    decreases t, ExecRank(t)
  {
    hide ParseExec, ParseLine, ParseRedirs, PrintExec, PrintLine, PrintRedirs, PrintWords, At, First, NextChar,
      GetToken, Skip, Read, WrapTree, RedirTexts;
    WrapCore(t);
    var core, rs := Core(t), Redirs(t);
    if core.TExec? {
      SimpleText(t, rest);
      SimpleParse(buf, p, core.args, rs, rest);
    } else {
      BlockText(t, rest);
      var s3 := PrintRedirs(rs) + rest;
      BlockOpens(buf, p, core, rs, rest);
      LineParse(buf, p + 1, core, [')'] + s3);
      BlockCloses(buf, p, core, rs, rest);
    }
  }

  lemma BlockOpens(buf: Line, p: nat, core: Tree, rs: seq<RedirText>, rest: string)
    requires At(buf, p, ['('] + (PrintLine(core) + ([')'] + (PrintRedirs(rs) + rest)))) && Good(core)
    ensures p + 1 <= |buf| && At(buf, p + 1, PrintLine(core) + ([')'] + (PrintRedirs(rs) + rest)))
    ensures First([')'] + (PrintRedirs(rs) + rest)) == ')'
    ensures GetToken(buf, p) == Token('(', p, p + 1, p + 1) && NextChar(buf, p) == '('
  {
    hide PrintLine, PrintRedirs, At, First, NextChar, GetToken, Skip;
    var s2 := [')'] + (PrintRedirs(rs) + rest);
    FirstOf([')'], PrintRedirs(rs) + rest);
    LineClean(core);
    CleanFirst(PrintLine(core), s2);
    TokenSymbol(buf, p, '(', PrintLine(core) + s2);
  }

  lemma BlockCloses(buf: Line, p: nat, core: Tree, rs: seq<RedirText>, rest: string)
    requires p + 1 <= |buf| && GetToken(buf, p) == Token('(', p, p + 1, p + 1) && NextChar(buf, p) == '('
    requires ExecRead(buf, ParseLine(buf, p + 1), p + 1 + |PrintLine(core)|, core, [')'] + (PrintRedirs(rs) + rest))
    requires GoodRedirs(rs) && AfterExec(First(rest))
    ensures ExecRead(buf, ParseExec(buf, p), p + |PrintLine(core)| + 2 + |PrintRedirs(rs)|, WrapTree(core, rs), rest)
  {
    hide ParseExec, ParseLine, ParseRedirs, PrintLine, PrintRedirs, At, First, NextChar, GetToken, Skip, Read,
      WrapTree, RedirTexts, Wrap;
    var e := p + 1 + |PrintLine(core)|;
    RedirsStart(rs, rest);
    TokenSymbol(buf, e, ')', PrintRedirs(rs) + rest);
    RedirsParse(buf, [], e + 1, rs, rest);
    ExecUnfold(buf, p);
    ReadWrap(buf, ParseLine(buf, p + 1).value, ParseRedirs(buf, [], e + 1).value);
    assert RedirTexts(buf, []) + rs == rs;
  }

  lemma TenthUnfold(buf: Line, args: seq<Slice>, p: nat, t: Token)
    requires p <= |buf| && !Symbol(NextChar(buf, p)) && GetToken(buf, p) == t && t.kind == 'a' && |args| == 9
    ensures ParseArgs(buf, args, [], p) == Err
  {}

  lemma {:induction false} TenthArg(buf: Line, args0: seq<Slice>, p: nat, args: seq<string>)
    requires At(buf, p, PrintWords(args) + "") && GoodWords(args) && |args0| <= 9 && |args0| + |args| >= 10
    ensures p <= |buf| && ParseArgs(buf, args0, [], p).Err?
    decreases |args|
  {
    hide ParseArgs, ParseRedirs, PrintWords, At, First, NextChar, GetToken, Skip, Text;
    var w, tail := args[0], PrintWords(args[1..]) + "";
    PrintWordsCons(args, "");
    if |args| > 1 { PrintWordsCons(args[1..], ""); } else { PrintWordsNil(""); }
    NotSpaceFirst(args[1..]);
    if |args0| == 9 {
      TokenWord(buf, p, w, tail);
      assert WordChar(w[0]);
      TenthUnfold(buf, args0, p, Token('a', p, p + |w|, p + |w| + 1));
    } else {
      ArgsStep(buf, args0, p, w, tail);
      RedirsStop(buf, [], p + |w| + 1, tail);
      TenthArg(buf, args0 + [Slice(p, p + |w|)], p + |w| + 1, args[1..]);
    }
  }

  lemma NotSpaceFirst(args: seq<string>)
    requires GoodWords(args)
    ensures !Space(First(PrintWords(args) + "")) && First(PrintWords(args) + "") != '<' &&
      First(PrintWords(args) + "") != '>'
  {
    if args != [] { PrintWordsCons(args, ""); }
  }

  lemma TenWordsExec(buf: Line, args: seq<string>)
    requires At(buf, 0, PrintWords(args) + "") && GoodWords(args) && |args| >= 10
    ensures ParseExec(buf, 0).Err?
  {
    hide ParseArgs, ParseRedirs, PrintWords, First, NextChar, At, ParseBlock;
    NotSpaceFirst(args);
    PrintWordsCons(args, "");
    NextIs(buf, 0, PrintWords(args) + "");
    RedirsStop(buf, [], 0, PrintWords(args) + "");
    TenthArg(buf, [], 0, args);
  }

  lemma ErrorStays(buf: Line)
    requires ParseExec(buf, 0).Err?
    ensures ParseCmd(buf).Err?
  {
    hide ParseExec, Skip, GetToken;
    assert ParsePipe(buf, 0).Err?;
    assert ParseLine(buf, 0).Err?;
  }

  /** A command of ten words or more is an error. */
  lemma TenWords(buf: Line, args: seq<string>)
    requires buf == PrintWords(args) && GoodWords(args) && |args| >= 10
    ensures ParseCmd(buf).Err?
  {
    hide PrintWords, ParseExec, ParseCmd;
    assert At(buf, 0, PrintWords(args) + "");
    TenWordsExec(buf, args);
    ErrorStays(buf);
  }

  /** parsepipe reads back a pipeline. */
  lemma {:induction false} PipeParse(buf: Line, p: nat, t: Tree, rest: string)
    requires At(buf, p, PrintPipe(t) + rest) && Good(t) && AfterPipe(First(rest))
    ensures p <= |buf| && ExecRead(buf, ParsePipe(buf, p), p + |PrintPipe(t)|, t, rest)
    decreases t, PipeRank(t)
  {
    hide ParseExec, ParsePipe, PrintExec, PrintPipe, At, First, NextChar, GetToken, Skip;
    if t.TPipe? {
      var s2 := PrintPipe(t.right) + rest;
      PipeText(t, rest);
      FirstOf(['|'], s2);
      PipeClean(t.right);
      CleanFirst(PrintPipe(t.right), rest);
      ExecParse(buf, p, t.left, ['|'] + s2);
      var e := p + |PrintExec(t.left)|;
      TokenSymbol(buf, e, '|', s2);
      PipeParse(buf, e + 1, t.right, rest);
      PipeUnfold(buf, p);
    } else {
      OneLevel(t);
      ExecParse(buf, p, t, rest);
      NextIs(buf, p + |PrintExec(t)|, rest);
      PipeUnfold(buf, p);
    }
  }

  /** A pipeline and its ampersands, as parseline reads them. */
  lemma {:induction false} BackParse(buf: Line, p: nat, t: Tree, rest: string)
    requires At(buf, p, PrintBack(t) + rest) && Good(t) && AfterBack(First(rest))
    ensures p <= |buf| && ParsePipe(buf, p).Ok?
    ensures var first := ParsePipe(buf, p);
      ExecRead(buf, ParseBacks(buf, first.value, first.pos), p + |PrintBack(t)|, t, rest)
    decreases t, BackRank(t)
  {
    hide ParsePipe, ParseBacks, PrintPipe, PrintBack, At, First, Amps;
    BackShape(t);
    var core, n := BackCore(t), BackCount(t);
    Assoc(PrintPipe(core), Amps(n), rest);
    AmpsStart(n, rest);
    PipeParse(buf, p, core, Amps(n) + rest);
    BacksParse(buf, ParsePipe(buf, p).value, p + |PrintPipe(core)|, n, rest);
  }

  /** parseline reads back a line. */
  lemma {:induction false} LineParse(buf: Line, p: nat, t: Tree, rest: string)
    requires At(buf, p, PrintLine(t) + rest) && Good(t) && AfterLine(First(rest))
    ensures p <= |buf| && ExecRead(buf, ParseLine(buf, p), p + |PrintLine(t)|, t, rest)
    decreases t, LineRank(t)
  {
    hide ParseLine, ParsePipe, ParseBacks, PrintBack, PrintLine, At, First, NextChar, GetToken, Skip;
    if t.TList? {
      var s2 := PrintLine(t.right) + rest;
      ListText(t, rest);
      FirstOf([';'], s2);
      LineClean(t.right);
      CleanFirst(PrintLine(t.right), rest);
      BackParse(buf, p, t.left, [';'] + s2);
      var e := p + |PrintBack(t.left)|;
      TokenSymbol(buf, e, ';', s2);
      LineParse(buf, e + 1, t.right, rest);
      LineUnfold(buf, p);
    } else {
      OneLevel(t);
      BackParse(buf, p, t, rest);
      NextIs(buf, p + |PrintBack(t)|, rest);
      LineUnfold(buf, p);
    }
  }

  /** Every tree of good words with at most nine arguments a command is read back from its printed line. */
  lemma RoundTrip(t: Tree)
    requires Good(t)
    ensures '\0' !in PrintLine(t) && ParseCmd(PrintLine(t)).Ok? && Read(PrintLine(t), ParseCmd(PrintLine(t)).value) == t
  {
    hide PrintLine, ParseLine, Skip, NextChar, Read;
    LineClean(t);
    WholeLine(PrintLine(t), t);
  }

  lemma WholeLine(buf: Line, t: Tree)
    requires Good(t) && buf == PrintLine(t)
    ensures ParseCmd(buf).Ok? && Read(buf, ParseCmd(buf).value) == t
  {
    hide PrintLine, ParseLine, Skip, NextChar, Read;
    assert At(buf, 0, PrintLine(t) + "");
    LineParse(buf, 0, t, "");
    NextIs(buf, |buf|, "");
  }
}
