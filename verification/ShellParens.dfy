/** No line that sh.c reads as a tree has fewer parentheses than the one printed for it. */
module ShellParens {
  import opened ShellModel
  import opened ShellRoundTrip

  /** How often c occurs in buf[lo..hi]. */
  function Count(buf: string, lo: nat, hi: nat, c: char): nat
    requires lo <= hi <= |buf|
  {
    multiset(buf[lo..hi])[c]
  }

  function Occurs(s: string, c: char): nat { multiset(s)[c] }

  predicate Paren(c: char) { c == '(' || c == ')' }

  lemma CountSplit(buf: string, lo: nat, mid: nat, hi: nat, c: char)
    requires lo <= mid <= hi <= |buf|
    ensures Count(buf, lo, hi, c) == Count(buf, lo, mid, c) + Count(buf, mid, hi, c)
  {
    assert buf[lo..hi] == buf[lo..mid] + buf[mid..hi];
  }

  lemma CountHere(buf: string, lo: nat, at: nat, hi: nat, c: char)
    requires lo <= at < hi <= |buf| && buf[at] == c
    ensures Count(buf, lo, hi, c) >= 1
  {
    assert buf[lo..hi][at - lo] == c;
  }

  // ---------------------------------------------------------------- pairs the grammar asks for

  /** Pairs needed where a line may stand, a command with its &s, a pipeline, and a command in one. */
  function LineNeeds(t: Tree): nat
    decreases t, LineRank(t)
  {
    if t.TList? then BackNeeds(t.left) + LineNeeds(t.right) else BackNeeds(t)
  }

  function BackNeeds(t: Tree): nat
    decreases t, BackRank(t)
  {
    if t.TBack? then BackNeeds(t.sub) else PipeNeeds(t)
  }

  function PipeNeeds(t: Tree): nat
    decreases t, PipeRank(t)
  {
    if t.TPipe? then ExecNeeds(t.left) + PipeNeeds(t.right) else ExecNeeds(t)
  }

  function ExecNeeds(t: Tree): nat
    decreases t, ExecRank(t)
  {
    match t
    case TExec(_) => 0
    case TRedir(sub, _) => ExecNeeds(sub)
    case _ => 1 + LineNeeds(t)
  }

  /** A looser place never needs more, and a pair makes any tree fit where a command stands. */
  lemma NeedsOrder(t: Tree)
    ensures LineNeeds(t) <= BackNeeds(t) <= PipeNeeds(t) <= ExecNeeds(t) <= 1 + LineNeeds(t)
  {}

  lemma {:induction false} WrapNeeds(t: Tree, rs: seq<RedirText>)
    ensures ExecNeeds(WrapTree(t, rs)) == ExecNeeds(t)
    decreases |rs|
  {
    if rs != [] { WrapNeeds(t, rs[..|rs| - 1]); }
  }

  // ---------------------------------------------------------------- what is printed

  lemma OccursPlus(a: string, b: string, c: char)
    ensures Occurs(a + b, c) == Occurs(a, c) + Occurs(b, c)
  {}

  lemma {:induction false} WordsPlain(args: seq<string>, c: char)
    requires GoodWords(args) && Paren(c)
    ensures Occurs(PrintWords(args), c) == 0
    decreases |args|
  {
    if args != [] {
      assert GoodWord(args[0]);
      WordsPlain(args[1..], c);
      OccursPlus(args[0], " ", c);
      OccursPlus(args[0] + " ", PrintWords(args[1..]), c);
    }
  }

  lemma RedirPlain(r: RedirText, c: char)
    requires GoodWord(r.file) && Paren(c)
    ensures Occurs(PrintRedir(r), c) == 0
  {}

  lemma {:induction false} LinePrints(t: Tree, c: char)
    requires Good(t) && Paren(c)
    ensures Occurs(PrintLine(t), c) == LineNeeds(t)
    decreases t, LineRank(t)
  {
    if t.TList? {
      BackPrints(t.left, c);
      LinePrints(t.right, c);
      OccursPlus(PrintBack(t.left), ";", c);
      OccursPlus(PrintBack(t.left) + ";", PrintLine(t.right), c);
    } else {
      BackPrints(t, c);
    }
  }

  lemma {:induction false} BackPrints(t: Tree, c: char)
    requires Good(t) && Paren(c)
    ensures Occurs(PrintBack(t), c) == BackNeeds(t)
    decreases t, BackRank(t)
  {
    if t.TBack? {
      BackPrints(t.sub, c);
      OccursPlus(PrintBack(t.sub), "&", c);
    } else {
      PipePrints(t, c);
    }
  }

  lemma {:induction false} PipePrints(t: Tree, c: char)
    requires Good(t) && Paren(c)
    ensures Occurs(PrintPipe(t), c) == PipeNeeds(t)
    decreases t, PipeRank(t)
  {
    if t.TPipe? {
      ExecPrints(t.left, c);
      PipePrints(t.right, c);
      OccursPlus(PrintExec(t.left), "|", c);
      OccursPlus(PrintExec(t.left) + "|", PrintPipe(t.right), c);
    } else {
      ExecPrints(t, c);
    }
  }

  lemma {:induction false} ExecPrints(t: Tree, c: char)
    requires Good(t) && Paren(c)
    ensures Occurs(PrintExec(t), c) == ExecNeeds(t)
    decreases t, ExecRank(t)
  {
    hide Occurs, PrintWords, PrintRedir, PrintLine, LineNeeds;
    match t
    case TExec(args) => WordsPlain(args, c);
    case TRedir(sub, to) =>
      ExecPrints(sub, c);
      RedirPlain(to, c);
      OccursPlus(PrintExec(sub), PrintRedir(to), c);
    case _ =>
      LinePrints(t, c);
      OccursPlus("(", PrintLine(t), c);
      OccursPlus("(" + PrintLine(t), ")", c);
      OnePair(c);
  }

  lemma OnePair(c: char)
    requires Paren(c)
    ensures Occurs("(", c) + Occurs(")", c) == 1
  {}

  // ---------------------------------------------------------------- what is read

  lemma {:induction false} ArgsNeed(buf: Line, args: seq<Slice>, rs: seq<Redirection>, p: nat)
    requires p <= |buf|
    ensures var r := ParseArgs(buf, args, rs, p); r.Ok? ==> ExecNeeds(Read(buf, r.value)) == 0
    decreases |buf| - p
  {
    hide Read, ParseRedirs, Skip;
    var t := GetToken(buf, p);
    if Peek(buf, p, "|)&;") || t.kind == '\0' {
      SimpleNeeds(buf, args, rs);
    } else if t.kind == 'a' && |args| + 1 < MAXARGS {
      var more := ParseRedirs(buf, rs, t.pos);
      if more.Ok? { ArgsNeed(buf, args + [Slice(t.q, t.eq)], more.value, more.pos); }
    }
  }

  lemma SimpleNeeds(buf: Line, args: seq<Slice>, rs: seq<Redirection>)
    ensures ExecNeeds(Read(buf, Wrap(Exec(args), rs))) == 0
  {
    ReadWrap(buf, Exec(args), rs);
    WrapNeeds(TExec(Texts(buf, args)), RedirTexts(buf, rs));
  }

  lemma {:induction false} ExecPays(buf: Line, p: nat, c: char)
    requires p <= |buf| && Paren(c)
    ensures var r := ParseExec(buf, p); r.Ok? ==> ExecNeeds(Read(buf, r.value)) <= Count(buf, p, r.pos, c)
    decreases |buf| - p, 1
  {
    hide Read, ParseRedirs, ParseLine, Skip, Count, ExecNeeds, GetToken;
    if Peek(buf, p, "(") {
      if ParseBlock(buf, p).Ok? { BlockPays(buf, p, c); }
    } else {
      var rs := ParseRedirs(buf, [], p);
      if rs.Ok? { ArgsNeed(buf, [], rs.value, rs.pos); }
    }
  }

  lemma BracketToken(buf: Line, p: nat, c: char)
    requires p <= |buf| && Paren(c) && Peek(buf, p, [c])
    ensures var t := GetToken(buf, p); Count(buf, p, t.pos, c) >= 1 && p < t.pos
  {
    CountHere(buf, p, Skip(buf, p), GetToken(buf, p).pos, c);
  }

  lemma {:induction false} BlockPays(buf: Line, p: nat, c: char)
    requires p <= |buf| && Paren(c) && Peek(buf, p, "(") && ParseBlock(buf, p).Ok?
    ensures var r := ParseBlock(buf, p); ExecNeeds(Read(buf, r.value)) <= Count(buf, p, r.pos, c)
    decreases |buf| - p, 0
  {
    hide Read, ParseRedirs, ParseLine, Skip, Count, ExecNeeds, GetToken, Wrap, RedirTexts, WrapTree, Peek, LineNeeds;
    BracketToken(buf, p, '(');
    var open := GetToken(buf, p);
    var inner := ParseLine(buf, open.pos);
    LinePays(buf, open.pos, c);
    BracketToken(buf, inner.pos, ')');
    var close := GetToken(buf, inner.pos);
    var rs := ParseRedirs(buf, [], close.pos);
    ReadWrap(buf, inner.value, rs.value);
    WrapNeeds(Read(buf, inner.value), RedirTexts(buf, rs.value));
    NeedsOrder(Read(buf, inner.value));
    CountSplit(buf, p, open.pos, rs.pos, c);
    CountSplit(buf, open.pos, inner.pos, rs.pos, c);
    CountSplit(buf, inner.pos, close.pos, rs.pos, c);
  }

  lemma {:induction false} PipePays(buf: Line, p: nat, c: char)
    requires p <= |buf| && Paren(c)
    ensures var r := ParsePipe(buf, p); r.Ok? ==> PipeNeeds(Read(buf, r.value)) <= Count(buf, p, r.pos, c)
    decreases |buf| - p, 2
  {
    hide ParseExec, Skip, Count, ExecNeeds, GetToken;
    ExecPays(buf, p, c);
    var left := ParseExec(buf, p);
    if left.Ok? {
      if !Peek(buf, left.pos, "|") {
        NeedsOrder(Read(buf, left.value));
        CountSplit(buf, p, left.pos, Skip(buf, left.pos), c);
      } else {
        var q := GetToken(buf, left.pos).pos;
        PipePays(buf, q, c);
        var right := ParsePipe(buf, q);
        if right.Ok? {
          CountSplit(buf, p, left.pos, right.pos, c);
          CountSplit(buf, left.pos, q, right.pos, c);
        }
      }
    }
  }

  lemma {:induction false} BacksPay(buf: Line, cmd: Cmd, p: nat)
    requires p <= |buf|
    ensures BackNeeds(Read(buf, ParseBacks(buf, cmd, p).value)) == BackNeeds(Read(buf, cmd))
    decreases |buf| - p
  {
    hide Skip, GetToken, PipeNeeds;
    if Peek(buf, p, "&") { BacksPay(buf, Back(cmd), GetToken(buf, p).pos); }
  }

  lemma {:induction false} LinePays(buf: Line, p: nat, c: char)
    requires p <= |buf| && Paren(c)
    ensures var r := ParseLine(buf, p); r.Ok? ==> LineNeeds(Read(buf, r.value)) <= Count(buf, p, r.pos, c)
    decreases |buf| - p, 3
  {
    hide ParsePipe, ParseBacks, Skip, Count, BackNeeds, PipeNeeds, GetToken;
    PipePays(buf, p, c);
    var first := ParsePipe(buf, p);
    if first.Ok? {
      var backs := ParseBacks(buf, first.value, first.pos);
      BacksPay(buf, first.value, first.pos);
      NeedsOrder(Read(buf, first.value));
      if !Peek(buf, backs.pos, ";") {
        NeedsOrder(Read(buf, backs.value));
        CountSplit(buf, p, first.pos, Skip(buf, backs.pos), c);
      } else {
        var q := GetToken(buf, backs.pos).pos;
        LinePays(buf, q, c);
        var rest := ParseLine(buf, q);
        if rest.Ok? {
          CountSplit(buf, p, first.pos, rest.pos, c);
          CountSplit(buf, first.pos, q, rest.pos, c);
        }
      }
    }
  }

  /** A line with fewer opening, or fewer closing, parentheses than the printed one does not read as the tree; so
      no pair of the printed line can be left out. */
  lemma FewestParens(t: Tree, buf: Line, c: char)
    requires Good(t) && Paren(c) && ParseCmd(buf).Ok? && Read(buf, ParseCmd(buf).value) == t
    ensures Occurs(PrintLine(t), c) <= Occurs(buf, c)
  {
    hide Good, ParseLine, Skip, LineNeeds, PrintLine;
    LinePays(buf, 0, c);
    LinePrints(t, c);
    var r := ParseLine(buf, 0);
    CountSplit(buf, 0, r.pos, |buf|, c);
    assert buf[0..|buf|] == buf;
  }

  /** The printed line with one of its pairs taken out no longer reads as the tree. */
  lemma PairNeeded(t: Tree, i: nat, j: nat, buf: Line)
    requires Good(t) && i < j < |PrintLine(t)| && PrintLine(t)[i] == '(' && PrintLine(t)[j] == ')'
    requires buf == PrintLine(t)[..i] + PrintLine(t)[i + 1..j] + PrintLine(t)[j + 1..]
    ensures ParseCmd(buf).Ok? ==> Read(buf, ParseCmd(buf).value) != t
  {
    hide Good, ParseCmd, Read, PrintLine;
    var s := PrintLine(t);
    assert s == s[..i] + ['('] + s[i + 1..j] + [')'] + s[j + 1..];
    assert Occurs(s, '(') == Occurs(buf, '(') + 1;
    if ParseCmd(buf).Ok? && Read(buf, ParseCmd(buf).value) == t {
      FewestParens(t, buf, '(');
    }
  }
}
