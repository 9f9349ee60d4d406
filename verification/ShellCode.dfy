/** sh.c's parser as it runs: a cursor into the line that gettoken and peek move along, loops in
    parseredirs, parseexec and parseline, and nulterminate writing into the line. */
module ShellCode {
  import opened ShellModel
  import opened ShellRoundTrip

  /** Every word of a command is a whole word of the line. */
  predicate WordsOk(buf: Line, c: Cmd) {
    match c
    case Exec(args) => forall i :: 0 <= i < |args| ==> IsWord(buf, args[i])
    case Redir(sub, to) => WordsOk(buf, sub) && IsWord(buf, to.file)
    case Pipe(left, right) => WordsOk(buf, left) && WordsOk(buf, right)
    case List(left, right) => WordsOk(buf, left) && WordsOk(buf, right)
    case Back(sub) => WordsOk(buf, sub)
  }

  predicate RedirsOk(buf: Line, rs: seq<Redirection>) { forall i :: 0 <= i < |rs| ==> IsWord(buf, rs[i].file) }

  lemma {:induction false} WrapWords(buf: Line, c: Cmd, rs: seq<Redirection>)
    requires WordsOk(buf, c) && RedirsOk(buf, rs)
    ensures WordsOk(buf, Wrap(c, rs))
    decreases |rs|
  {
    if rs != [] { WrapWords(buf, c, rs[..|rs| - 1]); }
  }

  lemma SkipTwice(buf: Line, p: nat)
    requires p <= |buf|
    ensures Skip(buf, Skip(buf, p)) == Skip(buf, p) && GetToken(buf, Skip(buf, p)) == GetToken(buf, p)
  {
  }

  // ---------------------------------------------------------------- the cursor

  method SkipSpaces(buf: Line, p: nat) returns (s: nat)
    requires p <= |buf|
    ensures s == Skip(buf, p)
  {
    s := p;
    while s < |buf| && buf[s] in WHITESPACE
      invariant p <= s <= |buf| && Skip(buf, s) == Skip(buf, p)
    {
      s := s + 1;
    }
  }

  method Gettoken(buf: Line, ps: nat) returns (t: Token)
    requires ps <= |buf|
    ensures t == GetToken(buf, ps)
  {
    hide Skip, IsWord;
    var s := SkipSpaces(buf, ps);
    var q := s;
    var ret := if s < |buf| then buf[s] else '\0';
    if ret == '\0' {
    } else if ret == '|' || ret == '(' || ret == ')' || ret == ';' || ret == '&' || ret == '<' {
      s := s + 1;
    } else if ret == '>' {
      s := s + 1;
      if s < |buf| && buf[s] == '>' {
        ret := '+';
        s := s + 1;
      }
    } else {
      ret := 'a';
      while s < |buf| && buf[s] !in WHITESPACE && buf[s] !in SYMBOLS
        invariant q <= s <= |buf| && WordEnd(buf, s) == WordEnd(buf, q)
      {
        s := s + 1;
      }
    }
    var eq := s;
    s := SkipSpaces(buf, s);
    return Token(ret, q, eq, s);
  }

  method PeekAt(buf: Line, ps: nat, toks: string) returns (s: nat, hit: bool)
    requires ps <= |buf|
    ensures s == Skip(buf, ps) && hit == Peek(buf, ps, toks)
  {
    s := SkipSpaces(buf, ps);
    hit := s < |buf| && buf[s] in toks;
  }

  // ---------------------------------------------------------------- the parse functions

  method Parseredirs(buf: Line, rs: seq<Redirection>, ps: nat) returns (r: Result<seq<Redirection>>)
    requires ps <= |buf| && RedirsOk(buf, rs)
    ensures r == ParseRedirs(buf, rs, ps) && (r.Ok? ==> RedirsOk(buf, r.value))
  {
    hide Skip, GetToken, IsWord;
    var cmd, p := rs, ps;
    var s, hit := PeekAt(buf, p, "<>");
    while hit
      invariant p <= |buf| && s == Skip(buf, p) && hit == Peek(buf, p, "<>") && RedirsOk(buf, cmd)
      invariant ParseRedirs(buf, cmd, p) == ParseRedirs(buf, rs, ps)
      decreases |buf| - p
    {
      SkipTwice(buf, p);
      var tok := Gettoken(buf, s);
      var f := Gettoken(buf, tok.pos);
      if f.kind != 'a' {
        return Err;
      }
      cmd, p := cmd + [Redirection(Slice(f.q, f.eq), tok.kind != '<')], f.pos;
      s, hit := PeekAt(buf, p, "<>");
    }
    return Ok(cmd, s);
  }

  method Parseexec(buf: Line, ps: nat) returns (r: Result<Cmd>)
    requires ps <= |buf|
    ensures r == ParseExec(buf, ps) && (r.Ok? ==> WordsOk(buf, r.value))
    decreases |buf| - ps, 1
  {
    var s, hit := PeekAt(buf, ps, "(");
    if hit {
      r := Parseblock(buf, ps);
      return;
    }
    var rs := Parseredirs(buf, [], ps);
    if rs.Err? {
      return Err;
    }
    r := Arguments(buf, rs.value, rs.pos);
  }

  /** parseexec's loop. */
  method Arguments(buf: Line, rs0: seq<Redirection>, ps: nat) returns (r: Result<Cmd>)
    requires ps <= |buf| && RedirsOk(buf, rs0)
    ensures r == ParseArgs(buf, [], rs0, ps) && (r.Ok? ==> WordsOk(buf, r.value))
  {
    var args, rs, p := [], rs0, ps;
    var s, hit := PeekAt(buf, p, "|)&;");
    while !hit
      invariant p <= |buf| && s == Skip(buf, p) && hit == Peek(buf, p, "|)&;")
      invariant RedirsOk(buf, rs) && forall i :: 0 <= i < |args| ==> IsWord(buf, args[i])
      invariant ParseArgs(buf, args, rs, p) == ParseArgs(buf, [], rs0, ps)
      decreases |buf| - p
    {
      SkipTwice(buf, p);
      var tok := Gettoken(buf, s);
      if tok.kind == '\0' {
        s := tok.pos;
        break;
      }
      if tok.kind != 'a' {
        return Err;
      }
      if |args| + 1 >= MAXARGS {
        return Err;
      }
      var more := Parseredirs(buf, rs, tok.pos);
      if more.Err? {
        return Err;
      }
      args, rs, p := args + [Slice(tok.q, tok.eq)], more.value, more.pos;
      s, hit := PeekAt(buf, p, "|)&;");
    }
    WrapWords(buf, Exec(args), rs);
    return Ok(Wrap(Exec(args), rs), s);
  }

  method Parseblock(buf: Line, ps: nat) returns (r: Result<Cmd>)
    requires ps <= |buf| && Peek(buf, ps, "(")
    ensures r == ParseBlock(buf, ps) && (r.Ok? ==> WordsOk(buf, r.value))
    decreases |buf| - ps, 0
  {
    var open := Gettoken(buf, ps);
    var inner := Parseline(buf, open.pos);
    if inner.Err? {
      return Err;
    }
    var s, hit := PeekAt(buf, inner.pos, ")");
    if !hit {
      return Err;
    }
    var close := Gettoken(buf, inner.pos);
    var rs := Parseredirs(buf, [], close.pos);
    if rs.Err? {
      return Err;
    }
    WrapWords(buf, inner.value, rs.value);
    return Ok(Wrap(inner.value, rs.value), rs.pos);
  }

  method Parsepipe(buf: Line, ps: nat) returns (r: Result<Cmd>)
    requires ps <= |buf|
    ensures r == ParsePipe(buf, ps) && (r.Ok? ==> WordsOk(buf, r.value))
    decreases |buf| - ps, 2
  {
    var left := Parseexec(buf, ps);
    if left.Err? {
      return Err;
    }
    var s, hit := PeekAt(buf, left.pos, "|");
    if !hit {
      return Ok(left.value, s);
    }
    var bar := Gettoken(buf, left.pos);
    var right := Parsepipe(buf, bar.pos);
    if right.Err? {
      return Err;
    }
    return Ok(Pipe(left.value, right.value), right.pos);
  }

  method Parseline(buf: Line, ps: nat) returns (r: Result<Cmd>)
    requires ps <= |buf|
    ensures r == ParseLine(buf, ps) && (r.Ok? ==> WordsOk(buf, r.value))
    decreases |buf| - ps, 3
  {
    var first := Parsepipe(buf, ps);
    if first.Err? {
      return Err;
    }
    var cmd, p := first.value, first.pos;
    var s, hit := PeekAt(buf, p, "&");
    while hit
      invariant p <= |buf| && first.pos <= p && s == Skip(buf, p) && hit == Peek(buf, p, "&") && WordsOk(buf, cmd)
      invariant ParseBacks(buf, cmd, p) == ParseBacks(buf, first.value, first.pos)
      decreases |buf| - p
    {
      SkipTwice(buf, p);
      var amp := Gettoken(buf, s);
      cmd, p := Back(cmd), amp.pos;
      s, hit := PeekAt(buf, p, "&");
    }
    p := s;
    s, hit := PeekAt(buf, p, ";");
    if !hit {
      return Ok(cmd, s);
    }
    var semi := Gettoken(buf, p);
    var rest := Parseline(buf, semi.pos);
    if rest.Err? {
      return Err;
    }
    return Ok(List(cmd, rest.value), rest.pos);
  }

  // ---------------------------------------------------------------- nulterminate

  /** Where nulterminate writes. */
  function Ends(c: Cmd): set<nat> {
    match c
    case Exec(args) => set i | 0 <= i < |args| :: args[i].hi
    case Redir(sub, to) => Ends(sub) + {to.file.hi}
    case Pipe(left, right) => Ends(left) + Ends(right)
    case List(left, right) => Ends(left) + Ends(right)
    case Back(sub) => Ends(sub)
  }

  /** The line in memory, with its NUL, after NULs are written at `ends`. */
  predicate Nulled(before: seq<char>, after: seq<char>, ends: set<nat>) {
    |after| == |before| && forall i :: 0 <= i < |after| ==> after[i] == if i in ends then '\0' else before[i]
  }

  lemma NulledTwice(a: seq<char>, b: seq<char>, c: seq<char>, e: set<nat>, f: set<nat>)
    requires Nulled(a, b, e) && Nulled(b, c, f)
    ensures Nulled(a, c, e + f)
  {}

  method Nulterminate(mem: array<char>, ghost buf: Line, cmd: Cmd)
    requires WordsOk(buf, cmd) && mem.Length == |buf| + 1
    modifies mem
    ensures Nulled(old(mem[..]), mem[..], Ends(cmd))
    decreases cmd
  {
    match cmd
    case Exec(args) =>
      var i := 0;
      while i < |args|
        invariant 0 <= i <= |args|
        invariant Nulled(old(mem[..]), mem[..], set k | 0 <= k < i :: args[k].hi)
      {
        assert IsWord(buf, args[i]);
        mem[args[i].hi] := '\0';
        i := i + 1;
      }
    case Redir(sub, to) =>
      Nulterminate(mem, buf, sub);
      mem[to.file.hi] := '\0';
    case Pipe(left, right) =>
      Nulterminate(mem, buf, left);
      ghost var m1 := mem[..];
      Nulterminate(mem, buf, right);
      NulledTwice(old(mem[..]), m1, mem[..], Ends(left), Ends(right));
    case List(left, right) =>
      Nulterminate(mem, buf, left);
      ghost var m1 := mem[..];
      Nulterminate(mem, buf, right);
      NulledTwice(old(mem[..]), m1, mem[..], Ends(left), Ends(right));
    case Back(sub) =>
      Nulterminate(mem, buf, sub);
  }

  /** No NUL is written inside a word: ends lie outside every word. */
  lemma {:induction false} EndsOutside(buf: Line, c: Cmd, e: nat)
    requires WordsOk(buf, c) && e in Ends(c)
    ensures e <= |buf| && (e < |buf| ==> !WordChar(buf[e]))
  {
    match c
    case Exec(args) =>
      var i :| 0 <= i < |args| && args[i].hi == e;
      assert IsWord(buf, args[i]);
    case Redir(sub, to) => if e in Ends(sub) { EndsOutside(buf, sub, e); }
    case Pipe(left, right) => if e in Ends(left) { EndsOutside(buf, left, e); } else { EndsOutside(buf, right, e); }
    case List(left, right) => if e in Ends(left) { EndsOutside(buf, left, e); } else { EndsOutside(buf, right, e); }
    case Back(sub) => EndsOutside(buf, sub, e);
  }

  /** A C string in memory: the characters from p up to the first NUL. */
  function CStringAt(mem: seq<char>, p: nat): string
    decreases |mem| - p
  {
    if p < |mem| && mem[p] != '\0' then [mem[p]] + CStringAt(mem, p + 1) else ""
  }

  lemma {:induction false} CStringIs(mem: seq<char>, p: nat, w: string)
    requires p + |w| < |mem| && mem[p + |w|] == '\0' && forall i :: 0 <= i < |w| ==> mem[p + i] == w[i] != '\0'
    ensures CStringAt(mem, p) == w
    decreases |w|
  {
    if w != "" {
      forall i | 0 <= i < |w[1..]| ensures mem[p + 1 + i] == w[1..][i] != '\0' { assert mem[p + (i + 1)] == w[i + 1]; }
      assert mem[p + 0] == w[0];
      CStringIs(mem, p + 1, w[1..]);
    }
  }

  /** After nulterminate every word of the command, read up to its NUL, is the word that was parsed. */
  lemma WordsSurvive(buf: Line, c: Cmd, mem: seq<char>, s: Slice)
    requires WordsOk(buf, c) && Nulled(buf + ['\0'], mem, Ends(c)) && IsWord(buf, s) && s.hi in Ends(c)
    ensures CStringAt(mem, s.lo) == buf[s.lo..s.hi]
  {
    forall i | s.lo <= i < s.hi ensures mem[i] == buf[i] {
      if i in Ends(c) { EndsOutside(buf, c, i); }
    }
    CStringIs(mem, s.lo, buf[s.lo..s.hi]);
  }

  function StringsAt(mem: seq<char>, args: seq<Slice>): (r: seq<string>)
    ensures |r| == |args| && forall i :: 0 <= i < |args| ==> r[i] == CStringAt(mem, args[i].lo)
  {
    seq(|args|, i requires 0 <= i < |args| => CStringAt(mem, args[i].lo))
  }

  /** The tree that runcmd finds: pointers to the words are C strings. */
  function InMemory(mem: seq<char>, c: Cmd): Tree {
    match c
    case Exec(args) => TExec(StringsAt(mem, args))
    case Redir(sub, to) => TRedir(InMemory(mem, sub), RedirText(CStringAt(mem, to.file.lo), to.out))
    case Pipe(left, right) => TPipe(InMemory(mem, left), InMemory(mem, right))
    case List(left, right) => TList(InMemory(mem, left), InMemory(mem, right))
    case Back(sub) => TBack(InMemory(mem, sub))
  }

  /** Every part c of the command is in memory as it was parsed. */
  lemma {:induction false} MemoryIs(buf: Line, whole: Cmd, mem: seq<char>, c: Cmd)
    requires WordsOk(buf, whole) && Nulled(buf + ['\0'], mem, Ends(whole)) && WordsOk(buf, c) && Ends(c) <= Ends(whole)
    ensures InMemory(mem, c) == Read(buf, c)
  {
    hide CStringAt, Nulled;
    match c
    case Exec(args) =>
      forall i | 0 <= i < |args| ensures CStringAt(mem, args[i].lo) == Text(buf, args[i]) {
        assert IsWord(buf, args[i]) && args[i].hi in Ends(c);
        WordsSurvive(buf, whole, mem, args[i]);
      }
      assert StringsAt(mem, args) == Texts(buf, args);
    case Redir(sub, to) =>
      WordsSurvive(buf, whole, mem, to.file);
      MemoryIs(buf, whole, mem, sub);
    case Pipe(left, right) =>
      MemoryIs(buf, whole, mem, left);
      MemoryIs(buf, whole, mem, right);
    case List(left, right) =>
      MemoryIs(buf, whole, mem, left);
      MemoryIs(buf, whole, mem, right);
    case Back(sub) => MemoryIs(buf, whole, mem, sub);
  }

  /** parsecmd: the command, with every word of it a C string in memory. */
  method Parsecmd(mem: array<char>, ghost buf: Line) returns (r: Result<Cmd>)
    requires mem.Length == |buf| + 1 && mem[..] == buf + ['\0']
    modifies mem
    ensures r == ParseCmd(buf)
    ensures r.Err? ==> mem[..] == old(mem[..])
    ensures r.Ok? ==> WordsOk(buf, r.value) && Nulled(buf + ['\0'], mem[..], Ends(r.value))
    ensures r.Ok? ==> InMemory(mem[..], r.value) == Read(buf, r.value)
  {
    hide InMemory, Read, Nulled, Ends, ParseLine;
    var line: Line := Contents(mem, buf);
    r := Parseline(line, 0);
    if r.Err? {
      return;
    }
    var s, hit := PeekAt(line, r.pos, "");
    if s != |line| {
      return Err;
    }
    Nulterminate(mem, buf, r.value);
    MemoryIs(buf, r.value, mem[..], r.value);
    return Ok(r.value, s);
  }

  /** parsecmd of a printed line leaves the tree that was printed in memory. */
  method ParsePrinted(mem: array<char>, ghost t: Tree) returns (r: Result<Cmd>)
    requires Good(t) && mem[..] == PrintLine(t) + ['\0']
    modifies mem
    ensures r.Ok? && InMemory(mem[..], r.value) == t
  {
    hide InMemory, Read, Nulled, Ends, ParseCmd, PrintLine;
    RoundTrip(t);
    r := Parsecmd(mem, PrintLine(t));
  }

  /** strlen: the line up to its NUL. */
  method Contents(mem: array<char>, ghost buf: Line) returns (line: Line)
    requires mem.Length == |buf| + 1 && mem[..] == buf + ['\0']
    ensures line == buf
  {
    var n := 0;
    while mem[n] != '\0'
      invariant 0 <= n <= |buf| && forall i :: 0 <= i < n ==> mem[i] == buf[i]
      decreases |buf| - n
    {
      assert mem[..][n] == (buf + ['\0'])[n];
      n := n + 1;
    }
    assert mem[..][n] == (buf + ['\0'])[n];
    assert mem[..n] == buf;
    line := mem[..n];
  }
}
