/** The command that sh.c reads depends on the tokens of the line alone, and >> is the token >. */
module ShellTokens {
  import opened ShellModel
  import opened ShellRoundTrip

  /** What the parser can tell of a token's kind. */
  function Kind(c: char): char { if c == '+' then '>' else c }

  /** From p and q on, the lines have the same tokens. */
  predicate SameTokens(a: Line, p: nat, b: Line, q: nat)
    requires p <= |a| && q <= |b|
    decreases |a| - p
  {
    var s, t := GetToken(a, p), GetToken(b, q);
    && Kind(s.kind) == Kind(t.kind) && (s.kind == 'a' ==> a[s.q..s.eq] == b[t.q..t.eq])
    && (s.kind != '\0' ==> SameTokens(a, s.pos, b, t.pos))
  }

  lemma TokensFrom(a: Line, p: nat, b: Line, q: nat)
    requires p <= |a| && q <= |b|
    requires var s, t := GetToken(a, p), GetToken(b, q);
      && Kind(s.kind) == Kind(t.kind) && (s.kind == 'a' ==> a[s.q..s.eq] == b[t.q..t.eq])
      && (s.kind != '\0' ==> SameTokens(a, s.pos, b, t.pos))
    ensures SameTokens(a, p, b, q)
  {
    hide GetToken;
  }

  predicate OnlySymbols(toks: string) { forall i :: 0 <= i < |toks| ==> Symbol(toks[i]) }

  lemma PeekKind(a: Line, p: nat, toks: string)
    requires p <= |a| && OnlySymbols(toks)
    ensures Peek(a, p, toks) <==> Kind(GetToken(a, p).kind) in toks
  {}

  lemma {:induction false} SkipAt(a: Line, p: nat, r: nat)
    requires p <= r <= |a| && (forall i :: p <= i < r ==> Space(a[i])) && (r == |a| || !Space(a[r]))
    ensures Skip(a, p) == r
    decreases r - p
  {
    if p < r { SkipAt(a, p + 1, r); }
  }

  lemma SkipSame(a: Line, p: nat, b: Line, q: nat)
    requires p <= |a| && q <= |b| && SameTokens(a, p, b, q)
    ensures SameTokens(a, Skip(a, p), b, Skip(b, q))
  {
    hide GetToken, Skip;
    TokenAtSkip(a, p);
    TokenAtSkip(b, q);
  }

  lemma TokenAtSkip(a: Line, p: nat)
    requires p <= |a|
    ensures GetToken(a, Skip(a, p)) == GetToken(a, p)
  {
    SkipAt(a, Skip(a, p), Skip(a, p));
  }

  // ---------------------------------------------------------------- same tokens, same command

  predicate SameRedirs(a: Line, r: Result<seq<Redirection>>, b: Line, r': Result<seq<Redirection>>) {
    && r.Ok? == r'.Ok?
    && (r.Ok? ==> RedirTexts(a, r.value) == RedirTexts(b, r'.value))
    && (r.Ok? ==> r.pos <= |a| && r'.pos <= |b| && SameTokens(a, r.pos, b, r'.pos))
  }

  predicate SameCmd(a: Line, r: Result<Cmd>, b: Line, r': Result<Cmd>) {
    && r.Ok? == r'.Ok?
    && (r.Ok? ==> Read(a, r.value) == Read(b, r'.value))
    && (r.Ok? ==> r.pos <= |a| && r'.pos <= |b| && SameTokens(a, r.pos, b, r'.pos))
  }

  lemma {:induction false} RedirsSame(a: Line, p: nat, rs: seq<Redirection>, b: Line, q: nat, rs': seq<Redirection>)
    requires p <= |a| && q <= |b| && SameTokens(a, p, b, q) && RedirTexts(a, rs) == RedirTexts(b, rs')
    ensures SameRedirs(a, ParseRedirs(a, rs, p), b, ParseRedirs(b, rs', q))
    decreases |a| - p
  {
    hide Skip, GetToken, RedirTexts, Peek;
    PeekKind(a, p, "<>");
    PeekKind(b, q, "<>");
    if !Peek(a, p, "<>") {
      SkipSame(a, p, b, q);
    } else {
      var s, t := GetToken(a, p), GetToken(b, q);
      var f, g := GetToken(a, s.pos), GetToken(b, t.pos);
      if f.kind == 'a' {
        var r, r' := Redirection(Slice(f.q, f.eq), s.kind != '<'), Redirection(Slice(g.q, g.eq), t.kind != '<');
        assert RedirTexts(a, rs + [r]) == RedirTexts(a, rs) + [RedirText(Text(a, r.file), r.out)];
        assert RedirTexts(b, rs' + [r']) == RedirTexts(b, rs') + [RedirText(Text(b, r'.file), r'.out)];
        RedirsSame(a, f.pos, rs + [r], b, g.pos, rs' + [r']);
      }
    }
  }

  lemma WrapSame(a: Line, c: Cmd, rs: seq<Redirection>, b: Line, c': Cmd, rs': seq<Redirection>)
    requires Read(a, c) == Read(b, c') && RedirTexts(a, rs) == RedirTexts(b, rs')
    ensures Read(a, Wrap(c, rs)) == Read(b, Wrap(c', rs'))
  {
    ReadWrap(a, c, rs);
    ReadWrap(b, c', rs');
  }

  lemma {:induction false} ArgsSame(a: Line, p: nat, args: seq<Slice>, rs: seq<Redirection>,
                                    b: Line, q: nat, args': seq<Slice>, rs': seq<Redirection>)
    requires p <= |a| && q <= |b| && SameTokens(a, p, b, q) && RedirTexts(a, rs) == RedirTexts(b, rs')
    requires Texts(a, args) == Texts(b, args')
    ensures SameCmd(a, ParseArgs(a, args, rs, p), b, ParseArgs(b, args', rs', q))
    decreases |a| - p
  {
    hide Skip, GetToken, RedirTexts, Texts, Peek, Wrap, ParseRedirs;
    PeekKind(a, p, "|)&;");
    PeekKind(b, q, "|)&;");
    assert |args| == |Texts(a, args)| == |Texts(b, args')| == |args'|;
    var s, t := GetToken(a, p), GetToken(b, q);
    if Peek(a, p, "|)&;") {
      SkipSame(a, p, b, q);
      WrapSame(a, Exec(args), rs, b, Exec(args'), rs');
    } else if s.kind == '\0' {
      EndSame(a, p, b, q);
      WrapSame(a, Exec(args), rs, b, Exec(args'), rs');
    } else if s.kind == 'a' && |args| + 1 < MAXARGS {
      RedirsSame(a, s.pos, rs, b, t.pos, rs');
      var m, m' := ParseRedirs(a, rs, s.pos), ParseRedirs(b, rs', t.pos);
      if m.Ok? {
        var x, y := Slice(s.q, s.eq), Slice(t.q, t.eq);
        assert Texts(a, args + [x]) == Texts(a, args) + [Text(a, x)];
        assert Texts(b, args' + [y]) == Texts(b, args') + [Text(b, y)];
        ArgsSame(a, m.pos, args + [x], m.value, b, m'.pos, args' + [y], m'.value);
      }
    }
  }

  lemma EndSame(a: Line, p: nat, b: Line, q: nat)
    requires p <= |a| && q <= |b| && GetToken(a, p).kind == '\0' && GetToken(b, q).kind == '\0'
    ensures SameTokens(a, GetToken(a, p).pos, b, GetToken(b, q).pos)
  {}

  lemma {:induction false} ExecSame(a: Line, p: nat, b: Line, q: nat)
    requires p <= |a| && q <= |b| && SameTokens(a, p, b, q)
    ensures SameCmd(a, ParseExec(a, p), b, ParseExec(b, q))
    decreases |a| - p, 1
  {
    hide Skip, GetToken, Peek, ParseRedirs, ParseArgs, ParseBlock;
    PeekKind(a, p, "(");
    PeekKind(b, q, "(");
    if Peek(a, p, "(") {
      BlockSame(a, p, b, q);
    } else {
      RedirsSame(a, p, [], b, q, []);
      var rs, rs' := ParseRedirs(a, [], p), ParseRedirs(b, [], q);
      if rs.Ok? { ArgsSame(a, rs.pos, [], rs.value, b, rs'.pos, [], rs'.value); }
    }
  }

  lemma {:induction false} BlockSame(a: Line, p: nat, b: Line, q: nat)
    requires p <= |a| && q <= |b| && SameTokens(a, p, b, q) && Peek(a, p, "(") && Peek(b, q, "(")
    ensures SameCmd(a, ParseBlock(a, p), b, ParseBlock(b, q))
    decreases |a| - p, 0
  {
    hide Skip, GetToken, Peek, ParseRedirs, ParseLine, Wrap;
    PeekKind(a, p, "(");
    var s, t := GetToken(a, p), GetToken(b, q);
    LineSame(a, s.pos, b, t.pos);
    var i, j := ParseLine(a, s.pos), ParseLine(b, t.pos);
    if i.Ok? {
      PeekKind(a, i.pos, ")");
      PeekKind(b, j.pos, ")");
      if Peek(a, i.pos, ")") {
        var e, f := GetToken(a, i.pos), GetToken(b, j.pos);
        RedirsSame(a, e.pos, [], b, f.pos, []);
        var rs, rs' := ParseRedirs(a, [], e.pos), ParseRedirs(b, [], f.pos);
        if rs.Ok? { WrapSame(a, i.value, rs.value, b, j.value, rs'.value); }
      }
    }
  }

  lemma {:induction false} PipeSame(a: Line, p: nat, b: Line, q: nat)
    requires p <= |a| && q <= |b| && SameTokens(a, p, b, q)
    ensures SameCmd(a, ParsePipe(a, p), b, ParsePipe(b, q))
    decreases |a| - p, 2
  {
    hide Skip, GetToken, Peek, ParseExec;
    ExecSame(a, p, b, q);
    var l, m := ParseExec(a, p), ParseExec(b, q);
    if l.Ok? {
      PeekKind(a, l.pos, "|");
      PeekKind(b, m.pos, "|");
      if Peek(a, l.pos, "|") {
        PipeSame(a, GetToken(a, l.pos).pos, b, GetToken(b, m.pos).pos);
      } else {
        SkipSame(a, l.pos, b, m.pos);
      }
    }
  }

  lemma {:induction false} BacksSame(a: Line, c: Cmd, p: nat, b: Line, c': Cmd, q: nat)
    requires p <= |a| && q <= |b| && SameTokens(a, p, b, q) && Read(a, c) == Read(b, c')
    ensures SameCmd(a, ParseBacks(a, c, p), b, ParseBacks(b, c', q))
    decreases |a| - p
  {
    hide Skip, GetToken, Peek;
    PeekKind(a, p, "&");
    PeekKind(b, q, "&");
    if Peek(a, p, "&") {
      BacksSame(a, Back(c), GetToken(a, p).pos, b, Back(c'), GetToken(b, q).pos);
    } else {
      SkipSame(a, p, b, q);
    }
  }

  lemma {:induction false} LineSame(a: Line, p: nat, b: Line, q: nat)
    requires p <= |a| && q <= |b| && SameTokens(a, p, b, q)
    ensures SameCmd(a, ParseLine(a, p), b, ParseLine(b, q))
    decreases |a| - p, 3
  {
    hide Skip, GetToken, Peek, ParsePipe, ParseBacks;
    PipeSame(a, p, b, q);
    var f, g := ParsePipe(a, p), ParsePipe(b, q);
    if f.Ok? {
      BacksSame(a, f.value, f.pos, b, g.value, g.pos);
      var m, n := ParseBacks(a, f.value, f.pos), ParseBacks(b, g.value, g.pos);
      PeekKind(a, m.pos, ";");
      PeekKind(b, n.pos, ";");
      if Peek(a, m.pos, ";") {
        LineSame(a, GetToken(a, m.pos).pos, b, GetToken(b, n.pos).pos);
      } else {
        SkipSame(a, m.pos, b, n.pos);
      }
    }
  }

  /** Two lines are read alike: both are errors, or both are read as the same tree. */
  predicate ReadAlike(a: Line, b: Line) {
    ParseCmd(a).Ok? == ParseCmd(b).Ok? &&
    (ParseCmd(a).Ok? ==> Read(a, ParseCmd(a).value) == Read(b, ParseCmd(b).value))
  }

  /** Lines with the same tokens are read alike. */
  lemma TokensDecide(a: Line, b: Line)
    requires SameTokens(a, 0, b, 0)
    ensures ReadAlike(a, b)
  {
    hide Skip, ParseLine, Read;
    LineSame(a, 0, b, 0);
    var r, r' := ParseLine(a, 0), ParseLine(b, 0);
    if r.Ok? { EndKind(a, r.pos); EndKind(b, r'.pos); }
  }

  lemma EndKind(a: Line, p: nat)
    requires p <= |a|
    ensures Skip(a, p) == |a| <==> Kind(GetToken(a, p).kind) == '\0'
  {}

  // ---------------------------------------------------------------- white space

  predicate White(c: char) { c == ' ' || c == '\t' || c == '\r' || c == '\n' || c == '\U{000B}' }

  /** The lines differ in which white space they use. */
  predicate Respaced(a: Line, b: Line) {
    |a| == |b| && forall i :: 0 <= i < |a| ==> a[i] == b[i] || (White(a[i]) && White(b[i]))
  }

  lemma WhiteSpace(c: char)
    ensures Space(c) <==> White(c)
    ensures White(c) ==> !Symbol(c) && !WordChar(c)
  {}

  lemma RespacedToken(a: Line, b: Line, p: nat)
    requires Respaced(a, b) && p <= |a|
    ensures GetToken(a, p) == GetToken(b, p) && (GetToken(a, p).kind == 'a' ==>
      a[GetToken(a, p).q..GetToken(a, p).eq] == b[GetToken(a, p).q..GetToken(a, p).eq])
  {
    forall i | 0 <= i < |a|
      ensures Space(a[i]) == Space(b[i]) && WordChar(a[i]) == WordChar(b[i]) && (!Space(a[i]) ==> a[i] == b[i])
    {
      WhiteSpace(a[i]);
      WhiteSpace(b[i]);
    }
    hide Space, WordChar;
    forall r: nat | r <= |a| ensures Skip(a, r) == Skip(b, r) { SkipAt(b, r, Skip(a, r)); }
    forall r: nat | r <= |a| ensures WordEnd(a, r) == WordEnd(b, r) { WordEndAt(b, r, WordEnd(a, r)); }
  }

  lemma {:induction false} RespacedTokens(a: Line, b: Line, p: nat)
    requires Respaced(a, b) && p <= |a|
    ensures SameTokens(a, p, b, p)
    decreases |a| - p
  {
    hide GetToken;
    RespacedToken(a, b, p);
    var t := GetToken(a, p);
    if t.kind != '\0' { RespacedTokens(a, b, t.pos); }
  }

  /** Blank, tab, carriage return, newline and vertical tab are all the same. */
  lemma AnyWhiteSpace(a: Line, b: Line)
    requires Respaced(a, b)
    ensures ReadAlike(a, b)
  {
    RespacedTokens(a, b, 0);
    TokensDecide(a, b);
  }

  // ---------------------------------------------------------------- >>

  /** a with a > at |x|, b with >> there. */
  predicate Doubled(a: Line, b: Line, x: string, y: string) {
    && a == x + ">" + y && b == x + ">>" + y
    && (x == [] || x[|x| - 1] != '>') && (y == [] || y[0] != '>')
  }

  /** Past n, b is a moved by one. */
  predicate Shift(a: Line, b: Line, n: nat) { |b| == |a| + 1 && forall i :: n < i < |a| ==> b[i + 1] == a[i] }

  lemma ShiftAt(a: Line, b: Line, n: nat, i: nat)
    requires Shift(a, b, n) && n < i < |a|
    ensures |b| == |a| + 1 && b[i + 1] == a[i]
  {}

  /** Up to n the lines agree. */
  predicate Agree(a: Line, b: Line, n: nat) { n < |a| && n < |b| && forall i :: 0 <= i <= n ==> a[i] == b[i] }

  lemma AgreeAt(a: Line, b: Line, n: nat, i: nat)
    requires Agree(a, b, n) && i <= n
    ensures i < |a| && i < |b| && a[i] == b[i]
  {}

  lemma {:induction false} ShiftedTokens(a: Line, b: Line, n: nat, p: nat)
    requires Shift(a, b, n) && n < p <= |a|
    ensures p + 1 <= |b| && SameTokens(a, p, b, p + 1)
    decreases |a| - p
  {
    hide GetToken, Shift, SameTokens;
    ShiftedToken(a, b, n, p);
    var t := GetToken(a, p);
    SliceShift(a, b, n, t.q, t.eq);
    if t.kind != '\0' { ShiftedTokens(a, b, n, t.pos); }
    TokensFrom(a, p, b, p + 1);
  }

  lemma ShiftedToken(a: Line, b: Line, n: nat, p: nat)
    requires n < p <= |a| && Shift(a, b, n)
    ensures |b| == |a| + 1
    ensures var t, u := GetToken(a, p), GetToken(b, p + 1);
      u == Token(t.kind, t.q + 1, t.eq + 1, t.pos + 1)
  {
    hide *;
    SkipShift(a, b, n, p);
    var q := Skip(a, p);
    assert GetToken(a, q) == GetToken(a, p) by { TokenAtSkip(a, p); }
    assert GetToken(b, q + 1) == GetToken(b, p + 1) by { TokenAtSkip(b, p + 1); }
    ShiftedAt(a, b, n, q);
  }

  lemma ShiftedAt(a: Line, b: Line, n: nat, q: nat)
    requires n < q <= |a| && Shift(a, b, n) && |b| == |a| + 1 && (q == |a| || !Space(a[q]))
    ensures var t, u := GetToken(a, q), GetToken(b, q + 1); u == Token(t.kind, t.q + 1, t.eq + 1, t.pos + 1)
  {
    SkipAt(a, q, q);
    hide Shift;
    if q < |a| { ShiftAt(a, b, n, q); }
    SkipAt(b, q + 1, q + 1);
    hide Skip, WordEnd, IsWord, Space, WordChar;
    if q < |a| {
      if a[q] == '>' {
        if q + 1 < |a| {
          ShiftAt(a, b, n, q + 1);
          SkipShift(a, b, n, q + 2);
        }
        SkipShift(a, b, n, q + 1);
      } else if Symbol(a[q]) {
        SkipShift(a, b, n, q + 1);
      } else {
        WordEndShift(a, b, n, q);
        SkipShift(a, b, n, WordEnd(a, q));
      }
    }
  }

  lemma SliceShift(a: Line, b: Line, n: nat, lo: nat, hi: nat)
    requires n < lo <= hi <= |a| && Shift(a, b, n)
    ensures a[lo..hi] == b[lo + 1..hi + 1]
  {
  }

  lemma SkipShift(a: Line, b: Line, n: nat, r: nat)
    requires n < r <= |a| && Shift(a, b, n)
    ensures |b| == |a| + 1 && Skip(b, r + 1) == Skip(a, r) + 1
  {
    var k := Skip(a, r);
    forall i | r + 1 <= i < k + 1 ensures Space(b[i]) { ShiftAt(a, b, n, i - 1); }
    if k < |a| { assert b[k + 1] == a[k]; }
    SkipAt(b, r + 1, k + 1);
  }

  lemma WordEndShift(a: Line, b: Line, n: nat, r: nat)
    requires n < r <= |a| && Shift(a, b, n)
    ensures |b| == |a| + 1 && WordEnd(b, r + 1) == WordEnd(a, r) + 1
  {
    var k := WordEnd(a, r);
    forall i | r + 1 <= i < k + 1 ensures WordChar(b[i]) { ShiftAt(a, b, n, i - 1); }
    if k < |a| { assert b[k + 1] == a[k]; }
    WordEndAt(b, r + 1, k + 1);
  }

  lemma DoubledChars(a: Line, b: Line, x: string, y: string)
    requires Doubled(a, b, x, y)
    ensures |x| < |a| && |b| == |a| + 1 && a[|x|] == '>' && b[|x|] == '>' && b[|x| + 1] == '>'
    ensures Agree(a, b, |x|) && Shift(a, b, |x|)
    ensures (|x| > 0 ==> a[|x| - 1] != '>') && (|x| + 1 < |a| ==> a[|x| + 1] != '>')
  {
    if |x| > 0 { assert a[|x| - 1] == x[|x| - 1]; }
    if |x| + 1 < |a| { assert a[|x| + 1] == y[0]; }
  }

  /** Before the arrow the lines agree. */
  lemma BeforeArrow(a: Line, b: Line, n: nat, p: nat)
    requires p <= n && Agree(a, b, n) && a[n] == '>' && (n > 0 ==> a[n - 1] != '>')
    ensures Skip(a, p) == Skip(b, p) <= n
    ensures Skip(a, p) < n ==> GetToken(b, p) == GetToken(a, p) && GetToken(a, p).eq <= n && GetToken(a, p).pos <= n
  {
    AgreeSkip(a, b, n, p);
    var q := Skip(a, p);
    if q < n { BeforeArrowAt(a, b, n, q); SkipAt(a, q, q); SkipAt(b, q, q); TokenAtSkip(a, p); TokenAtSkip(b, p); }
  }

  lemma BeforeArrowAt(a: Line, b: Line, n: nat, q: nat)
    requires q < n && Agree(a, b, n) && a[n] == '>' && (n > 0 ==> a[n - 1] != '>') && Skip(a, q) == q == Skip(b, q)
    ensures GetToken(b, q) == GetToken(a, q) && GetToken(a, q).eq <= n && GetToken(a, q).pos <= n
  {
    hide Skip, WordEnd, IsWord, Agree, Space, WordChar;
    AgreeAt(a, b, n, q);
    AgreeAt(a, b, n, q + 1);
    AgreeAt(a, b, n, n);
    AgreeWord(a, b, n, q);
    AgreeSkip(a, b, n, WordEnd(a, q));
    AgreeSkip(a, b, n, q + 1);
    if q + 2 <= n { AgreeSkip(a, b, n, q + 2); }
  }

  lemma AtArrow(a: Line, b: Line, n: nat, p: nat)
    requires p <= n < |a| && |b| == |a| + 1 && a[n] == '>' && b[n] == '>' && b[n + 1] == '>'
    requires Shift(a, b, n) && (n + 1 < |a| ==> a[n + 1] != '>') && Skip(a, p) == Skip(b, p) == n
    ensures GetToken(a, p).kind == '>' && GetToken(b, p).kind == '+'
    ensures n < GetToken(a, p).pos && GetToken(b, p).pos == GetToken(a, p).pos + 1
  {
    hide Skip, IsWord, Shift;
    SkipShift(a, b, n, n + 1);
  }

  lemma AgreeSkip(a: Line, b: Line, n: nat, r: nat)
    requires r <= n && Agree(a, b, n) && a[n] == '>'
    ensures Skip(a, r) == Skip(b, r) <= n
  {
    SkipAt(b, r, Skip(a, r));
  }

  lemma AgreeWord(a: Line, b: Line, n: nat, r: nat)
    requires r <= n && Agree(a, b, n) && a[n] == '>'
    ensures WordEnd(a, r) == WordEnd(b, r) <= n
  {
    WordEndAt(b, r, WordEnd(a, r));
  }

  lemma {:induction false} DoubledTokens(a: Line, b: Line, x: string, y: string, p: nat)
    requires Doubled(a, b, x, y) && p <= |x|
    ensures p <= |a| && p <= |b| && SameTokens(a, p, b, p)
    decreases |x| - p
  {
    DoubledChars(a, b, x, y);
    hide GetToken, Skip, Doubled, Agree, Shift, SameTokens;
    BeforeArrow(a, b, |x|, p);
    if Skip(a, p) < |x| {
      var t := GetToken(a, p);
      AgreeSlice(a, b, |x|, t.q, t.eq);
      if t.kind != '\0' { DoubledTokens(a, b, x, y, t.pos); }
      TokensFrom(a, p, b, p);
    } else {
      ArrowTokens(a, b, |x|, p);
    }
  }

  lemma ArrowTokens(a: Line, b: Line, n: nat, p: nat)
    requires p <= n < |a| && |b| == |a| + 1 && a[n] == '>' && b[n] == '>' && b[n + 1] == '>'
    requires Shift(a, b, n) && (n + 1 < |a| ==> a[n + 1] != '>') && Skip(a, p) == Skip(b, p) == n
    ensures SameTokens(a, p, b, p)
  {
    hide GetToken, Skip, Shift, SameTokens;
    AtArrow(a, b, n, p);
    ShiftedTokens(a, b, n, GetToken(a, p).pos);
    TokensFrom(a, p, b, p);
  }

  lemma AgreeSlice(a: Line, b: Line, n: nat, lo: nat, hi: nat)
    requires lo <= hi <= n && Agree(a, b, n)
    ensures a[lo..hi] == b[lo..hi]
  {
  }

  /** A line with >> in the place of a > is read as the same tree. */
  lemma DoubleArrow(a: Line, b: Line, x: string, y: string)
    requires Doubled(a, b, x, y)
    ensures ReadAlike(a, b)
  {
    DoubledTokens(a, b, x, y, 0);
    TokensDecide(a, b);
  }
}
