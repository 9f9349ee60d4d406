/** The command parser of sh.c on a line `buf`; positions are indices into it, and position |buf|
    reads as NUL. */
module ShellModel {
  const MAXARGS: nat := 10
  const WHITESPACE: string := " \t\r\n\U{000B}"
  const SYMBOLS: string := "<|>&;()"

  /** A line without its terminating NUL. */
  type Line = s: string | '\0' !in s witness ""

  /** A word of the line: buf[lo..hi]. */
  datatype Slice = Slice(lo: nat, hi: nat)

  /** A redirection: standard input from the file, or standard output to it. */
  datatype Redirection = Redirection(file: Slice, out: bool)

  datatype Cmd =
    | Exec(args: seq<Slice>)
    | Redir(cmd: Cmd, to: Redirection)
    | Pipe(left: Cmd, right: Cmd)
    | List(left: Cmd, right: Cmd)
    | Back(cmd: Cmd)

  /** Err is a panic: missing file, missing parenthesis, stray symbol, too many arguments. */
  datatype Result<+T> = Ok(value: T, pos: nat) | Err

  // ---------------------------------------------------------------- tokens

  predicate Space(c: char) { c in WHITESPACE }

  predicate Symbol(c: char) { c in SYMBOLS }

  predicate WordChar(c: char) { !Space(c) && !Symbol(c) && c != '\0' }

  /** Past the white space from p on. */
  function Skip(buf: Line, p: nat): (r: nat)
    requires p <= |buf|
    ensures p <= r <= |buf| && (r == |buf| || !Space(buf[r])) && forall i :: p <= i < r ==> Space(buf[i])
    decreases |buf| - p
  {
    if p < |buf| && Space(buf[p]) then Skip(buf, p + 1) else p
  }

  function WordEnd(buf: Line, p: nat): (r: nat)
    requires p <= |buf|
    ensures p <= r <= |buf| && (r == |buf| || !WordChar(buf[r])) && forall i :: p <= i < r ==> WordChar(buf[i])
    decreases |buf| - p
  {
    if p < |buf| && WordChar(buf[p]) then WordEnd(buf, p + 1) else p
  }

  /** What gettoken returns, where the token lies, and where the cursor is left. */
  datatype Token = Token(kind: char, q: nat, eq: nat, pos: nat)

  function GetToken(buf: Line, p: nat): (t: Token)
    requires p <= |buf|
    ensures p <= t.q <= t.eq <= t.pos <= |buf| && (t.kind != '\0' <==> t.q < |buf|) && (t.q < |buf| ==> t.q < t.eq)
    ensures t.kind == 'a' <==> t.q < |buf| && !Symbol(buf[t.q])
    ensures t.kind == 'a' ==> IsWord(buf, Slice(t.q, t.eq))
  {
    var q := Skip(buf, p);
    if q == |buf| then Token('\0', q, q, q)
    else if buf[q] == '>' then
      if q + 1 < |buf| && buf[q + 1] == '>' then Token('+', q, q + 2, Skip(buf, q + 2))
      else Token('>', q, q + 1, Skip(buf, q + 1))
    else if Symbol(buf[q]) then Token(buf[q], q, q + 1, Skip(buf, q + 1))
    else Token('a', q, WordEnd(buf, q), Skip(buf, WordEnd(buf, q)))
  }

  /** A nonempty run of word characters that ends at a space, a symbol or the end of the line. */
  predicate IsWord(buf: Line, s: Slice) {
    s.lo < s.hi <= |buf| && (forall i :: s.lo <= i < s.hi ==> WordChar(buf[i])) &&
      (s.hi < |buf| ==> !WordChar(buf[s.hi]))
  }

  /** The next character that is not white space, NUL at the end. */
  function NextChar(buf: Line, p: nat): char
    requires p <= |buf|
  {
    if Skip(buf, p) < |buf| then buf[Skip(buf, p)] else '\0'
  }

  /** peek's answer; its cursor goes to Skip(buf, p). */
  predicate Peek(buf: Line, p: nat, toks: string)
    requires p <= |buf|
  {
    NextChar(buf, p) != '\0' && NextChar(buf, p) in toks
  }

  // ---------------------------------------------------------------- the grammar

  /** Redirections wrapped around a command, the last one outermost. */
  function Wrap(c: Cmd, rs: seq<Redirection>): Cmd {
    if rs == [] then c else Redir(Wrap(c, rs[..|rs| - 1]), rs[|rs| - 1])
  }

  /** parseredirs: the redirections found after `rs`. */
  function ParseRedirs(buf: Line, rs: seq<Redirection>, p: nat): (r: Result<seq<Redirection>>)
    requires p <= |buf|
    ensures r.Ok? ==> p <= r.pos <= |buf|
    decreases |buf| - p
  {
    if !Peek(buf, p, "<>") then Ok(rs, Skip(buf, p)) else
    var t := GetToken(buf, p);
    var f := GetToken(buf, t.pos);
    if f.kind != 'a' then Err else
    ParseRedirs(buf, rs + [Redirection(Slice(f.q, f.eq), t.kind != '<')], f.pos)
  }

  /** parseexec's loop. */
  function ParseArgs(buf: Line, args: seq<Slice>, rs: seq<Redirection>, p: nat): (r: Result<Cmd>)
    requires p <= |buf|
    ensures r.Ok? ==> p <= r.pos <= |buf|
    decreases |buf| - p
  {
    if Peek(buf, p, "|)&;") then Ok(Wrap(Exec(args), rs), Skip(buf, p)) else
    var t := GetToken(buf, p);
    if t.kind == '\0' then Ok(Wrap(Exec(args), rs), t.pos)
    else if t.kind != 'a' then Err
    else if |args| + 1 >= MAXARGS then Err
    else
      var more := ParseRedirs(buf, rs, t.pos);
      if more.Err? then Err else ParseArgs(buf, args + [Slice(t.q, t.eq)], more.value, more.pos)
  }

  function ParseExec(buf: Line, p: nat): (r: Result<Cmd>)
    requires p <= |buf|
    ensures r.Ok? ==> p <= r.pos <= |buf|
    decreases |buf| - p, 1
  {
    if Peek(buf, p, "(") then ParseBlock(buf, p)
    else
      var rs := ParseRedirs(buf, [], p);
      if rs.Err? then Err else ParseArgs(buf, [], rs.value, rs.pos)
  }

  function ParseBlock(buf: Line, p: nat): (r: Result<Cmd>)
    requires p <= |buf| && Peek(buf, p, "(")
    ensures r.Ok? ==> p <= r.pos <= |buf|
    decreases |buf| - p, 0
  {
    var open := GetToken(buf, p);
    var inner := ParseLine(buf, open.pos);
    if inner.Err? || !Peek(buf, inner.pos, ")") then Err else
    var close := GetToken(buf, inner.pos);
    var rs := ParseRedirs(buf, [], close.pos);
    if rs.Err? then Err else Ok(Wrap(inner.value, rs.value), rs.pos)
  }

  function ParsePipe(buf: Line, p: nat): (r: Result<Cmd>)
    requires p <= |buf|
    ensures r.Ok? ==> p <= r.pos <= |buf|
    decreases |buf| - p, 2
  {
    var left := ParseExec(buf, p);
    if left.Err? then Err
    else if !Peek(buf, left.pos, "|") then Ok(left.value, Skip(buf, left.pos))
    else
      var right := ParsePipe(buf, GetToken(buf, left.pos).pos);
      if right.Err? then Err else Ok(Pipe(left.value, right.value), right.pos)
  }

  /** parseline's loop over &. */
  function ParseBacks(buf: Line, c: Cmd, p: nat): (r: Result<Cmd>)
    requires p <= |buf|
    ensures r.Ok? && p <= r.pos <= |buf|
    decreases |buf| - p
  {
    if !Peek(buf, p, "&") then Ok(c, Skip(buf, p)) else ParseBacks(buf, Back(c), GetToken(buf, p).pos)
  }

  function ParseLine(buf: Line, p: nat): (r: Result<Cmd>)
    requires p <= |buf|
    ensures r.Ok? ==> p <= r.pos <= |buf|
    decreases |buf| - p, 3
  {
    var first := ParsePipe(buf, p);
    if first.Err? then Err else
    var backs := ParseBacks(buf, first.value, first.pos);
    if !Peek(buf, backs.pos, ";") then Ok(backs.value, Skip(buf, backs.pos))
    else
      var rest := ParseLine(buf, GetToken(buf, backs.pos).pos);
      if rest.Err? then Err else Ok(List(backs.value, rest.value), rest.pos)
  }

  /** parsecmd before nulterminate; the whole line must be used. */
  function ParseCmd(buf: Line): (r: Result<Cmd>)
  {
    var r := ParseLine(buf, 0);
    if r.Err? || Skip(buf, r.pos) != |buf| then Err else Ok(r.value, Skip(buf, r.pos))
  }
}
