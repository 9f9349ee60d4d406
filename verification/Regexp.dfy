/** The regular expression matcher of grep.c, from chapter 9 of The Practice of Programming,
    against what a pattern denotes. */
module Regexp {
  /** A C string without its terminating NUL. */
  type CString = s: string | '\0' !in s witness ""

  datatype Item = Lit(c: char) | Any | Star(c: char)

  /** What a pattern is made of, and whether it ends in an anchoring $. */
  datatype Pattern = Pattern(items: seq<Item>, toEnd: bool)

  /** A starred character is one followed by *; a $ anchors only as the last character. */
  function Parse(re: string): (p: Pattern)
    ensures |p.items| <= |re|
  {
    if re == [] then Pattern([], false)
    else if |re| > 1 && re[1] == '*' then
      var rest := Parse(re[2..]);
      Pattern([Star(re[0])] + rest.items, rest.toEnd)
    else if re == "$" then Pattern([], true)
    else
      var rest := Parse(re[1..]);
      Pattern([if re[0] == '.' then Any else Lit(re[0])] + rest.items, rest.toEnd)
  }

  predicate Fits(c: char, x: char) { c == '.' || c == x }

  predicate AllFit(c: char, w: string) { forall i :: 0 <= i < |w| ==> Fits(c, w[i]) }

  /** The strings an item list denotes. */
  predicate Denotes(items: seq<Item>, w: string)
    decreases |items|
  {
    if items == [] then w == []
    else match items[0]
      case Lit(c) => w != [] && w[0] == c && Denotes(items[1..], w[1..])
      case Any => w != [] && Denotes(items[1..], w[1..])
      case Star(c) => exists k :: 0 <= k <= |w| && AllFit(c, w[..k]) && Denotes(items[1..], w[k..])
  }

  /** A prefix of the text is denoted, the whole text if the pattern ends in $. */
  predicate Here(p: Pattern, text: string) {
    exists n :: 0 <= n <= |text| && Denotes(p.items, text[..n]) && (p.toEnd ==> n == |text|)
  }

  /** Some suffix of the text starts with a match. */
  predicate Somewhere(p: Pattern, text: string) {
    exists k :: 0 <= k <= |text| && Here(p, text[k..])
  }

  /** What match promises for a pattern and a text. */
  predicate Matches(re: string, text: string) {
    if re != [] && re[0] == '^' then Here(Parse(re[1..]), text) else Somewhere(Parse(re), text)
  }

  // ---------------------------------------------------------------- reading a match item by item

  lemma HereEmpty(p: Pattern, text: string)
    requires p.items == []
    ensures Here(p, text) <==> (p.toEnd ==> text == [])
  {
    if p.toEnd ==> text == [] {
      assert Denotes(p.items, text[..0]);
    }
  }

  lemma HereChar(p: Pattern, text: string)
    requires p.items != [] && !p.items[0].Star?
    ensures Here(p, text) <==>
      text != [] && (p.items[0].Any? || p.items[0].c == text[0]) && Here(Pattern(p.items[1..], p.toEnd), text[1..])
  {
    var q := Pattern(p.items[1..], p.toEnd);
    if Here(p, text) {
      var n :| 0 <= n <= |text| && Denotes(p.items, text[..n]) && (p.toEnd ==> n == |text|);
      assert text[..n][1..] == text[1..][..n - 1];
    }
    if text != [] && Here(q, text[1..]) {
      var n :| 0 <= n <= |text[1..]| && Denotes(q.items, text[1..][..n]) && (q.toEnd ==> n == |text[1..]|);
      assert text[..n + 1][1..] == text[1..][..n];
      if p.items[0].Any? || p.items[0].c == text[0] { assert Denotes(p.items, text[..n + 1]); }
    }
  }

  predicate StarHere(c: char, q: Pattern, text: string) {
    exists k :: 0 <= k <= |text| && AllFit(c, text[..k]) && Here(q, text[k..])
  }

  lemma HereStar(p: Pattern, text: string)
    requires p.items != [] && p.items[0].Star?
    ensures Here(p, text) <==> StarHere(p.items[0].c, Pattern(p.items[1..], p.toEnd), text)
  {
    var q, c := Pattern(p.items[1..], p.toEnd), p.items[0].c;
    if Here(p, text) {
      var n :| 0 <= n <= |text| && Denotes(p.items, text[..n]) && (p.toEnd ==> n == |text|);
      var k :| 0 <= k <= n && AllFit(c, text[..n][..k]) && Denotes(q.items, text[..n][k..]);
      assert text[..n][..k] == text[..k] && text[..n][k..] == text[k..][..n - k];
      assert Here(q, text[k..]);
    }
    if StarHere(c, q, text) {
      var k :| 0 <= k <= |text| && AllFit(c, text[..k]) && Here(q, text[k..]);
      var n :| 0 <= n <= |text[k..]| && Denotes(q.items, text[k..][..n]) && (q.toEnd ==> n == |text[k..]|);
      assert text[..k + n][..k] == text[..k] && text[..k + n][k..] == text[k..][..n];
      assert Denotes(p.items, text[..k + n]);
    }
  }

  // ---------------------------------------------------------------- grep.c

  /** matchhere */
  method MatchHere(re: CString, text: CString) returns (r: bool)
    ensures r <==> Here(Parse(re), text)
    decreases |re|, 0
  {
    var p := Parse(re);
    if re == [] {
      HereEmpty(p, text);
      return true;
    }
    if |re| > 1 && re[1] == '*' {
      HereStar(p, text);
      assert p.items[1..] == Parse(re[2..]).items;
      r := MatchStar(re[0], re[2..], text);
      return;
    }
    if re[0] == '$' && |re| == 1 {
      HereEmpty(p, text);
      return text == [];
    }
    HereChar(p, text);
    assert p.items[1..] == Parse(re[1..]).items;
    if text != [] && (re[0] == '.' || re[0] == text[0]) {
      r := MatchHere(re[1..], text[1..]);
      return;
    }
    return false;
  }

  /** matchstar */
  method MatchStar(c: char, re: CString, text: CString) returns (r: bool)
    ensures r <==> StarHere(c, Parse(re), text)
    decreases |re|, 1
  {
    var k := 0;
    while true
      invariant 0 <= k <= |text| && AllFit(c, text[..k])
      invariant forall j :: 0 <= j < k ==> !Here(Parse(re), text[j..])
      decreases |text| - k
    {
      var here := MatchHere(re, text[k..]);
      if here {
        return true;
      }
      if k < |text| && (text[k] == c || c == '.') {
        k := k + 1;
      } else {
        break;
      }
    }
    forall j | k < j <= |text| ensures !AllFit(c, text[..j]) {
      assert text[..j][k] == text[k];
    }
    return false;
  }

  /** match: under a leading ^ the whole text, otherwise every suffix, the empty one included. */
  method Match(re: CString, text: CString) returns (r: bool)
    ensures r <==> Matches(re, text)
  {
    if re != [] && re[0] == '^' {
      r := MatchHere(re[1..], text);
      return;
    }
    var k := 0;
    while true
      invariant 0 <= k <= |text|
      invariant forall j :: 0 <= j < k ==> !Here(Parse(re), text[j..])
      decreases |text| - k
    {
      var here := MatchHere(re, text[k..]);
      if here {
        return true;
      }
      if k == |text| {
        break;
      }
      k := k + 1;
    }
    return false;
  }

  // ---------------------------------------------------------------- what patterns mean, on texts alone

  /** The text x is w, where a dot of w stands for any character. */
  predicate Alike(w: string, x: string) {
    |x| == |w| && forall i :: 0 <= i < |w| ==> w[i] == '.' || w[i] == x[i]
  }

  /** No star, so every character stands for one. */
  predicate Plain(w: string) { '*' !in w }

  /** Plain characters at the head of a pattern take as many characters of the text. */
  lemma {:induction false} PlainHead(w: string, re: string, text: string)
    requires Plain(w) && (re != [] ==> re[0] != '*') && (re == [] && w != [] ==> w[|w| - 1] != '$')
    ensures Here(Parse(w + re), text) <==>
      |w| <= |text| && Alike(w, text[..|w|]) && Here(Parse(re), text[|w|..])
    decreases |w|
  {
    if w == [] {
      assert w + re == re && text[..0] == [] && text[0..] == text;
    } else {
      var all, rest := w + re, w[1..] + re;
      assert all[0] == w[0] && all[1..] == rest && Plain(w[1..]);
      assert rest != [] ==> rest[0] != '*' by { if |w| > 1 { assert rest[0] == w[1] && w[1] in w; } }
      assert all != "$" by { if |all| == 1 { assert re == []; } }
      assert Parse(all) == Pattern([if w[0] == '.' then Any else Lit(w[0])] + Parse(rest).items, Parse(rest).toEnd) by {
        if |all| > 1 { assert all[1] == rest[0]; }
      }
      HereChar(Parse(all), text);
      assert Parse(all).items[1..] == Parse(rest).items;
      if text != [] {
        PlainHead(w[1..], re, text[1..]);
        HeadAlike(w, text);
        if |w| <= |text| { assert text[1..][|w| - 1..] == text[|w|..]; }
      }
    }
  }

  lemma HeadAlike(w: string, text: string)
    requires w != [] && text != []
    ensures |w| <= |text| && Alike(w, text[..|w|]) <==>
      (w[0] == '.' || w[0] == text[0]) && |w[1..]| <= |text[1..]| && Alike(w[1..], text[1..][..|w| - 1])
  {
    if |w| <= |text| {
      var x, y := text[..|w|], text[1..][..|w| - 1];
      assert x[0] == text[0] && x[1..] == y;
      if (w[0] == '.' || w[0] == text[0]) && Alike(w[1..], y) {
        forall i | 0 <= i < |w| ensures w[i] == '.' || w[i] == x[i] {
          if i > 0 { assert w[1..][i - 1] == w[i] && y[i - 1] == x[i]; }
        }
      }
      if Alike(w, x) {
        forall i | 0 <= i < |w[1..]| ensures w[1..][i] == '.' || w[1..][i] == y[i] {
          assert w[i + 1] == w[1..][i] && x[i + 1] == y[i];
        }
      }
    }
  }

  /** A plain pattern here: the text begins alike, and with a $ that is all of it. */
  lemma PlainHere(w: string, end: bool, text: string)
    requires Plain(w) && (!end && w != [] ==> w[|w| - 1] != '$')
    ensures Here(Parse(w + if end then "$" else ""), text) <==>
      |w| <= |text| && Alike(w, text[..|w|]) && (end ==> |text| == |w|)
  {
    var re := if end then "$" else "";
    PlainHead(w, re, text);
    if |w| <= |text| { HereEmpty(Parse(re), text[|w|..]); }
  }

  /** w occurs in the text at k. */
  predicate OccursAt(w: string, text: string, k: int) {
    0 <= k && k + |w| <= |text| && Alike(w, text[k..k + |w|])
  }

  lemma OccursHere(w: string, end: bool, text: string, k: nat)
    requires Plain(w) && (!end && w != [] ==> w[|w| - 1] != '$') && k <= |text|
    ensures Here(Parse(w + if end then "$" else ""), text[k..]) <==>
      OccursAt(w, text, k) && (end ==> k + |w| == |text|)
  {
    hide Here, Parse, Alike;
    PlainHere(w, end, text[k..]);
    if k + |w| <= |text| { assert text[k..][..|w|] == text[k..k + |w|]; }
  }

  /** The pattern matches at k of the text. */
  predicate HereAt(re: string, text: string, k: int) { 0 <= k <= |text| && Here(Parse(re), text[k..]) }

  function Anchored(start: bool, re: string): string { if start then "^" + re else re }

  lemma MatchesAt(start: bool, re: string, text: string)
    requires !start && re != [] ==> re[0] != '^'
    ensures Matches(Anchored(start, re), text) <==> exists k :: HereAt(re, text, k) && (start ==> k == 0)
  {
    hide Here, Parse;
    assert text[0..] == text;
    if start {
      assert Anchored(start, re)[1..] == re;
      assert HereAt(re, text, 0) <==> Here(Parse(re), text);
    } else {
      if Somewhere(Parse(re), text) {
        var k :| 0 <= k <= |text| && Here(Parse(re), text[k..]);
        assert HereAt(re, text, k);
      }
      if k :| HereAt(re, text, k) { assert Here(Parse(re), text[k..]); }
    }
  }

  /** match for a pattern without stars: it occurs in the text, at the start under ^, at the end before $. */
  lemma PlainMatches(w: string, start: bool, end: bool, text: string)
    requires Plain(w) && (!end && w != [] ==> w[|w| - 1] != '$') && (!start && w != [] ==> w[0] != '^')
    ensures Matches(Anchored(start, w + if end then "$" else ""), text) <==>
      exists k :: OccursAt(w, text, k) && (start ==> k == 0) && (end ==> k + |w| == |text|)
  {
    var re := w + if end then "$" else "";
    assert re != [] ==> re[0] == if w == [] then '$' else w[0];
    MatchesAt(start, re, text);
    hide Here, Parse, Alike;
    forall k: int ensures HereAt(re, text, k) <==> OccursAt(w, text, k) && (end ==> k + |w| == |text|) {
      if 0 <= k <= |text| { OccursHere(w, end, text, k); }
    }
  }

  /** From k of the text on come m characters that fit c, and then v, up to the end if asked for. */
  predicate RunThen(c: char, v: string, end: bool, text: string, k: int, m: int) {
    && 0 <= k && 0 <= m && k + m <= |text| && (forall i :: k <= i < k + m ==> c == '.' || text[i] == c)
    && OccursAt(v, text, k + m) && (end ==> k + m + |v| == |text|)
  }

  predicate StarAt(w: string, c: char, v: string, end: bool, text: string, k: int, m: int) {
    OccursAt(w, text, k) && RunThen(c, v, end, text, k + |w|, m)
  }

  /** match for a pattern with one starred character: what comes before it, then any number of fitting characters,
      then what comes after it, anchored in the same way. */
  lemma StarMatches(w: string, c: char, v: string, start: bool, end: bool, text: string)
    requires Plain(w) && Plain(v) && c != '*' && (!end && v != [] ==> v[|v| - 1] != '$')
    requires !start ==> (if w == [] then c else w[0]) != '^'
    ensures Matches(Anchored(start, w + ([c, '*'] + (v + if end then "$" else ""))), text) <==>
      exists k, m :: StarAt(w, c, v, end, text, k, m) && (start ==> k == 0)
  {
    var star := [c, '*'] + (v + if end then "$" else "");
    var re := w + star;
    assert re[0] == if w == [] then c else w[0];
    MatchesAt(start, re, text);
    hide HereAt, StarAt, Matches;
    forall k: int ensures HereAt(re, text, k) <==> exists m :: StarAt(w, c, v, end, text, k, m) {
      StarHead(w, c, v, end, text, k);
    }
    if Matches(Anchored(start, re), text) {
      var k :| HereAt(re, text, k) && (start ==> k == 0);
      var m :| StarAt(w, c, v, end, text, k, m);
    }
    if k, m :| StarAt(w, c, v, end, text, k, m) && (start ==> k == 0) { assert HereAt(re, text, k); }
  }

  lemma StarHead(w: string, c: char, v: string, end: bool, text: string, k: int)
    requires Plain(w) && Plain(v) && c != '*' && (!end && v != [] ==> v[|v| - 1] != '$')
    ensures HereAt(w + ([c, '*'] + (v + if end then "$" else "")), text, k) <==>
      exists m :: StarAt(w, c, v, end, text, k, m)
  {
    hide Here, Alike, RunThen, Parse;
    var star := [c, '*'] + (v + if end then "$" else "");
    if 0 <= k <= |text| {
      PlainHead(w, star, text[k..]);
      if k + |w| <= |text| {
        assert text[k..][..|w|] == text[k..k + |w|] && text[k..][|w|..] == text[k + |w|..];
        StarTail(c, v, end, text, k + |w|);
        if HereAt(w + star, text, k) {
          var m :| RunThen(c, v, end, text, k + |w|, m);
          assert StarAt(w, c, v, end, text, k, m);
        }
        if m :| StarAt(w, c, v, end, text, k, m) { assert RunThen(c, v, end, text, k + |w|, m); }
      }
    }
  }

  lemma StarTail(c: char, v: string, end: bool, text: string, k: nat)
    requires Plain(v) && (!end && v != [] ==> v[|v| - 1] != '$') && k <= |text|
    ensures Here(Parse([c, '*'] + (v + if end then "$" else "")), text[k..]) <==>
      exists m :: RunThen(c, v, end, text, k, m)
  {
    var last, rest := v + if end then "$" else "", text[k..];
    var q := Parse(last);
    StarParse(c, last);
    HereStar(Parse([c, '*'] + last), rest);
    hide Here, Parse, OccursAt, AllFit;
    if StarHere(c, q, rest) {
      var m :| 0 <= m <= |rest| && AllFit(c, rest[..m]) && Here(q, rest[m..]);
      StarTailAt(c, v, end, text, k, m);
    }
    if m :| RunThen(c, v, end, text, k, m) {
      StarTailAt(c, v, end, text, k, m);
      assert 0 <= m <= |rest| && AllFit(c, rest[..m]) && Here(q, rest[m..]);
    }
  }

  lemma StarTailAt(c: char, v: string, end: bool, text: string, k: nat, m: nat)
    requires Plain(v) && (!end && v != [] ==> v[|v| - 1] != '$') && k + m <= |text|
    ensures var rest := text[k..];
      AllFit(c, rest[..m]) && Here(Parse(v + if end then "$" else ""), rest[m..]) <==> RunThen(c, v, end, text, k, m)
  {
    hide AllFit, Parse, Here, OccursAt;
    var rest, last := text[k..], v + if end then "$" else "";
    assert Here(Parse(last), rest[m..]) <==> OccursAt(v, text, k + m) && (end ==> k + m + |v| == |text|) by {
      assert rest[m..] == text[k + m..];
      OccursHere(v, end, text, k + m);
    }
    FitRun(c, text, k, m);
  }

  lemma FitRun(c: char, text: string, k: nat, m: nat)
    requires k + m <= |text|
    ensures AllFit(c, text[k..][..m]) <==> forall i :: k <= i < k + m ==> c == '.' || text[i] == c
  {
    var w := text[k..][..m];
    assert forall i :: 0 <= i < m ==> w[i] == text[k + i];
    if AllFit(c, w) {
      forall i | k <= i < k + m ensures c == '.' || text[i] == c { assert Fits(c, w[i - k]); }
    }
  }

  lemma StarParse(c: char, last: string)
    ensures var p := Parse([c, '*'] + last);
      p.items != [] && p.items[0] == Star(c) && Pattern(p.items[1..], p.toEnd) == Parse(last)
  {
    assert ([c, '*'] + last)[2..] == last;
  }
}
