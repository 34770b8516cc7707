/** Table bodies and their definitions, and the four scanners put together. */
module SqlTables {
  import opened Text
  import opened SqlLexer
  import opened SqlRelex
  import opened DataStandards
  import opened SqlStripping
  import opened SqlPipeline

  // ----- Depth

  lemma {:induction false} DepthSplit(s: string, c: seq<Class>, i: nat, j: nat, k: nat)
    requires i <= j <= k <= |s| == |c|
    ensures Depth(s, c, i, k) == Depth(s, c, i, j) + Depth(s, c, j, k)
  {
    if j < k {
      DepthSplit(s, c, i, j, k - 1);
    }
  }

  /** From `i` to `j` the texts open and close the same parentheses in code, `d` characters apart. */
  ghost predicate SameParens(s: string, c: seq<Class>, i: nat, j: nat, s': string, c': seq<Class>, d: int) {
    && i <= j <= |s| == |c| && 0 <= i + d && j + d <= |s'| == |c'|
    && forall n | i <= n < j :: Delta(s[n], c[n]) == Delta(s'[n + d], c'[n + d])
  }

  lemma {:induction false} DepthMoved(s: string, c: seq<Class>, i: nat, j: nat, s': string, c': seq<Class>, d: int)
    requires SameParens(s, c, i, j, s', c', d)
    ensures Depth(s, c, i, j) == Depth(s', c', i + d, j + d)
  {
    if i < j {
      DepthMoved(s, c, i, j - 1, s', c', d);
    }
  }

  /** Up to the parenthesis that closes the table, the depth stays positive. */
  lemma {:induction false} DepthPositive(u: string, c: seq<Class>, k: nat, j: nat)
    requires |u| == |c| && 1 <= j <= k <= |u| && u[0] == '(' && c[0] == Plain && NoneCloses(u, c, 0, k)
    ensures Depth(u, c, 0, j) >= 1
  {
    if j > 1 {
      DepthPositive(u, c, k, j - 1);
      assert !ClosesAt(u, c, 0, j - 1);
    }
  }

  // ----- Pieces of pieces

  /** `u` with the classes `cu` shows what `s` with the classes `cs` holds from `d` on: comments are
      blanked and count as code. */
  ghost predicate Shows(u: string, cu: seq<Class>, s: string, cs: seq<Class>, d: nat) {
    && |u| == |cu| && |s| == |cs| && |u| + d <= |s|
    && forall n | 0 <= n < |u| :: cu[n] == Erase(cs[n + d]) && u[n] == Shown(s[n + d], cs[n + d])
  }

  lemma {:induction false} ShowsStripped(s: string, t: string)
    requires Torn !in Lex(s) && t == WithoutComments(s)
    ensures Shows(t, LexCode(t), s, Lex(s), 0)
  {
    StripLex(s);
    forall n | 0 <= n < |t| ensures LexCode(t)[n] == Erase(Lex(s)[n + 0]) && t[n] == Shown(s[n + 0], Lex(s)[n + 0]) {
    }
  }

  /** A piece of what shows a text shows that text further on. */
  lemma {:induction false} ShowsPiece(u: string, s: string, cs: seq<Class>, d: nat, e: nat, p: string, d': nat)
    requires Shows(u, LexCode(u), s, cs, d) && Placed(u, e, p) && d' == d + e
    ensures Shows(p, LexCode(p), s, cs, d')
  {
    PlacedClasses(u, e, p);
    var cu, cp := LexCode(u), LexCode(p);
    forall n | 0 <= n < |p| ensures cp[n] == Erase(cs[n + d']) && p[n] == Shown(s[n + d'], cs[n + d']) {
      assert cp[n] == cu[n + e] == Erase(cs[n + e + d]);
      assert p[n] == u[n + e] == Shown(s[n + e + d], cs[n + e + d]);
    }
  }

  lemma {:induction false} ShowsDepth(u: string, cu: seq<Class>, s: string, cs: seq<Class>, d: nat, j: nat)
    requires Shows(u, cu, s, cs, d) && j <= |u|
    ensures Depth(u, cu, 0, j) == Depth(s, cs, d, j + d)
  {
    DepthMoved(u, cu, 0, j, s, cs, d);
  }

  lemma {:induction false} ShowsCloses(u: string, cu: seq<Class>, s: string, cs: seq<Class>, d: nat, n: nat)
    requires Shows(u, cu, s, cs, d) && n < |u|
    ensures ClosesAt(u, cu, 0, n) <==> ClosesAt(s, cs, d, n + d)
  {
    ShowsDepth(u, cu, s, cs, d, n + 1);
  }

  lemma {:induction false} ShowsNoneCloses(u: string, cu: seq<Class>, s: string, cs: seq<Class>, d: nat, k: nat)
    requires Shows(u, cu, s, cs, d) && NoneCloses(u, cu, 0, k)
    ensures NoneCloses(s, cs, d, k + d)
  {
    forall j | 0 <= j - d < k ensures !ClosesAt(s, cs, d, j) {
      ShowsCloses(u, cu, s, cs, d, j - d);
    }
  }

  // ----- Table bodies

  /** What `TableBody` returns for the text `u`, which starts with the parenthesis of a table. */
  ghost predicate IsBody(u: string, k: nat, body: string) {
    && 0 < k < |u| && u[0] == '(' && ClosesAt(u, LexFrom(u, 0), 0, k) && NoneCloses(u, LexFrom(u, 0), 0, k)
    && body == u[1..k]
  }

  lemma {:induction false} BodyPlaced(u: string, k: nat, body: string)
    requires IsBody(u, k, body)
    ensures Placed(u, 1, body) && LexCode(u)[0] == Plain && Closed(body)
    ensures Shows(body, LexCode(body), u, LexCode(u), 1)
  {
    assert TokenAt(u, 0, false) == Token(Plain, 1);
    assert LexCode(u)[k] == Plain;
    PlacedBeforeCode(u, 1, body, k);
    ShowsPiece(u, u, LexCode(u), 0, 1, body, 1);
  }

  /** The body lexes as it does inside the table and is closed; it never closes a parenthesis it did
      not open, and ends with all of them closed. */
  lemma {:induction false} BodyBalanced(u: string, k: nat, body: string, n: nat)
    requires IsBody(u, k, body) && n <= |body|
    ensures 0 <= Depth(body, LexCode(body), 0, n) == Depth(u, LexCode(u), 0, n + 1) - 1
    ensures n == |body| ==> Depth(body, LexCode(body), 0, n) == 0
    ensures Closed(body)
  {
    BodyPlaced(u, k, body);
    var c := LexCode(u);
    ShowsDepth(body, LexCode(body), u, c, 1, n);
    DepthSplit(u, c, 0, 1, n + 1);
    assert Depth(u, c, 0, 1) == 1;
    DepthPositive(u, c, k, n + 1);
    assert Depth(u, c, 0, k + 1) == 0;
  }

  // ----- The four scanners together

  /** From a text to a table body: `t` is `s` without comments, `a..b` a statement `st` of it, `u` what
      is left of the statement at the parenthesis at `p`, and `body` the table that it opens. */
  ghost predicate Pipeline(s: string, t: string, a: nat, b: nat, st: string, p: nat, u: string, k: nat, body: string) {
    && Torn !in Lex(s) && t == WithoutComments(s)
    && IsPiece(StatementCuts(t), a, b) && st == t[a..b]
    && p < |st| && u == st[p..] && IsBody(u, k, body)
  }

  lemma {:induction false} TailPlaced(st: string, p: nat, u: string)
    requires p < |st| && LexCode(st)[p] == Plain && u == st[p..] && u[0] == '('
    ensures Placed(st, p, u)
  {
    PlainTiles(st, 0, p);
  }

  lemma {:induction false} StatementShows(s: string, t: string, a: nat, b: nat, st: string)
    requires IsPiece(StatementCuts(t), a, b) && st == t[a..b]
    ensures Torn !in Lex(s) && t == WithoutComments(s) ==> Shows(st, LexCode(st), s, Lex(s), a)
  {
    if Torn !in Lex(s) && t == WithoutComments(s) {
      ShowsStripped(s, t);
      PiecePlaced(t, a, b, st);
      ShowsPiece(t, s, Lex(s), 0, a, st, a);
    }
  }

  lemma {:induction false} TableShows(s: string, c: seq<Class>, a: nat, st: string, p: nat, u: string, k: nat, body: string)
    requires Shows(st, LexCode(st), s, c, a)
    requires p < |st| && LexCode(st)[p] == Plain && u == st[p..] && IsBody(u, k, body)
    ensures Shows(u, LexCode(u), s, c, a + p) && Shows(body, LexCode(body), s, c, a + p + 1)
  {
    TailPlaced(st, p, u);
    ShowsPiece(st, s, c, a, p, u, a + p);
    BodyPlaced(u, k, body);
    ShowsPiece(u, s, c, a + p, 1, body, a + p + 1);
  }

  lemma {:induction false} CutAgrees(u: string, k: nat, body: string, s: string, c: seq<Class>, open: nat, n: nat)
    requires IsBody(u, k, body) && n < |body|
    requires Shows(u, LexCode(u), s, c, open) && Shows(body, LexCode(body), s, c, open + 1)
    ensures var i := n + (open + 1);
            DefinitionCuts(body)[n] <==> s[i] == ',' && c[i] == Plain && Depth(s, c, open, i) == 1
  {
    BodyBalanced(u, k, body, n);
    ShowsDepth(u, LexCode(u), s, c, open, n + 1);
  }

  /** By the classes `c` of the text `s`, the table that opens at `open` ends at `end`, and `body`, the
      text between, is cut into definitions at exactly the commas in code at depth 1. */
  ghost predicate TableOf(s: string, c: seq<Class>, open: nat, end: nat, body: string) {
    && open < end < |s| == |c| && end == open + 1 + |body|
    && ClosesAt(s, c, open, end) && NoneCloses(s, c, open, end)
    && (forall n | 0 <= n < |body| :: LexCode(body)[n] == Erase(c[n + (open + 1)]))
    && (forall n | 0 <= n < |body| :: CutAt(s, c, open, body, n))
  }

  ghost predicate CutAt(s: string, c: seq<Class>, open: nat, body: string, n: nat)
    requires n < |body| && n + (open + 1) < |s| == |c|
  {
    var i := n + (open + 1);
    DefinitionCuts(body)[n] <==> s[i] == ',' && c[i] == Plain && Depth(s, c, open, i) == 1
  }

  lemma {:induction false} TableAgrees(s: string, c: seq<Class>, open: nat, end: nat, u: string, k: nat, body: string)
    requires IsBody(u, k, body) && end == k + open
    requires Shows(u, LexCode(u), s, c, open) && Shows(body, LexCode(body), s, c, open + 1)
    ensures TableOf(s, c, open, end, body)
  {
    ShowsCloses(u, LexCode(u), s, c, open, k);
    ShowsNoneCloses(u, LexCode(u), s, c, open, k);
    forall n | 0 <= n < |body| ensures CutAt(s, c, open, body, n) {
      CutAgrees(u, k, body, s, c, open, n);
    }
  }

  // ----- A parenthesis inside a literal

  /** The next step of a scanner does not jump over a parenthesis. */
  lemma {:induction false} StepShort(s: string, i: nat, quote: string, p: nat)
    requires i < p < |s| && s[p] == '(' && ValidQuote(quote) && AtLiteral(s, i, quote) && '(' !in quote
    ensures var r := StepAt(s, i, quote, false); r.next <= p && '(' !in r.quote
  {
    hide TagEnd;
    if |quote| > 1 {
      assert At(s, i, quote) ==> forall n | i <= n < i + |quote| :: s[n] == quote[n - i];
    } else if quote == "" && DollarTag(s, i) != "" {
      TagVisible(s, i);
      assert DollarTag(s, i) == s[i..TagEnd(s, i)];
    }
  }

  /** What a scanner remembers at a parenthesis. */
  lemma {:induction false} MemoryAt(s: string, c: seq<Class>, i: nat, quote: string, p: nat) returns (q: string)
    requires i <= p < |s| && s[p] == '(' && Follows(s, c, i, quote, false)
    requires ValidQuote(quote) && '(' !in quote
    ensures Follows(s, c, p, q, false) && ValidQuote(q) && '(' !in q
    decreases p - i
  {
    hide Follows, TokenAt, ClassAt;
    if i == p {
      return quote;
    }
    if AtLiteral(s, i, quote) {
      var r := StepAt(s, i, quote, false);
      StepFollows(s, c, i, quote, false, r, false);
      StepShort(s, i, quote, p);
      q := MemoryAt(s, c, r.next, r.quote, p);
    } else {
      PlainStep(s, c, i);
      q := MemoryAt(s, c, i + 1, "", p);
    }
  }

  /** A parenthesis that is not in code is inside a literal, and so is what follows it. */
  lemma {:induction false} InsideAfter(s: string, c: seq<Class>, p: nat) returns (q: string)
    requires c == LexCode(s) && p < |s| && s[p] == '(' && c[p] != Plain
    ensures q != "" && ValidQuote(q) && Follows(s, c, p + 1, q, false)
  {
    assert Follows(s, c, 0, "", false);
    q := MemoryAt(s, c, 0, "", p);
    hide Follows, TokenAt, ClassAt, LexCode;
    if AtLiteral(s, p, q) {
      assert |q| > 1 ==> q[0] != s[p + 0];
      StepFollows(s, c, p, q, false, StepAt(s, p, q, false), false);
    } else {
      PlainStep(s, c, p);
    }
  }

  lemma {:induction false} TagInStep(s: string, c: seq<Class>, c': seq<Class>, i: nat, tag: string)
    requires i < |s| && |tag| > 1 && Follows(s, c, i, tag, false)
    requires FromCode(s, c', i, false) && c'[i] == c[i]
    ensures i + |tag| <= |c| && forall n | i <= n < i + |tag| :: c[n] != Plain
    ensures FromCode(s, c, i + |tag|, false) && Follows(s, c', i + |tag|, tag, false)
  {
    hide TagEnd;
    assert c[i] == Dollar(tag);
    assert DollarTag(s, i) == tag;
    DollarTagAt(s, i);
    DollarToken(s, i, tag, false);
    OpensDollar(s, c', i, tag, i + |tag|, false);
  }

  lemma {:induction false} QuoteInStep(s: string, c: seq<Class>, c': seq<Class>, i: nat, q: char)
    requires i < |s| && IsQuote(q) && Follows(s, c, i, [q], false)
    requires FromCode(s, c', i, false) && c'[i] == c[i]
    ensures c[i] == Literal(q) && FromCode(s, c, i + 1, false) && Follows(s, c', i + 1, [q], false)
  {
    hide DollarTag;
    assert c[i] == Literal(q);
    assert s[i] == q;
    hide TokenAt, ClassAt, Follows, FromCode;
    ToggleQuote(s, c, i, q, false);
    OpensLiteral(s, c', i, false);
  }

  /** Two lexings of one text, at `i` one inside the literal of `quote` and one in code. */
  ghost predicate Apart(s: string, c: seq<Class>, c': seq<Class>, i: nat, quote: string) {
    && i <= |s| == |c| == |c'| && quote != "" && ValidQuote(quote)
    && Follows(s, c, i, quote, false) && FromCode(s, c', i, false)
  }

  /** Where their classes agree, the one leaves the literal and the other enters it. */
  lemma {:induction false} ChangePlaces(s: string, c: seq<Class>, c': seq<Class>, i: nat, quote: string) returns (j: nat)
    requires i < |s| && Apart(s, c, c', i, quote) && c[i] == c'[i]
    ensures i < j <= |s| && Apart(s, c', c, j, quote) && forall n | i <= n < j :: c[n] != Plain
  {
    hide Follows, FromCode;
    if |quote| > 1 {
      TagInStep(s, c, c', i, quote);
      j := i + |quote|;
    } else {
      assert quote == [quote[0]];
      QuoteInStep(s, c, c', i, quote[0]);
      j := i + 1;
    }
  }

  /** So they differ somewhere before any common code character. */
  lemma {:induction false} OutOfStep(s: string, c: seq<Class>, c': seq<Class>, i: nat, e: nat, quote: string)
    returns (n: nat)
    requires i <= e < |s| && Apart(s, c, c', i, quote) && c[e] == c'[e] == Plain
    ensures i <= n < e && c[n] != c'[n]
    decreases e - i
  {
    assert |c| == |s| == |c'|;
    hide Apart;
    if c[i] != c'[i] {
      n := i;
    } else {
      var j := ChangePlaces(s, c, c', i, quote);
      n := OutOfStep(s, c', c, j, e, quote);
    }
  }

  /** What follows an opening parenthesis has the same classes in the text that starts with it. */
  lemma {:induction false} TailClasses(s: string, p: nat, u: string, c: seq<Class>)
    requires p < |s| && Stands(s, p, u, |s|) && u[0] == '(' && c == LexFrom(s, p + 1)
    ensures FromCode(s, c, p + 1, false)
    ensures forall n | 1 <= n < |u| :: LexCode(u)[n] == c[n + p]
  {
    FollowsToken(u, LexCode(u), 0, Token(Plain, 1), false);
    assert FromCode(s, c, p + 1, false);
    hide LexCode, LexFrom, TokenAt, ClassAt;
    assert Window(u, 1, |u|, s, p);
    assert u[0] == s[0 + p] && SameStart(u, 1, |u|, s, p);
    hide Window, SameStart, Stands;
    forall n | 1 <= n < |u| ensures LexCode(u)[n] == c[n + p] {
      RelocateAt(u, 1, |u|, s, p, n, p + 1, n + p);
    }
  }

  lemma {:induction false} BodyClasses(s: string, p: nat, u: string, k: nat, body: string, c: seq<Class>)
    requires p < |s| && Stands(s, p, u, |s|) && IsBody(u, k, body) && c == LexFrom(s, p + 1)
    ensures FromCode(s, c, p + 1, false)
    ensures p + 1 + |body| == p + k < |s| == |c| && c[p + k] == Plain
    ensures forall n | p < n < p + k :: c[n] == LexCode(body)[n - p - 1]
  {
    assert LexCode(u)[k] == Plain && u[0] == '(' && |body| == k - 1;
    BodyPlaced(u, k, body);
    PlacedClasses(u, 1, body);
    TailClasses(s, p, u, c);
    hide LexCode, LexFrom, IsBody, FromCode, Placed, Shows, Stands;
    assert c[k + p] == Plain;
    forall n | p < n < p + k ensures c[n] == LexCode(body)[n - p - 1] {
      assert LexCode(u)[n - p - 1 + 1] == c[n - p + p];
    }
  }

  /** The body of a table that opens inside a literal has other classes from scratch than in the text. */
  lemma {:induction false} OpenedInLiteral(st: string, p: nat, u: string, k: nat, body: string) returns (n: nat)
    requires p < |st| && Stands(st, p, u, |st|) && IsBody(u, k, body)
    requires LexCode(st)[p] != Plain && LexCode(st)[p + k] == Plain
    ensures p < n < p + k == p + 1 + |body| && LexCode(body)[n - p - 1] != LexCode(st)[n]
  {
    var c, c' := LexCode(st), LexFrom(st, p + 1);
    var q := InsideAfter(st, c, p);
    BodyClasses(st, p, u, k, body, c');
    var e := p + k;
    assert Apart(st, c, c', p + 1, q) && c[e] == c'[e] == Plain;
    hide *;
    n := OutOfStep(st, c, c', p + 1, e, q);
  }

  /** By the reference lexer the body of such a table has the classes that it has from scratch. */
  lemma {:induction false} BodyInStep(s: string, c: seq<Class>, a: nat, st: string, p: nat, end: nat, body: string)
    requires Shows(st, LexCode(st), s, c, a) && TableOf(s, c, a + p, a + end, body) && end < |st|
    ensures end == p + 1 + |body| && LexCode(st)[end] == Plain
    ensures forall n | p < n < end :: LexCode(st)[n] == LexCode(body)[n - p - 1]
  {
    hide LexCode, Depth, Delta, NoneCloses, CutAt;
    forall n | p < n < end ensures LexCode(st)[n] == LexCode(body)[n - p - 1] {
      assert LexCode(st)[n] == Erase(c[n + a]);
      assert n - p - 1 + (a + p + 1) == n + a;
    }
    assert LexCode(st)[end] == Erase(c[end + a]);
  }

  /** All four scanners agree with the one reference lexer on the original text. Strip, cut into
      statements, take the body of a table, cut it into definitions, each step lexing the result of
      the step before from scratch: the table ends at the parenthesis that the reference lexer puts
      outside the comments and literals of the original and that closes the table there, and the
      definitions are cut at exactly the commas that it puts outside them, at depth 1 in the table. And
      so it is exactly when it puts the parenthesis that opens the table outside literals. */
  lemma {:induction false} ScannersAgree(s: string, t: string, a: nat, b: nat, st: string, p: nat, u: string, k: nat, body: string)
    ensures Pipeline(s, t, a, b, st, p, u, k, body) ==>
            (TableOf(s, Lex(s), a + p, a + (p + k), body) <==> LexCode(st)[p] == Plain)
  {
    hide ClassAt, TokenAt, Depth, Lex, LexCode, WithoutComments, StatementCuts, Shows, DefinitionCuts, TableOf;
    if Pipeline(s, t, a, b, st, p, u, k, body) {
      StatementShows(s, t, a, b, st);
      if LexCode(st)[p] == Plain {
        TableShows(s, Lex(s), a, st, p, u, k, body);
        TableAgrees(s, Lex(s), a + p, a + (p + k), u, k, body);
      }
      if TableOf(s, Lex(s), a + p, a + (p + k), body) {
        BodyInStep(s, Lex(s), a, st, p, p + k, body);
        if LexCode(st)[p] != Plain {
          assert Stands(st, p, u, |st|);
          var _ := OpenedInLiteral(st, p, u, k, body);
        }
      }
    }
  }

  // ----- A header that hides its table

  lemma {:induction false} PlainRun(s: string, i: nat, k: nat)
    requires i <= k <= |s| && forall n | i <= n < k :: s[n] != '$' && !IsQuote(s[n])
    ensures Tiles(s, i, k) && forall n | i <= n < k :: ClassAt(s, i, n, false) == Plain
    decreases k - i
  {
    if i < k {
      assert TokenAt(s, i, false) == Token(Plain, i + 1);
      PlainRun(s, i + 1, k);
    }
  }

  lemma {:induction false} SmallBody(u: string)
    requires u == "(x int)"
    ensures IsBody(u, 6, "x int")
  {
    PlainRun(u, 0, 7);
    var c := LexFrom(u, 0);
    assert forall n | 0 <= n < 7 :: c[n] == Plain;
    hide LexFrom, ClassAt;
    assert Depth(u, c, 0, 0) == 0 && Depth(u, c, 0, 1) == 1 && Depth(u, c, 0, 2) == 1 && Depth(u, c, 0, 3) == 1;
    assert Depth(u, c, 0, 4) == 1 && Depth(u, c, 0, 5) == 1 && Depth(u, c, 0, 6) == 1 && Depth(u, c, 0, 7) == 0;
    assert u[1..6] == "x int";
  }

  /** The pattern for the header of a table takes `a$$b$` for the name; the reference lexer, and with it
      the splitter of statements, lets the second `$` open a literal that holds the parenthesis. */
  lemma {:induction false} HiddenTable(st: string)
    requires st == "CREATE TABLE a$$b$ (x int)"
    ensures LexCode(st)[19] == Dollar("$b$") && IsBody(st[19..], 6, "x int")
  {
    assert st[19..] == "(x int)";
    SmallBody(st[19..]);
    PlainRun(st, 0, 14);
    TilesResume(st, 0, 14);
    assert TokenAt(st, 14, false) == Token(Plain, 15);
    HiddenFrom(st, 15);
  }

  lemma {:induction false} HiddenFrom(s: string, i: nat)
    requires 0 < i && i + 5 <= |s| && !IsWord(s[i - 1])
    requires s[i] == '$' && s[i + 1] == 'b' && s[i + 2] == '$' && s[i + 3] != '$' && s[i + 4] != '$'
    ensures ClassAt(s, i, i + 4, false) == Dollar("$b$")
  {
    var tag := "$b$";
    assert RunEnd(s, i + 1) == i + 2;
    assert TagEnd(s, i) == i + 3;
    assert DollarTag(s, i) == tag;
    assert !At(s, i + 3, tag) && !At(s, i + 4, tag);
    assert TagClose(s, i + 3, tag) >= i + 5;
  }

  // ----- Definitions

  /** `t` is `s` without blanks at both ends, and nothing else is missing. */
  ghost predicate IsTrimmed(s: string, t: string) {
    && (t != "" ==> !IsSpace(t[0]) && !IsSpace(t[|t| - 1]))
    && exists lo, hi | 0 <= lo <= hi <= |s| :: t == s[lo..hi] && Blank(s[..lo]) && Blank(s[hi..])
  }

  lemma {:induction false} TrimIsTrimmed(s: string)
    ensures IsTrimmed(s, Trim(s))
  {
    var lo := SkipBlanks(s, 0);
    var hi := DropBlanks(s, lo, |s|);
    assert Trim(s) == s[lo..hi] && Blank(s[..lo]) && Blank(s[hi..]);
  }

  /** The definitions, joined with commas, give the body up to the blanks around each of them and a
      last comma with blanks behind it. */
  lemma {:induction false} DefinitionsJoin(body: string) returns (raw: seq<string>, tail: string)
    ensures |Definitions(body)| == |raw| && Blank(tail)
    ensures forall i | 0 <= i < |raw| :: IsTrimmed(raw[i], Definitions(body)[i])
    ensures body == Join(raw, ',') || body == Ended(raw, ',') + tail
  {
    var r := Segments(body, DefinitionCuts(body), 0, |body|);
    JoinSegments(body, DefinitionCuts(body), 0, |body|, ',');
    EndedSnoc(r.done, r.last, ',');
    assert body[0..|body|] == body;
    raw := NonBlankEnd(r);
    forall i | 0 <= i < |raw| ensures IsTrimmed(raw[i], Definitions(body)[i]) {
      TrimIsTrimmed(raw[i]);
    }
    tail := if Blank(r.last) then r.last else "";
  }

  /** No comma of `p` is in code outside parentheses, and nothing is left to trim. */
  ghost predicate OneDefinition(p: string) {
    Trim(p) == p && forall n | 0 <= n < |p| :: !DefinitionCuts(p)[n]
  }

  ghost predicate ClosedDefinition(p: string) {
    OneDefinition(p) && Closed(p) && Depth(p, LexCode(p), 0, |p|) == 0
  }

  ghost predicate AllDefinitions(parts: seq<string>) { forall i | 0 <= i < |parts| :: ClosedDefinition(parts[i]) }

  /** `s` is in code, outside parentheses, at `e`, after the definitions `done`. */
  ghost predicate Cut(s: string, e: int, done: seq<string>) {
    && 0 <= e <= |s| && Tiles(s, 0, e) && (e > 0 ==> s[e - 1] == ',') && Depth(s, LexCode(s), 0, e) == 0
    && Segments(s, DefinitionCuts(s), 0, e) == Pieces(done, "")
  }

  lemma {:induction false} PlacedDepth(s: string, e: nat, p: string, n: nat)
    requires Placed(s, e, p) && n <= |p|
    ensures Depth(s, LexCode(s), 0, e + n) == Depth(s, LexCode(s), 0, e) + Depth(p, LexCode(p), 0, n)
  {
    PlacedClasses(s, e, p);
    DepthMoved(p, LexCode(p), 0, n, s, LexCode(s), e);
    DepthSplit(s, LexCode(s), 0, e, e + n);
  }

  lemma {:induction false} PlacedUncut(s: string, e: nat, p: string, n: nat)
    requires Placed(s, e, p) && Depth(s, LexCode(s), 0, e) == 0 && n < |p| && !DefinitionCuts(p)[n]
    ensures !DefinitionCuts(s)[n + e]
  {
    hide TokenAt, ClassAt;
    PlacedClasses(s, e, p);
    PlacedDepth(s, e, p, n);
  }

  lemma {:induction false} DefinitionPlaced(s: string, e: nat, p: string, k: nat, done: seq<string>)
    requires Placed(s, e, p) && Cut(s, e, done) && OneDefinition(p) && k == e + |p|
    ensures Segments(s, DefinitionCuts(s), 0, k) == Pieces(done, p)
  {
    hide TokenAt, ClassAt, DefinitionCuts, Depth, LexCode, Tiles, Trim;
    var m := DefinitionCuts(s);
    assert forall n | e <= n < k :: !m[n] by {
      forall n | e <= n < k ensures !m[n] {
        PlacedUncut(s, e, p, n - e);
      }
    }
    SegmentsExtend(s, m, 0, e, k);
  }

  lemma {:induction false} CutNone(s: string)
    ensures Cut(s, 0, [])
  {
  }

  lemma {:induction false} CutStep(s: string, e: nat, done: seq<string>, p: string, e': nat, done': seq<string>)
    requires Cut(s, e, done) && ClosedDefinition(p) && done' == done + [p]
    requires e' <= |s| && Stands(s, e, p, e' - 1) && s[e' - 1] == ','
    ensures Cut(s, e', done')
  {
    hide TokenAt, ClassAt, Trim;
    DefinitionPlaced(s, e, p, e' - 1, done);
    PlacedDepth(s, e, p, |p|);
    PlacedClosed(s, e, p, e' - 1);
  }

  lemma {:induction false} DefinitionsLaid(s: string, parts: seq<string>, e: int)
    requires LaidOut(s, parts, ',', e) && AllDefinitions(parts)
    ensures Cut(s, e, parts)
  {
    hide TokenAt, ClassAt, Tiles, DefinitionCuts, Depth;
    if parts == [] {
      CutNone(s);
    } else {
      var front, p := parts[..|parts| - 1], parts[|parts| - 1];
      var e' := e - |p| - 1;
      DefinitionsLaid(s, front, e');
      CutStep(s, e', front, p, e, parts);
    }
  }

  lemma {:induction false} CutEnd(s: string, e: nat, done: seq<string>, p: string)
    requires Cut(s, e, done) && OneDefinition(p) && Stands(s, e, p, |s|)
    ensures Definitions(s) == TrimAll(if p == "" then done else done + [p])
  {
    DefinitionPlaced(s, e, p, |s|, done);
  }

  lemma {:induction false} TrimmedAll(front: seq<string>, last: string)
    requires AllDefinitions(front) && OneDefinition(last)
    ensures TrimAll(front) == front && TrimAll(front + [last]) == front + [last]
  {
    hide Closed, Depth, Trim;
    forall i | 0 <= i < |front| ensures Trim(front[i]) == front[i] {
      assert ClosedDefinition(front[i]);
    }
  }

  /** Splitting undoes joining: trimmed definitions that are closed, balanced and without a comma of
      their own, and a trimmed last one without such a comma, come back exactly when the last one is
      not empty. */
  lemma {:induction false} DefinitionsRoundTrip(front: seq<string>, last: string)
    requires AllDefinitions(front) && OneDefinition(last)
    ensures Definitions(Join(front + [last], ',')) == front + [last] <==> last != ""
    ensures last == "" ==> Definitions(Join(front + [last], ',')) == front
  {
    hide TokenAt, ClassAt, Tiles, DefinitionCuts, Depth, Cut, Closed;
    var s, e := JoinLaid(front, last, ',');
    DefinitionsLaid(s, front, e);
    CutEnd(s, e, front, last);
    TrimmedAll(front, last);
  }
}
