/** The four SQL scanners of `scripts/ci/check-data-standards.py`.

    Each keeps the loop and the `quote` variable of the script ("" stands for `None`), and each
    is proved against the classes of the one reference lexer in `SqlLexer`. */
module DataStandards {
  import opened Text
  import opened SqlLexer
  import opened Wrappers

  // ----- What the scanners compute, in terms of the reference lexer

  /** A comment character is shown as a blank, except that line feeds stay. */
  function Shown(ch: char, cls: Class): char {
    if cls != Comment then ch else if ch == '\n' then '\n' else ' '
  }

  function WithoutComments(s: string): string {
    var c := Lex(s);
    seq(|s|, i requires 0 <= i < |s| => Shown(s[i], c[i]))
  }

  /** The semicolons that the reference lexer puts outside literals. */
  function StatementCuts(s: string): seq<bool> {
    var c := LexCode(s);
    seq(|s|, i requires 0 <= i < |s| => s[i] == ';' && c[i] == Plain)
  }

  /** The pieces of a text; a blank last one is dropped. */
  function NonBlankEnd(p: Pieces): seq<string> {
    if Blank(p.last) then p.done else p.done + [p.last]
  }

  function Statements(s: string): seq<string> {
    NonBlankEnd(Segments(s, StatementCuts(s), 0, |s|))
  }

  function Delta(ch: char, cls: Class): int {
    if cls == Plain && ch == '(' then 1 else if cls == Plain && ch == ')' then -1 else 0
  }

  /** Parentheses opened and not closed by the code characters of `s[i..j]`. */
  function Depth(s: string, c: seq<Class>, i: nat, j: nat): int
    requires i <= j <= |s| == |c|
  {
    if i == j then 0 else Depth(s, c, i, j - 1) + Delta(s[j - 1], c[j - 1])
  }

  /** The commas outside literals and parentheses. */
  function DefinitionCuts(s: string): (m: seq<bool>)
    ensures |m| == |s|
  {
    var c := LexCode(s);
    seq(|s|, i requires 0 <= i < |s| => s[i] == ',' && c[i] == Plain && Depth(s, c, 0, i) == 0)
  }

  function TrimAll(r: seq<string>): seq<string> {
    seq(|r|, i requires 0 <= i < |r| => Trim(r[i]))
  }

  function Definitions(s: string): seq<string> {
    TrimAll(NonBlankEnd(Segments(s, DefinitionCuts(s), 0, |s|)))
  }

  /** `k` is a closing parenthesis in code that brings the depth, counted from `open`, back to 0. */
  predicate ClosesAt(s: string, c: seq<Class>, open: nat, k: nat)
    requires open <= k < |s| == |c|
  {
    c[k] == Plain && s[k] == ')' && Depth(s, c, open, k + 1) == 0
  }

  ghost predicate NoneCloses(s: string, c: seq<Class>, open: nat, k: nat) {
    open <= k <= |s| == |c| && forall j | open <= j < k :: !ClosesAt(s, c, open, j)
  }

  // ----- Blanking comments

  /** The part of `s` before `i` holds no torn comment, and `result` shows it without comments. */
  ghost predicate Stripped(s: string, c: seq<Class>, i: nat, result: string) {
    && i <= |s| == |c| && |result| == i
    && forall k | 0 <= k < i :: c[k] != Torn && result[k] == Shown(s[k], c[k])
  }

  /** What is shown for the comment text `s[i..j]`. */
  ghost predicate Blanks(s: string, i: nat, j: nat, blanks: string) {
    i <= j <= |s| && |blanks| == j - i && forall k | 0 <= k < j - i :: blanks[k] == Shown(s[i + k], Comment)
  }

  lemma {:induction false} StrippedBlank(s: string, c: seq<Class>, i: nat, result: string, j: nat, blanks: string)
    requires Stripped(s, c, i, result) && Run(c, i, j, Comment) && Blanks(s, i, j, blanks)
    ensures Stripped(s, c, j, result + blanks)
  {
    assert forall k | i <= k < j :: (result + blanks)[k] == blanks[k - i] == Shown(s[i + (k - i)], Comment);
  }

  /** The loop over a `--` comment: blanks up to the end of the line. */
  method BlankLine(sql: string, start: nat) returns (blanks: string, index: nat)
    requires At(sql, start, "--")
    ensures index == LineEnd(sql, start + 2) && Blanks(sql, start, index, blanks)
  {
    AtTwo(sql, start, "--");
    blanks, index := "", start;
    while index < |sql| && sql[index] != '\r' && sql[index] != '\n'
      invariant start <= index <= |sql| && Blanks(sql, start, index, blanks)
      invariant LineEnd(sql, index) == LineEnd(sql, start + 2)
    {
      blanks := blanks + [' '];
      index := index + 1;
    }
  }

  /** The loop over a block comment: blanks that keep the line feeds; fails at the end of the text. */
  method BlankBlock(sql: string, start: nat) returns (r: Result<string>, index: nat)
    requires At(sql, start, "/*")
    ensures r.Failure? <==> TagClose(sql, start + 2, "*/") > |sql|
    ensures r.Success? ==> index == TagClose(sql, start + 2, "*/") && Blanks(sql, start, index, r.value)
  {
    AtTwo(sql, start, "/*");
    var blanks := "" + "  ";
    index := start + 2;
    while index < |sql| && !At(sql, index, "*/")
      invariant start + 2 <= index <= |sql| && Blanks(sql, start, index, blanks)
      invariant TagClose(sql, index, "*/") == TagClose(sql, start + 2, "*/")
    {
      var ch := if sql[index] == '\n' then '\n' else ' ';
      blanks := blanks + [ch];
      index := index + 1;
    }
    if index == |sql| {
      return Failure("unsupported DDL form: unterminated block comment"), index;
    }
    AtTwo(sql, index, "*/");
    return Success(blanks + "  "), index + 2;
  }

  /** The scanner at `i`: its `quote` is right and its `result` is the text so far, stripped. */
  ghost predicate Stripping(s: string, c: seq<Class>, i: nat, quote: string, result: string) {
    ValidQuote(quote) && Follows(s, c, i, quote, true) && Stripped(s, c, i, result)
  }

  lemma {:induction false} StrippingLiteral(s: string, c: seq<Class>, i: nat, quote: string, result: string, r: Step)
    requires i < |s| && Stripping(s, c, i, quote, result) && AtLiteral(s, i, quote)
    requires r == StepAt(s, i, quote, true)
    ensures Stripping(s, c, r.next, r.quote, result + Copied(s, i, quote, true))
  {
    StepFollows(s, c, i, quote, true, r, true);
    CopiedText(s, i, quote, true, r);
  }

  lemma {:induction false} StrippingPlain(s: string, c: seq<Class>, i: nat, result: string)
    requires i < |s| && Stripping(s, c, i, "", result) && TokenAt(s, i, true) == Token(Plain, i + 1)
    ensures Stripping(s, c, i + 1, "", result + [s[i]])
  {
    FollowsToken(s, c, i, Token(Plain, i + 1), true);
  }

  method StripSqlComments(sql: string) returns (r: Result<string>)
    ensures r.Failure? <==> Torn in Lex(sql)
    ensures r.Success? ==> r.value == WithoutComments(sql)
  {
    var result, index, quote := "", 0, "";
    ghost var c := Lex(sql);
    while index < |sql|
      invariant index <= |sql| && Stripping(sql, c, index, quote, result)
      decreases |sql| - index
    {
      var ch := sql[index];
      if AtLiteral(sql, index, quote) {
        ghost var step := StepAt(sql, index, quote, true);
        ghost var text := result + Copied(sql, index, quote, true);
        StrippingLiteral(sql, c, index, quote, result, step);
        if |quote| > 1 {
          if At(sql, index, quote) {
            result, index, quote := result + quote, index + |quote|, "";
          } else {
            result, index := result + [ch], index + 1;
          }
        } else if quote != "" {
          if ch != quote[0] {
            result, index := result + [ch], index + 1;
          } else if index + 1 < |sql| && sql[index + 1] == quote[0] {
            result, index := result + [ch, sql[index + 1]], index + 2;
          } else {
            result, index, quote := result + [ch], index + 1, "";
          }
        } else if DollarTag(sql, index) != "" {
          quote := DollarTag(sql, index);
          result, index := result + quote, index + |quote|;
        } else {
          result, index, quote := result + [ch], index + 1, [ch];
        }
        assert Step(index, quote) == step && result == text;
      } else {
        if At(sql, index, "--") {
          var blanks, next := BlankLine(sql, index);
          FollowsToken(sql, c, index, Token(Comment, next), true);
          StrippedBlank(sql, c, index, result, next, blanks);
          result, index := result + blanks, next;
        } else if At(sql, index, "/*") {
          var blanks, next := BlankBlock(sql, index);
          FollowsToken(sql, c, index, TokenAt(sql, index, true), true);
          if blanks.Failure? {
            assert c[index] == Torn;
            return blanks;
          }
          StrippedBlank(sql, c, index, result, next, blanks.value);
          result, index := result + blanks.value, next;
        } else {
          StrippingPlain(sql, c, index, result);
          result, index := result + [ch], index + 1;
        }
      }
    }
    assert result == WithoutComments(sql);
    r := Success(result);
  }

  // ----- The two splitters

  /** A splitter at `i`: its `quote` is right and `p` holds the pieces of the text so far. */
  ghost predicate Splitting(s: string, c: seq<Class>, m: seq<bool>, i: nat, quote: string, p: Pieces) {
    && ValidQuote(quote) && Follows(s, c, i, quote, false)
    && |m| == |s| == |c| && (forall k | 0 <= k < |s| && m[k] :: c[k] == Plain)
    && p == Segments(s, m, 0, i)
  }

  lemma {:induction false} QuietDepth(s: string, c: seq<Class>, open: nat, i: nat, j: nat)
    requires |s| == |c| && open <= i && Quiet(c, i, j)
    ensures Depth(s, c, open, j) == Depth(s, c, open, i)
  {
    if i < j {
      QuietDepth(s, c, open, i, j - 1);
    }
  }

  lemma {:induction false} SplittingQuiet(s: string, c: seq<Class>, m: seq<bool>, i: nat, quote: string, p: Pieces, lookAhead: bool, r: Step)
    requires i < |s| && Splitting(s, c, m, i, quote, p) && AtLiteral(s, i, quote)
    requires r == StepAt(s, i, quote, lookAhead)
    ensures Splitting(s, c, m, r.next, r.quote, Pieces(p.done, p.last + Copied(s, i, quote, lookAhead)))
    ensures Depth(s, c, 0, r.next) == Depth(s, c, 0, i)
  {
    StepFollows(s, c, i, quote, lookAhead, r, false);
    SegmentsExtend(s, m, 0, i, r.next);
    CopiedText(s, i, quote, lookAhead, r);
    QuietDepth(s, c, 0, i, r.next);
  }

  method SplitSqlStatements(sql: string) returns (statements: seq<string>)
    ensures statements == Statements(sql)
  {
    var current, quote, index := "", "", 0;
    statements := [];
    ghost var c, m := LexCode(sql), StatementCuts(sql);
    while index < |sql|
      invariant index <= |sql| && Splitting(sql, c, m, index, quote, Pieces(statements, current))
      decreases |sql| - index
    {
      var ch := sql[index];
      if AtLiteral(sql, index, quote) {
        ghost var step := StepAt(sql, index, quote, true);
        ghost var text := current + Copied(sql, index, quote, true);
        SplittingQuiet(sql, c, m, index, quote, Pieces(statements, current), true, step);
        if |quote| > 1 {
          if At(sql, index, quote) {
            current, index, quote := current + quote, index + |quote|, "";
          } else {
            current, index := current + [ch], index + 1;
          }
        } else if quote == "" && DollarTag(sql, index) != "" {
          quote := DollarTag(sql, index);
          current, index := current + quote, index + |quote|;
        } else if quote != "" {
          if ch != quote[0] {
            current, index := current + [ch], index + 1;
          } else if index + 1 < |sql| && sql[index + 1] == quote[0] {
            current, index := current + [ch, sql[index + 1]], index + 2;
          } else {
            current, index, quote := current + [ch], index + 1, "";
          }
        } else {
          current, index, quote := current + [ch], index + 1, [ch];
        }
        assert Step(index, quote) == step && current == text;
      } else {
        if ch == ';' {
          statements, current := statements + [current], "";
        } else {
          current := current + [ch];
        }
        index := index + 1;
      }
    }
    if !Blank(current) {
      statements := statements + [current];
    }
  }

  /** The definition splitter at `i`: it also knows the parenthesis depth and the trimmed pieces. */
  ghost predicate Defining(s: string, c: seq<Class>, m: seq<bool>, i: nat, quote: string, p: Pieces,
                           parts: seq<string>, depth: int) {
    Splitting(s, c, m, i, quote, p) && parts == TrimAll(p.done) && depth == Depth(s, c, 0, i)
  }

  lemma {:induction false} DefiningPlain(s: string, i: nat, p: Pieces, parts: seq<string>, depth: int)
    requires i < |s| && Defining(s, LexCode(s), DefinitionCuts(s), i, "", p, parts, depth) && !AtLiteral(s, i, "")
    ensures var depth' := if s[i] == '(' then depth + 1 else if s[i] == ')' then depth - 1 else depth;
            var c, m := LexCode(s), DefinitionCuts(s);
            if s[i] == ',' && depth' == 0
            then Defining(s, c, m, i + 1, "", Pieces(p.done + [p.last], ""), parts + [Trim(p.last)], depth')
            else Defining(s, c, m, i + 1, "", Pieces(p.done, p.last + [s[i]]), parts, depth')
  {
  }

  method SplitDefinitions(body: string) returns (parts: seq<string>)
    ensures parts == Definitions(body)
  {
    var current, depth, quote, index := "", 0, "", 0;
    parts := [];
    ghost var c, m := LexCode(body), DefinitionCuts(body);
    ghost var done: seq<string> := [];
    assert Defining(body, c, m, index, quote, Pieces(done, current), parts, depth);
    hide Follows, Depth, DollarTag, At, IsQuote, LexCode, DefinitionCuts, Blank, Segments, Trim, Inside, CloseOf;
    while index < |body|
      invariant index <= |body| && Defining(body, c, m, index, quote, Pieces(done, current), parts, depth)
      decreases |body| - index
    {
      var ch := body[index];
      if AtLiteral(body, index, quote) {
        ghost var step := StepAt(body, index, quote, false);
        ghost var text := current + Copied(body, index, quote, false);
        SplittingQuiet(body, c, m, index, quote, Pieces(done, current), false, step);
        if |quote| > 1 {
          if At(body, index, quote) {
            current, index, quote := current + quote, index + |quote|, "";
          } else {
            current, index := current + [ch], index + 1;
          }
        } else if quote == "" && DollarTag(body, index) != "" {
          quote := DollarTag(body, index);
          current, index := current + quote, index + |quote|;
        } else if quote != "" {
          if ch == quote[0] {
            quote := "";
          }
          current, index := current + [ch], index + 1;
        } else {
          current, index, quote := current + [ch], index + 1, [ch];
        }
        assert Step(index, quote) == step && current == text;
      } else {
        assert quote == "";
        DefiningPlain(body, index, Pieces(done, current), parts, depth);
        if ch == '(' {
          depth := depth + 1;
        } else if ch == ')' {
          depth := depth - 1;
        }
        if ch == ',' && depth == 0 {
          parts := parts + [Trim(current)];
          done, current := done + [current], "";
        } else {
          current := current + [ch];
        }
        index := index + 1;
      }
    }
    if !Blank(current) {
      parts := parts + [Trim(current)];
    }
  }

  // ----- The search for the closing parenthesis of a table

  /** The search at `i`: its `quote` and `depth` are right and no parenthesis closed the table so far. */
  ghost predicate Searching(s: string, c: seq<Class>, open: nat, i: nat, quote: string, depth: int) {
    && open <= i && ValidQuote(quote) && Follows(s, c, i, quote, false)
    && NoneCloses(s, c, open, i) && depth == Depth(s, c, open, i)
  }

  lemma {:induction false} SearchingQuiet(s: string, c: seq<Class>, open: nat, i: nat, quote: string, depth: int, r: Step)
    requires i < |s| && Searching(s, c, open, i, quote, depth) && AtLiteral(s, i, quote)
    requires r == StepAt(s, i, quote, false)
    ensures Searching(s, c, open, r.next, r.quote, depth)
  {
    StepFollows(s, c, i, quote, false, r, false);
    QuietDepth(s, c, open, i, r.next);
  }

  lemma {:induction false} SearchingPlain(s: string, c: seq<Class>, open: nat, i: nat, depth: int)
    requires i < |s| && Searching(s, c, open, i, "", depth) && !AtLiteral(s, i, "")
    ensures var depth' := if s[i] == '(' then depth + 1 else if s[i] == ')' then depth - 1 else depth;
            if s[i] == ')' && depth' == 0 then open < i && ClosesAt(s, c, open, i)
            else Searching(s, c, open, i + 1, "", depth')
  {
    PlainStep(s, c, i);
  }

  method TableBody(sql: string, openParen: nat) returns (r: Result<(string, nat)>)
    requires openParen <= |sql|
    ensures var c := LexFrom(sql, openParen);
            match r
            case Success((body, k)) =>
              && openParen < k < |sql| && ClosesAt(sql, c, openParen, k) && NoneCloses(sql, c, openParen, k)
              && body == sql[openParen + 1..k]
            case Failure(_) => NoneCloses(sql, c, openParen, |sql|)
  {
    var depth, quote, index := 0, "", openParen;
    ghost var c := LexFrom(sql, openParen);
    assert Searching(sql, c, openParen, index, quote, depth);
    hide Follows, NoneCloses, Depth, ClosesAt, DollarTag, At, LexFrom, IsQuote;
    while index < |sql|
      invariant index <= |sql| && Searching(sql, c, openParen, index, quote, depth)
      decreases |sql| - index
    {
      var ch := sql[index];
      if AtLiteral(sql, index, quote) {
        ghost var step := StepAt(sql, index, quote, false);
        SearchingQuiet(sql, c, openParen, index, quote, depth, step);
        if |quote| > 1 {
          if At(sql, index, quote) {
            index, quote := index + |quote|, "";
          } else {
            index := index + 1;
          }
        } else if quote == "" && DollarTag(sql, index) != "" {
          quote := DollarTag(sql, index);
          index := index + |quote|;
        } else if quote != "" {
          if ch == quote[0] {
            quote := "";
          }
          index := index + 1;
        } else {
          quote, index := [ch], index + 1;
        }
        assert Step(index, quote) == step;
      } else {
        assert quote == "";
        SearchingPlain(sql, c, openParen, index, depth);
        if ch == '(' {
          depth := depth + 1;
        } else if ch == ')' {
          depth := depth - 1;
          if depth == 0 {
            return Success((sql[openParen + 1..index], index));
          }
        }
        index := index + 1;
      }
    }
    r := Failure("unterminated CREATE TABLE definition");
  }
}
