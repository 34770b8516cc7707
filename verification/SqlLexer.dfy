/** The reference lexer for the SQL texts of the data-standards gate.

    It jumps from token to token, looking for the end of each token at once, and
    gives every character a class. It is the yardstick for the four hand-written
    scanners in `DataStandards`, which walk character by character and keep a
    `quote` variable instead. */
module SqlLexer {
  import opened Text

  /** What a character is part of. Delimiters belong to the literal or comment they delimit.
      `Torn` is a block comment that never ends. */
  datatype Class =
    | Plain
    | Literal(quote: char)
    | Dollar(tag: string)
    | Comment
    | Torn

  predicate IsQuote(c: char) { c == '\'' || c == '`' || c == '"' }

  /** End of the run of word characters that starts at `i`. */
  function RunEnd(s: string, i: nat): (r: nat)
    requires i <= |s|
    ensures i <= r <= |s|
    ensures forall k | i <= k < r :: IsWord(s[k])
    ensures r < |s| ==> !IsWord(s[r])
    decreases |s| - i
  {
    if i < |s| && IsWord(s[i]) then RunEnd(s, i + 1) else i
  }

  /** The end of the PostgreSQL dollar-quote delimiter that begins at `i`: `$$` or `$tag$`, and not
      directly after a word character. `i` when there is none. */
  function TagEnd(s: string, i: nat): (e: nat)
    requires i < |s|
    ensures e == i || i + 1 < e <= |s|
  {
    if s[i] != '$' || (i > 0 && IsWord(s[i - 1])) || i + 1 == |s| then i
    else if s[i + 1] == '$' then i + 2
    else if IsDigit(s[i + 1]) then i
    else
      var e := RunEnd(s, i + 1);
      if i + 1 < e < |s| && s[e] == '$' then e + 1 else i
  }

  /** The delimiter that begins at `i`, or "". */
  function DollarTag(s: string, i: nat): (tag: string)
    requires i < |s|
    ensures tag != "" ==> |tag| >= 2 && i + |tag| <= |s|
  {
    s[i..TagEnd(s, i)]
  }

  /** Position after the quote that closes a literal whose text goes on at `j`; a doubled
      quote does not close it. `|s| + 1` when the literal is never closed. */
  function LiteralClose(s: string, j: nat, q: char): (e: nat)
    requires j <= |s|
    ensures j < e <= |s| + 1
    decreases |s| - j
  {
    if j == |s| then |s| + 1
    else if s[j] != q then LiteralClose(s, j + 1, q)
    else if j + 1 < |s| && s[j + 1] == q then LiteralClose(s, j + 2, q)
    else j + 1
  }

  /** Position after the first `tag` at or after `j`, or `|s| + 1`. */
  function TagClose(s: string, j: nat, tag: string): (e: nat)
    requires j <= |s|
    ensures j <= e <= |s| + 1
    decreases |s| - j
  {
    if At(s, j, tag) then j + |tag|
    else if j == |s| then |s| + 1
    else TagClose(s, j + 1, tag)
  }

  function LineEnd(s: string, j: nat): (e: nat)
    requires j <= |s|
    ensures j <= e <= |s|
    ensures e < |s| ==> s[e] == '\r' || s[e] == '\n'
    ensures forall k | j <= k < e :: s[k] != '\r' && s[k] != '\n'
    decreases |s| - j
  {
    if j == |s| || s[j] == '\r' || s[j] == '\n' then j else LineEnd(s, j + 1)
  }

  lemma {:induction false} DollarTagAt(s: string, i: nat)
    requires i < |s| && DollarTag(s, i) != ""
    ensures At(s, i, DollarTag(s, i)) && s[i] == '$'
  {
  }

  datatype Token = Token(cls: Class, close: nat)

  /** The token that starts in code at `i` and the position after it; `|s| + 1` when it is not
      terminated. Comments are tokens only where the text may still hold them. */
  function TokenAt(s: string, i: nat, comments: bool): (t: Token)
    requires i < |s|
    ensures i < t.close <= |s| + 1
    ensures t.cls.Plain? ==> t.close == i + 1
    ensures !comments ==> !t.cls.Comment? && !t.cls.Torn?
  {
    var tag := DollarTag(s, i);
    if tag != "" then Token(Dollar(tag), TagClose(s, i + |tag|, tag))
    else if IsQuote(s[i]) then Token(Literal(s[i]), LiteralClose(s, i + 1, s[i]))
    else if comments && At(s, i, "--") then Token(Comment, LineEnd(s, i + 2))
    else if comments && At(s, i, "/*") then
      var e := TagClose(s, i + 2, "*/");
      Token(if e <= |s| then Comment else Torn, e)
    else Token(Plain, i + 1)
  }

  function Clip(e: nat, n: nat): (r: nat)
    ensures r <= n && r <= e && (e <= n ==> r == e)
  {
    if e <= n then e else n
  }

  /** The class of the character at `k` when lexing starts from code at `i`. */
  function ClassAt(s: string, i: nat, k: nat, comments: bool): (c: Class)
    requires i <= k < |s|
    ensures !comments ==> !c.Comment? && !c.Torn?
    decreases |s| - i
  {
    var t := TokenAt(s, i, comments);
    if k < t.close then t.cls else ClassAt(s, t.close, k, comments)
  }

  /** The class of every character of `s`, comments included. */
  function Lex(s: string): (c: seq<Class>)
    ensures |c| == |s|
  {
    seq(|s|, k requires 0 <= k < |s| => ClassAt(s, 0, k, true))
  }

  /** The class of every character of a text that holds no comments any more. */
  function LexCode(s: string): (c: seq<Class>)
    ensures |c| == |s|
  {
    LexFrom(s, 0)
  }

  /** The same when lexing starts at `i`; what lies before `i` counts as code. */
  function LexFrom(s: string, i: nat): (c: seq<Class>)
    requires i <= |s|
    ensures |c| == |s|
  {
    seq(|s|, k requires 0 <= k < |s| => if k < i then Plain else ClassAt(s, i, k, false))
  }

  // ----- In the middle of a token
  //
  // The scanners remember what they are inside of in a variable `quote`: "" for code, one quote
  // character, or a dollar-quote delimiter. `Follows` says that such a memory is right at `i`.

  /** The class of text inside `quote`. */
  function Inside(quote: string): Class {
    if quote == "" then Plain else if |quote| == 1 then Literal(quote[0]) else Dollar(quote)
  }

  /** Where the token that `quote` stands for ends, seen from inside it at `i`. */
  function CloseOf(s: string, i: nat, quote: string): (e: nat)
    requires i <= |s|
    ensures i <= e <= |s| + 1
  {
    if quote == "" then i
    else if |quote| == 1 then LiteralClose(s, i, quote[0])
    else TagClose(s, i, quote)
  }

  /** `c` has class `k` from `i` up to `j`. */
  ghost predicate Run(c: seq<Class>, i: nat, j: nat, k: Class)
  {
    i <= j <= |c| && forall n | i <= n < j :: c[n] == k
  }

  /** `c` goes on at `i` as the reference lexer does from code at `i`. */
  ghost predicate FromCode(s: string, c: seq<Class>, i: nat, comments: bool) {
    i <= |s| == |c| && forall k | i <= k < |s| :: c[k] == ClassAt(s, i, k, comments)
  }

  ghost predicate Follows(s: string, c: seq<Class>, i: nat, quote: string, comments: bool) {
    && i <= |s|
    && var e := Clip(CloseOf(s, i, quote), |s|);
       FromCode(s, c, e, comments) && Run(c, i, e, Inside(quote))
  }

  /** A token that starts in code at `i` covers its text, and lexing goes on in code after it. */
  lemma {:induction false} FollowsToken(s: string, c: seq<Class>, i: nat, t: Token, comments: bool)
    requires i < |s| && FromCode(s, c, i, comments) && t == TokenAt(s, i, comments)
    ensures var e := Clip(t.close, |s|);
            Run(c, i, e, t.cls) && FromCode(s, c, e, comments)
  {
  }

  // ----- One step of a scanner that is not at a code character

  /** What the variable `quote` can hold. */
  predicate ValidQuote(quote: string) {
    |quote| != 1 || IsQuote(quote[0])
  }

  /** At `i` a literal goes on or starts. */
  predicate AtLiteral(s: string, i: nat, quote: string)
    requires i < |s|
  {
    quote != "" || DollarTag(s, i) != "" || IsQuote(s[i])
  }

  datatype Step = Step(next: nat, quote: string)

  /** The step of a scanner. It skips a doubled quote at once when it looks ahead, and leaves the
      literal at every quote when it only toggles. */
  function StepAt(s: string, i: nat, quote: string, lookAhead: bool): (r: Step)
    requires i < |s| && ValidQuote(quote) && AtLiteral(s, i, quote)
    ensures i < r.next <= |s| && ValidQuote(r.quote)
  {
    if |quote| > 1 then
      if At(s, i, quote) then Step(i + |quote|, "") else Step(i + 1, quote)
    else if quote != "" then
      if s[i] != quote[0] then Step(i + 1, quote)
      else if lookAhead && i + 1 < |s| && s[i + 1] == quote[0] then Step(i + 2, quote)
      else Step(i + 1, "")
    else if DollarTag(s, i) != "" then Step(i + |DollarTag(s, i)|, DollarTag(s, i))
    else Step(i + 1, [s[i]])
  }

  /** The text a scanner copies in that step. */
  function Copied(s: string, i: nat, quote: string, lookAhead: bool): (r: string)
    requires i < |s| && ValidQuote(quote) && AtLiteral(s, i, quote)
  {
    if |quote| > 1 then
      if At(s, i, quote) then quote else [s[i]]
    else if quote != "" then
      if s[i] == quote[0] && lookAhead && i + 1 < |s| && s[i + 1] == quote[0] then [s[i], s[i + 1]] else [s[i]]
    else if DollarTag(s, i) != "" then DollarTag(s, i)
    else [s[i]]
  }

  lemma {:induction false} CopiedText(s: string, i: nat, quote: string, lookAhead: bool, r: Step)
    requires i < |s| && ValidQuote(quote) && AtLiteral(s, i, quote) && r == StepAt(s, i, quote, lookAhead)
    ensures Copied(s, i, quote, lookAhead) == s[i..r.next]
  {
    if |quote| > 1 && At(s, i, quote) {
      AtSlice(s, i, quote);
    } else if quote == "" && DollarTag(s, i) != "" {
      DollarTagAt(s, i);
      AtSlice(s, i, DollarTag(s, i));
    }
  }

  /** Only literals between `i` and `j`. */
  ghost predicate Quiet(c: seq<Class>, i: nat, j: nat) {
    i <= j <= |c| && forall n | i <= n < j :: c[n].Literal? || c[n].Dollar?
  }

  /** A literal that starts at once continues one of the same class. */
  lemma {:induction false} Reopen(s: string, c: seq<Class>, i: nat, e: nat, q: char, comments: bool)
    requires i < e <= |s| && IsQuote(q) && s[i] == q && e == Clip(LiteralClose(s, i + 1, q), |s|)
    requires FromCode(s, c, e, comments) && Run(c, i, e, Literal(q))
    ensures FromCode(s, c, i, comments)
  {
    assert TokenAt(s, i, comments) == Token(Literal(q), LiteralClose(s, i + 1, q));
  }

  /** Toggling at a quote is right: where it was the first half of a doubled quote, a literal of
      the same class starts at once. */
  lemma {:induction false} ToggleQuote(s: string, c: seq<Class>, i: nat, q: char, comments: bool)
    requires i < |s| && Follows(s, c, i, [q], comments) && s[i] == q && IsQuote(q)
    ensures c[i] == Literal(q) && FromCode(s, c, i + 1, comments)
  {
    if i + 1 < |s| && s[i + 1] == q {
      Reopen(s, c, i + 1, Clip(LiteralClose(s, i + 2, q), |s|), q, comments);
    }
  }

  lemma {:induction false} InsideDollar(s: string, c: seq<Class>, i: nat, tag: string, comments: bool)
    requires i < |s| && |tag| > 1 && Follows(s, c, i, tag, comments)
    ensures var r := StepAt(s, i, tag, false);
            Quiet(c, i, r.next) && Follows(s, c, r.next, r.quote, comments)
  {
  }

  lemma {:induction false} InsideLiteral(s: string, c: seq<Class>, i: nat, quote: string, lookAhead: bool, comments: bool)
    requires i < |s| && |quote| == 1 && ValidQuote(quote) && Follows(s, c, i, quote, comments)
    ensures var r := StepAt(s, i, quote, lookAhead);
            Quiet(c, i, r.next) && Follows(s, c, r.next, r.quote, comments)
  {
    var q := quote[0];
    assert quote == [q];
    if s[i] == q && !(lookAhead && i + 1 < |s| && s[i + 1] == q) {
      ToggleQuote(s, c, i, q, comments);
    }
  }

  lemma {:induction false} DollarToken(s: string, i: nat, tag: string, comments: bool)
    requires i < |s| && tag == DollarTag(s, i) && tag != ""
    ensures TokenAt(s, i, comments) == Token(Dollar(tag), TagClose(s, i + |tag|, tag))
  {
  }

  lemma {:induction false} OpensDollar(s: string, c: seq<Class>, i: nat, tag: string, j: nat, comments: bool)
    requires i < |s| && FromCode(s, c, i, comments)
    requires j == i + |tag| <= |s| && |tag| > 1 && TokenAt(s, i, comments) == Token(Dollar(tag), TagClose(s, j, tag))
    ensures Quiet(c, i, j) && Follows(s, c, j, tag, comments)
  {
    FollowsToken(s, c, i, Token(Dollar(tag), TagClose(s, j, tag)), comments);
  }

  lemma {:induction false} OpensLiteral(s: string, c: seq<Class>, i: nat, comments: bool)
    requires i < |s| && FromCode(s, c, i, comments) && IsQuote(s[i])
    ensures Quiet(c, i, i + 1) && Follows(s, c, i + 1, [s[i]], comments)
  {
    FollowsToken(s, c, i, Token(Literal(s[i]), LiteralClose(s, i + 1, s[i])), comments);
  }

  /** Looking ahead or toggling, a scanner's `quote` stays in step with the reference lexer. */
  lemma {:induction false} StepFollows(s: string, c: seq<Class>, i: nat, quote: string, lookAhead: bool, r: Step, comments: bool)
    requires i < |s| && ValidQuote(quote) && AtLiteral(s, i, quote) && Follows(s, c, i, quote, comments)
    requires r == StepAt(s, i, quote, lookAhead)
    ensures Quiet(c, i, r.next) && Follows(s, c, r.next, r.quote, comments)
  {
    if |quote| > 1 {
      InsideDollar(s, c, i, quote, comments);
    } else if quote != "" {
      InsideLiteral(s, c, i, quote, lookAhead, comments);
    } else if DollarTag(s, i) != "" {
      DollarToken(s, i, r.quote, comments);
      OpensDollar(s, c, i, r.quote, r.next, comments);
    } else {
      OpensLiteral(s, c, i, comments);
    }
  }

  lemma {:induction false} PlainStep(s: string, c: seq<Class>, i: nat)
    requires i < |s| && Follows(s, c, i, "", false) && !AtLiteral(s, i, "")
    ensures c[i] == Plain && Follows(s, c, i + 1, "", false)
  {
    FollowsToken(s, c, i, Token(Plain, i + 1), false);
  }
}
