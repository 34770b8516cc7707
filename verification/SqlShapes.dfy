/** The reference lexer in plain characters: what opens and what closes each kind of token. Together these
    lemmas fix the class of every character, without the functions that the scanners share with the lexer. */
module SqlShapes {
  import opened Text
  import opened SqlLexer
  import opened SqlRelex
  import opened DataStandards

  // ----- Quotes

  predicate IsOneOfThree(c: char) { c == '\'' || c == '`' || c == '"' }

  /** The text from `j` to `k` is made of characters other than `q`, and of `q` doubled. */
  ghost predicate Quoted(s: string, j: nat, k: nat, q: char)
    decreases k - j
  {
    && k <= |s|
    && (|| j == k
        || (j < k && s[j] != q && Quoted(s, j + 1, k, q))
        || (j + 1 < k && s[j] == q == s[j + 1] && Quoted(s, j + 2, k, q)))
  }

  /** The literal that the quote at `i` opens ends with the quote at `k`, the first that is not doubled. */
  ghost predicate Ends(s: string, i: nat, k: nat) {
    i < k < |s| && Quoted(s, i + 1, k, s[i]) && s[k] == s[i] && (k + 1 < |s| ==> s[k + 1] != s[i])
  }

  lemma {:induction false} CloseIff(s: string, j: nat, k: nat, q: char)
    requires j <= |s|
    ensures j <= k < |s| && Quoted(s, j, k, q) && s[k] == q && (k + 1 < |s| ==> s[k + 1] != q) <==>
            k < |s| && LiteralClose(s, j, q) == k + 1
    decreases |s| - j
  {
    if j < |s| {
      if s[j] != q {
        CloseIff(s, j + 1, k, q);
      } else if j + 1 < |s| && s[j + 1] == q {
        CloseIff(s, j + 2, k, q);
      }
    }
  }

  /** A token that starts in code, up to its end or the end of the text. */
  lemma {:induction false} TokenRuns(s: string, c: seq<Class>, i: nat, t: Token, comments: bool)
    requires i < |s| && FromCode(s, c, i, comments) && t == TokenAt(s, i, comments)
    ensures t.close <= |s| ==> Run(c, i, t.close, t.cls) && FromCode(s, c, t.close, comments)
    ensures t.close > |s| ==> Run(c, i, |s|, t.cls) && t.close == |s| + 1
  {
    FollowsToken(s, c, i, t, comments);
  }

  /** Each of the three quotes, in code, opens a literal up to the one repetition at `k` that ends it;
      without one, `k` is the end of the text. */
  lemma {:induction false} QuoteOpens(s: string, c: seq<Class>, i: nat, comments: bool) returns (k: nat)
    requires i < |s| && FromCode(s, c, i, comments) && (s[i] == '\'' || s[i] == '`' || s[i] == '"')
    ensures k < |s| ==> Ends(s, i, k) && Run(c, i, k + 1, Literal(s[i])) && FromCode(s, c, k + 1, comments)
    ensures k >= |s| ==> Run(c, i, |s|, Literal(s[i]))
    ensures forall j: nat | Ends(s, i, j) :: j == k
  {
    var t := TokenAt(s, i, comments);
    assert t == Token(Literal(s[i]), LiteralClose(s, i + 1, s[i]));
    TokenRuns(s, c, i, t, comments);
    hide TokenAt, LiteralClose, Quoted, FromCode, Run;
    k := t.close - 1;
    CloseIff(s, i + 1, k, s[i]);
    forall j: nat | Ends(s, i, j) ensures j == k {
      CloseIff(s, i + 1, j, s[i]);
    }
  }

  // ----- Dollar quotes

  /** A letter, a digit or an underscore. */
  predicate IsNamePart(c: char) { 'a' <= c <= 'z' || 'A' <= c <= 'Z' || '0' <= c <= '9' || c == '_' }

  /** `$$`, or `$tag$` with a name that does not start with a digit, and not directly behind a name. */
  ghost predicate IsDelimiter(s: string, i: nat, e: nat) {
    && i + 1 < e <= |s| && s[i] == '$' == s[e - 1] && (i > 0 ==> !IsNamePart(s[i - 1]))
    && (forall k | i < k < e - 1 :: IsNamePart(s[k])) && (i + 2 < e ==> !('0' <= s[i + 1] <= '9'))
  }

  lemma {:induction false} RunEndIs(s: string, i: nat, e: nat)
    requires i <= e < |s| && !IsWord(s[e]) && forall k | i <= k < e :: IsWord(s[k])
    ensures RunEnd(s, i) == e
    decreases e - i
  {
    if i < e {
      RunEndIs(s, i + 1, e);
    }
  }

  lemma {:induction false} DelimiterIff(s: string, i: nat, e: nat)
    requires i < |s|
    ensures IsDelimiter(s, i, e) <==> e == TagEnd(s, i) > i
    ensures IsDelimiter(s, i, e) ==> DollarTag(s, i) == s[i..e] != ""
  {
    if IsDelimiter(s, i, e) {
      RunEndIs(s, i + 1, e - 1);
    }
  }

  /** `tag` stands at `k`, and nowhere from `e` up to there. */
  ghost predicate FirstTag(s: string, e: nat, k: nat, tag: string) {
    e <= k && At(s, k, tag) && forall j: nat | e <= j < k :: !At(s, j, tag)
  }

  lemma {:induction false} TagCloseIff(s: string, e: nat, k: nat, tag: string)
    requires e <= |s| && tag != ""
    ensures FirstTag(s, e, k, tag) <==> k + |tag| <= |s| && TagClose(s, e, tag) == k + |tag|
    decreases |s| - e
  {
    if !At(s, e, tag) && e < |s| {
      hide At;
      TagCloseIff(s, e + 1, k, tag);
      TagCloseFar(s, e + 1, tag);
      if FirstTag(s, e + 1, k, tag) {
        assert FirstTag(s, e, k, tag);
      }
    }
  }

  /** A delimiter, in code, opens a literal up to its first repetition at `k`; without one, `k` is beyond
      the end of the text. */
  lemma {:induction false} DelimiterOpens(s: string, c: seq<Class>, i: nat, e: nat, tag: string, comments: bool)
    returns (k: nat)
    requires i < |s| && FromCode(s, c, i, comments) && IsDelimiter(s, i, e) && tag == s[i..e]
    ensures k < |s| ==> FirstTag(s, e, k, tag) && Run(c, i, k + |tag|, Dollar(tag)) && FromCode(s, c, k + |tag|, comments)
    ensures k >= |s| ==> Run(c, i, |s|, Dollar(tag)) && forall j: nat :: !FirstTag(s, e, j, tag)
  {
    DelimiterIff(s, i, e);
    assert e == i + |tag| && |tag| > 1;
    hide IsDelimiter, DollarTag, TagClose, FromCode, Run, FirstTag, At;
    DollarToken(s, i, tag, comments);
    TokenRuns(s, c, i, TokenAt(s, i, comments), comments);
    hide TokenAt;
    k := TagRepeats(s, e, tag);
  }

  /** The first repetition, or the end of the text. */
  lemma {:induction false} TagRepeats(s: string, e: nat, tag: string) returns (k: nat)
    requires e <= |s| && tag != ""
    ensures k < |s| ==> FirstTag(s, e, k, tag) && k + |tag| == TagClose(s, e, tag) <= |s|
    ensures k >= |s| ==> TagClose(s, e, tag) == |s| + 1 && forall j: nat :: !FirstTag(s, e, j, tag)
  {
    var close := TagClose(s, e, tag);
    TagCloseFar(s, e, tag);
    hide TagClose, At;
    if close <= |s| {
      k := close - |tag|;
      TagCloseIff(s, e, k, tag);
    } else {
      k := |s|;
      forall j: nat ensures !FirstTag(s, e, j, tag) {
        TagCloseIff(s, e, j, tag);
      }
    }
  }

  // ----- Comments

  predicate IsLineEnd(c: char) { c == '\n' || c == '\r' }

  /** The first end of a line at or after `i`, or the end of the text. */
  ghost predicate FirstLineEnd(s: string, i: nat, e: nat) {
    i <= e <= |s| && (e < |s| ==> IsLineEnd(s[e])) && forall k | i <= k < e :: !IsLineEnd(s[k])
  }

  /** Two hyphens, in code, open a comment up to the end of the line. */
  lemma {:induction false} HyphensOpen(s: string, c: seq<Class>, i: nat, e: nat)
    requires i + 1 < |s| && FromCode(s, c, i, true) && s[i] == s[i + 1] == '-' && FirstLineEnd(s, i, e)
    ensures Run(c, i, e, Comment) && FromCode(s, c, e, true)
  {
    AtTwo(s, i, "--");
    assert TokenAt(s, i, true) == Token(Comment, LineEnd(s, i + 2));
    TokenRuns(s, c, i, Token(Comment, LineEnd(s, i + 2)), true);
  }

  /** The first asterisk with a slash behind it in the comment that opens at `i`. */
  ghost predicate FirstEnd(s: string, i: nat, k: nat) {
    && i + 2 <= k && k + 1 < |s| && s[k] == '*' && s[k + 1] == '/'
    && forall j | i + 2 <= j < k :: s[j] == '*' ==> s[j + 1] != '/'
  }

  /** A slash and an asterisk, in code, open a comment up to the first asterisk and slash behind them at
      `k`; without these the comment is torn. */
  lemma {:induction false} SlashOpens(s: string, c: seq<Class>, i: nat) returns (k: nat)
    requires i + 1 < |s| && FromCode(s, c, i, true) && s[i] == '/' && s[i + 1] == '*'
    ensures k < |s| ==> FirstEnd(s, i, k) && Run(c, i, k + 2, Comment) && FromCode(s, c, k + 2, true)
    ensures k >= |s| ==> Run(c, i, |s|, Torn) && forall j: nat :: !FirstEnd(s, i, j)
  {
    var mark := "*/";
    var t := TokenAt(s, i, true);
    assert t == Token(if TagClose(s, i + 2, mark) <= |s| then Comment else Torn, TagClose(s, i + 2, mark)) by {
      AtTwo(s, i, "--");
      AtTwo(s, i, "/*");
    }
    hide TagClose, TokenAt, FromCode, Run, FirstEnd, FirstTag, At;
    TokenRuns(s, c, i, t, true);
    k := TagRepeats(s, i + 2, mark);
    FirstEndIff(s, i, mark);
  }

  lemma {:induction false} FirstEndIff(s: string, i: nat, mark: string)
    requires |mark| == 2 && mark[0] == '*' && mark[1] == '/'
    ensures forall k: nat :: FirstEnd(s, i, k) <==> FirstTag(s, i + 2, k, mark)
  {
    forall j: nat ensures At(s, j, mark) <==> j + 1 < |s| && s[j] == '*' && s[j + 1] == '/' {
      AtTwo(s, j, mark);
    }
    hide At;
    forall k: nat ensures FirstEnd(s, i, k) <==> FirstTag(s, i + 2, k, mark) {
      if FirstEnd(s, i, k) {
        assert forall j: nat | i + 2 <= j < k :: !At(s, j, mark);
      }
      if FirstTag(s, i + 2, k, mark) {
        assert forall j: nat | i + 2 <= j < k :: !At(s, j, mark);
      }
    }
  }

  // ----- Code

  /** Nothing opens a literal or, where they are looked for, a comment at `i`. */
  ghost predicate OpensNothing(s: string, i: nat, comments: bool)
    requires i < |s|
  {
    && s[i] != '\'' && s[i] != '`' && s[i] != '"' && (forall e: nat :: !IsDelimiter(s, i, e))
    && (comments && i + 1 < |s| ==> (s[i] == '-' ==> s[i + 1] != '-') && (s[i] == '/' ==> s[i + 1] != '*'))
  }

  lemma {:induction false} PlainIff(s: string, i: nat, comments: bool)
    requires i < |s|
    ensures TokenAt(s, i, comments) == Token(Plain, i + 1) <==> OpensNothing(s, i, comments)
    ensures TokenAt(s, i, comments).cls == Plain ==> OpensNothing(s, i, comments)
  {
    AtTwo(s, i, "--");
    AtTwo(s, i, "/*");
    DelimiterIff(s, i, TagEnd(s, i));
    forall e: nat | IsDelimiter(s, i, e) ensures DollarTag(s, i) != "" {
      DelimiterIff(s, i, e);
    }
  }

  /** Any other character, in code, is code and leaves the next one in code. */
  lemma {:induction false} OthersArePlain(s: string, c: seq<Class>, i: nat, comments: bool)
    requires i < |s| && FromCode(s, c, i, comments) && OpensNothing(s, i, comments)
    ensures c[i] == Plain && FromCode(s, c, i + 1, comments)
  {
    PlainIff(s, i, comments);
    TokenRuns(s, c, i, Token(Plain, i + 1), comments);
  }

  /** A literal has one of the three quotes or the shape of a delimiter; code holds no opening. */
  lemma {:induction false} ClassShape(s: string, i: nat, n: nat, comments: bool)
    requires i <= n < |s|
    ensures match ClassAt(s, i, n, comments)
            case Literal(q) => q == '\'' || q == '`' || q == '"'
            case Dollar(tag) => exists a: nat, e: nat :: IsDelimiter(s, a, e) && tag == s[a..e]
            case Plain => OpensNothing(s, n, comments)
            case _ => comments
    decreases n - i
  {
    var t := TokenAt(s, i, comments);
    if n < t.close {
      PlainIff(s, i, comments);
      DelimiterIff(s, i, TagEnd(s, i));
    } else {
      ClassShape(s, t.close, n, comments);
    }
  }

  // ----- Cuts

  /** The characters `ch` in code from `i` to `j`. */
  ghost function InCode(s: string, c: seq<Class>, i: nat, j: nat, ch: char): set<nat>
    requires i <= j <= |s| == |c|
  {
    set k: nat | i <= k < j && s[k] == ch && c[k] == Plain
  }

  /** The depth is the number of opening parentheses in code less the number of closing ones. */
  lemma {:induction false} DepthCounts(s: string, c: seq<Class>, i: nat, j: nat)
    requires i <= j <= |s| == |c|
    ensures Depth(s, c, i, j) == |InCode(s, c, i, j, '(')| - |InCode(s, c, i, j, ')')|
  {
    if i < j {
      DepthCounts(s, c, i, j - 1);
      InCodeNext(s, c, i, j, '(');
      InCodeNext(s, c, i, j, ')');
    }
  }

  lemma {:induction false} InCodeNext(s: string, c: seq<Class>, i: nat, j: nat, ch: char)
    requires i < j <= |s| == |c|
    ensures |InCode(s, c, i, j, ch)| ==
            |InCode(s, c, i, j - 1, ch)| + if s[j - 1] == ch && c[j - 1] == Plain then 1 else 0
  {
    var more := if s[j - 1] == ch && c[j - 1] == Plain then {j - 1} else {};
    assert InCode(s, c, i, j, ch) == InCode(s, c, i, j - 1, ch) + more;
  }

  /** As many parentheses have been opened in code before `n` as closed. */
  ghost predicate Balanced(s: string, c: seq<Class>, n: nat) {
    n <= |s| == |c| && |InCode(s, c, 0, n, '(')| == |InCode(s, c, 0, n, ')')|
  }

  /** Statements are cut at the semicolons in code, definitions at the commas in code where the
      parentheses before are balanced, and a table ends at a closing one that balances them. */
  lemma {:induction false} CutsAre(s: string, n: nat)
    requires n < |s|
    ensures var c := LexCode(s);
            && (StatementCuts(s)[n] <==> c[n] == Plain && s[n] == ';')
            && (DefinitionCuts(s)[n] <==> c[n] == Plain && s[n] == ',' && Balanced(s, c, n))
            && (ClosesAt(s, c, 0, n) <==> c[n] == Plain && s[n] == ')' && Balanced(s, c, n + 1))
  {
    hide LexCode, InCode, Depth;
    DepthCounts(s, LexCode(s), 0, n);
    DepthCounts(s, LexCode(s), 0, n + 1);
  }

  /** Of the ASCII characters, the blanks are the space, tab to carriage return, and 28 to 31. */
  lemma {:induction false} AsciiBlanks(ch: char)
    requires ch as int < 128
    ensures IsSpace(ch) <==> ch == ' ' || '\t' <= ch <= '\r' || 28 <= ch as int <= 31
  {
  }
}
