/** What blanking the comments of a text does to its lexing. */
module SqlStripping {
  import opened Text
  import opened SqlLexer
  import opened SqlRelex
  import opened DataStandards

  /** The class of a character after blanking. */
  function Erase(c: Class): Class { if c == Comment then Plain else c }

  predicate IsBlanked(ch: char) { ch == ' ' || ch == '\n' }

  /** `t` is `s` with some characters blanked. */
  ghost predicate Blanked(s: string, t: string) {
    |t| == |s| && forall n | 0 <= n < |s| :: t[n] == s[n] || IsBlanked(t[n])
  }

  ghost predicate Agree(s: string, t: string, i: nat, j: nat) {
    i <= j <= |s| == |t| && forall n | i <= n < j :: s[n] == t[n]
  }

  lemma {:induction false} RunAgree(s: string, t: string, i: nat, x: nat)
    requires Agree(s, t, i, x) && RunEnd(s, i) < x
    ensures RunEnd(t, i) == RunEnd(s, i)
    decreases x - i
  {
    if IsWord(s[i]) {
      RunAgree(s, t, i + 1, x);
    }
  }

  /** A delimiter is one wherever its characters stand. */
  lemma {:induction false} TagAgree(s: string, t: string, i: nat, x: nat)
    requires i < |s| && x == TagEnd(s, i) > i && Agree(s, t, i, x)
    requires AfterWord(t, i) <==> AfterWord(s, i)
    ensures TagEnd(t, i) == x
  {
    assert t[i] == s[i] && t[i + 1] == s[i + 1];
    if s[i + 1] != '$' {
      RunAgree(s, t, i + 1, x);
    }
  }

  /** A delimiter is made of `$` and word characters. */
  lemma {:induction false} TagVisible(s: string, i: nat)
    requires i < |s|
    ensures forall n | i <= n < TagEnd(s, i) :: s[n] == '$' || IsWord(s[n])
  {
  }

  lemma {:induction false} TagBlanked(s: string, t: string, i: nat, e: nat)
    requires i < |s| && Blanked(s, t) && Agree(s, t, i, e) && TagEnd(s, i) <= e
    requires s[i] == '$' ==> (AfterWord(t, i) <==> AfterWord(s, i))
    requires i < e
    ensures DollarTag(t, i) == DollarTag(s, i)
  {
    assert s[i] == t[i];
    var x, y := TagEnd(s, i), TagEnd(t, i);
    if x > i {
      TagAgree(s, t, i, x);
    } else if y > i {
      TagVisible(t, i);
      TagAgree(t, s, i, y);
    }
    assert s[i..x] == t[i..x];
  }

  lemma {:induction false} LiteralBlanked(s: string, t: string, j: nat, e: nat, q: char)
    requires Blanked(s, t) && IsQuote(q) && j <= e && Agree(s, t, j, e) && e == Clip(LiteralClose(s, j, q), |s|)
    ensures LiteralClose(t, j, q) == LiteralClose(s, j, q)
    decreases e - j
  {
    if j < |s| {
      assert s[j] == t[j];
      if s[j] != q {
        LiteralBlanked(s, t, j + 1, e, q);
      } else if j + 1 < |s| && s[j + 1] == q {
        assert j + 2 <= e;
        assert s[j + 1] == t[j + 1];
        LiteralBlanked(s, t, j + 2, e, q);
      }
    }
  }

  lemma {:induction false} TagCloseBlanked(s: string, t: string, j: nat, e: nat, tag: string)
    requires j <= e && Agree(s, t, j, e) && e == Clip(TagClose(s, j, tag), |s|) && tag != ""
    ensures TagClose(t, j, tag) == TagClose(s, j, tag)
    decreases e - j
  {
    TagCloseFar(s, j, tag);
    if j + |tag| <= e {
      assert At(t, j, tag) <==> At(s, j, tag) by {
        AtSlice(s, j, tag);
        AtSlice(t, j, tag);
        assert s[j..j + |tag|] == t[j..j + |tag|];
      }
      if !At(s, j, tag) {
        TagCloseBlanked(s, t, j + 1, e, tag);
      }
    } else {
      TagCloseFar(t, j, tag);
    }
  }

  /** A token holds all of its delimiter. */
  lemma {:induction false} TagInside(s: string, i: nat)
    requires i < |s|
    ensures TagEnd(s, i) <= Clip(TokenAt(s, i, true).close, |s|)
  {
    hide TagEnd, At, LiteralClose, LineEnd, TagClose;
  }

  lemma {:induction false} DollarBlanked(s: string, t: string, i: nat, tag: string, close: nat, comments: bool)
    requires i < |s| && i < |t| && tag != ""
    ensures tag == DollarTag(s, i) == DollarTag(t, i) && close == TagClose(s, i + |tag|, tag) ==>
              Agree(s, t, i, Clip(close, |s|)) ==> TokenAt(t, i, comments) == Token(Dollar(tag), close)
  {
    hide DollarTag;
    if tag == DollarTag(s, i) && close == TagClose(s, i + |tag|, tag) && Agree(s, t, i, Clip(close, |s|)) {
      TagCloseBlanked(s, t, i + |tag|, Clip(close, |s|), tag);
    }
  }

  lemma {:induction false} QuoteBlanked(s: string, t: string, i: nat, close: nat, comments: bool)
    requires i < |s| && Blanked(s, t) && s[i] == t[i] && IsQuote(s[i])
    ensures DollarTag(t, i) == "" && close == LiteralClose(s, i + 1, s[i]) && Agree(s, t, i, Clip(close, |s|)) ==>
            TokenAt(t, i, comments) == Token(Literal(s[i]), close)
  {
    hide DollarTag;
    if close == LiteralClose(s, i + 1, s[i]) && Agree(s, t, i, Clip(close, |s|)) {
      LiteralBlanked(s, t, i + 1, Clip(close, |s|), s[i]);
    }
  }

  lemma {:induction false} PlainBlanked(s: string, t: string, i: nat, comments: bool)
    requires i < |s| && Blanked(s, t) && DollarTag(t, i) == "" && s[i] == t[i] && !IsQuote(s[i])
    requires !At(s, i, "--") && !At(s, i, "/*")
    ensures TokenAt(t, i, comments) == Token(Plain, i + 1)
  {
    hide DollarTag;
  }

  /** A token that is no comment is still there after blanking, with and without looking for comments. */
  lemma {:induction false} TokenBlanked(s: string, t: string, i: nat, tok: Token, comments: bool)
    requires i < |s| && Blanked(s, t) && tok == TokenAt(s, i, true) && tok.cls != Comment && tok.cls != Torn
    requires Agree(s, t, i, Clip(tok.close, |s|))
    requires s[i] == '$' ==> (AfterWord(t, i) <==> AfterWord(s, i))
    ensures TokenAt(t, i, comments) == tok
  {
    hide DollarTag, At, Blanked, AfterWord, LiteralClose, TagClose;
    assert DollarTag(t, i) == DollarTag(s, i) && s[i] == t[i] by {
      TagInside(s, i);
      TagBlanked(s, t, i, Clip(tok.close, |s|));
    }
    var tag := DollarTag(s, i);
    if tag != "" {
      DollarBlanked(s, t, i, tag, tok.close, comments);
    } else if IsQuote(s[i]) {
      QuoteBlanked(s, t, i, tok.close, comments);
    } else {
      PlainBlanked(s, t, i, comments);
    }
  }

  lemma {:induction false} BlanksArePlain(t: string, i: nat, e: nat, comments: bool)
    requires i <= e <= |t| && forall n | i <= n < e :: IsBlanked(t[n])
    ensures forall n | i <= n < e :: ClassAt(t, i, n, comments) == Plain
    ensures forall n | e <= n < |t| :: ClassAt(t, i, n, comments) == ClassAt(t, e, n, comments)
    decreases e - i
  {
    if i < e {
      AtTwo(t, i, "--");
      AtTwo(t, i, "/*");
      assert TokenAt(t, i, comments) == Token(Plain, i + 1);
      BlanksArePlain(t, i + 1, e, comments);
    }
  }

  /** The stripped text before and after position `i`, where a token of the original starts. */
  ghost predicate Aligned(s: string, c: seq<Class>, t: string, i: nat) {
    && |t| == |s| == |c| && i <= |s|
    && (forall n | 0 <= n < |s| :: t[n] == Shown(s[n], c[n]))
    && Torn !in c && FromCode(s, c, i, true)
    && (i < |s| && s[i] == '$' ==> (AfterWord(t, i) <==> AfterWord(s, i)))
  }

  /** A comment that ends, ends in the text, and no word character stands between it and a delimiter
      that follows at once. */
  lemma {:induction false} CommentEnd(s: string, i: nat, e: nat)
    requires i < |s| && TokenAt(s, i, true) == Token(Comment, e)
    ensures i < e <= |s| && (e < |s| && s[e] == '$' ==> !IsWord(s[e - 1]))
  {
    hide DollarTag, At, LiteralClose, TagClose;
    if !At(s, i, "--") {
      BlockEnd(s, i + 2);
    }
  }

  lemma {:induction false} AlignedNext(s: string, c: seq<Class>, t: string, i: nat, tok: Token, e: nat)
    requires i < |s| && Aligned(s, c, t, i) && tok == TokenAt(s, i, true) && e == Clip(tok.close, |s|)
    ensures i < e && Run(c, i, e, tok.cls) && Aligned(s, c, t, e) && tok.cls != Torn
    ensures tok.cls != Comment ==> Agree(s, t, i, e)
    ensures tok.cls == Comment ==> forall n | i <= n < e :: IsBlanked(t[n])
  {
    hide TokenAt;
    FollowsToken(s, c, i, tok, true);
    assert c[i] == tok.cls;
    forall n | i <= n < e ensures t[n] == Shown(s[n], tok.cls) {
      assert c[n] == tok.cls;
    }
    hide FromCode;
    if tok.cls == Comment {
      CommentEnd(s, i, tok.close);
      assert IsBlanked(t[e - 1]);
    } else {
      assert t[e - 1] == s[e - 1];
    }
  }

  lemma {:induction false} BlockEnd(s: string, j: nat)
    requires j <= |s|
    ensures var e := TagClose(s, j, "*/"); e <= |s| ==> e > j && s[e - 1] == '/'
    decreases |s| - j
  {
    AtTwo(s, j, "*/");
    if !At(s, j, "*/") && j < |s| {
      BlockEnd(s, j + 1);
    }
  }

  lemma {:induction false} StripLexAt(s: string, c: seq<Class>, t: string, i: nat, n: nat, comments: bool)
    requires i <= n < |s| && Aligned(s, c, t, i)
    ensures ClassAt(t, i, n, comments) == Erase(ClassAt(s, i, n, true))
    decreases n - i
  {
    var tok := TokenAt(s, i, true);
    var e := Clip(tok.close, |s|);
    AlignedNext(s, c, t, i, tok, e);
    if tok.cls == Comment {
      BlanksArePlain(t, i, e, comments);
    } else {
      TokenBlanked(s, t, i, tok, comments);
    }
    if e <= n {
      StripLexAt(s, c, t, e, n, comments);
    }
  }

  /** Stripping keeps every line feed in its place and adds none, and changes nothing but comments.
      Afterwards every character has the class it had, comments have turned into code, and it makes
      no difference any more whether the lexer looks for comments. */
  lemma {:induction false} StripLex(s: string)
    requires Torn !in Lex(s)
    ensures var t := WithoutComments(s);
            && |t| == |s|
            && (forall n | 0 <= n < |s| :: t[n] == '\n' <==> s[n] == '\n')
            && (forall n | 0 <= n < |s| :: t[n] != s[n] ==> Lex(s)[n] == Comment && t[n] == ' ')
            && (forall n | 0 <= n < |s| :: Lex(t)[n] == LexCode(t)[n] == Erase(Lex(s)[n]))
  {
    var t := WithoutComments(s);
    forall n | 0 <= n < |s| ensures Lex(t)[n] == LexCode(t)[n] == Erase(Lex(s)[n]) {
      StripLexAt(s, Lex(s), t, 0, n, true);
      StripLexAt(s, Lex(s), t, 0, n, false);
    }
  }

  /** The stripped text holds no comment, torn or not, so stripping it again succeeds and changes nothing. */
  lemma {:induction false} StripIdempotent(s: string)
    requires Torn !in Lex(s)
    ensures var t := WithoutComments(s);
            Comment !in Lex(t) && Torn !in Lex(t) && WithoutComments(t) == t
  {
    StripLex(s);
    var t := WithoutComments(s);
    forall n | 0 <= n < |t| ensures Lex(t)[n] != Comment && Lex(t)[n] != Torn {
      assert Lex(t)[n] == Erase(Lex(s)[n]);
    }
  }
}
