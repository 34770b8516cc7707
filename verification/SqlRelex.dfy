/** Lexing a piece that was cut out of a text gives the classes it has in the text. */
module SqlRelex {
  import opened Text
  import opened SqlLexer

  /** A character next to which a text may be cut: it can continue no tag and no literal. */
  predicate Separator(ch: char) { !IsWord(ch) && ch != '$' && !IsQuote(ch) }

  ghost predicate SafeEnd(s: string, j: int) { 0 <= j <= |s| && (j == |s| || Separator(s[j])) }

  predicate AfterWord(s: string, i: nat)
    requires i <= |s|
  {
    i > 0 && IsWord(s[i - 1])
  }

  /** `s[i..j]` stands in `s'` too, moved by `d`, and both windows end safely. */
  ghost predicate Window(s: string, i: nat, j: nat, s': string, d: int) {
    && i <= j && 0 <= i + d && SafeEnd(s, j) && SafeEnd(s', j + d)
    && forall n | i <= n < j :: s[n] == s'[n + d]
  }

  /** A `$` at the start of the windows is a delimiter in both or in none. */
  ghost predicate SameStart(s: string, i: nat, j: nat, s': string, d: int)
    requires Window(s, i, j, s', d)
  {
    i < j && s[i] == '$' ==> (AfterWord(s, i) <==> AfterWord(s', i + d))
  }

  /** Two token ends agree or both lie beyond the window. */
  ghost predicate SameClose(a: int, b: int, j: int, d: int) { a + d == b || (a > j && b > j + d) }

  /** A window ends neither before a word character nor before `$`, so runs of word characters agree. */
  lemma {:induction false} RunSame(s: string, i: nat, j: nat, s': string, d: int)
    requires Window(s, i, j, s', d)
    ensures RunEnd(s, i) + d == RunEnd(s', i + d) && RunEnd(s, i) <= j
    decreases j - i
  {
    if i < j && IsWord(s[i]) {
      RunSame(s, i + 1, j, s', d);
    }
  }

  lemma {:induction false} SliceSame(s: string, i: nat, j: nat, s': string, d: int, k: nat)
    requires Window(s, i, j, s', d) && i <= k <= j
    ensures s[i..k] == s'[i + d..k + d]
  {
  }

  lemma {:induction false} TagEndSame(s: string, i: nat, j: nat, s': string, d: int)
    requires i < j && Window(s, i, j, s', d) && SameStart(s, i, j, s', d)
    ensures TagEnd(s, i) + d == TagEnd(s', i + d) && TagEnd(s, i) <= j
  {
    assert s[i] == s'[i + d];
    if i + 1 < j {
      assert s[i + 1] == s'[i + 1 + d];
      RunSame(s, i + 1, j, s', d);
      var e := RunEnd(s, i + 1);
      if e < j {
        assert s[e] == s'[e + d];
      }
    }
  }

  lemma {:induction false} TagSame(s: string, i: nat, j: nat, s': string, d: int)
    requires i < j && Window(s, i, j, s', d) && SameStart(s, i, j, s', d)
    ensures DollarTag(s, i) == DollarTag(s', i + d) && i + |DollarTag(s, i)| <= j
  {
    TagEndSame(s, i, j, s', d);
    SliceSame(s, i, j, s', d, TagEnd(s, i));
  }

  lemma {:induction false} LiteralSame(s: string, i: nat, j: nat, s': string, d: int, q: char)
    requires Window(s, i, j, s', d) && IsQuote(q)
    ensures SameClose(LiteralClose(s, i, q), LiteralClose(s', i + d, q), j, d)
    decreases j - i
  {
    if i < j {
      assert s[i] == s'[i + d];
      if s[i] != q {
        LiteralSame(s, i + 1, j, s', d, q);
      } else if i + 1 < j {
        assert s[i + 1] == s'[i + 1 + d];
        if s[i + 1] == q {
          LiteralSame(s, i + 2, j, s', d, q);
        }
      }
    }
  }

  lemma {:induction false} AtSame(s: string, i: nat, j: nat, s': string, d: int, tag: string)
    requires Window(s, i, j, s', d) && i + |tag| <= j
    ensures At(s, i, tag) <==> At(s', i + d, tag)
  {
    SliceSame(s, i, j, s', d, i + |tag|);
    AtSlice(s, i, tag);
    AtSlice(s', i + d, tag);
  }

  lemma {:induction false} TagCloseSame(s: string, i: nat, j: nat, s': string, d: int, i': nat, tag: string)
    requires Window(s, i, j, s', d) && tag != "" && i' == i + d
    ensures SameClose(TagClose(s, i, tag), TagClose(s', i', tag), j, d)
    decreases j - i
  {
    if i + |tag| <= j {
      AtSame(s, i, j, s', d, tag);
      if !At(s, i, tag) {
        TagCloseSame(s, i + 1, j, s', d, i' + 1, tag);
      }
    } else {
      TagCloseFar(s, i, tag);
      TagCloseFar(s', i', tag);
    }
  }

  lemma {:induction false} TagCloseFar(s: string, i: nat, tag: string)
    requires i <= |s| && tag != ""
    ensures TagClose(s, i, tag) >= i + |tag| || TagClose(s, i, tag) == |s| + 1
    decreases |s| - i
  {
    if !At(s, i, tag) && i < |s| {
      TagCloseFar(s, i + 1, tag);
    }
  }

  lemma {:induction false} DollarSame(s: string, i: nat, k: nat, j: nat, s': string, d: int, i': nat, k': nat, tag: string)
    requires i < k <= j && Window(s, i, j, s', d) && i' == i + d && k' == k + d
    requires DollarTag(s, i) == tag == DollarTag(s', i') && k == i + |tag|
    ensures TokenAt(s, i, false).cls == Dollar(tag) == TokenAt(s', i', false).cls
    ensures SameClose(TokenAt(s, i, false).close, TokenAt(s', i', false).close, j, d)
  {
    WindowRest(s, i, j, s', d, k);
    TagCloseSame(s, k, j, s', d, k', tag);
    hide DollarTag, Window, SameClose, TagClose;
    assert i' + |tag| == k';
  }

  lemma {:induction false} TokenSame(s: string, i: nat, j: nat, s': string, d: int, t: Token, t': Token)
    requires i < j && Window(s, i, j, s', d) && SameStart(s, i, j, s', d)
    requires t == TokenAt(s, i, false) && t' == TokenAt(s', i + d, false)
    ensures t.cls == t'.cls && SameClose(t.close, t'.close, j, d)
  {
    TagSame(s, i, j, s', d);
    assert s[i] == s'[i + d];
    hide DollarTag, SameStart, LiteralClose, TagClose;
    var tag := DollarTag(s, i);
    if tag != "" {
      DollarSame(s, i, i + |tag|, j, s', d, i + d, i + |tag| + d, tag);
    } else if IsQuote(s[i]) {
      LiteralSame(s, i + 1, j, s', d, s[i]);
      assert i + 1 + d == i + d + 1;
    }
  }

  /** The windows go on after a token. */
  lemma {:induction false} WindowRest(s: string, i: nat, j: nat, s': string, d: int, k: nat)
    requires Window(s, i, j, s', d) && i < k <= j
    ensures Window(s, k, j, s', d) && SameStart(s, k, j, s', d)
  {
    assert s[k - 1] == s'[k - 1 + d];
  }

  lemma {:induction false} RelocateAt(s: string, i: nat, j: nat, s': string, d: int, n: nat, i': nat, n': nat)
    requires i <= n < j && Window(s, i, j, s', d) && SameStart(s, i, j, s', d)
    requires i' == i + d && n' == n + d
    ensures ClassAt(s, i, n, false) == ClassAt(s', i', n', false)
    decreases j - i
  {
    var t, t' := TokenAt(s, i, false), TokenAt(s', i', false);
    TokenSame(s, i, j, s', d, t, t');
    if t.close <= n {
      WindowRest(s, i, j, s', d, t.close);
      RelocateAt(s, t.close, j, s', d, n, t'.close, n');
    }
  }

  /** Relocation: the windows get the same classes. */
  lemma {:induction false} Relocate(s: string, i: nat, j: nat, s': string, d: int)
    requires Window(s, i, j, s', d) && SameStart(s, i, j, s', d)
    ensures forall n | i <= n < j :: ClassAt(s, i, n, false) == ClassAt(s', i + d, n + d, false)
  {
    assert j <= |s| && 0 <= i + d && j + d <= |s'|;
    hide Window, SameStart, ClassAt;
    forall n | i <= n < j ensures ClassAt(s, i, n, false) == ClassAt(s', i + d, n + d, false) {
      RelocateAt(s, i, j, s', d, n, i + d, n + d);
    }
  }

  /** The tokens that start in code at `i` end exactly at `k`. */
  ghost predicate Tiles(s: string, i: nat, k: nat)
    requires i <= k <= |s|
    decreases k - i
  {
    i == k || (var e := TokenAt(s, i, false).close; e <= k && Tiles(s, e, k))
  }

  /** A text that lexes from code to code. */
  ghost predicate Closed(s: string) { Tiles(s, 0, |s|) }

  lemma {:induction false} TilesSame(s: string, i: nat, j: nat, s': string, d: int, i': nat, j': nat)
    requires Window(s, i, j, s', d) && SameStart(s, i, j, s', d) && Tiles(s, i, j)
    requires i' == i + d && j' == j + d
    ensures Tiles(s', i', j')
    decreases j - i
  {
    if i < j {
      var t, t' := TokenAt(s, i, false), TokenAt(s', i', false);
      TokenSame(s, i, j, s', d, t, t');
      WindowRest(s, i, j, s', d, t.close);
      TilesSame(s, t.close, j, s', d, t'.close, j');
    }
  }

  lemma {:induction false} TilesJoin(s: string, i: nat, j: nat, k: nat)
    requires i <= j <= k <= |s| && Tiles(s, i, j) && Tiles(s, j, k)
    ensures Tiles(s, i, k)
    decreases j - i
  {
    if i < j {
      TilesJoin(s, TokenAt(s, i, false).close, j, k);
    }
  }

  /** Lexing can start afresh wherever the tokens before end. */
  lemma {:induction false} TilesResume(s: string, i: nat, k: nat)
    requires i <= k <= |s| && Tiles(s, i, k)
    ensures forall n | k <= n < |s| :: ClassAt(s, i, n, false) == ClassAt(s, k, n, false)
    decreases k - i
  {
    if i < k {
      TilesResume(s, TokenAt(s, i, false).close, k);
    }
  }

  /** A code character is a token of its own. */
  lemma {:induction false} PlainTiles(s: string, i: nat, k: nat)
    requires i <= k < |s| && ClassAt(s, i, k, false) == Plain
    ensures Tiles(s, i, k) && Tiles(s, i, k + 1)
    decreases k - i
  {
    var e := TokenAt(s, i, false).close;
    if e <= k {
      PlainTiles(s, e, k);
    }
  }
}
