/** The scanners one after the other: stripped text, statements, table bodies, definitions. */
module SqlPipeline {
  import opened Text
  import opened SqlLexer
  import opened SqlRelex
  import opened DataStandards
  import opened SqlStripping

  // ----- Statements

  /** `p` stands in `s` at `e`, where `s` is in code, and what follows it is no part of it. */
  ghost predicate Placed(s: string, e: nat, p: string) {
    && e + |p| <= |s| && Tiles(s, 0, e) && SafeEnd(s, e + |p|)
    && (p != "" && p[0] == '$' && e > 0 ==> !IsWord(s[e - 1]))
    && forall n | 0 <= n < |p| :: p[n] == s[n + e]
  }

  lemma {:induction false} PlacedWindow(s: string, e: nat, p: string)
    requires Placed(s, e, p)
    ensures Window(p, 0, |p|, s, e) && SameStart(p, 0, |p|, s, e)
  {
  }

  lemma {:induction false} PlacedBack(s: string, e: nat, p: string, k: nat)
    requires Placed(s, e, p) && k == e + |p|
    ensures Window(s, e, k, p, 0 - e) && SameStart(s, e, k, p, 0 - e)
  {
    forall n | e <= n < k ensures s[n] == p[n + (0 - e)] {
      assert p[n - e] == s[n - e + e];
    }
  }

  lemma {:induction false} TilesCode(s: string, k: nat)
    requires k < |s| && Tiles(s, 0, k) && Separator(s[k])
    ensures LexCode(s)[k] == Plain && Tiles(s, 0, k + 1)
  {
    TilesResume(s, 0, k);
    assert TokenAt(s, k, false) == Token(Plain, k + 1);
    TilesJoin(s, 0, k, k + 1);
  }

  lemma {:induction false} CodeTiles(s: string, e: nat, k: nat)
    requires e <= k < |s| && Tiles(s, 0, e) && LexCode(s)[k] == Plain
    ensures Tiles(s, e, k)
  {
    TilesResume(s, 0, e);
    PlainTiles(s, e, k);
  }

  /** Lexing the piece from scratch gives the classes it has in the text. */
  lemma {:induction false} PlacedClasses(s: string, e: nat, p: string)
    requires Placed(s, e, p)
    ensures forall n | 0 <= n < |p| :: LexCode(p)[n] == LexCode(s)[n + e]
  {
    hide TokenAt, ClassAt;
    PlacedWindow(s, e, p);
    TilesResume(s, 0, e);
    forall n | 0 <= n < |p| ensures LexCode(p)[n] == LexCode(s)[n + e] {
      RelocateAt(p, 0, |p|, s, e, n, e, n + e);
      assert ClassAt(s, e, n + e, false) == ClassAt(s, 0, n + e, false);
    }
  }

  /** Where a closed piece ends the text is in code again, and so it is after a separator. */
  lemma {:induction false} PlacedClosed(s: string, e: nat, p: string, k: nat)
    requires Placed(s, e, p) && Closed(p) && k == e + |p|
    ensures Tiles(s, 0, k)
    ensures k < |s| ==> LexCode(s)[k] == Plain && Tiles(s, 0, k + 1)
  {
    hide Window, SameStart, Tiles, LexCode;
    PlacedWindow(s, e, p);
    TilesSame(p, 0, |p|, s, e, e, k);
    TilesJoin(s, 0, e, k);
    if k < |s| {
      TilesCode(s, k);
    }
  }

  /** A piece that ends before a code character is closed. */
  lemma {:induction false} PlacedBeforeCode(s: string, e: nat, p: string, k: nat)
    requires Placed(s, e, p) && k == e + |p| < |s| && LexCode(s)[k] == Plain
    ensures Closed(p)
  {
    CodeTiles(s, e, k);
    PlacedBack(s, e, p, k);
    TilesSame(s, e, k, p, 0 - e, 0, |p|);
  }

  lemma {:induction false} PiecePlaced(t: string, a: nat, b: nat, st: string)
    requires IsPiece(StatementCuts(t), a, b) && st == t[a..b]
    ensures Placed(t, a, st)
  {
    assert Tiles(t, 0, a) by {
      if a > 0 {
        assert StatementCuts(t)[a - 1];
        PlainTiles(t, 0, a - 1);
      }
    }
    hide TokenAt, ClassAt, Tiles, LexCode;
    assert b < |t| ==> StatementCuts(t)[b];
    assert a > 0 ==> StatementCuts(t)[a - 1];
  }

  /** Lexing a statement from scratch gives the classes it has in the whole text. It holds no
      semicolon in code, and every statement but the last is closed. */
  lemma {:induction false} StatementRelex(t: string, a: nat, b: nat, st: string)
    requires IsPiece(StatementCuts(t), a, b) && st == t[a..b]
    ensures forall n | 0 <= n < |st| :: LexCode(st)[n] == LexCode(t)[n + a]
    ensures OneStatement(st) && (b < |t| ==> Closed(st))
  {
    hide Placed, LexCode, Tiles;
    PiecePlaced(t, a, b, st);
    PlacedClasses(t, a, st);
    forall n | 0 <= n < |st| ensures !StatementCuts(st)[n] {
      assert LexCode(st)[n] == LexCode(t)[n + a] && !StatementCuts(t)[n + a];
    }
    if b < |t| {
      assert StatementCuts(t)[b];
      PlacedBeforeCode(t, a, st, b);
    }
  }

  /** Splitting the stripped text cuts at exactly the semicolons that the reference lexer puts
      outside the comments and literals of the original. */
  lemma {:induction false} CutsOfOriginal(s: string)
    requires Torn !in Lex(s)
    ensures var t := WithoutComments(s);
            forall n | 0 <= n < |s| :: StatementCuts(t)[n] <==> s[n] == ';' && Lex(s)[n] == Plain
  {
    StripLex(s);
    var t := WithoutComments(s);
    forall n | 0 <= n < |s| ensures StatementCuts(t)[n] <==> s[n] == ';' && Lex(s)[n] == Plain {
      assert LexCode(t)[n] == Erase(Lex(s)[n]);
    }
  }

  /** Joining the statements restores the text up to a last semicolon with blanks behind it. */
  lemma {:induction false} StatementsJoin(t: string) returns (tail: string)
    ensures Blank(tail)
    ensures t == Join(Statements(t), ';') || t == Ended(Statements(t), ';') + tail
  {
    var r := Segments(t, StatementCuts(t), 0, |t|);
    JoinSegments(t, StatementCuts(t), 0, |t|, ';');
    EndedSnoc(r.done, r.last, ';');
    assert t[0..|t|] == t;
    tail := if Blank(r.last) then r.last else "";
  }

  // ----- Texts put together from pieces

  /** No semicolon of `p` is in code. */
  ghost predicate OneStatement(p: string) { forall n | 0 <= n < |p| :: !StatementCuts(p)[n] }

  /** `p` stands in `s` from `e` to `k`. */
  ghost predicate Stands(s: string, e: int, p: string, k: int) {
    0 <= e && k == e + |p| <= |s| && forall n | 0 <= n < |p| :: p[n] == s[n + e]
  }

  /** `s` starts with `parts`, each ended by `c`, and they reach up to `e`. */
  ghost predicate LaidOut(s: string, parts: seq<string>, c: char, e: int) {
    if parts == [] then e == 0
    else
      var p := parts[|parts| - 1];
      var e' := e - |p| - 1;
      Stands(s, e', p, e - 1) && e <= |s| && s[e - 1] == c && LaidOut(s, parts[..|parts| - 1], c, e')
  }

  lemma {:induction false} EndedLaid(s: string, parts: seq<string>, c: char, x: string)
    requires x == Ended(parts, c) && Stands(s, 0, x, |x|)
    ensures LaidOut(s, parts, c, |x|)
  {
    if parts != [] {
      var p := parts[|parts| - 1];
      var x' := Ended(parts[..|parts| - 1], c);
      assert x == x' + p + [c];
      assert x[|x| - 1] == s[|x| - 1 + 0];
      forall n | 0 <= n < |p| ensures p[n] == s[n + |x'|] {
        assert x[n + |x'|] == s[n + |x'| + 0];
      }
      forall n | 0 <= n < |x'| ensures x'[n] == s[n + 0] {
        assert x[n] == s[n + 0];
      }
      EndedLaid(s, parts[..|parts| - 1], c, x');
    }
  }

  /** A joined text starts with all its pieces but the last one, and ends with that. */
  lemma {:induction false} JoinLaid(front: seq<string>, p: string, c: char) returns (s: string, e: nat)
    ensures s == Join(front + [p], c) && LaidOut(s, front, c, e) && Stands(s, e, p, |s|)
  {
    var x := Ended(front, c);
    EndedSnoc(front, p, c);
    s, e := x + p, |x|;
    EndedLaid(s, front, c, x);
  }

  lemma {:induction false} StatementPlaced(s: string, e: nat, p: string, k: nat)
    requires Placed(s, e, p) && OneStatement(p) && k == e + |p|
    ensures var r := Segments(s, StatementCuts(s), 0, e);
            Segments(s, StatementCuts(s), 0, k) == Pieces(r.done, r.last + p)
  {
    PlacedClasses(s, e, p);
    forall n | e <= n < k ensures !StatementCuts(s)[n] {
      assert LexCode(p)[n - e] == LexCode(s)[n - e + e] && p[n - e] == s[n - e + e] && !StatementCuts(p)[n - e];
    }
    SegmentsExtend(s, StatementCuts(s), 0, e, k);
    assert s[e..k] == p;
  }

  ghost predicate ClosedStatement(p: string) { Closed(p) && OneStatement(p) }

  ghost predicate AllStatements(parts: seq<string>) { forall i | 0 <= i < |parts| :: ClosedStatement(parts[i]) }

  /** `s` is in code at `e`, after the statements `done`. */
  ghost predicate Split(s: string, e: int, done: seq<string>) {
    && 0 <= e <= |s| && Tiles(s, 0, e) && (e > 0 ==> s[e - 1] == ';')
    && Segments(s, StatementCuts(s), 0, e) == Pieces(done, "")
  }

  lemma {:induction false} SplitStep(s: string, e: nat, done: seq<string>, p: string, e': nat, done': seq<string>)
    requires Split(s, e, done) && ClosedStatement(p) && done' == done + [p]
    requires e' <= |s| && Stands(s, e, p, e' - 1) && s[e' - 1] == ';'
    ensures Split(s, e', done')
  {
    hide TokenAt, ClassAt;
    StatementPlaced(s, e, p, e' - 1);
    PlacedClosed(s, e, p, e' - 1);
    assert "" + p == p;
  }

  lemma {:induction false} SplitNone(s: string)
    ensures Split(s, 0, [])
  {
  }

  lemma {:induction false} StatementsLaid(s: string, parts: seq<string>, e: int)
    requires LaidOut(s, parts, ';', e)
    requires AllStatements(parts)
    ensures Split(s, e, parts)
  {
    hide TokenAt, ClassAt, Tiles, StatementCuts;
    if parts == [] {
      SplitNone(s);
    } else {
      var front, p := parts[..|parts| - 1], parts[|parts| - 1];
      var e' := e - |p| - 1;
      StatementsLaid(s, front, e');
      SplitStep(s, e', front, p, e, parts);
    }
  }

  lemma {:induction false} SplitEnd(s: string, e: nat, done: seq<string>, p: string)
    requires Split(s, e, done) && OneStatement(p) && Stands(s, e, p, |s|)
    ensures Statements(s) == if Blank(p) then done else done + [p]
  {
    StatementPlaced(s, e, p, |s|);
    assert "" + p == p;
  }

  /** Splitting undoes joining: closed statements and a last one, none of them with a semicolon in
      code, come back exactly when the last one is not blank. */
  lemma {:induction false} StatementsRoundTrip(front: seq<string>, last: string)
    requires AllStatements(front) && OneStatement(last)
    ensures Statements(Join(front + [last], ';')) == front + [last] <==> !Blank(last)
    ensures Blank(last) ==> Statements(Join(front + [last], ';')) == front
  {
    var s, e := JoinLaid(front, last, ';');
    StatementsLaid(s, front, e);
    SplitEnd(s, e, front, last);
  }
}
