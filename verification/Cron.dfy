/** The cron check of `scripts/ci/check-postgres-backup-config.py`. */
module Cron {
  import opened Text

  // ----- Fields

  predicate IsDigits(s: string) { s != "" && forall i | 0 <= i < |s| :: IsDigit(s[i]) }

  function CommaMarks(s: string): seq<bool> {
    seq(|s|, i requires 0 <= i < |s| => s[i] == ',')
  }

  /** `s.split(",")` */
  function SplitCommas(s: string): (r: seq<string>)
    ensures |r| > 0 && forall i | 0 <= i < |r| :: Apart(s, r[i])
  {
    var p := Segments(s, CommaMarks(s), 0, |s|);
    var r := p.done + [p.last];
    assert forall i | 0 <= i < |r| :: Apart(s, r[i]) by { CommaPieces(s, p, r); }
    r
  }

  /** A piece of `s` holds no comma, and no slash if `s` holds none. */
  ghost predicate Apart(s: string, piece: string) { !Has(piece, ',') && (!Has(s, '/') ==> !Has(piece, '/')) }

  lemma {:induction false} CommaPieces(s: string, p: Pieces, r: seq<string>)
    requires p == Segments(s, CommaMarks(s), 0, |s|) && r == p.done + [p.last]
    ensures forall i | 0 <= i < |r| :: Apart(s, r[i])
  {
    forall i | 0 <= i < |r| ensures Apart(s, r[i]) {
      var a, b := PieceBounds(s, CommaMarks(s), |s|, i);
      assert r[i] == s[a..b];
      forall k | 0 <= k < b - a ensures s[a..b][k] != ',' && s[a..b][k] == s[a + k] {
        assert !CommaMarks(s)[a + k];
      }
    }
  }

  predicate StepOk(step: string) { IsDigits(step) && Natural(step) > 0 }

  predicate NumberOk(s: string, lo: int, hi: int) { IsDigits(s) && lo <= Natural(s) <= hi }

  predicate SpanOk(s: string, lo: int, hi: int) {
    var k := FirstOf(s, '-');
    k < |s| && IsDigits(s[..k]) && IsDigits(s[k + 1..]) && lo <= Natural(s[..k]) <= Natural(s[k + 1..]) <= hi
  }

  /** `_is_valid_cron_field`: a step first, then a list, then a range. */
  predicate ValidField(field: string, lo: int, hi: int)
    decreases if Has(field, '/') then 2 else if Has(field, ',') then 1 else 0
  {
    if field == "*" then true
    else if Has(field, '/') then
      var k := FirstOf(field, '/');
      assert k < |field|;
      var base, step := field[..k], field[k + 1..];
      StepOk(step) && (base == "*" || ValidField(base, lo, hi))
    else if Has(field, ',') then
      forall i | 0 <= i < |SplitCommas(field)| :: ValidField(SplitCommas(field)[i], lo, hi)
    else if Has(field, '-') then SpanOk(field, lo, hi)
    else NumberOk(field, lo, hi)
  }

  // ----- The grammar that cron itself uses: a list of ranges, each with an optional step

  predicate RangeOk(s: string, lo: int, hi: int) {
    if s == "*" then true else if Has(s, '-') then SpanOk(s, lo, hi) else NumberOk(s, lo, hi)
  }

  predicate ItemOk(s: string, lo: int, hi: int) {
    var k := FirstOf(s, '/');
    if k < |s| then RangeOk(s[..k], lo, hi) && StepOk(s[k + 1..]) else RangeOk(s, lo, hi)
  }

  predicate ListOk(field: string, lo: int, hi: int) {
    forall i | 0 <= i < |SplitCommas(field)| :: ItemOk(SplitCommas(field)[i], lo, hi)
  }

  /** Only the last item of the list has a step. */
  predicate StepAtEnd(field: string) {
    forall i | 0 <= i < |SplitCommas(field)| - 1 :: !Has(SplitCommas(field)[i], '/')
  }

  lemma {:induction false} SimpleField(s: string, lo: int, hi: int)
    requires !Has(s, '/') && !Has(s, ',')
    ensures ValidField(s, lo, hi) <==> RangeOk(s, lo, hi)
  {
  }

  /** Without a step the two readings are the same. */
  lemma {:induction false} PlainList(field: string, lo: int, hi: int)
    requires !Has(field, '/')
    ensures ValidField(field, lo, hi) <==> ListOk(field, lo, hi)
    ensures StepAtEnd(field)
  {
    var items := SplitCommas(field);
    forall i | 0 <= i < |items| ensures ValidField(items[i], lo, hi) <==> ItemOk(items[i], lo, hi) {
      SimpleField(items[i], lo, hi);
    }
    if !Has(field, ',') {
      WithoutCommas(field);
      assert items[0] == field;
    } else {
      assert field != "*";
    }
  }

  /** A step at the end of a list belongs to its last item. */
  lemma {:induction false} SplitTail(base: string, rest: string)
    requires !Has(rest, ',')
    ensures var items := SplitCommas(base);
            SplitCommas(base + rest) == items[..|items| - 1] + [items[|items| - 1] + rest]
  {
    var s, n := base + rest, |base|;
    var m := CommaMarks(s);
    SegmentsSame(s, m, base, CommaMarks(base), n);
    forall i | n <= i < |s| ensures !m[i] {
      assert s[i] == rest[i - n];
    }
    SegmentsExtend(s, m, 0, n, |s|);
    assert s[n..|s|] == rest;
    var p := Segments(base, CommaMarks(base), 0, n);
    assert (p.done + [p.last])[..|p.done|] == p.done;
  }

  lemma {:induction false} WithoutCommas(s: string)
    requires !Has(s, ',')
    ensures SplitCommas(s) == [s]
  {
    SegmentsExtend(s, CommaMarks(s), 0, 0, |s|);
    assert "" + s[0..|s|] == s;
  }

  ghost predicate SomePiece(p: Pieces, c: char) { Has(p.last, c) || exists i | 0 <= i < |p.done| :: Has(p.done[i], c) }

  lemma {:induction false} InSomePiece(s: string, m: seq<bool>, j: nat, n: nat)
    requires j < n <= |s| == |m| && !m[j]
    ensures SomePiece(Segments(s, m, 0, n), s[j])
  {
    var p := Segments(s, m, 0, n - 1);
    if j == n - 1 {
      assert (p.last + [s[j]])[|p.last|] == s[j];
    } else {
      InSomePiece(s, m, j, n - 1);
      if Has(p.last, s[j]) {
        var k :| 0 <= k < |p.last| && p.last[k] == s[j];
        assert (p.last + [s[n - 1]])[k] == s[j];
        assert (p.done + [p.last])[|p.done|] == p.last;
      } else {
        var i :| 0 <= i < |p.done| && Has(p.done[i], s[j]);
        assert (p.done + [p.last])[i] == p.done[i];
      }
    }
  }

  /** A comma after a slash leaves an item with the slash that is not the last one. */
  lemma {:induction false} SlashBeforeComma(s: string, j: nat, k: nat)
    requires j < k < |s| && s[j] == '/' && s[k] == ','
    ensures !StepAtEnd(s)
  {
    var m := CommaMarks(s);
    InSomePiece(s, m, j, k);
    SegmentsResume(s, m, 0, k, |s|);
    var x, y := Segments(s, m, 0, k), Segments(s, m, k + 1, |s|);
    var items := SplitCommas(s);
    assert items == x.done + [x.last] + y.done + [y.last];
    if Has(x.last, '/') {
      assert items[|x.done|] == x.last;
    } else {
      var i :| 0 <= i < |x.done| && Has(x.done[i], '/');
      assert items[i] == x.done[i];
    }
  }

  lemma {:induction false} FirstOfTail(base: string, step: string)
    requires !Has(base, '/')
    ensures FirstOf(base + ['/'] + step, '/') == |base|
  {
    FirstOfIs(base + ['/'] + step, '/', |base|);
  }

  lemma {:induction false} SteppedList(field: string, base: string, step: string, lo: int, hi: int)
    requires field == base + (['/'] + step) && !Has(base, '/') && !Has(step, ',')
    ensures StepAtEnd(field)
    ensures ListOk(field, lo, hi) <==> ListOk(base, lo, hi) && StepOk(step)
  {
    hide RangeOk, StepOk, SplitCommas;
    SplitTail(base, ['/'] + step);
    var items, all := SplitCommas(base), SplitCommas(field);
    var n := |items| - 1;
    assert forall i | 0 <= i < n :: all[i] == items[i];
    SteppedItem(all[n], items[n], step, lo, hi);
  }

  lemma {:induction false} SteppedItem(s: string, item: string, step: string, lo: int, hi: int)
    requires s == item + (['/'] + step) && !Has(item, '/')
    ensures ItemOk(s, lo, hi) <==> ItemOk(item, lo, hi) && StepOk(step)
  {
    hide RangeOk, StepOk;
    FirstOfTail(item, step);
    assert s == item + ['/'] + step;
    assert s[..|item|] == item && s[|item| + 1..] == step;
  }

  lemma {:induction false} CommaAfterSlash(field: string, base: string, step: string)
    requires field == base + (['/'] + step) && Has(step, ',')
    ensures !StepOk(step) && !StepAtEnd(field)
  {
    hide StepAtEnd;
    var j :| 0 <= j < |step| && step[j] == ',';
    var k := |base|;
    assert field[k] == '/' && field[k + 1 + j] == ',';
    SlashBeforeComma(field, k, k + 1 + j);
    assert !IsDigit(step[j]);
  }

  /** The slash-first recursion accepts exactly the lists of cron's own grammar in which only the last
      item has a step; so everything it accepts, cron reads as a list too. */
  lemma {:induction false} SlashFirstIsCommaFirst(field: string, lo: int, hi: int)
    ensures ValidField(field, lo, hi) <==> ListOk(field, lo, hi) && StepAtEnd(field)
  {
    hide RangeOk, SplitCommas, ListOk, StepAtEnd, SpanOk, NumberOk, StepOk;
    if !Has(field, '/') {
      PlainList(field, lo, hi);
    } else {
      var k := FirstOf(field, '/');
      var base, step := field[..k], field[k + 1..];
      assert !Has(base, '/') && ValidField(field, lo, hi) == (ValidField(base, lo, hi) && StepOk(step));
      assert field == base + (['/'] + step);
      hide ValidField, FirstOf;
      PlainList(base, lo, hi);
      if Has(step, ',') {
        CommaAfterSlash(field, base, step);
      } else {
        SteppedList(field, base, step, lo, hi);
      }
    }
  }

  // ----- Numbers and ranges in plain characters

  predicate AreDigits(s: string) { s != "" && forall i | 0 <= i < |s| :: '0' <= s[i] <= '9' }

  lemma {:induction false} NumberIff(s: string, lo: int, hi: int)
    ensures NumberOk(s, lo, hi) <==> AreDigits(s) && lo <= Natural(s) <= hi
    ensures StepOk(s) <==> AreDigits(s) && Natural(s) != 0
  {
  }

  /** A range without a comma and without a step: a star, a number within the bounds, or two numbers in
      order within the bounds with a hyphen between them. */
  lemma {:induction false} RangeIff(s: string, lo: int, hi: int)
    ensures RangeOk(s, lo, hi) <==>
            || s == "*" || (AreDigits(s) && lo <= Natural(s) <= hi)
            || exists a, b :: s == a + ['-'] + b && AreDigits(a) && AreDigits(b) && lo <= Natural(a) <= Natural(b) <= hi
  {
    hide Natural;
    if s != "*" && Has(s, '-') {
      var k := FirstOf(s, '-');
      var a, b := s[..k], s[k + 1..];
      assert s == a + ['-'] + b;
      assert RangeOk(s, lo, hi) <==> AreDigits(a) && AreDigits(b) && lo <= Natural(a) <= Natural(b) <= hi;
      forall a', b' | s == a' + ['-'] + b' && AreDigits(a') ensures a' == a && b' == b {
        OnlySplit(s, a', b');
      }
      hide RangeOk, AreDigits;
    } else if s != "*" {
      assert !exists a, b :: s == a + ['-'] + b by {
        assert forall a, b :: (a + ['-'] + b)[|a|] == '-';
      }
    }
  }

  lemma {:induction false} OnlySplit(s: string, a: string, b: string)
    requires s == a + ['-'] + b && AreDigits(a)
    ensures FirstOf(s, '-') == |a| < |s| && s[..|a|] == a && s[|a| + 1..] == b
  {
    FirstOfIs(s, '-', |a|);
  }

  // ----- What a field means

  function Span(a: int, b: int): (r: set<int>)
    ensures forall v :: v in r <==> a <= v <= b
    decreases b - a
  {
    if a > b then {} else {a} + Span(a + 1, b)
  }

  /** The first and the last value of a range. */
  function Bounds(s: string, lo: int, hi: int): (r: (int, int))
    requires lo <= hi && RangeOk(s, lo, hi)
    ensures lo <= r.0 <= r.1 <= hi
  {
    if s == "*" then (lo, hi)
    else if Has(s, '-') then
      var k := FirstOf(s, '-');
      (Natural(s[..k]), Natural(s[k + 1..]))
    else (Natural(s), Natural(s))
  }

  /** The values of an item; a step on a single number counts from it to the end. */
  function ItemValues(s: string, lo: int, hi: int): (r: set<int>)
    requires lo <= hi && ItemOk(s, lo, hi)
    ensures r != {} && forall v | v in r :: lo <= v <= hi
  {
    var k := FirstOf(s, '/');
    if k < |s| then
      var (a, b) := Bounds(s[..k], lo, hi);
      var last := if s[..k] == "*" || Has(s[..k], '-') then b else hi;
      var step := Natural(s[k + 1..]);
      var r := set v | v in Span(a, last) && (v - a) % step == 0;
      assert (a - a) % step == 0 && a in r;
      r
    else
      var (a, b) := Bounds(s, lo, hi);
      assert a in Span(a, b);
      Span(a, b)
  }

  /** The values that a field stands for. */
  ghost function FieldValues(field: string, lo: int, hi: int): set<int>
    requires lo <= hi && ValidField(field, lo, hi)
  {
    SlashFirstIsCommaFirst(field, lo, hi);
    var items := SplitCommas(field);
    set v, i | v in Span(lo, hi) && 0 <= i < |items| && v in ItemValues(items[i], lo, hi) :: v
  }

  /** An accepted field stands for some value, and only for values in range. */
  lemma {:induction false} FieldMeaning(field: string, lo: int, hi: int) returns (v: int)
    requires lo <= hi && ValidField(field, lo, hi)
    ensures v in FieldValues(field, lo, hi)
    ensures forall w | w in FieldValues(field, lo, hi) :: lo <= w <= hi
  {
    SlashFirstIsCommaFirst(field, lo, hi);
    var items := SplitCommas(field);
    v :| v in ItemValues(items[0], lo, hi);
    assert v in Span(lo, hi);
  }

  // ----- Expressions

  /** `str.split()` */
  function Tokens(s: string, i: nat, current: string): seq<string>
    requires i <= |s|
    decreases |s| - i
  {
    if i == |s| then if current == "" then [] else [current]
    else if IsSpace(s[i]) then (if current == "" then [] else [current]) + Tokens(s, i + 1, "")
    else Tokens(s, i + 1, current + [s[i]])
  }

  lemma {:induction false} TokensBehind(a: string, b: string, s: string, i: nat, current: string)
    requires s == a + b && i <= |b|
    ensures Tokens(s, |a| + i, current) == Tokens(b, i, current)
    decreases |b| - i
  {
    if i < |b| {
      TokensBehind(a, b, s, i + 1, "");
      TokensBehind(a, b, s, i + 1, current + [b[i]]);
    }
  }

  lemma {:induction false} TokensAlong(s: string, i: nat, j: nat, current: string)
    requires i <= j <= |s| && forall k | i <= k < j :: !IsSpace(s[k])
    ensures Tokens(s, i, current) == Tokens(s, j, current + s[i..j])
    decreases j - i
  {
    if i < j {
      TokensAlong(s, i + 1, j, current + [s[i]]);
      assert current + [s[i]] + s[i + 1..j] == current + s[i..j];
    } else {
      assert current + s[i..j] == current;
    }
  }

  /** A word at the start of the text, up to a blank or the end, is the first token; a blank is none. */
  lemma {:induction false} FirstToken(word: string, blank: char, rest: string)
    requires word != "" && (forall i | 0 <= i < |word| :: !IsSpace(word[i])) && IsSpace(blank)
    ensures Tokens("", 0, "") == [] && Tokens(word, 0, "") == [word]
    ensures Tokens([blank] + rest, 0, "") == Tokens(rest, 0, "")
    ensures Tokens(word + ([blank] + rest), 0, "") == [word] + Tokens(rest, 0, "")
  {
    TokensAlong(word, 0, |word|, "");
    assert "" + word[0..|word|] == word;
    TokensBehind([blank], rest, [blank] + rest, 0, "");
    var s := word + ([blank] + rest);
    TokensAlong(s, 0, |word|, "");
    assert "" + s[0..|word|] == word && s[|word|] == blank;
    TokensBehind(word + [blank], rest, s, 0, "") by {
      assert s == (word + [blank]) + rest;
    }
  }

  const LOWEST := [0, 0, 0, 1, 1, 0]
  const HIGHEST := [59, 59, 23, 31, 12, 7]

  /** `validate_cron_expression`: six fields, each valid in its range. */
  predicate ValidExpression(expr: string) {
    var tokens := Tokens(expr, 0, "");
    |tokens| == 6 && forall i | 0 <= i < 6 :: ValidField(tokens[i], LOWEST[i], HIGHEST[i])
  }

  /** Seconds, minutes, hours, days of the month, months and days of the week, each within its range. */
  lemma {:induction false} ExpressionIff(expr: string)
    ensures ValidExpression(expr) <==>
            && |Tokens(expr, 0, "")| == 6
            && ValidField(Tokens(expr, 0, "")[0], 0, 59) && ValidField(Tokens(expr, 0, "")[1], 0, 59)
            && ValidField(Tokens(expr, 0, "")[2], 0, 23) && ValidField(Tokens(expr, 0, "")[3], 1, 31)
            && ValidField(Tokens(expr, 0, "")[4], 1, 12) && ValidField(Tokens(expr, 0, "")[5], 0, 7)
  {
    hide Tokens, ValidField;
  }

  /** Every field of an accepted expression has a value in range. That the values occur together, as a
      date that exists, is not checked. */
  lemma {:induction false} EachFieldHasValue(expr: string) returns (times: seq<int>)
    requires ValidExpression(expr)
    ensures |times| == 6
    ensures forall i | 0 <= i < 6 ::
              && LOWEST[i] <= times[i] <= HIGHEST[i]
              && times[i] in FieldValues(Tokens(expr, 0, "")[i], LOWEST[i], HIGHEST[i])
  {
    hide FieldValues, ValidField;
    var tokens := Tokens(expr, 0, "");
    times := [];
    for n := 0 to 6
      invariant |times| == n
      invariant forall i | 0 <= i < n ::
                  && LOWEST[i] <= times[i] <= HIGHEST[i] && times[i] in FieldValues(tokens[i], LOWEST[i], HIGHEST[i])
    {
      var v := FieldMeaning(tokens[n], LOWEST[n], HIGHEST[n]);
      times := times + [v];
    }
  }
}
