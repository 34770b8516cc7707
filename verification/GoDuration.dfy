/** The durations of `scripts/ci/check-certificate-inventory.py`: Go durations with the units h, m and s. */
module GoDuration {
  import opened Text
  import opened Wrappers

  // ----- The grammar

  predicate IsUnit(c: char) { c == 'h' || c == 'm' || c == 's' }

  function Seconds(unit: char): int { if unit == 'h' then 3600 else if unit == 'm' then 60 else 1 }

  /** Digits with at most one dot among them, and at least one digit. */
  ghost predicate IsNumber(s: string) {
    && (exists i | 0 <= i < |s| :: IsDigit(s[i]))
    && (forall i | 0 <= i < |s| :: IsDigit(s[i]) || s[i] == '.')
    && (forall i, j | 0 <= i < j < |s| :: s[i] == '.' ==> s[j] != '.')
  }

  /** A number and its unit. */
  ghost predicate IsToken(w: string) {
    |w| >= 2 && IsNumber(w[..|w| - 1]) && IsUnit(w[|w| - 1])
  }

  function Concat(ws: seq<string>): string {
    if ws == [] then "" else ws[0] + Concat(ws[1..])
  }

  ghost predicate AllTokens(ws: seq<string>) { forall i | 0 <= i < |ws| :: IsToken(ws[i]) }

  // ----- The value of a token

  function Power10(n: nat): (r: int)
    ensures r > 0
  {
    if n == 0 then 1 else 10 * Power10(n - 1)
  }

  /** `Decimal(number)` */
  function Decimal(number: string): real {
    var whole := DigitsEnd(number, 0);
    var fraction := if whole < |number| then number[whole + 1..] else "";
    Natural(number[..whole] + fraction) as real / Power10(|fraction|) as real
  }

  lemma {:induction false} NaturalAppend(a: string, b: string)
    ensures Natural(a + b) == Natural(a) * Power10(|b|) + Natural(b)
  {
    if b == "" {
      assert a + b == a;
    } else {
      var n := |b| - 1;
      var x, p, y := Natural(a), Power10(n), Natural(b[..n]);
      NaturalAppend(a, b[..n]);
      assert (a + b)[..|a + b| - 1] == a + b[..n];
      assert Natural(a + b) - Natural(b) == 10 * (x * p + y) - 10 * y;
      assert Power10(|b|) == 10 * p;
      hide Natural, Power10;
      Tenfold(x, p);
    }
  }

  lemma {:induction false} Tenfold(x: int, p: int)
    ensures 10 * (x * p) == x * (10 * p)
  {
  }

  /** The digits before the dot count whole units, the digits behind it the rest. */
  lemma {:induction false} DecimalParts(a: string, b: string, number: string)
    requires number == a + "." + b && forall i | 0 <= i < |a| :: IsDigit(a[i])
    ensures Decimal(number) == (Natural(a) * Power10(|b|) + Natural(b)) as real / Power10(|b|) as real
  {
    DigitsEndAt(number, 0, |a|);
    assert number[..|a|] == a && number[|a| + 1..] == b;
    NaturalAppend(a, b);
  }

  function TokenValue(w: string): real {
    if w == "" then 0.0 else Decimal(w[..|w| - 1]) * Seconds(w[|w| - 1]) as real
  }

  function Total(ws: seq<string>): real {
    if ws == [] then 0.0 else TokenValue(ws[0]) + Total(ws[1..])
  }

  // ----- Tokens in plain characters

  predicate AreDigits(s: string) { forall i | 0 <= i < |s| :: '0' <= s[i] <= '9' }

  /** A number is digits, or digits around a dot, at least one of them. */
  lemma {:induction false} NumberIff(s: string)
    ensures IsNumber(s) <==>
            || (s != "" && AreDigits(s))
            || exists a, b :: s == a + ['.'] + b && AreDigits(a) && AreDigits(b) && (a != "" || b != "")
  {
    if s != "" && AreDigits(s) {
      assert IsDigit(s[0]) && IsNumber(s);
    }
    hide IsNumber, AreDigits;
    if IsNumber(s) {
      NumberParts(s);
    }
    if a, b :| s == a + ['.'] + b && AreDigits(a) && AreDigits(b) && (a != "" || b != "") {
      AroundDot(a, b, s);
    }
  }

  lemma {:induction false} NumberParts(s: string)
    requires IsNumber(s)
    ensures s != "" && (AreDigits(s) || exists a, b :: s == a + ['.'] + b && AreDigits(a) && AreDigits(b) && (a != "" || b != ""))
  {
    var k := FirstOf(s, '.');
    if k < |s| {
      var a, b := s[..k], s[k + 1..];
      PartsAreDigits(s, k, a, b);
      hide IsNumber, AreDigits, FirstOf;
      assert s == a + ['.'] + b;
    }
  }

  lemma {:induction false} PartsAreDigits(s: string, k: nat, a: string, b: string)
    requires IsNumber(s) && k < |s| && s[k] == '.' && |a| == k && |b| == |s| - k - 1
    requires (forall i | 0 <= i < k :: a[i] == s[i]) && forall i | 0 <= i < |b| :: b[i] == s[k + 1 + i]
    ensures AreDigits(a) && AreDigits(b) && (a != "" || b != "")
  {
    forall i | 0 <= i < |s| && i != k ensures IsDigit(s[i]) {
      assert (i < k ==> s[i] != '.') && (k < i ==> s[i] != '.');
    }
  }

  lemma {:induction false} AroundDot(a: string, b: string, s: string)
    requires s == a + ['.'] + b && AreDigits(a) && AreDigits(b) && (a != "" || b != "")
    ensures IsNumber(s)
  {
    assert forall i | 0 <= i < |b| :: s[|a| + 1 + i] == b[i];
    forall i | 0 <= i < |s| ensures s[i] == '.' <==> i == |a|
      ensures i != |a| ==> IsDigit(s[i])
    {
      if i > |a| {
        assert s[i] == b[i - |a| - 1];
      }
    }
    assert IsDigit(s[if a != "" then 0 else 1]);
  }

  /** A token is a number with one of the three units behind it, and worth that many seconds. */
  lemma {:induction false} TokenIff(number: string, unit: char)
    ensures IsToken(number + [unit]) <==> IsNumber(number) && (unit == 'h' || unit == 'm' || unit == 's')
    ensures TokenValue(number + ['h']) == 3600.0 * Decimal(number)
    ensures TokenValue(number + ['m']) == 60.0 * Decimal(number)
    ensures TokenValue(number + ['s']) == Decimal(number)
  {
    hide IsNumber, Decimal;
    assert (number + [unit])[..|number|] == number;
    assert (number + ['h'])[..|number|] == number;
    assert (number + ['m'])[..|number|] == number;
    assert (number + ['s'])[..|number|] == number;
    assert IsNumber(number) ==> number != "" by {
      NumberIff(number);
    }
  }

  // ----- The matcher

  /** Where a match of the token pattern that starts at `i` ends. */
  function MatchEnd(s: string, i: nat): (r: Option<nat>)
    requires i <= |s|
    ensures r.Some? ==> i + 2 <= r.value <= |s|
  {
    var whole := DigitsEnd(s, i);
    var number := if whole < |s| && s[whole] == '.' then DigitsEnd(s, whole + 1) else whole;
    if (whole > i || number > whole + 1) && number < |s| && IsUnit(s[number]) then Some(number + 1) else None
  }

  /** What matches is a token. */
  lemma {:induction false} MatchIsToken(s: string, i: nat)
    requires i <= |s| && MatchEnd(s, i).Some?
    ensures IsToken(s[i..MatchEnd(s, i).value])
  {
    var end := MatchEnd(s, i).value;
    var whole, w := DigitsEnd(s, i), s[i..end];
    var number := w[..|w| - 1];
    forall k | 0 <= k < |w| ensures w[k] == s[i + k] {
    }
    assert |w| == end - i && w[|w| - 1] == s[end - 1];
    forall k | 0 <= k < |number| ensures number[k] == s[i + k] {
    }
    assert IsDigit(if whole > i then number[0] else number[1]);
  }

  /** A token is matched to its end, whatever follows: no token is a proper prefix of another. */
  lemma {:induction false} TokenMatches(s: string, i: nat, w: string)
    requires IsToken(w) && At(s, i, w)
    ensures MatchEnd(s, i) == Some(i + |w|)
  {
    var n := |w| - 1;
    var number := w[..n];
    assert forall k | 0 <= k < n :: number[k] == s[i + k];
    assert s[i + n] == w[n];
    var whole := DigitsEnd(s, i);
    assert whole <= i + n;
    if whole < i + n {
      assert number[whole - i] == '.';
      assert forall k | whole - i < k < n :: IsDigit(number[k]);
      assert forall k | whole + 1 <= k < i + n :: IsDigit(s[k]) by {
        forall k | whole + 1 <= k < i + n ensures IsDigit(s[k]) {
          assert number[k - i] == s[k];
        }
      }
      DigitsEndAt(s, whole + 1, i + n);
      if whole == i {
        var k :| 0 <= k < n && IsDigit(number[k]);
        assert k > 0;
      }
    }
  }

  // ----- The tokens of a text

  /** The tokens of `s[i..]`, one match after the other without a gap. */
  function TokensFrom(s: string, i: nat): Option<seq<string>>
    requires i <= |s|
    decreases |s| - i
  {
    if i == |s| then Some([])
    else match MatchEnd(s, i)
      case None => None
      case Some(end) =>
        match TokensFrom(s, end)
        case None => None
        case Some(ws) => Some([s[i..end]] + ws)
  }

  lemma {:induction false} TokensSound(s: string, i: nat)
    requires i <= |s| && TokensFrom(s, i).Some?
    ensures AllTokens(TokensFrom(s, i).value) && Concat(TokensFrom(s, i).value) == s[i..]
    decreases |s| - i
  {
    hide IsToken, MatchEnd;
    if i < |s| {
      var end := MatchEnd(s, i).value;
      MatchIsToken(s, i);
      TokensSound(s, end);
      var rest := TokensFrom(s, end).value;
      assert ([s[i..end]] + rest)[1..] == rest;
      assert s[i..] == s[i..end] + s[end..];
    }
  }

  lemma {:induction false} TokensComplete(s: string, i: nat, ws: seq<string>)
    requires i <= |s| && AllTokens(ws) && s[i..] == Concat(ws)
    ensures TokensFrom(s, i) == Some(ws)
    decreases |ws|
  {
    hide MatchEnd;
    if ws == [] {
      assert |s[i..]| == 0;
    } else {
      var w, rest := ws[0], Concat(ws[1..]);
      var end := i + |w|;
      assert |s[i..]| == |w| + |rest|;
      forall k | 0 <= k < |w| ensures w[k] == s[i + k] {
        assert s[i..][k] == (w + rest)[k];
      }
      TokenMatches(s, i, w);
      assert s[end..] == rest by {
        assert s[end..] == s[i..][|w|..];
      }
      TokensComplete(s, end, ws[1..]);
      assert s[i..end] == w;
      assert [w] + ws[1..] == ws;
    }
  }

  /** A text is cut into tokens in at most one way. */
  lemma {:induction false} TokensUnique(ws: seq<string>, ws': seq<string>)
    requires AllTokens(ws) && AllTokens(ws') && Concat(ws) == Concat(ws')
    ensures ws == ws'
  {
    hide IsToken, TokensFrom;
    var s := Concat(ws);
    assert s[0..] == s;
    TokensComplete(s, 0, ws);
    TokensComplete(s, 0, ws');
  }

  /** The seconds of an accepted duration. */
  ghost predicate Means(value: string, seconds: real) {
    exists ws :: AllTokens(ws) && Concat(ws) == value && Total(ws) == seconds && seconds > 0.0
  }

  /** `DURATION.findall(value)`: an unmatched character is skipped, so the matches make up the whole
      text exactly when it is a concatenation of tokens. */
  method FindAll(value: string) returns (parts: seq<string>)
    ensures Concat(parts) == value <==> TokensFrom(value, 0).Some?
    ensures TokensFrom(value, 0).Some? ==> parts == TokensFrom(value, 0).value
  {
    hide MatchEnd;
    parts := [];
    var i := 0;
    ghost var gap := false;
    if TokensFrom(value, 0).Some? {
      assert [] + TokensFrom(value, 0).value == TokensFrom(value, 0).value;
    }
    while i < |value|
      invariant i <= |value|
      invariant gap ==> |Concat(parts)| < i && TokensFrom(value, 0) == None
      invariant !gap ==> Concat(parts) == value[..i] && Continues(value, i, parts)
      decreases |value| - i
    {
      match MatchEnd(value, i)
      case None =>
        gap := true;
        i := i + 1;
      case Some(end) =>
        ConcatSnoc(parts, value[i..end]);
        assert value[..end] == value[..i] + value[i..end];
        if !gap {
          ContinuesOn(value, i, parts);
        }
        parts := parts + [value[i..end]];
        i := end;
    }
    assert value[..|value|] == value;
    assert parts + [] == parts;
  }

  /** `parts` are the tokens of `s[..i]`. */
  ghost predicate Continues(s: string, i: nat, parts: seq<string>)
    requires i <= |s|
  {
    TokensFrom(s, 0) == match TokensFrom(s, i) case None => None case Some(ws) => Some(parts + ws)
  }

  lemma {:induction false} ContinuesOn(s: string, i: nat, parts: seq<string>)
    requires i < |s| && Continues(s, i, parts) && MatchEnd(s, i).Some?
    ensures Continues(s, MatchEnd(s, i).value, parts + [s[i..MatchEnd(s, i).value]])
  {
    hide MatchEnd;
    var end := MatchEnd(s, i).value;
    if TokensFrom(s, end).Some? {
      assert parts + ([s[i..end]] + TokensFrom(s, end).value) == parts + [s[i..end]] + TokensFrom(s, end).value;
    }
  }

  lemma {:induction false} ConcatSnoc(ws: seq<string>, w: string)
    ensures Concat(ws + [w]) == Concat(ws) + w
  {
    if ws == [] {
      assert ([] + [w])[1..] == [];
    } else {
      ConcatSnoc(ws[1..], w);
      assert (ws + [w])[1..] == ws[1..] + [w];
    }
  }

  lemma {:induction false} TotalSnoc(ws: seq<string>, w: string)
    ensures Total(ws + [w]) == Total(ws) + TokenValue(w)
  {
    hide TokenValue;
    if ws == [] {
      assert ([] + [w])[1..] == [];
    } else {
      TotalSnoc(ws[1..], w);
      assert (ws + [w])[1..] == ws[1..] + [w];
    }
  }

  /** `duration(value)` */
  method Duration(value: string) returns (seconds: Option<real>)
    ensures forall x :: seconds == Some(x) <==> Means(value, x)
  {
    hide IsToken, TokensFrom, TokenValue;
    var parts := FindAll(value);
    ghost var tokens := TokensFrom(value, 0);
    assert value[0..] == value;
    if tokens.Some? {
      TokensSound(value, 0);
    }
    forall ws | AllTokens(ws) && Concat(ws) == value ensures tokens == Some(ws) {
      TokensComplete(value, 0, ws);
    }
    if Concat(parts) != value {
      return None;
    }
    var total := 0.0;
    for n := 0 to |parts|
      invariant total == Total(parts[..n])
    {
      TotalSnoc(parts[..n], parts[n]);
      assert parts[..n + 1] == parts[..n] + [parts[n]];
      total := total + TokenValue(parts[n]);
    }
    assert parts[..|parts|] == parts;
    if total <= 0.0 {
      return None;
    }
    return Some(total);
  }

  lemma {:induction false} ConcatBoth(ws: seq<string>, ws': seq<string>)
    ensures Concat(ws + ws') == Concat(ws) + Concat(ws')
  {
    var all := ws + ws';
    if ws == [] {
      assert all == ws';
    } else {
      ConcatBoth(ws[1..], ws');
      assert Concat(all) == ws[0] + Concat(all[1..]) && Concat(ws) == ws[0] + Concat(ws[1..]);
      hide Concat;
      assert all[1..] == ws[1..] + ws';
      Assoc(ws[0], Concat(ws[1..]), Concat(ws'));
    }
  }

  lemma {:induction false} TotalBoth(ws: seq<string>, ws': seq<string>)
    ensures Total(ws + ws') == Total(ws) + Total(ws')
  {
    hide TokenValue;
    if ws == [] {
      assert [] + ws' == ws';
    } else {
      TotalBoth(ws[1..], ws');
      assert (ws + ws')[1..] == ws[1..] + ws';
    }
  }

  /** Writing one duration after another adds them up. */
  lemma {:induction false} DurationsAdd(a: string, b: string, x: real, y: real)
    requires Means(a, x) && Means(b, y)
    ensures Means(a + b, x + y)
  {
    hide IsToken, TokenValue;
    var ws :| AllTokens(ws) && Concat(ws) == a && Total(ws) == x;
    var ws' :| AllTokens(ws') && Concat(ws') == b && Total(ws') == y;
    ConcatBoth(ws, ws');
    TotalBoth(ws, ws');
    assert AllTokens(ws + ws');
  }

  /** A duration means one number of seconds. */
  lemma {:induction false} DurationIsOne(a: string, x: real, y: real)
    ensures Means(a, x) && Means(a, y) ==> x == y
  {
    hide IsToken, TokenValue;
    if Means(a, x) && Means(a, y) {
      var ws :| AllTokens(ws) && Concat(ws) == a && Total(ws) == x;
      var ws' :| AllTokens(ws') && Concat(ws') == a && Total(ws') == y;
      TokensUnique(ws, ws');
    }
  }
}
