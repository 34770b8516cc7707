/** Strings as the gates use them: character classes, trimming, cutting at marked
    positions and joining. `Segments` is the one notion of "cutting" that every
    splitter of the project is specified with. */
module Text {

  /** The white space removed by Python's `str.strip()` and `str.split()`. */
  predicate IsSpace(c: char) {
    var n := c as int;
    || 9 <= n <= 13 || 28 <= n <= 32 || n == 0x85 || n == 0xA0 || n == 0x1680
    || 0x2000 <= n <= 0x200A || n == 0x2028 || n == 0x2029 || n == 0x202F || n == 0x205F || n == 0x3000
  }

  predicate IsDigit(c: char) { '0' <= c <= '9' }

  predicate IsLetter(c: char) { 'a' <= c <= 'z' || 'A' <= c <= 'Z' }

  /** `[A-Za-z0-9_]` */
  predicate IsWord(c: char) { IsLetter(c) || IsDigit(c) || c == '_' }

  predicate Blank(s: string) { forall i | 0 <= i < |s| :: IsSpace(s[i]) }

  /** `str.endswith(p)` */
  predicate EndsWith(s: string, p: string) { |p| <= |s| && s[|s| - |p|..] == p }

  /** Does `p` occur in `s` at position `i`? (`str.startswith(p, i)`) */
  predicate At(s: string, i: nat, p: string) {
    i + |p| <= |s| && forall k | 0 <= k < |p| :: p[k] == s[i + k]
  }

  /** Position of the first `c`, or the length. */
  function FirstOf(s: string, c: char): (i: nat)
    ensures i <= |s| && (forall k | 0 <= k < i :: s[k] != c) && (i < |s| ==> s[i] == c)
  {
    if s == "" || s[0] == c then 0 else 1 + FirstOf(s[1..], c)
  }

  /** Position after the last `c`, or 0. */
  function AfterLast(s: string, c: char): (i: nat)
    ensures i <= |s| && (forall k | i <= k < |s| :: s[k] != c) && (i > 0 ==> s[i - 1] == c)
  {
    if s == "" then 0 else if s[|s| - 1] == c then |s| else AfterLast(s[..|s| - 1], c)
  }

  predicate Has(s: string, c: char) { exists k | 0 <= k < |s| :: s[k] == c }

  lemma {:induction false} FirstOfIs(s: string, c: char, i: nat)
    requires i <= |s| && (forall k | 0 <= k < i :: s[k] != c) && (i < |s| ==> s[i] == c)
    ensures FirstOf(s, c) == i
  {
    var j := FirstOf(s, c);
    assert j < |s| ==> s[j] == c;
    assert i < |s| ==> s[i] == c;
  }

  lemma {:induction false} AtSlice(s: string, i: nat, p: string)
    requires i + |p| <= |s|
    ensures At(s, i, p) <==> s[i..i + |p|] == p
  {
    if s[i..i + |p|] == p {
      forall k | 0 <= k < |p| ensures p[k] == s[i + k] {
        assert p[k] == s[i..i + |p|][k];
      }
    }
  }

  lemma {:induction false} AtTwo(s: string, i: nat, p: string)
    requires |p| == 2
    ensures At(s, i, p) <==> i + 1 < |s| && s[i] == p[0] && s[i + 1] == p[1]
  {
    assert At(s, i, p) ==> p[0] == s[i + 0] && p[1] == s[i + 1];
  }

  /** `str.lower()` */
  function Lower(s: string): string {
    seq(|s|, i requires 0 <= i < |s| => if 'A' <= s[i] <= 'Z' then s[i] - 'A' + 'a' else s[i])
  }

  /** The capitals `A` to `Z` become the letter 32 places on; nothing else changes. */
  lemma {:induction false} LowerAt(s: string, i: nat)
    requires i < |s|
    ensures |Lower(s)| == |s|
    ensures Lower(s)[i] as int == s[i] as int + if 65 <= s[i] as int <= 90 then 32 else 0
  {
  }

  /** The end of the digits that start at `i`. */
  function DigitsEnd(s: string, i: nat): (r: nat)
    requires i <= |s|
    ensures i <= r <= |s| && (forall k | i <= k < r :: IsDigit(s[k])) && (r < |s| ==> !IsDigit(s[r]))
    decreases |s| - i
  {
    if i < |s| && IsDigit(s[i]) then DigitsEnd(s, i + 1) else i
  }

  /** Digits end where something else comes. */
  lemma {:induction false} DigitsEndAt(s: string, i: nat, j: nat)
    requires i <= j <= |s| && (forall k | i <= k < j :: IsDigit(s[k])) && (j < |s| ==> !IsDigit(s[j]))
    ensures DigitsEnd(s, i) == j
    decreases j - i
  {
    if i < j {
      DigitsEndAt(s, i + 1, j);
    }
  }

  /** The number written with the digits of `s`. */
  function Natural(s: string): nat {
    if s == "" then 0
    else 10 * Natural(s[..|s| - 1]) + (if IsDigit(s[|s| - 1]) then s[|s| - 1] as int - '0' as int else 0)
  }

  // ----- Trimming

  /** First position at or after `i` that holds no blank. */
  function SkipBlanks(s: string, i: nat): (r: nat)
    requires i <= |s|
    ensures i <= r <= |s| && forall k | i <= k < r :: IsSpace(s[k])
    ensures r < |s| ==> !IsSpace(s[r])
    decreases |s| - i
  {
    if i < |s| && IsSpace(s[i]) then SkipBlanks(s, i + 1) else i
  }

  /** End of `s[i..j]` without the blanks at its end. */
  function DropBlanks(s: string, i: nat, j: nat): (r: nat)
    requires i <= j <= |s|
    ensures i <= r <= j && forall k | r <= k < j :: IsSpace(s[k])
    ensures i < r ==> !IsSpace(s[r - 1])
  {
    if i < j && IsSpace(s[j - 1]) then DropBlanks(s, i, j - 1) else j
  }

  /** `str.strip()` */
  function Trim(s: string): (t: string)
    ensures t == "" <==> Blank(s)
    ensures t != "" ==> !IsSpace(t[0]) && !IsSpace(t[|t| - 1])
  {
    var lo := SkipBlanks(s, 0);
    s[lo..DropBlanks(s, lo, |s|)]
  }

  // ----- Cutting and joining

  lemma {:induction false} Assoc<T>(x: seq<T>, y: seq<T>, z: seq<T>)
    ensures (x + y) + z == x + (y + z)
  {
  }

  /** The pieces that are complete and the piece that is still growing. */
  datatype Pieces = Pieces(done: seq<string>, last: string)

  /** Cuts `s[i..j]` at the positions marked in `m`; a marked character belongs to no piece. */
  function Segments(s: string, m: seq<bool>, i: nat, j: nat): (r: Pieces)
    requires i <= j <= |s| == |m|
  {
    if i == j then Pieces([], "")
    else
      var r := Segments(s, m, i, j - 1);
      if m[j - 1] then Pieces(r.done + [r.last], "") else Pieces(r.done, r.last + [s[j - 1]])
  }

  /** The texts in `parts`, each followed by `c`. */
  function Ended(parts: seq<string>, c: char): string {
    if |parts| == 0 then "" else Ended(parts[..|parts| - 1], c) + parts[|parts| - 1] + [c]
  }

  /** `c.join(parts)` */
  function Join(parts: seq<string>, c: char): string {
    if |parts| == 0 then "" else Ended(parts[..|parts| - 1], c) + parts[|parts| - 1]
  }

  lemma {:induction false} EndedSnoc(parts: seq<string>, x: string, c: char)
    ensures Ended(parts + [x], c) == Ended(parts, c) + x + [c]
    ensures Join(parts + [x], c) == Ended(parts, c) + x
  {
    assert (parts + [x])[..|parts|] == parts;
  }

  /** Joining puts the separator between the texts, and nowhere else. */
  lemma {:induction false} JoinNext(parts: seq<string>, x: string, c: char)
    ensures Join([], c) == "" && Join([x], c) == x
    ensures parts != [] ==> Join(parts + [x], c) == Join(parts, c) + [c] + x
  {
    assert [x] == [] + [x] && [x][..0] == [] && "" + x == x;
    EndedSnoc(parts, x, c);
    if parts != [] {
      EndedSnoc(parts[..|parts| - 1], parts[|parts| - 1], c);
      assert parts == parts[..|parts| - 1] + [parts[|parts| - 1]];
    }
  }

  /** An unmarked stretch extends the last piece: what a scanner's `current.extend(...)` does. */
  lemma {:induction false} SegmentsExtend(s: string, m: seq<bool>, i: nat, j: nat, k: nat)
    requires i <= j <= k <= |s| == |m| && forall n | j <= n < k :: !m[n]
    ensures var r := Segments(s, m, i, j);
            Segments(s, m, i, k) == Pieces(r.done, r.last + s[j..k])
  {
    var r := Segments(s, m, i, j);
    if j == k {
      assert r.last + s[j..k] == r.last;
    } else {
      SegmentsExtend(s, m, i, j, k - 1);
      assert r.last + s[j..k - 1] + [s[k - 1]] == r.last + s[j..k];
    }
  }

  /** Cutting goes on from scratch after a marked character. */
  lemma {:induction false} SegmentsResume(s: string, m: seq<bool>, i: nat, j: nat, k: nat)
    requires i <= j < k <= |s| == |m| && m[j]
    ensures var x, y := Segments(s, m, i, j), Segments(s, m, j + 1, k);
            Segments(s, m, i, k) == Pieces(x.done + [x.last] + y.done, y.last)
  {
    var x := Segments(s, m, i, j);
    if k == j + 1 {
      assert x.done + [x.last] + [] == x.done + [x.last];
    } else {
      SegmentsResume(s, m, i, j, k - 1);
      var y := Segments(s, m, j + 1, k - 1);
      assert (x.done + [x.last] + y.done) + [y.last] == x.done + [x.last] + (y.done + [y.last]);
    }
  }

  /** Only the characters and the marks before the bound matter. */
  lemma {:induction false} SegmentsSame(s: string, m: seq<bool>, s': string, m': seq<bool>, d: nat)
    requires d <= |s| == |m| && d <= |s'| == |m'|
    requires forall k | 0 <= k < d :: s[k] == s'[k] && m[k] == m'[k]
    ensures Segments(s, m, 0, d) == Segments(s', m', 0, d)
  {
    if d > 0 {
      SegmentsSame(s, m, s', m', d - 1);
    }
  }

  /** Joining with the separator that was cut out restores the text. */
  lemma {:induction false} JoinSegments(s: string, m: seq<bool>, i: nat, j: nat, c: char)
    requires i <= j <= |s| == |m| && forall k | i <= k < j && m[k] :: s[k] == c
    ensures var r := Segments(s, m, i, j);
            Ended(r.done, c) + r.last == s[i..j]
  {
    if i < j {
      JoinSegments(s, m, i, j - 1, c);
      var r := Segments(s, m, i, j - 1);
      assert s[i..j] == s[i..j - 1] + [s[j - 1]];
      if m[j - 1] {
        EndedSnoc(r.done, r.last, c);
      } else {
        Assoc(Ended(r.done, c), r.last, [s[j - 1]]);
      }
    }
  }

  /** `a..b` is a maximal stretch without a mark. */
  ghost predicate IsPiece(m: seq<bool>, a: nat, b: nat) {
    && a <= b <= |m| && (a == 0 || m[a - 1]) && (b == |m| || m[b])
    && forall n | a <= n < b :: !m[n]
  }

  /** The pieces of a text are its maximal stretches without a mark. */
  lemma {:induction false} PieceBounds(s: string, m: seq<bool>, j: nat, k: nat) returns (a: nat, b: nat)
    requires j <= |s| == |m| && k <= |Segments(s, m, 0, j).done|
    ensures var r := Segments(s, m, 0, j);
            && a <= b <= j && (a == 0 || m[a - 1]) && (forall n | a <= n < b :: !m[n])
            && (k < |r.done| ==> b < j && m[b] && r.done[k] == s[a..b])
            && (k == |r.done| ==> b == j && r.last == s[a..b])
  {
    if j == 0 {
      a, b := 0, 0;
    } else {
      var r := Segments(s, m, 0, j - 1);
      if m[j - 1] && k == |r.done| + 1 {
        a, b := j, j;
      } else {
        a, b := PieceBounds(s, m, j - 1, k);
        if !m[j - 1] && k == |r.done| {
          b := j;
        }
      }
    }
  }
}
