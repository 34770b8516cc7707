/** `scripts/ci/check-pin-enforcement.py`: the baseline of images without a digest may only shrink. */
module PinRatchet {
  import opened Text
  import opened Wrappers
  import opened ImageRefs

  // ----- One change

  predicate Digested(ref: string) {
    var d := ParseRef(ref).digest;
    d.Some? && d.value != ""
  }

  const BRANCH_WORDS := ["main", "master", "dev", "edge", "nightly", "stable"]

  predicate IsBranchLike(tag: string) {
    var t := Lower(tag);
    EndsWith(t, "-snapshot") ||
    exists i | 0 <= i < |BRANCH_WORDS| :: t == BRANCH_WORDS[i] || At(t, 0, BRANCH_WORDS[i] + "-")
  }

  /** `classify(ref) == "FAIL"`: no digest and no tag that stays what it is. */
  predicate Floats(ref: string) {
    var tag := ParseRef(ref).tag;
    !Digested(ref) && (tag.None? || Lower(tag.value) == "latest" || IsBranchLike(tag.value))
  }

  datatype Finding =
    | Floating(ref: string)
    | NewUnpinned(repo: string)
    | Stale(repo: string)
    | WrongCeiling(entries: int, ceiling: int)
    | EntryAdded(repo: string)
    | CeilingGrew(base: int, current: int)

  /** The images of a render, the repositories listed in the baseline, the ceiling in the script and the
      images that are exempt by name. */
  datatype State = State(refs: set<string>, baseline: set<string>, ceiling: int, exempt: set<string>)

  /** The repositories of the images without a digest. */
  ghost function Undigested(refs: set<string>): set<string> {
    set ref | ref in refs && !Digested(ref) :: ParseRef(ref).repo
  }

  /** The loop over the images. */
  method ScanImages(refs: set<string>, exempt: set<string>) returns (errors: seq<Finding>, undigested: set<string>)
    ensures undigested == Undigested(refs)
    ensures forall e :: e in errors <==> e.Floating? && e.ref in refs && Floats(e.ref) && e.ref !in exempt
  {
    hide Floats, Digested, ParseRef;
    errors, undigested := [], {};
    var left, done := refs, {};
    while left != {}
      invariant left + done == refs && left !! done
      invariant undigested == Undigested(done)
      invariant forall e :: e in errors <==> e.Floating? && e.ref in done && Floats(e.ref) && e.ref !in exempt
      decreases left
    {
      var ref :| ref in left;
      left, done := left - {ref}, done + {ref};
      if Floats(ref) && ref !in exempt {
        errors := errors + [Floating(ref)];
      }
      if !Digested(ref) {
        undigested := undigested + {ParseRef(ref).repo};
      }
    }
    assert done == refs;
  }

  /** The findings about one state. */
  ghost predicate Reports(s: State, e: Finding) {
    match e
    case Floating(ref) => ref in s.refs && Floats(ref) && ref !in s.exempt
    case NewUnpinned(repo) => repo in Undigested(s.refs) && repo !in s.baseline
    case Stale(repo) => repo in s.baseline && repo !in Undigested(s.refs)
    case WrongCeiling(entries, ceiling) => entries == |s.baseline| && ceiling == s.ceiling && entries != ceiling
    case _ => false
  }

  method EvaluateImages(s: State) returns (errors: seq<Finding>)
    ensures forall e :: e in errors <==> Reports(s, e)
  {
    hide Floats, Undigested;
    var floating, undigested := ScanImages(s.refs, s.exempt);
    var added := Report(undigested - s.baseline, repo => NewUnpinned(repo));
    var stale := Report(s.baseline - undigested, repo => Stale(repo));
    errors := floating + added + stale;
    ghost var found := errors;
    if |s.baseline| != s.ceiling {
      errors := errors + [WrongCeiling(|s.baseline|, s.ceiling)];
    }
    forall e ensures e in errors <==> Reports(s, e) {
      assert e in found <==> e in floating || e in added || e in stale;
      if e.NewUnpinned? {
        assert e in added <==> e.repo in undigested - s.baseline;
      }
      if e.Stale? {
        assert e in stale <==> e.repo in s.baseline - undigested;
      }
    }
  }

  method Report(repos: set<string>, finding: string -> Finding) returns (errors: seq<Finding>)
    ensures forall e :: e in errors <==> exists r :: r in repos && e == finding(r)
  {
    errors := [];
    var left := repos;
    while left != {}
      invariant left <= repos
      invariant forall e :: e in errors <==> exists r :: r in repos - left && e == finding(r)
      decreases left
    {
      var repo :| repo in left;
      left := left - {repo};
      errors := errors + [finding(repo)];
    }
  }

  /** The findings about a state and its base. */
  ghost predicate GrowthReports(base: State, current: State, e: Finding) {
    match e
    case EntryAdded(repo) => repo in current.baseline && repo !in base.baseline
    case CeilingGrew(b, c) => b == base.ceiling && c == current.ceiling && c > b
    case _ => false
  }

  /** The comparison with the base; without a base it is skipped. */
  method CheckBaseGrowth(base: Option<State>, current: State) returns (errors: seq<Finding>)
    ensures forall e :: e in errors <==> base.Some? && GrowthReports(base.value, current, e)
  {
    if base.None? {
      return [];
    }
    var added := Report(current.baseline - base.value.baseline, repo => EntryAdded(repo));
    errors := added;
    if current.ceiling > base.value.ceiling {
      errors := errors + [CeilingGrew(base.value.ceiling, current.ceiling)];
    }
    forall e: Finding | e.EntryAdded? ensures e in errors <==> GrowthReports(base.value, current, e) {
      assert e in added <==> e.repo in current.baseline - base.value.baseline;
    }
  }

  // ----- Histories

  /** What `EvaluateImages` accepts. */
  ghost predicate Consistent(s: State) { forall e :: !Reports(s, e) }

  /** Nothing is found about a state exactly when no image floats, the repositories without a digest are
      the baseline, and the ceiling is its size. */
  lemma {:induction false} ConsistentIff(s: State)
    ensures Consistent(s) <==>
            && (forall ref | ref in s.refs :: Floats(ref) ==> ref in s.exempt)
            && Undigested(s.refs) == s.baseline && |s.baseline| == s.ceiling
  {
    hide Floats, Undigested;
    if Consistent(s) {
      forall ref | ref in s.refs ensures Floats(ref) ==> ref in s.exempt {
        assert !Reports(s, Floating(ref));
      }
      forall repo ensures repo in Undigested(s.refs) <==> repo in s.baseline {
        assert !Reports(s, NewUnpinned(repo)) && !Reports(s, Stale(repo));
      }
      assert !Reports(s, WrongCeiling(|s.baseline|, s.ceiling));
    }
  }

  /** A change that both checks accept against its predecessor. */
  ghost predicate Accepted(base: State, current: State) {
    Consistent(current) && forall e :: !GrowthReports(base, current, e)
  }

  lemma {:induction false} AcceptedShrinks(base: State, current: State)
    requires Accepted(base, current)
    ensures current.baseline <= base.baseline && current.ceiling <= base.ceiling
  {
    hide Consistent;
    forall repo | repo in current.baseline ensures repo in base.baseline {
      assert !GrowthReports(base, current, EntryAdded(repo));
    }
    assert !GrowthReports(base, current, CeilingGrew(base.ceiling, current.ceiling));
  }

  ghost predicate History(h: seq<State>) {
    |h| > 0 && Consistent(h[0]) && forall i | 0 <= i < |h| - 1 :: Accepted(h[i], h[i + 1])
  }

  /** How often the baseline got smaller up to `h[n]`. */
  ghost function Shrinks(h: seq<State>, n: nat): nat
    requires n < |h|
  {
    if n == 0 then 0 else Shrinks(h, n - 1) + if h[n].baseline != h[n - 1].baseline then 1 else 0
  }

  lemma {:induction false} StaysConsistent(h: seq<State>, i: nat)
    requires History(h) && i < |h|
    ensures Consistent(h[i])
  {
    if i > 0 {
      assert Accepted(h[i - 1], h[i - 1 + 1]);
    }
  }

  /** Over any history of accepted changes the repositories without a digest are always exactly the
      baseline, no image floats, the ceiling is the size of the baseline, and the baseline only shrinks. */
  lemma {:induction false} OnlyShrinks(h: seq<State>, i: nat, j: nat)
    requires History(h) && i <= j < |h|
    ensures Undigested(h[j].refs) == h[j].baseline && h[j].ceiling == |h[j].baseline|
    ensures h[j].baseline <= h[i].baseline && h[j].ceiling <= h[i].ceiling
    decreases j - i
  {
    hide Undigested, Accepted, Consistent, Floats;
    StaysConsistent(h, j);
    ConsistentIff(h[j]);
    if i < j {
      OnlyShrinks(h, i, j - 1);
      assert Accepted(h[j - 1], h[j - 1 + 1]);
      AcceptedShrinks(h[j - 1], h[j]);
    }
  }

  /** A repository that has once been pinned everywhere never turns up without a digest again. */
  lemma {:induction false} NeverReturns(h: seq<State>, i: nat, j: nat, repo: string)
    requires History(h) && i <= j < |h| && repo !in h[i].baseline
    ensures forall ref | ref in h[j].refs && !Digested(ref) :: ParseRef(ref).repo != repo
  {
    hide Digested, ParseRef;
    OnlyShrinks(h, i, j);
    forall ref | ref in h[j].refs && !Digested(ref) ensures ParseRef(ref).repo != repo {
      assert ParseRef(ref).repo in Undigested(h[j].refs);
    }
  }

  /** The baseline can get smaller at most as often as it has entries at the start. */
  lemma {:induction false} ShrinksBounded(h: seq<State>, n: nat)
    requires History(h) && n < |h|
    ensures Shrinks(h, n) + |h[n].baseline| <= |h[0].baseline|
  {
    if n > 0 {
      ShrinksBounded(h, n - 1);
      assert Accepted(h[n - 1], h[n - 1 + 1]);
      AcceptedShrinks(h[n - 1], h[n]);
      SubsetSize(h[n].baseline, h[n - 1].baseline);
    }
  }

  lemma {:induction false} SubsetSize(a: set<string>, b: set<string>)
    requires a <= b
    ensures |a| <= |b| && (a != b ==> |a| < |b|)
  {
    assert |b| == |a| + |b - a| by { assert b == a + (b - a); }
    if a != b {
      var x :| x in b && x !in a;
      assert x in b - a;
    }
  }

  // ----- Which images float

  /** A branch or channel name, by itself or before a hyphen, or a snapshot. */
  predicate NamesBranch(t: string) {
    || t == "main" || t == "master" || t == "dev" || t == "edge" || t == "nightly" || t == "stable"
    || At(t, 0, "main-") || At(t, 0, "master-") || At(t, 0, "dev-") || At(t, 0, "edge-") || At(t, 0, "nightly-")
    || At(t, 0, "stable-") || EndsWith(t, "-snapshot")
  }

  lemma {:induction false} BranchIff(tag: string)
    ensures IsBranchLike(tag) <==> NamesBranch(Lower(tag))
  {
    var t := Lower(tag);
    hide Lower, At, EndsWith;
    assert BRANCH_WORDS == ["main", "master", "dev", "edge", "nightly", "stable"];
    assert BRANCH_WORDS[0] + "-" == "main-" && BRANCH_WORDS[1] + "-" == "master-" && BRANCH_WORDS[2] + "-" == "dev-";
    assert BRANCH_WORDS[3] + "-" == "edge-" && BRANCH_WORDS[4] + "-" == "nightly-" && BRANCH_WORDS[5] + "-" == "stable-";
  }

  /** An image written as repository, tag and digest floats exactly when it has no digest, and no tag or
      one that reads, in small letters, `latest` or a branch. */
  lemma {:induction false} FloatsIff(r: Ref)
    requires WellFormed(r)
    ensures Floats(Print(r)) <==>
            && (r.digest == None || r.digest == Some(""))
            && (r.tag == None || Lower(r.tag.value) == "latest" || NamesBranch(Lower(r.tag.value)))
    ensures Undigested({Print(r)}) == if r.digest == None || r.digest == Some("") then {r.repo} else {}
  {
    hide ParseRef, Print, WellFormed, IsBranchLike, NamesBranch, Lower;
    ParsesPrinted(r);
    if r.tag.Some? {
      BranchIff(r.tag.value);
    }
  }
}
