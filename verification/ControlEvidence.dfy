/** The recipe part of `scripts/ci/check-control-evidence-map.py`: a depth-first walk over the targets
    of a Makefile, which may be cyclic, with one `seen` set shared by all the calls. */
module ControlEvidence {
  import opened Text
  import opened Wrappers

  function Elements(xs: seq<string>): (r: set<string>)
    ensures forall x :: x in r <==> x in xs
  {
    set x | x in xs
  }

  // ----- The Makefile

  /** A logical line. `Recipe` starts with a tab and holds what is left after echo text and comments
      are removed; `Skip` is blank or a comment; `Other` is anything that is no rule. */
  datatype Line =
    | Recipe(text: string)
    | Rule(name: string, prerequisites: seq<string>)
    | Skip
    | Other

  /** The lines, the targets that a recipe calls through `$(MAKE)`, and the text that a recipe takes
      over from `tests/run-all.sh` when it runs that. */
  datatype Make = Make(lines: seq<Line>, calls: string -> seq<string>, runAll: string -> Option<string>)
  {
    /** The rule that the line at `k` belongs to. */
    function Owner(k: nat): Option<string>
      requires k <= |lines|
    {
      if k == 0 then None
      else match lines[k - 1]
        case Rule(name, _) => Some(name)
        case Other => None
        case _ => Owner(k - 1)
    }

    /** The recipe lines of `target` among the first `n` lines. */
    function RecipeLines(target: string, n: nat): seq<string>
      requires n <= |lines|
    {
      if n == 0 then []
      else RecipeLines(target, n - 1) +
           if lines[n - 1].Recipe? && Owner(n - 1) == Some(target) then [lines[n - 1].text] else []
    }

    function Prerequisites(target: string, n: nat): seq<string>
      requires n <= |lines|
    {
      if n == 0 then []
      else Prerequisites(target, n - 1) +
           if lines[n - 1].Rule? && lines[n - 1].name == target then lines[n - 1].prerequisites else []
    }

    function Commands(target: string): string { Join(RecipeLines(target, |lines|), '\n') }

    /** The text of the target's own recipe. */
    function Own(target: string): string {
      var text := Commands(target);
      match runAll(text)
      case None => text
      case Some(more) => text + ['\n'] + more
    }

    /** The targets that `target` brings in, in the order in which they are followed. */
    function Deps(target: string): seq<string> {
      Prerequisites(target, |lines|) + calls(Commands(target))
    }

    // ----- Reachability

    /** `path` leads from `a` to `b` along dependencies and stays out of `avoid`. */
    ghost predicate IsPath(path: seq<string>, a: string, b: string, avoid: set<string>) {
      && |path| > 0 && path[0] == a && path[|path| - 1] == b
      && (forall i | 0 <= i < |path| :: path[i] !in avoid)
      && forall i | 0 <= i < |path| - 1 :: path[i + 1] in Deps(path[i])
    }

    ghost predicate Reaches(a: string, b: string, avoid: set<string>) {
      exists path :: IsPath(path, a, b, avoid)
    }

    lemma {:induction false} ReachesItself(a: string, avoid: set<string>)
      requires a !in avoid
      ensures Reaches(a, a, avoid)
    {
      assert IsPath([a], a, a, avoid);
    }

    lemma {:induction false} ReachesStep(a: string, b: string, c: string, avoid: set<string>, avoid': set<string>)
      requires a !in avoid && b in Deps(a) && Reaches(b, c, avoid') && avoid <= avoid'
      ensures Reaches(a, c, avoid)
    {
      var path :| IsPath(path, b, c, avoid');
      var longer := [a] + path;
      forall i | 0 <= i < |longer| - 1 ensures longer[i + 1] in Deps(longer[i]) {
        if i > 0 {
          assert path[i - 1 + 1] in Deps(path[i - 1]);
        }
      }
      assert IsPath(longer, a, c, avoid);
    }

    /** Everything in `inside` but not in `avoid` has its dependencies in `inside`. */
    ghost predicate ClosedUpTo(inside: set<string>, avoid: set<string>) {
      forall u | u in inside && u !in avoid :: forall d | d in Deps(u) :: d in inside
    }

    /** A path that starts in a closed set stays in it. */
    lemma {:induction false} PathStays(path: seq<string>, a: string, b: string, inside: set<string>, avoid: set<string>)
      requires IsPath(path, a, b, avoid) && a in inside && ClosedUpTo(inside, avoid)
      ensures b in inside
      decreases |path|
    {
      if |path| > 1 {
        assert path[0 + 1] in Deps(path[0]);
        forall i | 0 <= i < |path[1..]| - 1 ensures path[1..][i + 1] in Deps(path[1..][i]) {
          assert path[(i + 1) + 1] in Deps(path[i + 1]);
        }
        PathStays(path[1..], path[1], b, inside, avoid);
      }
    }

    lemma {:induction false} ReachesInside(a: string, b: string, inside: set<string>, avoid: set<string>)
      requires Reaches(a, b, avoid) && a in inside && ClosedUpTo(inside, avoid)
      ensures b in inside && b !in avoid
    {
      var path :| IsPath(path, a, b, avoid);
      PathStays(path, a, b, inside, avoid);
    }

    // ----- Finiteness

    /** The dependencies of all rules among the first `n` lines. */
    function Named(n: nat): (r: set<string>)
      requires n <= |lines|
      ensures forall k | 0 <= k < n && lines[k].Rule? :: forall d | d in Deps(lines[k].name) :: d in r
    {
      if n == 0 then Elements(calls(""))
      else Named(n - 1) + if lines[n - 1].Rule? then Elements(Deps(lines[n - 1].name)) else {}
    }

    lemma {:induction false} NoRule(target: string, n: nat)
      requires n <= |lines| && forall k | 0 <= k < n && lines[k].Rule? :: lines[k].name != target
      ensures Owner(n) != Some(target) && RecipeLines(target, n) == [] && Prerequisites(target, n) == []
      ensures forall d | d in calls("") :: d in Named(n)
    {
      if n > 0 {
        NoRule(target, n - 1);
      }
    }

    /** Every dependency is one of finitely many names. */
    lemma {:induction false} DepsNamed(target: string)
      ensures forall d | d in Deps(target) :: d in Named(|lines|)
    {
      if forall k | 0 <= k < |lines| && lines[k].Rule? :: lines[k].name != target {
        NoRule(target, |lines|);
      }
    }
  }

  // ----- Recipes line by line

  /** The nearest line before `k` that is a rule or no rule at all is a rule of `target`. */
  ghost predicate Under(lines: seq<Line>, k: nat, target: string) {
    exists r: nat :: r < k <= |lines| && IsRuleOf(lines[r], target) &&
                     forall m | r < m < k :: lines[m].Recipe? || lines[m].Skip?
  }

  predicate IsRuleOf(line: Line, target: string) { line.Rule? && line.name == target }

  lemma {:induction false} OwnerIff(make: Make, k: nat, target: string)
    requires k <= |make.lines|
    ensures make.Owner(k) == Some(target) <==> Under(make.lines, k, target)
  {
    if k > 0 {
      OwnerIff(make, k - 1, target);
      var line := make.lines[k - 1];
      if IsRuleOf(line, target) {
        assert Under(make.lines, k, target);
      } else if line.Recipe? || line.Skip? {
        if Under(make.lines, k - 1, target) {
          var r: nat :| r < k - 1 && IsRuleOf(make.lines[r], target) &&
            forall m | r < m < k - 1 :: make.lines[m].Recipe? || make.lines[m].Skip?;
          assert Under(make.lines, k, target);
        }
      }
    }
  }

  /** `ks` are the recipe lines of `target` among the first `n` lines, in order, each once. */
  ghost predicate AreRecipeLines(lines: seq<Line>, target: string, n: nat, ks: seq<nat>) {
    && n <= |lines| && (forall i, j | 0 <= i < j < |ks| :: ks[i] < ks[j])
    && (forall k: nat :: k in ks <==> k < n && lines[k].Recipe? && Under(lines, k, target))
  }

  ghost predicate AreTexts(lines: seq<Line>, ks: seq<nat>, texts: seq<string>) {
    |texts| == |ks| && forall i | 0 <= i < |ks| :: ks[i] < |lines| && lines[ks[i]] == Line.Recipe(texts[i])
  }

  lemma {:induction false} RecipeLinesAre(make: Make, target: string, n: nat) returns (ks: seq<nat>)
    requires n <= |make.lines|
    ensures AreRecipeLines(make.lines, target, n, ks) && AreTexts(make.lines, ks, make.RecipeLines(target, n))
  {
    if n == 0 {
      ks := [];
    } else {
      var front := RecipeLinesAre(make, target, n - 1);
      OwnerIff(make, n - 1, target);
      hide Under;
      if make.lines[n - 1].Recipe? && make.Owner(n - 1) == Some(target) {
        ks := front + [n - 1];
        NextRecipeLine(make.lines, target, n - 1, front, ks);
      } else {
        ks := front;
      }
    }
  }

  lemma {:induction false} NextRecipeLine(lines: seq<Line>, target: string, n: nat, front: seq<nat>, ks: seq<nat>)
    requires AreRecipeLines(lines, target, n, front) && ks == front + [n]
    requires n < |lines| && lines[n].Recipe? && Under(lines, n, target)
    ensures AreRecipeLines(lines, target, n + 1, ks)
  {
    hide Under;
    forall i | 0 <= i < |front| ensures front[i] < n {
      assert front[i] in front;
    }
    forall k: nat ensures k in ks <==> k in front || k == n {
    }
  }

  /** `commands` are the recipe lines of `target`, joined. */
  ghost predicate AreCommands(make: Make, target: string, commands: string) {
    exists ks, texts :: AreRecipeLines(make.lines, target, |make.lines|, ks) && AreTexts(make.lines, ks, texts) &&
                        commands == Join(texts, '\n')
  }

  /** A rule of the target names `d`, or its commands call it. */
  ghost predicate Brings(make: Make, target: string, commands: string, d: string) {
    || (exists k | 0 <= k < |make.lines| :: IsRuleOf(make.lines[k], target) && d in make.lines[k].prerequisites)
    || d in make.calls(commands)
  }

  lemma {:induction false} PrerequisitesAre(make: Make, target: string, n: nat, d: string)
    requires n <= |make.lines|
    ensures d in make.Prerequisites(target, n) <==>
            exists k | 0 <= k < n :: IsRuleOf(make.lines[k], target) && d in make.lines[k].prerequisites
  {
    if n > 0 {
      PrerequisitesAre(make, target, n - 1, d);
    }
  }

  /** What a target runs and what it brings in, line by line: its recipe lines are those below its rules,
      in order, each once, followed by the text of `tests/run-all.sh` if they run that; it brings in the
      prerequisites of all its rules and what those lines call. */
  ghost predicate IsOwn(make: Make, target: string, text: string, deps: seq<string>) {
    exists commands ::
      && AreCommands(make, target, commands)
      && text == (match make.runAll(commands) case None => commands case Some(more) => commands + ['\n'] + more)
      && forall d :: d in deps <==> Brings(make, target, commands, d)
  }

  lemma {:induction false} OwnIs(make: Make, target: string)
    ensures IsOwn(make, target, make.Own(target), make.Deps(target))
  {
    var commands := make.Commands(target);
    var ks := RecipeLinesAre(make, target, |make.lines|);
    assert AreCommands(make, target, commands);
    hide AreCommands;
    forall d ensures d in make.Prerequisites(target, |make.lines|) <==>
      exists k | 0 <= k < |make.lines| :: IsRuleOf(make.lines[k], target) && d in make.lines[k].prerequisites
    {
      PrerequisitesAre(make, target, |make.lines|, d);
    }
    assert forall d :: d in make.Deps(target) <==> Brings(make, target, commands, d);
  }

  // ----- Lines of a text

  /** The non-empty lines of a text, and the line it ends in the middle of. */
  function LineScan(s: string): Pieces {
    if s == "" then Pieces([], "")
    else
      var n := |s| - 1;
      var r := LineScan(s[..n]);
      if s[n] == '\n' then Pieces(NonEmpty(r), "") else Pieces(r.done, r.last + [s[n]])
  }

  function NonEmpty(r: Pieces): seq<string> { if r.last == "" then r.done else r.done + [r.last] }

  function LinesOf(s: string): seq<string> { NonEmpty(LineScan(s)) }

  lemma {:induction false} LineScanConcat(a: string, b: string)
    ensures var r := LineScan(b);
            LineScan(a + ['\n'] + b) == Pieces(LinesOf(a) + r.done, r.last)
  {
    if b == "" {
      assert (a + ['\n'] + b)[..|a|] == a;
    } else {
      var n := |b| - 1;
      LineScanConcat(a, b[..n]);
      assert (a + ['\n'] + b)[..|a| + 1 + n] == a + ['\n'] + b[..n];
    }
  }

  /** A line feed between two texts keeps their lines apart. */
  lemma {:induction false} LinesConcat(a: string, b: string)
    ensures LinesOf(a + ['\n'] + b) == LinesOf(a) + LinesOf(b)
  {
    LineScanConcat(a, b);
  }

  // ----- Looking for a path in a text

  /** The characters that may stand neither before nor after the path: `(?<![\w/.-])path(?![\w.-])`. */
  predicate Joins(c: char) { IsWord(c) || c == '.' || c == '-' }

  predicate OccursAt(path: string, text: string, k: nat) {
    && At(text, k, path)
    && (k > 0 ==> !Joins(text[k - 1]) && text[k - 1] != '/')
    && (k + |path| < |text| ==> !Joins(text[k + |path|]))
  }

  ghost predicate Occurs(path: string, text: string) { exists k: nat :: OccursAt(path, text, k) }

  lemma {:induction false} OccursLeft(path: string, a: string, b: string, k: nat)
    requires OccursAt(path, a, k)
    ensures OccursAt(path, a + ['\n'] + b, k)
  {
  }

  lemma {:induction false} OccursRight(path: string, a: string, b: string, k: nat)
    requires OccursAt(path, b, k)
    ensures OccursAt(path, a + ['\n'] + b, |a| + 1 + k)
  {
    var s := a + ['\n'] + b;
    assert forall i | 0 <= i < |b| :: s[|a| + 1 + i] == b[i];
    assert k > 0 ==> s[|a| + 1 + k - 1] == b[k - 1];
  }

  lemma {:induction false} OccursEither(path: string, a: string, b: string, k: nat)
    requires '\n' !in path && path != "" && OccursAt(path, a + ['\n'] + b, k)
    ensures Occurs(path, a) || Occurs(path, b)
  {
    var s := a + ['\n'] + b;
    forall j | k <= j < k + |path| ensures s[j] != '\n' {
      assert path[j - k] == s[k + (j - k)];
    }
    assert s[|a|] == '\n';
    if k + |path| <= |a| {
      assert OccursAt(path, a, k);
    } else {
      assert forall i | 0 <= i < |b| :: s[|a| + 1 + i] == b[i];
      assert OccursAt(path, b, k - |a| - 1);
    }
  }

  lemma {:induction false} OccursConcat(path: string, a: string, b: string)
    requires '\n' !in path && path != ""
    ensures Occurs(path, a + ['\n'] + b) <==> Occurs(path, a) || Occurs(path, b)
  {
    if k: nat :| OccursAt(path, a + ['\n'] + b, k) {
      OccursEither(path, a, b, k);
    }
    if k: nat :| OccursAt(path, a, k) {
      OccursLeft(path, a, b, k);
    }
    if k: nat :| OccursAt(path, b, k) {
      OccursRight(path, a, b, k);
    }
  }

  /** Before the path stands no letter, digit, underscore, dot, hyphen or slash, and behind it none of
      these but a slash. */
  lemma {:induction false} OccursIff(path: string, text: string, k: nat)
    requires k + |path| <= |text|
    ensures OccursAt(path, text, k) <==>
            && text[k..k + |path|] == path
            && (k > 0 ==> !IsPathPart(text[k - 1]) && text[k - 1] != '/')
            && (k + |path| < |text| ==> !IsPathPart(text[k + |path|]))
  {
    AtSlice(text, k, path);
  }

  predicate IsPathPart(c: char) {
    'a' <= c <= 'z' || 'A' <= c <= 'Z' || '0' <= c <= '9' || c == '_' || c == '.' || c == '-'
  }

  ghost predicate OccursInSome(path: string, lines: seq<string>) {
    exists i :: 0 <= i < |lines| && Occurs(path, lines[i])
  }

  lemma {:induction false} OccursInEither(path: string, x: seq<string>, y: seq<string>)
    ensures OccursInSome(path, x + y) <==> OccursInSome(path, x) || OccursInSome(path, y)
  {
    if OccursInSome(path, x) {
      var i :| 0 <= i < |x| && Occurs(path, x[i]);
      assert Occurs(path, (x + y)[i]);
    }
    if OccursInSome(path, y) {
      var i :| 0 <= i < |y| && Occurs(path, y[i]);
      assert Occurs(path, (x + y)[|x| + i]);
    }
  }

  /** A path without a line feed is found in a text exactly when it is found in one of its lines. */
  lemma {:induction false} OccursInLine(path: string, s: string)
    requires '\n' !in path && path != ""
    ensures Occurs(path, s) <==> OccursInSome(path, LinesOf(s))
    decreases |s|
  {
    if n :| 0 <= n < |s| && s[n] == '\n' {
      var a, b := s[..n], s[n + 1..];
      assert s == a + ['\n'] + b;
      LinesConcat(a, b);
      OccursInLine(path, a);
      OccursInLine(path, b);
      OccursConcat(path, a, b);
      OccursInEither(path, LinesOf(a), LinesOf(b));
    } else {
      Unbroken(s);
      if s != "" {
        assert LinesOf(s) == [s] && (Occurs(path, s) ==> Occurs(path, LinesOf(s)[0]));
      }
    }
  }

  lemma {:induction false} Unbroken(s: string)
    requires '\n' !in s
    ensures LineScan(s) == Pieces([], s)
  {
    if s != "" {
      Unbroken(s[..|s| - 1]);
    }
  }

  // ----- The walk

  ghost predicate NoDuplicates(xs: seq<string>) { forall i, j | 0 <= i < j < |xs| :: xs[i] != xs[j] }

  /** `xs` lists the elements of `s`, each of them once. */
  ghost predicate Lists(xs: seq<string>, s: set<string>) {
    NoDuplicates(xs) && forall x :: x in xs <==> x in s
  }

  lemma {:induction false} ListsBoth(xs: seq<string>, s: set<string>, ys: seq<string>, t: set<string>)
    requires Lists(xs, s) && Lists(ys, t) && s !! t
    ensures Lists(xs + ys, s + t)
  {
    var zs := xs + ys;
    forall i, j | 0 <= i < j < |zs| ensures zs[i] != zs[j] {
      if i < |xs| <= j {
        assert zs[i] == xs[i] && zs[j] == ys[j - |xs|] && xs[i] in s && ys[j - |xs|] in t;
      }
    }
  }

  /** The lines of the targets' own recipes, one target after the other. */
  ghost function AllLines(make: Make, order: seq<string>): seq<string> {
    if order == [] then [] else AllLines(make, order[..|order| - 1]) + LinesOf(make.Own(order[|order| - 1]))
  }

  lemma {:induction false} AllLinesSnoc(make: Make, x: seq<string>, t: string)
    ensures AllLines(make, x + [t]) == AllLines(make, x) + LinesOf(make.Own(t))
  {
    hide LinesOf, Make.Own;
    assert (x + [t])[..|x|] == x;
  }

  lemma {:induction false} AllLinesConcat(make: Make, x: seq<string>, y: seq<string>)
    ensures AllLines(make, x + y) == AllLines(make, x) + AllLines(make, y)
  {
    hide LinesOf, Make.Own;
    if y == [] {
      assert x + y == x && AllLines(make, x) + [] == AllLines(make, x);
    } else {
      var z, t := y[..|y| - 1], y[|y| - 1];
      assert y == z + [t];
      hide AllLines;
      AllLinesConcat(make, x, z);
      Assoc(x, z, [t]);
      AllLinesSnoc(make, x + z, t);
      AllLinesSnoc(make, z, t);
      Assoc(AllLines(make, x), AllLines(make, z), LinesOf(make.Own(t)));
    }
  }

  /** The walk below `target`, which started with `before`: the dependencies followed so far are done. */
  ghost predicate Progress(make: Make, target: string, before: set<string>, seen: set<string>,
                           text: string, order: seq<string>) {
    && before + {target} <= seen && make.ClosedUpTo(seen, before + {target})
    && (forall u | u in seen && u !in before :: make.Reaches(target, u, before))
    && Lists(order, seen - before) && LinesOf(text) == AllLines(make, order)
  }

  lemma {:induction false} NothingLeft(make: Make, target: string, seen: set<string>)
    requires target in seen
    ensures forall u :: !make.Reaches(target, u, seen)
    ensures Lists([], seen - seen) && LinesOf("") == AllLines(make, [])
  {
  }

  lemma {:induction false} ProgressStart(make: Make, target: string, before: set<string>)
    requires target !in before
    ensures Progress(make, target, before, before + {target}, make.Own(target), [target])
  {
    hide LinesOf, Make.Own, Make.Deps, Make.IsPath;
    make.ReachesItself(target, before);
    AllLinesSnoc(make, [], target);
    assert [] + [target] == [target] && [] + LinesOf(make.Own(target)) == LinesOf(make.Own(target));
  }

  /** What the walk below `dep`, started with `mid`, has done. */
  ghost predicate Explored(make: Make, dep: string, mid: set<string>, seen: set<string>, text: string, order: seq<string>) {
    && mid <= seen && make.ClosedUpTo(seen, mid) && Lists(order, seen - mid) && LinesOf(text) == AllLines(make, order)
    && forall u :: u in seen && u !in mid <==> make.Reaches(dep, u, mid)
  }

  lemma {:induction false} ProgressStep(make: Make, target: string, before: set<string>, mid: set<string>, seen: set<string>,
                     text: string, order: seq<string>, dep: string, more: string, found: seq<string>)
    requires target !in before && dep in make.Deps(target)
    ensures Progress(make, target, before, mid, text, order) && Explored(make, dep, mid, seen, more, found) ==>
            dep in seen && Progress(make, target, before, seen, text + ['\n'] + more, order + found)
  {
    hide LinesOf, AllLines, Make.Deps, Make.Own, NoDuplicates;
    if Progress(make, target, before, mid, text, order) && Explored(make, dep, mid, seen, more, found) {
      forall u | u in seen && u !in mid ensures make.Reaches(target, u, before) {
        make.ReachesStep(target, dep, u, before, mid);
      }
      if dep !in mid {
        make.ReachesItself(dep, mid);
        assert dep in seen;
      }
      LinesConcat(text, more);
      AllLinesConcat(make, order, found);
      ListsBoth(order, mid - before, found, seen - mid);
      assert (mid - before) + (seen - mid) == seen - before;
    }
  }

  class Walk {
    const make: Make
    var seen: set<string>

    constructor (make: Make)
      ensures this.make == make && seen == {}
    {
      this.make := make;
      seen := {};
    }

    /** One pass over the lines: the recipe of `target` and the targets that it brings in. */
    method OwnRecipe(target: string) returns (text: string, deps: seq<string>)
      ensures text == make.Own(target) && deps == make.Deps(target)
      ensures IsOwn(make, target, text, deps)
    {
      hide IsOwn;
      OwnIs(make, target);
      var out, inRecipe := [], false;
      deps := [];
      for n := 0 to |make.lines|
        invariant inRecipe <==> make.Owner(n) == Some(target)
        invariant out == make.RecipeLines(target, n) && deps == make.Prerequisites(target, n)
      {
        match make.lines[n]
        case Recipe(text) =>
          if inRecipe {
            out := out + [text];
          }
        case Rule(name, prerequisites) =>
          inRecipe := name == target;
          if inRecipe {
            deps := deps + prerequisites;
          }
        case Skip =>
        case Other =>
          inRecipe := false;
      }
      text := Join(out, '\n');
      deps := deps + make.calls(text);
      var more := make.runAll(text);
      if more.Some? {
        text := text + ['\n'] + more.value;
      }
    }

    /** Adds to `seen` exactly the targets that `target` reaches outside of it, and returns the lines
        of each of their recipes exactly once; `order` says in which order. */
    method RecipeText(target: string, ghost universe: set<string>) returns (text: string, ghost order: seq<string>)
      requires target in universe && make.ClosedUpTo(universe, {})
      modifies this`seen
      ensures old(seen) <= seen && make.ClosedUpTo(seen, old(seen))
      ensures forall u :: u in seen && u !in old(seen) <==> make.Reaches(target, u, old(seen))
      ensures Lists(order, seen - old(seen))
      ensures LinesOf(text) == AllLines(make, order)
      decreases universe - seen
    {
      hide LinesOf, AllLines, Make.Own, Make.Deps, Make.Reaches, Lists;
      if target in seen {
        NothingLeft(make, target, seen);
        return "", [];
      }
      ghost var before := seen;
      seen := seen + {target};
      var deps;
      text, deps := OwnRecipe(target);
      order := [target];
      ProgressStart(make, target, before);
      for n := 0 to |deps|
        invariant Progress(make, target, before, seen, text, order)
        invariant forall i | 0 <= i < n :: deps[i] in seen
      {
        ghost var mid := seen;
        var more, found := RecipeText(deps[n], universe);
        ProgressStep(make, target, before, mid, seen, text, order, deps[n], more, found);
        text := text + ['\n'] + more;
        order := order + found;
      }
      forall u | make.Reaches(target, u, before) ensures u in seen && u !in before {
        make.ReachesInside(target, u, seen, before);
      }
    }
  }

  lemma {:induction false} OccursInAll(make: Make, path: string, order: seq<string>)
    requires '\n' !in path && path != ""
    ensures OccursInSome(path, AllLines(make, order)) <==>
            exists i | 0 <= i < |order| :: Occurs(path, make.Own(order[i]))
  {
    hide LinesOf, Make.Own, Occurs;
    if order != [] {
      var n := |order| - 1;
      var front := order[..n];
      OccursInAll(make, path, front);
      OccursInEither(path, AllLines(make, front), LinesOf(make.Own(order[n])));
      OccursInLine(path, make.Own(order[n]));
      if i :| 0 <= i < n && Occurs(path, make.Own(order[i])) {
        assert Occurs(path, make.Own(front[i]));
      }
      if i :| 0 <= i < n && Occurs(path, make.Own(front[i])) {
        assert Occurs(path, make.Own(order[i]));
      }
    }
  }

  /** A path is found in a recipe text exactly when the own recipe of a reachable target holds it. */
  lemma {:induction false} FoundIffReachable(make: Make, target: string, text: string, order: seq<string>, path: string)
    requires forall u :: u in order <==> make.Reaches(target, u, {})
    requires LinesOf(text) == AllLines(make, order) && '\n' !in path && path != ""
    ensures Occurs(path, text) <==> exists u :: make.Reaches(target, u, {}) && Occurs(path, make.Own(u))
  {
    OccursInLine(path, text);
    OccursInAll(make, path, order);
  }

  /** The own recipe of a target that `target` reaches runs `path`. */
  ghost predicate Runs(make: Make, target: string, path: string) {
    exists u :: make.Reaches(target, u, {}) && Occurs(path, make.Own(u))
  }

  /** What the cells of the map hold: no empty path and none with a line feed. */
  ghost predicate IsCell(path: string) { path != "" && '\n' !in path }

  /** The recipe text of a target, from an empty `seen`. */
  method Recipe(make: Make, target: string) returns (text: string, ghost order: seq<string>)
    ensures NoDuplicates(order) && forall u :: u in order <==> make.Reaches(target, u, {})
    ensures LinesOf(text) == AllLines(make, order)
    ensures forall path | IsCell(path) :: Occurs(path, text) <==> Runs(make, target, path)
  {
    var walk := new Walk(make);
    ghost var universe := make.Named(|make.lines|) + {target};
    forall u | u in universe ensures forall d | d in make.Deps(u) :: d in universe {
      make.DepsNamed(u);
    }
    text, order := walk.RecipeText(target, universe);
    forall path | IsCell(path) ensures Occurs(path, text) <==> Runs(make, target, path) {
      FoundIffReachable(make, target, text, order, path);
    }
  }

  // ----- A row of the map

  /** A control that cites verifiers and Make targets. */
  datatype Row = Row(verifiers: seq<string>, targets: seq<string>)

  /** `NotRun` names a verifier and the cited targets whose recipes do not run it. */
  datatype Verdict = Accepted | NotRun(path: string, missing: seq<string>)

  predicate IsWorkflow(path: string) { At(path, 0, ".github/") }

  lemma {:induction false} WorkflowIff(path: string)
    ensures IsWorkflow(path) <==> |path| >= 8 && path[..8] == ".github/"
  {
    if |path| >= 8 {
      AtSlice(path, 0, ".github/");
    }
  }

  method Search(path: string, text: string) returns (found: bool)
    ensures found <==> Occurs(path, text)
  {
    for k := 0 to |text| + 1
      invariant forall j | 0 <= j < k :: !OccursAt(path, text, j)
    {
      if OccursAt(path, text, k) {
        return true;
      }
    }
    found := false;
  }

  /** The recipe check of a row. It accepts exactly when every cited target runs every cited verifier
      that is no workflow, and otherwise names a verifier with all the cited targets that miss it. */
  method CheckRow(make: Make, row: Row) returns (verdict: Verdict)
    requires forall i | 0 <= i < |row.verifiers| :: IsCell(row.verifiers[i])
    ensures verdict.Accepted? <==>
            forall v, t | v in row.verifiers && !IsWorkflow(v) && t in row.targets :: Runs(make, t, v)
    ensures verdict.NotRun? ==>
            && verdict.path in row.verifiers && !IsWorkflow(verdict.path) && verdict.missing != []
            && forall t :: t in verdict.missing <==> t in row.targets && !Runs(make, t, verdict.path)
  {
    hide LinesOf, AllLines, Runs, Occurs, NoDuplicates, IsCell, IsWorkflow;
    var recipes: seq<string> := [];
    for n := 0 to |row.targets|
      invariant |recipes| == n
      invariant forall i, v | 0 <= i < n && IsCell(v) :: Occurs(v, recipes[i]) <==> Runs(make, row.targets[i], v)
    {
      var text, order := Recipe(make, row.targets[n]);
      recipes := recipes + [text];
    }
    for n := 0 to |row.verifiers|
      invariant forall i, t | 0 <= i < n && !IsWorkflow(row.verifiers[i]) && t in row.targets ::
                  Runs(make, t, row.verifiers[i])
    {
      var path := row.verifiers[n];
      if row.targets != [] && !IsWorkflow(path) {
        var missing := Missing(make, row.targets, recipes, path);
        if missing != [] {
          assert missing[0] in missing;
          return NotRun(path, missing);
        }
      }
    }
    verdict := Accepted;
  }

  method Missing(make: Make, targets: seq<string>, recipes: seq<string>, path: string) returns (missing: seq<string>)
    requires |recipes| == |targets|
    requires forall i | 0 <= i < |targets| :: Occurs(path, recipes[i]) <==> Runs(make, targets[i], path)
    ensures forall t :: t in missing <==> t in targets && !Runs(make, t, path)
  {
    missing := [];
    for n := 0 to |targets|
      invariant forall t :: t in missing <==> t in targets[..n] && !Runs(make, t, path)
    {
      var found := Search(path, recipes[n]);
      assert targets[..n + 1] == targets[..n] + [targets[n]];
      if !found {
        missing := missing + [targets[n]];
      }
    }
    assert targets[..|targets|] == targets;
  }
}
