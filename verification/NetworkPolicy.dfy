/** `scripts/ci/check-networkpolicy-coverage.py`, the coverage report of
    `scripts/ci/check-k8s-security-baseline.py`, and what Kubernetes does with the policies. */
module NetworkPolicy {

  // ----- Resources

  datatype Requirement =
    | In(key: string, values: set<string>)
    | NotIn(key: string, values: set<string>)
    | Exists(key: string)
    | DoesNotExist(key: string)

  datatype Selector = Missing | Select(labels: map<string, string>, expressions: seq<Requirement>)

  datatype Direction = Ingress | Egress

  /** A rule with its peers; without peers it matches everything. */
  datatype Rule = Rule(peers: seq<string>)

  /** Without `policyTypes` the list is empty. */
  datatype Policy = Policy(namespace: string, name: string, podSelector: Selector, policyTypes: seq<Direction>,
                           ingress: seq<Rule>, egress: seq<Rule>)

  datatype Resource = Workload(namespace: string) | Netpol(policy: Policy) | Other

  // ----- The gate

  predicate SelectsAllPods(s: Selector) { s.Select? && s.labels == map[] && s.expressions == [] }

  predicate IsNamespaceDefaultDeny(p: Policy, requireEgress: bool) {
    && SelectsAllPods(p.podSelector) && Ingress in p.policyTypes && p.ingress == []
    && (requireEgress ==> Egress in p.policyTypes && p.egress == [])
  }

  predicate IsLeaky(p: Policy) {
    SelectsAllPods(p.podSelector) && Ingress in p.policyTypes && p.ingress != []
  }

  predicate HasUnrestrictedEgressRule(p: Policy) { exists i | 0 <= i < |p.egress| :: p.egress[i].peers == [] }

  predicate HasWorkload(rs: seq<Resource>, ns: string) { exists i | 0 <= i < |rs| :: rs[i] == Workload(ns) }

  /** The policies of a namespace, in order. */
  function PoliciesIn(rs: seq<Resource>, ns: string): seq<Policy> {
    if rs == [] then []
    else
      var r := rs[|rs| - 1];
      PoliciesIn(rs[..|rs| - 1], ns) + if r.Netpol? && r.policy.namespace == ns then [r.policy] else []
  }

  predicate Denies(rs: seq<Resource>, ns: string, requireEgress: bool) {
    exists i | 0 <= i < |PoliciesIn(rs, ns)| :: IsNamespaceDefaultDeny(PoliciesIn(rs, ns)[i], requireEgress)
  }

  datatype Finding =
    | LeaksIngress(policy: Policy)
    | OpensEgress(policy: Policy)
    | Uncovered(namespace: string)
    | StaleEntry(namespace: string)
    | AboveCeiling(namespace: string)
    | NoEgressDeny(namespace: string)

  /** A policy that breaks a rule whatever the baseline says. */
  ghost predicate Breaks(p: Policy) { IsLeaky(p) || HasUnrestrictedEgressRule(p) }

  /** The findings that a list of policies deserves on its own. */
  ghost predicate Violation(ps: seq<Policy>, e: Finding) {
    match e
    case LeaksIngress(p) => p in ps && IsLeaky(p)
    case OpensEgress(p) => p in ps && HasUnrestrictedEgressRule(p)
    case _ => false
  }

  /** The findings that a render deserves on its own. */
  ghost predicate RenderViolation(rs: seq<Resource>, e: Finding) {
    match e
    case LeaksIngress(p) => Netpol(p) in rs && IsLeaky(p)
    case OpensEgress(p) => Netpol(p) in rs && HasUnrestrictedEgressRule(p)
    case _ => false
  }

  lemma {:induction false} ListedPolicies(rs: seq<Resource>, ns: string, p: Policy)
    ensures p in PoliciesIn(rs, ns) <==> Netpol(p) in rs && p.namespace == ns
  {
    if rs != [] {
      var n := |rs| - 1;
      ListedPolicies(rs[..n], ns, p);
      assert rs == rs[..n] + [rs[n]];
    }
  }

  /** Each namespace answers for its own policies, and only for them. */
  lemma {:induction false} ViolationsOfRender(rs: seq<Resource>, e: Finding)
    ensures RenderViolation(rs, e) <==> exists ns :: Violation(PoliciesIn(rs, ns), e)
    ensures forall ns | Violation(PoliciesIn(rs, ns), e) :: PoliciesIn(rs, ns) != [] && e.policy.namespace == ns
  {
    hide PoliciesIn, IsLeaky, HasUnrestrictedEgressRule;
    if e.LeaksIngress? || e.OpensEgress? {
      forall ns ensures e.policy in PoliciesIn(rs, ns) <==> Netpol(e.policy) in rs && e.policy.namespace == ns {
        ListedPolicies(rs, ns, e.policy);
      }
      if RenderViolation(rs, e) {
        assert Violation(PoliciesIn(rs, e.policy.namespace), e);
      }
    }
  }

  lemma {:induction false} PoliciesSnoc(rs: seq<Resource>, n: nat, ns: string)
    requires n < |rs|
    ensures PoliciesIn(rs[..n + 1], ns) == PoliciesIn(rs[..n], ns) +
              if rs[n].Netpol? && rs[n].policy.namespace == ns then [rs[n].policy] else []
  {
    assert rs[..n + 1][..n] == rs[..n];
  }

  method WorkloadNamespaces(rs: seq<Resource>) returns (namespaces: set<string>)
    ensures forall ns :: ns in namespaces <==> HasWorkload(rs, ns)
  {
    namespaces := {};
    for n := 0 to |rs|
      invariant forall ns :: ns in namespaces <==> exists i | 0 <= i < n :: rs[i] == Workload(ns)
    {
      if rs[n].Workload? {
        namespaces := namespaces + {rs[n].namespace};
      }
    }
  }

  method NetpolsByNamespace(rs: seq<Resource>) returns (byNs: map<string, seq<Policy>>)
    ensures forall ns :: PoliciesIn(rs, ns) == if ns in byNs then byNs[ns] else []
  {
    byNs := map[];
    assert rs[..0] == [];
    for n := 0 to |rs|
      invariant forall ns :: PoliciesIn(rs[..n], ns) == if ns in byNs then byNs[ns] else []
    {
      hide PoliciesIn;
      forall ns {
        PoliciesSnoc(rs, n, ns);
      }
      if rs[n].Netpol? {
        var ns := rs[n].policy.namespace;
        byNs := byNs[ns := (if ns in byNs then byNs[ns] else []) + [rs[n].policy]];
      }
    }
    assert rs[..|rs|] == rs;
  }

  method AnyDefaultDeny(ps: seq<Policy>, requireEgress: bool) returns (found: bool)
    ensures found <==> exists i | 0 <= i < |ps| :: IsNamespaceDefaultDeny(ps[i], requireEgress)
  {
    for n := 0 to |ps|
      invariant forall i | 0 <= i < n :: !IsNamespaceDefaultDeny(ps[i], requireEgress)
    {
      if IsNamespaceDefaultDeny(ps[n], requireEgress) {
        return true;
      }
    }
    found := false;
  }

  method PolicyViolations(ps: seq<Policy>) returns (violations: seq<Finding>)
    ensures forall e :: e in violations <==> Violation(ps, e)
  {
    hide IsLeaky, HasUnrestrictedEgressRule;
    violations := [];
    for n := 0 to |ps|
      invariant forall e :: e in violations <==> Violation(ps[..n], e)
    {
      assert ps[..n + 1] == ps[..n] + [ps[n]];
      if IsLeaky(ps[n]) {
        violations := violations + [LeaksIngress(ps[n])];
      }
      if HasUnrestrictedEgressRule(ps[n]) {
        violations := violations + [OpensEgress(ps[n])];
      }
    }
    assert ps[..|ps|] == ps;
  }

  /** One render: its workload namespaces, the namespaces with a default deny, and the violations. */
  method EvaluateCombo(rs: seq<Resource>)
    returns (workloads: set<string>, denyIngress: set<string>, denyEgress: set<string>, violations: seq<Finding>)
    ensures forall ns :: ns in workloads <==> HasWorkload(rs, ns)
    ensures forall ns :: ns in denyIngress <==> Denies(rs, ns, false)
    ensures forall ns :: ns in denyEgress <==> Denies(rs, ns, true)
    ensures forall e :: e in violations <==> RenderViolation(rs, e)
  {
    hide PoliciesIn, IsNamespaceDefaultDeny, Violation, RenderViolation, HasWorkload;
    workloads := WorkloadNamespaces(rs);
    var byNs := NetpolsByNamespace(rs);
    denyIngress, denyEgress, violations := {}, {}, [];
    var left, done := byNs.Keys, {};
    while left != {}
      invariant left + done == byNs.Keys && left !! done
      invariant forall ns :: ns in denyIngress <==> ns in done && Denies(rs, ns, false)
      invariant forall ns :: ns in denyEgress <==> ns in done && Denies(rs, ns, true)
      invariant forall e :: e in violations <==> exists ns :: ns in done && Violation(PoliciesIn(rs, ns), e)
      decreases left
    {
      var ns :| ns in left;
      left, done := left - {ns}, done + {ns};
      var ingress := AnyDefaultDeny(byNs[ns], false);
      if ingress {
        denyIngress := denyIngress + {ns};
      }
      var egress := AnyDefaultDeny(byNs[ns], true);
      if egress {
        denyEgress := denyEgress + {ns};
      }
      var more := PolicyViolations(byNs[ns]);
      violations := violations + more;
    }
    assert done == byNs.Keys;
    forall e ensures e in violations <==> RenderViolation(rs, e) {
      ViolationsOfRender(rs, e);
    }
  }

  const ACCEPTED_BASELINE_NAMESPACES :=
    {"iam", "database", "orchestration", "streaming", "analytics", "platform-system"}

  /** The namespace runs a workload in some render that lacks the default deny. */
  predicate Gap(combos: seq<seq<Resource>>, ns: string, requireEgress: bool) {
    exists c | 0 <= c < |combos| :: HasWorkload(combos[c], ns) && !Denies(combos[c], ns, requireEgress)
  }

  ghost predicate RunsSomewhere(combos: seq<seq<Resource>>, ns: string) {
    exists c | 0 <= c < |combos| :: HasWorkload(combos[c], ns)
  }

  /** The findings, one by one. */
  ghost predicate Reported(combos: seq<seq<Resource>>, baseline: set<string>, e: Finding) {
    match e
    case LeaksIngress(_) => exists c | 0 <= c < |combos| :: RenderViolation(combos[c], e)
    case OpensEgress(_) => exists c | 0 <= c < |combos| :: RenderViolation(combos[c], e)
    case Uncovered(ns) => Gap(combos, ns, false) && ns !in baseline
    case StaleEntry(ns) => ns in baseline && !Gap(combos, ns, false)
    case AboveCeiling(ns) => ns in baseline && Gap(combos, ns, false) && ns !in ACCEPTED_BASELINE_NAMESPACES
    case NoEgressDeny(ns) => RunsSomewhere(combos, ns) && !Gap(combos, ns, false) && Gap(combos, ns, true)
  }

  /** What no errors mean. */
  ghost predicate Clean(combos: seq<seq<Resource>>, baseline: set<string>) {
    && (forall c, p | 0 <= c < |combos| && Netpol(p) in combos[c] :: !Breaks(p))
    && (forall ns :: Gap(combos, ns, false) <==> ns in baseline)
    && baseline <= ACCEPTED_BASELINE_NAMESPACES
    && (forall ns | RunsSomewhere(combos, ns) && ns !in baseline :: !Gap(combos, ns, true))
  }

  method CheckCoverage(combos: seq<seq<Resource>>, baseline: set<string>) returns (errors: seq<Finding>)
    ensures forall e :: e in errors <==> Reported(combos, baseline, e)
  {
    hide PoliciesIn, Denies, RenderViolation, HasWorkload;
    errors := [];
    var all, ingressGap, egressGap := {}, {}, {};
    for c := 0 to |combos|
      invariant forall e :: e in errors <==> exists k | 0 <= k < c :: RenderViolation(combos[k], e)
      invariant forall ns :: ns in all <==> RunsBefore(combos, c, ns)
      invariant forall ns :: ns in ingressGap <==> GapBefore(combos, c, ns, false)
      invariant forall ns :: ns in egressGap <==> GapBefore(combos, c, ns, true)
    {
      var workloads, denyIngress, denyEgress, violations := EvaluateCombo(combos[c]);
      hide RunsBefore, GapBefore;
      errors := errors + violations;
      all := all + workloads;
      ingressGap := ingressGap + (workloads - denyIngress);
      egressGap := egressGap + (workloads - denyEgress);
    }
    hide RunsBefore, GapBefore, Gap, RunsSomewhere;
    forall e | (exists k | 0 <= k < |combos| :: RenderViolation(combos[k], e)) ensures e.LeaksIngress? || e.OpensEgress? {
      var k :| 0 <= k < |combos| && RenderViolation(combos[k], e);
      ViolationKind(combos[k], e);
    }
    ghost var found := errors;
    var uncovered := Flag(ingressGap - baseline, ns => Uncovered(ns));
    var stale := Flag(baseline - ingressGap, ns => StaleEntry(ns));
    var above := Flag((baseline * ingressGap) - ACCEPTED_BASELINE_NAMESPACES, ns => AboveCeiling(ns));
    var open := Flag((all - ingressGap) * egressGap, ns => NoEgressDeny(ns));
    errors := errors + uncovered + stale + above + open;
    forall e ensures e in errors <==> Reported(combos, baseline, e) {
      assert e in errors <==> e in found || e in uncovered || e in stale || e in above || e in open;
      if e.Uncovered? || e.StaleEntry? || e.AboveCeiling? || e.NoEgressDeny? {
        var ns := e.namespace;
        assert e.Uncovered? ==> (e in uncovered <==> ns in ingressGap - baseline);
        assert e.StaleEntry? ==> (e in stale <==> ns in baseline - ingressGap);
        assert e.AboveCeiling? ==> (e in above <==> ns in (baseline * ingressGap) - ACCEPTED_BASELINE_NAMESPACES);
        assert e.NoEgressDeny? ==> (e in open <==> ns in (all - ingressGap) * egressGap);
      }
    }
  }

  lemma {:induction false} ViolationKind(rs: seq<Resource>, e: Finding)
    requires RenderViolation(rs, e)
    ensures e.LeaksIngress? || e.OpensEgress?
  {
  }

  /** No finding exactly when the gate is clean. */
  lemma {:induction false} CleanIff(combos: seq<seq<Resource>>, baseline: set<string>)
    ensures Clean(combos, baseline) <==> forall e :: !Reported(combos, baseline, e)
  {
    hide RunsSomewhere, Gap, IsLeaky, HasUnrestrictedEgressRule;
    if forall e :: !Reported(combos, baseline, e) {
      forall c, p | 0 <= c < |combos| && Netpol(p) in combos[c] ensures !Breaks(p) {
        assert !Reported(combos, baseline, LeaksIngress(p)) && !Reported(combos, baseline, OpensEgress(p));
        assert !RenderViolation(combos[c], LeaksIngress(p)) && !RenderViolation(combos[c], OpensEgress(p));
      }
      forall ns ensures Gap(combos, ns, false) <==> ns in baseline {
        assert !Reported(combos, baseline, Uncovered(ns)) && !Reported(combos, baseline, StaleEntry(ns));
      }
      forall ns | ns in baseline ensures ns in ACCEPTED_BASELINE_NAMESPACES {
        assert !Reported(combos, baseline, AboveCeiling(ns));
      }
      forall ns | RunsSomewhere(combos, ns) && ns !in baseline ensures !Gap(combos, ns, true) {
        assert !Reported(combos, baseline, NoEgressDeny(ns));
      }
    }
  }

  ghost predicate RunsBefore(combos: seq<seq<Resource>>, c: nat, ns: string)
    requires c <= |combos|
  {
    exists k | 0 <= k < c :: HasWorkload(combos[k], ns)
  }

  ghost predicate GapBefore(combos: seq<seq<Resource>>, c: nat, ns: string, requireEgress: bool)
    requires c <= |combos|
  {
    exists k | 0 <= k < c :: HasWorkload(combos[k], ns) && !Denies(combos[k], ns, requireEgress)
  }

  method Flag(namespaces: set<string>, finding: string -> Finding) returns (errors: seq<Finding>)
    ensures forall e :: e in errors <==> exists ns :: ns in namespaces && e == finding(ns)
  {
    errors := [];
    var left := namespaces;
    while left != {}
      invariant left <= namespaces
      invariant forall e :: e in errors <==> exists ns :: ns in namespaces - left && e == finding(ns)
      decreases left
    {
      var ns :| ns in left;
      left := left - {ns};
      errors := errors + [finding(ns)];
    }
  }

  // ----- The findings by the fields of the policies

  /** The selector is given and empty. */
  predicate IsEmptySelector(s: Selector) { s == Select(map[], []) }

  /** Which policies are reported, whatever else is there: those that select every pod, list ingress and
      have ingress rules, and those with an egress rule without peers. No other policy is reported. */
  lemma {:induction false} PolicyReportedIff(combos: seq<seq<Resource>>, baseline: set<string>, p: Policy)
    ensures Reported(combos, baseline, LeaksIngress(p)) <==>
            && (exists c | 0 <= c < |combos| :: Netpol(p) in combos[c])
            && IsEmptySelector(p.podSelector) && Ingress in p.policyTypes && p.ingress != []
    ensures Reported(combos, baseline, OpensEgress(p)) <==>
            && (exists c | 0 <= c < |combos| :: Netpol(p) in combos[c])
            && !forall r | r in p.egress :: r.peers != []
  {
    assert (exists r :: r in p.egress && r.peers == []) <==> HasUnrestrictedEgressRule(p);
  }

  /** A policy of the namespace denies ingress to every pod, and egress too if `both`. */
  ghost predicate HasDeny(rs: seq<Resource>, ns: string, both: bool) {
    exists p :: Netpol(p) in rs && p.namespace == ns && IsEmptySelector(p.podSelector) &&
                Ingress in p.policyTypes && p.ingress == [] && (both ==> Egress in p.policyTypes && p.egress == [])
  }

  lemma {:induction false} DeniesIff(rs: seq<Resource>, ns: string, both: bool)
    ensures Denies(rs, ns, both) <==> HasDeny(rs, ns, both)
  {
    var ps := PoliciesIn(rs, ns);
    forall p ensures p in ps <==> Netpol(p) in rs && p.namespace == ns {
      ListedPolicies(rs, ns, p);
    }
    hide PoliciesIn;
    if i :| 0 <= i < |ps| && IsNamespaceDefaultDeny(ps[i], both) {
      assert ps[i] in ps;
    }
    if p :| Netpol(p) in rs && p.namespace == ns && IsEmptySelector(p.podSelector) && Ingress in p.policyTypes &&
            p.ingress == [] && (both ==> Egress in p.policyTypes && p.egress == []) {
      var i :| 0 <= i < |ps| && ps[i] == p;
      assert IsNamespaceDefaultDeny(ps[i], both);
    }
  }

  /** A render runs a workload in the namespace without such a policy. */
  ghost predicate Lacks(combos: seq<seq<Resource>>, ns: string, both: bool) {
    exists rs :: rs in combos && Workload(ns) in rs && !HasDeny(rs, ns, both)
  }

  lemma {:induction false} GapIff(combos: seq<seq<Resource>>, ns: string, both: bool)
    ensures Gap(combos, ns, both) <==> Lacks(combos, ns, both)
  {
    hide Denies, HasDeny;
    forall rs
      ensures HasWorkload(rs, ns) <==> Workload(ns) in rs
      ensures Denies(rs, ns, both) <==> HasDeny(rs, ns, both)
    {
      DeniesIff(rs, ns, both);
    }
    hide HasWorkload;
    if c :| 0 <= c < |combos| && HasWorkload(combos[c], ns) && !Denies(combos[c], ns, both) {
      assert combos[c] in combos;
    }
  }

  /** The gate reports nothing exactly when no policy is reported for itself, the namespaces that lack
      ingress denial in some render are the baseline, the baseline lies within the accepted six, and no
      other namespace lacks denial both ways. */
  lemma {:induction false} CleanWhen(combos: seq<seq<Resource>>, baseline: set<string>)
    ensures Clean(combos, baseline) <==>
            && (forall rs, p | rs in combos && Netpol(p) in rs ::
                  && !(IsEmptySelector(p.podSelector) && Ingress in p.policyTypes && p.ingress != [])
                  && forall r | r in p.egress :: r.peers != [])
            && (forall ns :: ns in baseline <==> Lacks(combos, ns, false))
            && baseline <= {"iam", "database", "orchestration", "streaming", "analytics", "platform-system"}
            && (forall ns :: Lacks(combos, ns, true) ==> ns in baseline)
  {
    forall ns, both ensures Gap(combos, ns, both) <==> Lacks(combos, ns, both) {
      GapIff(combos, ns, both);
    }
    forall p ensures Breaks(p) <==>
      !(!(IsEmptySelector(p.podSelector) && Ingress in p.policyTypes && p.ingress != []) && forall r | r in p.egress :: r.peers != [])
    {
    }
    forall ns | Lacks(combos, ns, true) ensures RunsSomewhere(combos, ns) {
      LacksRuns(combos, ns);
    }
    hide Gap, Lacks, Breaks, RunsSomewhere, IsEmptySelector;
    NoneBreaks(combos);
  }

  lemma {:induction false} NoneBreaks(combos: seq<seq<Resource>>)
    ensures (forall c, p | 0 <= c < |combos| && Netpol(p) in combos[c] :: !Breaks(p)) <==>
            (forall rs, p | rs in combos && Netpol(p) in rs :: !Breaks(p))
  {
    hide Breaks;
    if forall c, p | 0 <= c < |combos| && Netpol(p) in combos[c] :: !Breaks(p) {
      forall rs, p | rs in combos && Netpol(p) in rs ensures !Breaks(p) {
        var c :| 0 <= c < |combos| && combos[c] == rs;
        assert Netpol(p) in combos[c];
      }
    }
    forall c | 0 <= c < |combos| ensures combos[c] in combos {
    }
  }

  lemma {:induction false} LacksRuns(combos: seq<seq<Resource>>, ns: string)
    requires Lacks(combos, ns, true)
    ensures RunsSomewhere(combos, ns)
  {
    var rs :| rs in combos && Workload(ns) in rs && !HasDeny(rs, ns, true);
    var c :| 0 <= c < |combos| && combos[c] == rs;
    assert HasWorkload(combos[c], ns);
  }

  // ----- What Kubernetes does with the policies

  predicate Satisfies(labels: map<string, string>, r: Requirement) {
    match r
    case In(key, values) => key in labels && labels[key] in values
    case NotIn(key, values) => key in labels ==> labels[key] !in values
    case Exists(key) => key in labels
    case DoesNotExist(key) => key !in labels
  }

  /** A selector that is left out is the empty one, which selects every pod. */
  predicate Selects(s: Selector, labels: map<string, string>) {
    s.Select? ==>
      && (forall k | k in s.labels :: k in labels && labels[k] == s.labels[k])
      && forall i | 0 <= i < |s.expressions| :: Satisfies(labels, s.expressions[i])
  }

  /** Whatever labels a pod has, it is selected. */
  ghost predicate SelectsEvery(s: Selector) { forall labels :: Selects(s, labels) }

  /** The one kind of expression that every pod satisfies; the API server refuses it. */
  predicate Vacuous(r: Requirement) { r.NotIn? && r.values == {} }

  /** Without `policyTypes` a policy is about ingress, and about egress when it has egress rules. */
  function EffectiveTypes(p: Policy): set<Direction> {
    if p.policyTypes != [] then set d | d in p.policyTypes
    else if p.egress != [] then {Ingress, Egress} else {Ingress}
  }

  predicate Governs(p: Policy, labels: map<string, string>, d: Direction) {
    Selects(p.podSelector, labels) && d in EffectiveTypes(p)
  }

  /** Some policy governs the pod, so only what a policy admits is let through. */
  ghost predicate Isolated(ps: seq<Policy>, labels: map<string, string>, d: Direction) {
    exists i | 0 <= i < |ps| :: Governs(ps[i], labels, d)
  }

  function Rules(p: Policy, d: Direction): seq<Rule> { if d == Ingress then p.ingress else p.egress }

  /** Policies add up: traffic is let through when some policy that governs the pod has a rule for it. */
  ghost predicate Admits(p: Policy, labels: map<string, string>, d: Direction, peer: string) {
    Governs(p, labels, d) &&
    exists i | 0 <= i < |Rules(p, d)| :: Rules(p, d)[i].peers == [] || peer in Rules(p, d)[i].peers
  }

  lemma {:induction false} AllPodsSelected(s: Selector, labels: map<string, string>)
    requires SelectsAllPods(s)
    ensures Selects(s, labels)
  {
  }

  /** An expression that is not vacuous is not satisfied by some pod. */
  lemma {:induction false} SomeFails(r: Requirement) returns (labels: map<string, string>)
    requires !Vacuous(r)
    ensures !Satisfies(labels, r)
  {
    match r {
      case NotIn(key, values) =>
        var v :| v in values;
        labels := map[key := v];
      case DoesNotExist(key) => labels := map[key := ""];
      case In(_, _) => labels := map[];
      case Exists(_) => labels := map[];
    }
  }

  lemma {:induction false} LeavesOut(s: Selector, i: nat)
    requires s.Select? && i < |s.expressions| && !Vacuous(s.expressions[i])
    ensures !SelectsEvery(s)
  {
    hide Satisfies, Vacuous;
    var labels := SomeFails(s.expressions[i]);
    assert !Selects(s, labels);
  }

  /** Which selectors select every possible pod: those that are left out, and those without labels whose
      expressions, if any, are all vacuous. */
  lemma {:induction false} SelectsEveryIff(s: Selector)
    ensures SelectsEvery(s) <==>
            s.Missing? || (s.labels == map[] && forall i | 0 <= i < |s.expressions| :: Vacuous(s.expressions[i]))
  {
    hide Satisfies, Vacuous;
    if s.Select? {
      if SelectsEvery(s) {
        assert Selects(s, map[]);
        forall i | 0 <= i < |s.expressions| ensures Vacuous(s.expressions[i]) {
          if !Vacuous(s.expressions[i]) {
            LeavesOut(s, i);
          }
        }
      }
      forall i, labels: map<string, string> | 0 <= i < |s.expressions| && Vacuous(s.expressions[i])
        ensures Satisfies(labels, s.expressions[i])
      {
        VacuousHolds(s.expressions[i], labels);
      }
    }
  }

  lemma {:induction false} VacuousHolds(r: Requirement, labels: map<string, string>)
    requires Vacuous(r)
    ensures Satisfies(labels, r)
  {
  }

  /** The policy lets some ingress in, to every possible pod of its namespace. */
  ghost predicate OpensAll(p: Policy) {
    SelectsEvery(p.podSelector) && Ingress in EffectiveTypes(p) && p.ingress != []
  }

  /** When the gate sees such a policy: exactly when the policy names its types, gives a selector, and
      the selector has no expressions. */
  lemma {:induction false} LeakSeenIff(p: Policy)
    requires OpensAll(p)
    ensures IsLeaky(p) <==> p.policyTypes != [] && p.podSelector.Select? && p.podSelector.expressions == []
  {
    SelectsEveryIff(p.podSelector);
  }

  /** A clean gate isolates, in every render, every pod of a namespace outside the baseline, both ways.
      A policy that admits ingress there leaves out some possible pod, unless it is one of those that
      the gate cannot see; and egress goes only to named peers. */
  lemma {:induction false} CleanMeansIsolated(combos: seq<seq<Resource>>, baseline: set<string>, c: nat, ns: string,
                                              labels: map<string, string>)
    requires Clean(combos, baseline) && c < |combos| && HasWorkload(combos[c], ns) && ns !in baseline
    ensures var ps := PoliciesIn(combos[c], ns);
            && Isolated(ps, labels, Ingress) && Isolated(ps, labels, Egress)
            && (forall i, peer | 0 <= i < |ps| && Admits(ps[i], labels, Ingress, peer) ::
                  || !SelectsEvery(ps[i].podSelector)
                  || ps[i].policyTypes == [] || ps[i].podSelector.Missing? || ps[i].podSelector.expressions != [])
            && (forall i, peer | 0 <= i < |ps| && Admits(ps[i], labels, Egress, peer) ::
                  exists k | 0 <= k < |ps[i].egress| :: peer in ps[i].egress[k].peers)
  {
    hide Satisfies, Selects, SelectsEvery;
    var ps := PoliciesIn(combos[c], ns);
    assert !Gap(combos, ns, true) && RunsSomewhere(combos, ns);
    var i :| 0 <= i < |ps| && IsNamespaceDefaultDeny(ps[i], true);
    AllPodsSelected(ps[i].podSelector, labels);
    assert Governs(ps[i], labels, Ingress) && Governs(ps[i], labels, Egress);
    forall k | 0 <= k < |ps| ensures !Breaks(ps[k]) {
      ListedPolicies(combos[c], ns, ps[k]);
    }
    forall k, peer | 0 <= k < |ps| && Admits(ps[k], labels, Ingress, peer) && SelectsEvery(ps[k].podSelector)
      ensures ps[k].policyTypes == [] || ps[k].podSelector.Missing? || ps[k].podSelector.expressions != []
    {
      assert !Breaks(ps[k]);
      LeakSeenIff(ps[k]);
    }
    forall k, peer | 0 <= k < |ps| && Admits(ps[k], labels, Egress, peer)
      ensures exists n | 0 <= n < |ps[k].egress| :: peer in ps[k].egress[n].peers
    {
      assert !Breaks(ps[k]);
      var n :| 0 <= n < |Rules(ps[k], Egress)| &&
        (Rules(ps[k], Egress)[n].peers == [] || peer in Rules(ps[k], Egress)[n].peers);
      assert ps[k].egress[n].peers != [];
    }
  }

  /** The policy breaks no rule of the gate and lets everybody reach every pod. */
  ghost predicate SlipsPast(p: Policy) {
    !Breaks(p) && forall labels, peer :: Admits(p, labels, Ingress, peer)
  }

  /** The three ways past the gate: no types, no selector, and an expression that says nothing. */
  lemma {:induction false} WaysPast(ns: string, name: string)
    ensures SlipsPast(Policy(ns, name, Select(map[], []), [], [Rule([])], []))
    ensures SlipsPast(Policy(ns, name, Missing, [Ingress], [Rule([])], []))
    ensures SlipsPast(Policy(ns, name, Select(map[], [NotIn("k", {})]), [Ingress], [Rule([])], []))
    ensures !SlipsPast(Policy(ns, name, Select(map[], []), [Ingress], [Rule([])], []))
  {
    OpenToAll(Policy(ns, name, Select(map[], []), [], [Rule([])], []));
    OpenToAll(Policy(ns, name, Missing, [Ingress], [Rule([])], []));
    OpenToAll(Policy(ns, name, Select(map[], [NotIn("k", {})]), [Ingress], [Rule([])], []));
  }

  lemma {:induction false} OpenToAll(p: Policy)
    requires SelectsEvery(p.podSelector) && Ingress in EffectiveTypes(p) && p.ingress == [Rule([])]
    ensures forall labels, peer :: Admits(p, labels, Ingress, peer)
  {
    hide Selects;
    assert Rules(p, Ingress)[0].peers == [];
  }

  // ----- The coverage report of the security baseline

  /** What the report says of one policy. */
  predicate Flags(p: Policy, d: Direction) {
    SelectsAllPods(p.podSelector) && d in EffectiveTypes(p) && Rules(p, d) == []
  }

  datatype Coverage = Coverage(policies: seq<string>, defaultDenyIngress: bool, defaultDenyEgress: bool)

  predicate SomeFlags(ps: seq<Policy>, d: Direction) { exists i | 0 <= i < |ps| :: Flags(ps[i], d) }

  function Names(ps: seq<Policy>): seq<string> { seq(|ps|, i requires 0 <= i < |ps| => ps[i].name) }

  function CoverageOf(ps: seq<Policy>): Coverage {
    Coverage(Names(ps), SomeFlags(ps, Ingress), SomeFlags(ps, Egress))
  }

  /** `coverage.setdefault(...)` */
  function Entry(coverage: map<string, Coverage>, ns: string): Coverage {
    if ns in coverage then coverage[ns] else Coverage([], false, false)
  }

  lemma {:induction false} CoverageNext(rs: seq<Resource>, n: nat, ns: string, was: Coverage)
    requires n < |rs| && was == CoverageOf(PoliciesIn(rs[..n], ns))
    ensures var ps, next := PoliciesIn(rs[..n], ns), PoliciesIn(rs[..n + 1], ns);
            if rs[n].Netpol? && rs[n].policy.namespace == ns then
              && next == ps + [rs[n].policy] && next != []
              && CoverageOf(next) == Coverage(was.policies + [rs[n].policy.name],
                   was.defaultDenyIngress || Flags(rs[n].policy, Ingress), was.defaultDenyEgress || Flags(rs[n].policy, Egress))
            else next == ps
  {
    hide PoliciesIn, CoverageOf, Flags;
    PoliciesSnoc(rs, n, ns);
    if rs[n].Netpol? && rs[n].policy.namespace == ns {
      CoverageMore(PoliciesIn(rs[..n], ns), rs[n].policy);
    }
  }

  method NetworkPolicyCoverage(rs: seq<Resource>) returns (coverage: map<string, Coverage>)
    ensures forall ns :: ns in coverage <==> PoliciesIn(rs, ns) != []
    ensures forall ns | ns in coverage :: coverage[ns] == CoverageOf(PoliciesIn(rs, ns))
  {
    coverage := map[];
    assert rs[..0] == [] && Names([]) == [];
    for n := 0 to |rs|
      invariant forall ns :: ns in coverage <==> PoliciesIn(rs[..n], ns) != []
      invariant forall ns :: Entry(coverage, ns) == CoverageOf(PoliciesIn(rs[..n], ns))
    {
      hide PoliciesIn, CoverageOf, Flags;
      forall ns {
        CoverageNext(rs, n, ns, Entry(coverage, ns));
      }
      if rs[n].Netpol? {
        var p := rs[n].policy;
        var entry := Entry(coverage, p.namespace);
        entry := entry.(policies := entry.policies + [p.name]);
        if Flags(p, Ingress) {
          entry := entry.(defaultDenyIngress := true);
        }
        if Flags(p, Egress) {
          entry := entry.(defaultDenyEgress := true);
        }
        coverage := coverage[p.namespace := entry];
      }
    }
    assert rs[..|rs|] == rs;
  }

  lemma {:induction false} CoverageMore(ps: seq<Policy>, p: Policy)
    ensures CoverageOf([]) == Coverage([], false, false)
    ensures var c := CoverageOf(ps);
            CoverageOf(ps + [p]) == Coverage(c.policies + [p.name], c.defaultDenyIngress || Flags(p, Ingress),
                                             c.defaultDenyEgress || Flags(p, Egress))
  {
    hide Flags;
    var qs := ps + [p];
    assert Names(qs) == Names(ps) + [p.name];
    forall d ensures SomeFlags(qs, d) <==> SomeFlags(ps, d) || Flags(p, d) {
      if i :| 0 <= i < |ps| && Flags(ps[i], d) {
        assert Flags(qs[i], d);
      }
      if Flags(p, d) {
        assert Flags(qs[|ps|], d);
      }
    }
  }

  /** What the report flags: an empty selector and, for ingress, the type by name or by default and no
      ingress rules; for egress, the type by name and no egress rules. */
  lemma {:induction false} FlagsIff(p: Policy)
    ensures Flags(p, Ingress) <==>
            IsEmptySelector(p.podSelector) && (p.policyTypes == [] || Ingress in p.policyTypes) && p.ingress == []
    ensures Flags(p, Egress) <==> IsEmptySelector(p.podSelector) && Egress in p.policyTypes && p.egress == []
  {
  }

  /** How the two implementations relate. For ingress the gate asks for one flagged policy that names its
      types; for egress it asks for one policy that is flagged both ways, where the report is content with
      two. */
  lemma {:induction false} ReportAgrees(rs: seq<Resource>, ns: string)
    ensures var ps := PoliciesIn(rs, ns);
            && (Denies(rs, ns, false) <==> exists i | 0 <= i < |ps| :: Flags(ps[i], Ingress) && ps[i].policyTypes != [])
            && (Denies(rs, ns, true) <==> exists i | 0 <= i < |ps| :: Flags(ps[i], Ingress) && Flags(ps[i], Egress))
  {
    hide SelectsAllPods;
    var ps := PoliciesIn(rs, ns);
    forall i | 0 <= i < |ps|
      ensures IsNamespaceDefaultDeny(ps[i], false) <==> Flags(ps[i], Ingress) && ps[i].policyTypes != []
      ensures IsNamespaceDefaultDeny(ps[i], true) <==> Flags(ps[i], Ingress) && Flags(ps[i], Egress)
    {
    }
  }

  /** A direction that the report flags is one in which every pod is isolated. */
  lemma {:induction false} FlaggedIsIsolated(ps: seq<Policy>, d: Direction, labels: map<string, string>)
    requires SomeFlags(ps, d)
    ensures Isolated(ps, labels, d)
  {
    var i :| 0 <= i < |ps| && Flags(ps[i], d);
    AllPodsSelected(ps[i].podSelector, labels);
    assert Governs(ps[i], labels, d);
  }

  /** Two policies, each of which denies one direction to every pod: the report flags both directions,
      every pod is isolated both ways, and the gate finds egress open. */
  lemma {:induction false} DeniedApart(ns: string, p: Policy, q: Policy, rs: seq<Resource>)
    requires rs == [Workload(ns), Netpol(p), Netpol(q)]
    requires p == Policy(ns, "in", Select(map[], []), [Ingress], [], [])
    requires q == Policy(ns, "out", Select(map[], []), [Egress], [], [])
    ensures var ps := PoliciesIn(rs, ns);
            && SomeFlags(ps, Ingress) && SomeFlags(ps, Egress)
            && forall labels :: Isolated(ps, labels, Ingress) && Isolated(ps, labels, Egress)
    ensures Reported([rs], {}, NoEgressDeny(ns))
  {
    var ps, combos := PoliciesIn(rs, ns), [rs];
    assert ps == [p, q] by {
      assert rs[..3] == rs && rs[..0] == [];
      PoliciesSnoc(rs, 0, ns);
      PoliciesSnoc(rs, 1, ns);
      PoliciesSnoc(rs, 2, ns);
    }
    hide PoliciesIn, Isolated;
    assert ps[0] == p && ps[1] == q && Flags(ps[0], Ingress) && Flags(ps[1], Egress);
    forall labels ensures Isolated(ps, labels, Ingress) && Isolated(ps, labels, Egress) {
      FlaggedIsIsolated(ps, Ingress, labels);
      FlaggedIsIsolated(ps, Egress, labels);
    }
    assert Denies(rs, ns, false) && !Denies(rs, ns, true);
    hide Denies;
    assert HasWorkload(rs, ns) by {
      assert rs[0] == Workload(ns);
    }
    hide HasWorkload, SomeFlags, Flags;
    assert combos[0] == rs && |combos| == 1;
    assert RunsSomewhere(combos, ns) && !Gap(combos, ns, false) && Gap(combos, ns, true);
  }

  /** So in every render the report flags both directions for every namespace with a workload outside
      the baseline of a clean gate. */
  lemma {:induction false} CleanMeansFlagged(combos: seq<seq<Resource>>, baseline: set<string>, c: nat, ns: string)
    requires Clean(combos, baseline) && c < |combos| && HasWorkload(combos[c], ns) && ns !in baseline
    ensures var ps := PoliciesIn(combos[c], ns); SomeFlags(ps, Ingress) && SomeFlags(ps, Egress)
  {
    hide PoliciesIn;
    assert !Gap(combos, ns, true) && RunsSomewhere(combos, ns);
    ReportAgrees(combos[c], ns);
  }
}
