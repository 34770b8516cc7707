/** `scripts/generate_sizing_report.py`: adding up the declared resources of the rendered workloads and
    comparing them with the virtual machines of a profile. */
module Sizing {
  import opened Wrappers

  datatype Field = Cpu | Memory

  /** Millicores and MiB. */
  datatype Vec = Vec(cpu: real, memory: real) {
    function Get(f: Field): real { if f.Cpu? then cpu else memory }
  }

  const ZERO := Vec(0.0, 0.0)

  function Plus(a: Vec, b: Vec): Vec {
    Vec(a.cpu + b.cpu, a.memory + b.memory)
  }

  function Times(a: Vec, n: nat): Vec {
    Vec(a.cpu * (n as real), a.memory * (n as real))
  }

  function Max(a: Vec, b: Vec): Vec {
    Vec(if a.cpu < b.cpu then b.cpu else a.cpu, if a.memory < b.memory then b.memory else a.memory)
  }

  type amount = r: real | r >= 0.0

  /** A `resources` block; every entry may be missing. */
  datatype Quantities = Quantities(cpu: Option<amount>, memory: Option<amount>) {
    function Get(f: Field): Option<amount> { if f.Cpu? then cpu else memory }
  }
  datatype Resources = Resources(requests: Quantities, limits: Quantities)

  function OrZero(x: Option<amount>): amount {
    match x case None => 0.0 case Some(v) => v
  }

  /** The request of a container: Kubernetes takes the limit when there is none. */
  function Effective(r: Resources, f: Field): amount {
    match r.requests.Get(f) case Some(v) => v case None => OrZero(r.limits.Get(f))
  }

  function EffectiveVec(r: Resources): (v: Vec)
    ensures v.cpu >= 0.0 && v.memory >= 0.0
  {
    Vec(Effective(r, Cpu), Effective(r, Memory))
  }

  function Sum(xs: seq<Vec>): (s: Vec) {
    if xs == [] then ZERO else Plus(Sum(xs[..|xs| - 1]), xs[|xs| - 1])
  }

  lemma {:induction false} SumSnoc(xs: seq<Vec>, x: Vec)
    ensures Sum(xs + [x]) == Plus(Sum(xs), x)
  {
    assert (xs + [x])[..|xs|] == xs;
  }

  lemma {:induction false} SumConcat(xs: seq<Vec>, ys: seq<Vec>)
    ensures Sum(xs + ys) == Plus(Sum(xs), Sum(ys))
  {
    if ys == [] {
      assert xs + ys == xs;
    } else {
      var n := |ys| - 1;
      SumConcat(xs, ys[..n]);
      SumSnoc(xs + ys[..n], ys[n]);
      assert xs + ys == (xs + ys[..n]) + [ys[n]];
    }
  }

  function Copies(x: Vec, n: nat): (r: seq<Vec>)
    ensures |r| == n && forall i | 0 <= i < n :: r[i] == x
  {
    seq(n, _ => x)
  }

  lemma {:induction false} TimesNext(x: Vec, n: nat)
    ensures Times(x, 0) == ZERO && Times(x, n + 1) == Plus(Times(x, n), x)
  {
  }

  lemma {:induction false} SumCopies(x: Vec, n: nat)
    ensures Sum(Copies(x, n)) == Times(x, n)
  {
    hide Times, Plus;
    if n == 0 {
      TimesNext(x, 0);
    } else {
      SumCopies(x, n - 1);
      assert Copies(x, n)[..n - 1] == Copies(x, n - 1);
      TimesNext(x, n - 1);
    }
  }

  // ----- Pods

  datatype PodSpec = PodSpec(initContainers: seq<Resources>, containers: seq<Resources>)

  function EffectiveAll(rs: seq<Resources>): seq<Vec> {
    seq(|rs|, i requires 0 <= i < |rs| => EffectiveVec(rs[i]))
  }

  function Peak(xs: seq<Vec>): Vec {
    if xs == [] then ZERO else Max(Peak(xs[..|xs| - 1]), xs[|xs| - 1])
  }

  /** What the scheduler reserves for a pod: all containers together, or an init container if that
      needs more. */
  function PodRequests(spec: PodSpec): Vec {
    Max(Sum(EffectiveAll(spec.containers)), Peak(EffectiveAll(spec.initContainers)))
  }

  function LimitVec(r: Resources): Vec { Vec(OrZero(r.limits.cpu), OrZero(r.limits.memory)) }

  function LimitAll(rs: seq<Resources>): seq<Vec> {
    seq(|rs|, i requires 0 <= i < |rs| => LimitVec(rs[i]))
  }

  method Pod(spec: PodSpec) returns (requests: Vec, limits: Vec)
    ensures requests == PodRequests(spec) && limits == Sum(LimitAll(spec.containers))
  {
    requests, limits := ZERO, ZERO;
    var initMax := ZERO;
    var inits, mains, tops := EffectiveAll(spec.initContainers), EffectiveAll(spec.containers), LimitAll(spec.containers);
    for n := 0 to |spec.initContainers|
      invariant initMax == Peak(inits[..n])
    {
      initMax := Max(initMax, EffectiveVec(spec.initContainers[n]));
      assert inits[..n + 1][..n] == inits[..n];
    }
    for n := 0 to |spec.containers|
      invariant requests == Sum(mains[..n]) && limits == Sum(tops[..n])
    {
      requests := Plus(requests, EffectiveVec(spec.containers[n]));
      limits := Plus(limits, LimitVec(spec.containers[n]));
      assert mains[..n + 1][..n] == mains[..n] && tops[..n + 1][..n] == tops[..n];
    }
    assert inits[..|inits|] == inits && mains[..|mains|] == mains && tops[..|tops|] == tops;
    requests := Max(requests, initMax);
  }

  // ----- Workloads

  datatype Kind = Deployment | StatefulSet | Job | CronJob | Cluster | KafkaNodePool | Kafka | FlinkDeployment

  /** The part of a document that declares resources. */
  datatype Spec =
    | Pods(replicas: nat, pod: PodSpec)
    | Counted(count: nat, resources: Resources)
    | Scattered(found: seq<Resources>)
    | Managers(parts: seq<(nat, Option<Quantities>)>)

  datatype Doc = Doc(kind: Kind, namespace: string, name: string, spec: Spec) {
    predicate Valid() {
      match kind
      case Deployment => spec.Pods?
      case StatefulSet => spec.Pods?
      case Job => spec.Pods?
      case CronJob => spec.Pods?
      case Cluster => spec.Counted?
      case KafkaNodePool => spec.Counted?
      case Kafka => spec.Scattered?
      case FlinkDeployment => spec.Managers?
    }

    predicate Transient() { kind.Job? || kind.CronJob? }

    function Id(): (Kind, string, string) { (kind, namespace, name) }
  }

  datatype Section = Requests | Limits

  datatype Record = Record(doc: Doc, replicas: nat, requests: Vec, limits: Vec, podRequests: Vec) {
    function Get(s: Section): Vec { if s.Requests? then requests else limits }
  }

  /** The pods that a workload runs, with what each of them requests; a job counts once. How Strimzi
      groups the containers of a Kafka resource into pods does not matter for their sum. */
  function PodsOf(doc: Doc): seq<Vec> {
    match doc.spec
    case Pods(n, pod) => Copies(PodRequests(pod), if doc.Transient() then 1 else n)
    case Counted(n, resources) => Copies(EffectiveVec(resources), n)
    case Scattered(found) => EffectiveAll(found)
    case Managers(parts) => ManagerPods(parts)
  }

  /** The same for their limits; the managers of Flink get their requests as limits. */
  function LimitsOf(doc: Doc): seq<Vec> {
    match doc.spec
    case Pods(n, pod) => Copies(Sum(LimitAll(pod.containers)), if doc.Transient() then 1 else n)
    case Counted(n, resources) => Copies(LimitVec(resources), n)
    case Scattered(found) => LimitAll(found)
    case Managers(parts) => ManagerPods(parts)
  }

  function ManagerVec(q: Option<Quantities>): Vec {
    match q case None => ZERO case Some(r) => Vec(OrZero(r.cpu), OrZero(r.memory))
  }

  function ManagerPods(parts: seq<(nat, Option<Quantities>)>): seq<Vec> {
    if parts == [] then []
    else ManagerPods(parts[..|parts| - 1]) + Copies(ManagerVec(parts[|parts| - 1].1), parts[|parts| - 1].0)
  }

  function Divided(v: Vec, n: nat): Vec
    requires n > 0
  {
    Vec(v.cpu / (n as real), v.memory / (n as real))
  }

  lemma {:induction false} TimesDivided(v: Vec, n: nat)
    requires n > 0
    ensures Divided(Times(v, n), n) == v
  {
  }

  method ScatteredTotal(found: seq<Resources>) returns (requests: Vec, limits: Vec)
    ensures requests == Sum(EffectiveAll(found)) && limits == Sum(LimitAll(found))
  {
    requests, limits := ZERO, ZERO;
    var vecs, tops := EffectiveAll(found), LimitAll(found);
    for i := 0 to |found|
      invariant requests == Sum(vecs[..i]) && limits == Sum(tops[..i])
    {
      requests := Plus(requests, EffectiveVec(found[i]));
      limits := Plus(limits, LimitVec(found[i]));
      assert vecs[..i + 1][..i] == vecs[..i] && tops[..i + 1][..i] == tops[..i];
    }
    assert vecs[..|vecs|] == vecs && tops[..|tops|] == tops;
  }

  lemma {:induction false} ManagersSnoc(parts: seq<(nat, Option<Quantities>)>, i: nat)
    requires i < |parts|
    ensures Sum(ManagerPods(parts[..i + 1])) ==
            Plus(Sum(ManagerPods(parts[..i])), Times(ManagerVec(parts[i].1), parts[i].0))
  {
    assert parts[..i + 1][..i] == parts[..i];
    SumConcat(ManagerPods(parts[..i]), Copies(ManagerVec(parts[i].1), parts[i].0));
    SumCopies(ManagerVec(parts[i].1), parts[i].0);
  }

  method ManagersTotal(parts: seq<(nat, Option<Quantities>)>) returns (total: Vec)
    ensures total == Sum(ManagerPods(parts))
  {
    total := ZERO;
    for i := 0 to |parts|
      invariant total == Sum(ManagerPods(parts[..i]))
    {
      ManagersSnoc(parts, i);
      total := Plus(total, Times(ManagerVec(parts[i].1), parts[i].0));
    }
    assert parts[..|parts|] == parts;
  }

  /** `_workload_record`. A Cluster or node pool without instances fails: the script divides by their number. */
  method WorkloadRecord(doc: Doc) returns (r: Result<Record>)
    requires doc.Valid()
    ensures r.Failure? <==> doc.spec.Counted? && doc.spec.count == 0
    ensures r.Success? ==> RecordOf(doc, r.value)
  {
    hide Sum, Times, Divided;
    match doc.spec {
      case Pods(n, pod) =>
        var replicas := if doc.Transient() then 1 else n;
        var requests, limits := Pod(pod);
        SumCopies(requests, replicas);
        SumCopies(limits, replicas);
        r := Success(Record(doc, replicas, Times(requests, replicas), Times(limits, replicas), requests));
      case Counted(n, resources) =>
        if n == 0 {
          return Failure("division by zero");
        }
        var all, limits := Times(EffectiveVec(resources), n), Times(LimitVec(resources), n);
        SumCopies(EffectiveVec(resources), n);
        SumCopies(LimitVec(resources), n);
        TimesDivided(EffectiveVec(resources), n);
        r := Success(Record(doc, n, all, limits, Divided(all, n)));
      case Scattered(found) =>
        var requests, limits := ScatteredTotal(found);
        r := Success(Record(doc, 1, requests, limits, requests));
      case Managers(parts) =>
        var total := ManagersTotal(parts);
        r := Success(Record(doc, 1, total, total, total));
    }
  }

  /** Where the workload is a number of equal pods. */
  predicate EqualPods(doc: Doc) { doc.spec.Pods? || doc.spec.Counted? }

  /** What the report takes for the pod of a workload: where the pods are not equal, all of them. */
  function PodRequest(doc: Doc): Vec {
    match doc.spec
    case Pods(_, pod) => PodRequests(pod)
    case Counted(_, resources) => EffectiveVec(resources)
    case _ => Sum(PodsOf(doc))
  }

  /** A record adds up the pods of its workload, and knows their number where they are equal. */
  ghost predicate RecordOf(doc: Doc, r: Record) {
    && r.doc == doc && r.requests == Sum(PodsOf(doc)) && r.limits == Sum(LimitsOf(doc))
    && r.podRequests == PodRequest(doc)
    && r.replicas == if EqualPods(doc) then |PodsOf(doc)| else 1
  }

  // ----- Renders

  predicate HasId(docs: seq<Doc>, doc: Doc) { exists i | 0 <= i < |docs| :: docs[i].Id() == doc.Id() }

  /** The documents without those whose kind, namespace and name came before. */
  function FirstDocs(docs: seq<Doc>): seq<Doc> {
    if docs == [] then []
    else
      var n := |docs| - 1;
      FirstDocs(docs[..n]) + if HasId(docs[..n], docs[n]) then [] else [docs[n]]
  }

  ghost predicate Records(docs: seq<Doc>, rs: seq<Record>) {
    |rs| == |docs| && forall i | 0 <= i < |docs| :: RecordOf(docs[i], rs[i])
  }

  method CollectRender(docs: seq<Doc>) returns (r: Result<seq<Record>>)
    requires forall i | 0 <= i < |docs| :: docs[i].Valid()
    ensures r.Failure? <==> exists i | 0 <= i < |docs| :: docs[i].spec.Counted? && docs[i].spec.count == 0
    ensures r.Success? ==> Records(FirstDocs(docs), r.value)
  {
    hide RecordOf;
    var merged: seq<Record> := [];
    assert docs[..0] == [];
    for n := 0 to |docs|
      invariant forall i | 0 <= i < n :: !(docs[i].spec.Counted? && docs[i].spec.count == 0)
      invariant Records(FirstDocs(docs[..n]), merged)
    {
      var record := WorkloadRecord(docs[n]);
      if record.Failure? {
        return Failure(record.error);
      }
      assert docs[..n + 1][..n] == docs[..n];
      if !HasId(docs[..n], docs[n]) {
        merged := merged + [record.value];
      }
    }
    assert docs[..|docs|] == docs;
    r := Success(merged);
  }

  // ----- Totals

  /** The requests, or the limits, of the workloads that are not transient. */
  function Steady(ws: seq<Record>, s: Section): seq<Vec> {
    if ws == [] then []
    else
      var n := |ws| - 1;
      Steady(ws[..n], s) + if ws[n].doc.Transient() then [] else [ws[n].Get(s)]
  }

  /** The same for one namespace. */
  function SteadyIn(ws: seq<Record>, namespace: string, s: Section): seq<Vec> {
    if ws == [] then []
    else
      var n := |ws| - 1;
      SteadyIn(ws[..n], namespace, s) +
      if ws[n].doc.Transient() || ws[n].doc.namespace != namespace then [] else [ws[n].Get(s)]
  }

  lemma {:induction false} SumUpdate(xs: seq<Vec>, i: nat, v: Vec)
    requires i < |xs|
    ensures Sum(xs[i := Plus(xs[i], v)]) == Plus(Sum(xs), v)
  {
    var n := |xs| - 1;
    var ys := xs[i := Plus(xs[i], v)];
    if i == n {
      assert ys[..n] == xs[..n];
    } else {
      SumUpdate(xs[..n], i, v);
      assert ys[..n] == xs[..n][i := Plus(xs[i], v)];
    }
  }

  /** What is added up for one namespace. */
  datatype Row = Row(workloads: nat, requests: Vec, limits: Vec) {
    function Get(s: Section): Vec { if s.Requests? then requests else limits }
  }

  /** The rows of the namespaces, in the order in which they turn up, and the totals. */
  datatype Summary = Summary(names: seq<string>, rows: seq<Row>, requests: Vec, limits: Vec) {
    function Get(s: Section): Vec { if s.Requests? then requests else limits }
  }

  function Column(rows: seq<Row>, s: Section): seq<Vec> {
    seq(|rows|, i requires 0 <= i < |rows| => rows[i].Get(s))
  }

  /** Each name once. */
  ghost predicate Indexed(sum: Summary) {
    |sum.names| == |sum.rows| && forall i, j | 0 <= i < j < |sum.names| :: sum.names[i] != sum.names[j]
  }

  /** One section of the summary: the total is the sum of the workloads and of the rows, and every row
      the sum of the workloads in its namespace. */
  ghost predicate SectionOf(ws: seq<Record>, sum: Summary, s: Section)
    requires Indexed(sum)
  {
    && sum.Get(s) == Sum(Steady(ws, s)) == Sum(Column(sum.rows, s))
    && (forall i | 0 <= i < |sum.names| :: sum.rows[i].Get(s) == Sum(SteadyIn(ws, sum.names[i], s)))
    && (forall i | 0 <= i < |sum.names| :: sum.rows[i].workloads == |SteadyIn(ws, sum.names[i], s)|)
    && (forall name :: name !in sum.names ==> SteadyIn(ws, name, s) == [])
  }

  ghost predicate SummaryOf(ws: seq<Record>, sum: Summary) {
    Indexed(sum) && SectionOf(ws, sum, Requests) && SectionOf(ws, sum, Limits)
  }

  lemma {:induction false} SteadySnoc(ws: seq<Record>, w: Record, s: Section)
    ensures Sum(Steady(ws + [w], s)) ==
            if w.doc.kind == Job || w.doc.kind == CronJob then Sum(Steady(ws, s))
            else Plus(Sum(Steady(ws, s)), w.Get(s))
  {
    assert (ws + [w])[..|ws|] == ws;
    assert Steady(ws, s) + [] == Steady(ws, s);
    SumSnoc(Steady(ws, s), w.Get(s));
  }

  lemma {:induction false} SteadyInSnoc(ws: seq<Record>, w: Record, name: string, s: Section)
    ensures var in' := w.doc.kind != Job && w.doc.kind != CronJob && w.doc.namespace == name;
            && Sum(SteadyIn(ws + [w], name, s)) ==
               (if in' then Plus(Sum(SteadyIn(ws, name, s)), w.Get(s)) else Sum(SteadyIn(ws, name, s)))
            && |SteadyIn(ws + [w], name, s)| == |SteadyIn(ws, name, s)| + if in' then 1 else 0
  {
    assert (ws + [w])[..|ws|] == ws;
    assert SteadyIn(ws, name, s) + [] == SteadyIn(ws, name, s);
    SumSnoc(SteadyIn(ws, name, s), w.Get(s));
  }

  function RowPlus(row: Row, w: Record): Row {
    Row(row.workloads + 1, Plus(row.requests, w.requests), Plus(row.limits, w.limits))
  }

  const NO_ROW := Row(0, ZERO, ZERO)

  /** Adding a workload to the summary of the workloads before it, in row `i`. */
  function Added(sum: Summary, w: Record, i: nat): Summary
    requires i <= |sum.names| == |sum.rows|
  {
    if w.doc.Transient() then sum
    else
      var more := if i < |sum.names| then sum
                  else sum.(names := sum.names + [w.doc.namespace], rows := sum.rows + [NO_ROW]);
      Summary(more.names, more.rows[i := RowPlus(more.rows[i], w)],
              Plus(more.requests, w.requests), Plus(more.limits, w.limits))
  }

  /** A row without workloads makes no difference. */
  lemma {:induction false} RowAdded(ws: seq<Record>, sum: Summary, name: string, s: Section)
    requires Indexed(sum) && name !in sum.names
    ensures var more := sum.(names := sum.names + [name], rows := sum.rows + [NO_ROW]);
            Indexed(more) && (SectionOf(ws, sum, s) ==> SectionOf(ws, more, s))
  {
    hide Steady, SteadyIn, Sum;
    SumSnoc(Column(sum.rows, s), ZERO);
    assert Column(sum.rows + [NO_ROW], s) == Column(sum.rows, s) + [ZERO];
    SumNone();
  }

  lemma {:induction false} RowUpdated(ws: seq<Record>, w: Record, sum: Summary, i: nat, s: Section)
    requires Indexed(sum) && i < |sum.names| && sum.names[i] == w.doc.namespace && !w.doc.Transient()
    ensures Indexed(Added(sum, w, i)) && (SectionOf(ws, sum, s) ==> SectionOf(ws + [w], Added(sum, w, i), s))
  {
    hide Steady, SteadyIn, Sum;
    SteadySnoc(ws, w, s);
    forall name {
      SteadyInSnoc(ws, w, name, s);
    }
    SumUpdate(Column(sum.rows, s), i, w.Get(s));
    assert Column(Added(sum, w, i).rows, s) == Column(sum.rows, s)[i := Plus(sum.rows[i].Get(s), w.Get(s))];
  }

  lemma {:induction false} TransientSkipped(ws: seq<Record>, w: Record, sum: Summary, s: Section)
    requires Indexed(sum) && w.doc.Transient()
    ensures SectionOf(ws, sum, s) ==> SectionOf(ws + [w], sum, s)
  {
    hide Steady, SteadyIn, Sum;
    SteadySnoc(ws, w, s);
    forall name {
      SteadyInSnoc(ws, w, name, s);
    }
  }

  lemma {:induction false} SummaryStep(ws: seq<Record>, w: Record, sum: Summary, i: nat, s: Section)
    requires Indexed(sum) && i <= |sum.names|
    requires i < |sum.names| ==> sum.names[i] == w.doc.namespace
    requires i == |sum.names| ==> w.doc.namespace !in sum.names
    ensures Indexed(Added(sum, w, i)) && (SectionOf(ws, sum, s) ==> SectionOf(ws + [w], Added(sum, w, i), s))
  {
    hide SectionOf;
    if w.doc.Transient() {
      TransientSkipped(ws, w, sum, s);
    } else if i < |sum.names| {
      RowUpdated(ws, w, sum, i, s);
    } else {
      var more := sum.(names := sum.names + [w.doc.namespace], rows := sum.rows + [NO_ROW]);
      RowAdded(ws, sum, w.doc.namespace, s);
      RowUpdated(ws, w, more, i, s);
    }
  }

  lemma {:induction false} SumNone()
    ensures Sum([]) == ZERO
  {
  }

  lemma {:induction false} SummaryNone()
    ensures SummaryOf([], Summary([], [], ZERO, ZERO))
  {
  }

  method Summarize(ws: seq<Record>) returns (sum: Summary)
    ensures SummaryOf(ws, sum)
  {
    hide SectionOf;
    sum := Summary([], [], ZERO, ZERO);
    assert ws[..0] == [];
    SummaryNone();
    for n := 0 to |ws|
      invariant SummaryOf(ws[..n], sum)
    {
      var w := ws[n];
      assert ws[..n + 1] == ws[..n] + [w];
      var i := IndexOf(sum.names, w.doc.namespace);
      SummaryStep(ws[..n], w, sum, i, Requests);
      SummaryStep(ws[..n], w, sum, i, Limits);
      if w.doc.Transient() {
        continue;
      }
      var names, rows := sum.names, sum.rows;
      if i == |names| {
        names, rows := names + [w.doc.namespace], rows + [NO_ROW];
      }
      rows := rows[i := RowPlus(rows[i], w)];
      sum := Summary(names, rows, Plus(sum.requests, w.requests), Plus(sum.limits, w.limits));
    }
    assert ws[..|ws|] == ws;
  }

  method IndexOf(names: seq<string>, name: string) returns (i: nat)
    ensures i <= |names| && (i < |names| ==> names[i] == name) && name !in names[..i]
    ensures i < |names| <==> name in names
  {
    i := 0;
    while i < |names| && names[i] != name
      invariant i <= |names| && name !in names[..i]
    {
      i := i + 1;
    }
  }
}
