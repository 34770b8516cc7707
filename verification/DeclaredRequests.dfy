/** The sizing report in terms of the amounts that are declared: what is counted for a container, a pod and
    a workload, field by field. */
module DeclaredRequests {
  import opened Wrappers
  import opened Sizing
  import opened Placement

  // ----- A missing request

  /** The request, the limit where there is no request, and nothing where there is neither. */
  ghost predicate Counts(request: Option<amount>, limit: Option<amount>, x: Option<amount>) {
    && x.Some?
    && x.value == if request.Some? then request.value else if limit.Some? then limit.value else 0.0
  }

  /** `r'` is `r` with every request written out as it counts. */
  ghost predicate WrittenOut(r: Resources, r': Resources) {
    && r'.limits == r.limits
    && Counts(r.requests.cpu, r.limits.cpu, r'.requests.cpu)
    && Counts(r.requests.memory, r.limits.memory, r'.requests.memory)
  }

  ghost predicate AllWrittenOut(rs: seq<Resources>, rs': seq<Resources>) {
    |rs'| == |rs| && forall i | 0 <= i < |rs| :: WrittenOut(rs[i], rs'[i])
  }

  lemma {:induction false} SameAmounts(rs: seq<Resources>, rs': seq<Resources>)
    requires AllWrittenOut(rs, rs')
    ensures EffectiveAll(rs) == EffectiveAll(rs') && LimitAll(rs) == LimitAll(rs')
  {
    forall i | 0 <= i < |rs| ensures EffectiveVec(rs[i]) == EffectiveVec(rs'[i]) && LimitVec(rs[i]) == LimitVec(rs'[i]) {
      assert WrittenOut(rs[i], rs'[i]);
    }
  }

  ghost predicate PodWrittenOut(pod: PodSpec, pod': PodSpec) {
    AllWrittenOut(pod.initContainers, pod'.initContainers) && AllWrittenOut(pod.containers, pod'.containers)
  }

  /** What a pod requests does not change when its requests are written out. */
  lemma {:induction false} SamePod(pod: PodSpec, pod': PodSpec)
    requires PodWrittenOut(pod, pod')
    ensures PodRequests(pod) == PodRequests(pod') && Sum(LimitAll(pod.containers)) == Sum(LimitAll(pod'.containers))
  {
    hide EffectiveAll, LimitAll, AllWrittenOut, Sum, Peak;
    SameAmounts(pod.initContainers, pod'.initContainers);
    SameAmounts(pod.containers, pod'.containers);
  }

  ghost predicate SpecWrittenOut(spec: Spec, spec': Spec) {
    match (spec, spec')
    case (Pods(n, pod), Pods(n', pod')) => n' == n && PodWrittenOut(pod, pod')
    case (Counted(n, r), Counted(n', r')) => n' == n && WrittenOut(r, r')
    case (Scattered(rs), Scattered(rs')) => AllWrittenOut(rs, rs')
    case (Managers(parts), Managers(parts')) => parts' == parts
    case _ => false
  }

  ghost predicate DocWrittenOut(doc: Doc, doc': Doc) {
    doc'.kind == doc.kind && doc'.namespace == doc.namespace && doc'.name == doc.name && SpecWrittenOut(doc.spec, doc'.spec)
  }

  /** Nor does the record of a workload. */
  lemma {:induction false} SameWorkload(doc: Doc, doc': Doc)
    requires DocWrittenOut(doc, doc')
    ensures PodsOf(doc) == PodsOf(doc') && LimitsOf(doc) == LimitsOf(doc') && PodRequest(doc) == PodRequest(doc')
    ensures forall r: Record :: RecordOf(doc, r.(doc := doc)) <==> RecordOf(doc', r.(doc := doc'))
  {
    hide AllWrittenOut, EffectiveAll, LimitAll, Sum, Copies, PodRequests, ManagerPods;
    match (doc.spec, doc'.spec) {
      case (Pods(_, pod), Pods(_, pod')) => SamePod(pod, pod');
      case (Counted(_, r), Counted(_, r')) => SameResources(r, r');
      case (Scattered(rs), Scattered(rs')) => SameAmounts(rs, rs');
      case (Managers(_), Managers(_)) =>
    }
  }

  lemma {:induction false} SameResources(r: Resources, r': Resources)
    requires WrittenOut(r, r')
    ensures EffectiveVec(r) == EffectiveVec(r') && LimitVec(r) == LimitVec(r')
  {
  }

  ghost predicate DocsWrittenOut(docs: seq<Doc>, docs': seq<Doc>) {
    |docs'| == |docs| && forall i | 0 <= i < |docs| :: DocWrittenOut(docs[i], docs'[i])
  }

  lemma {:induction false} SamePods(docs: seq<Doc>, docs': seq<Doc>)
    requires DocsWrittenOut(docs, docs')
    ensures AllPods(docs) == AllPods(docs')
  {
    if docs != [] {
      var n := |docs| - 1;
      SamePods(docs[..n], docs'[..n]);
      SameWorkload(docs[n], docs'[n]);
    }
  }

  /** Nor does the verdict on a render. */
  lemma {:induction false} SameVerdict(profile: Profile, docs: seq<Doc>, docs': seq<Doc>, violations: seq<Violation>)
    requires DocsWrittenOut(docs, docs')
    ensures IsVerdict(profile, docs, violations) <==> IsVerdict(profile, docs', violations)
  {
    hide AllPods, PodsOf, PodRequest, Exceeds, Sum, Fits;
    SamePods(docs, docs');
    forall i | 0 <= i < |docs|
      ensures docs'[i].Id() == docs[i].Id() && docs'[i].Transient() == docs[i].Transient()
      ensures PodRequest(docs'[i]) == PodRequest(docs[i]) && PodsOf(docs'[i]) == PodsOf(docs[i])
    {
      assert DocWrittenOut(docs[i], docs'[i]);
      SameWorkload(docs[i], docs'[i]);
    }
  }

  // ----- The amounts, one field at a time

  function AddUp(xs: seq<real>): real { if xs == [] then 0.0 else xs[0] + AddUp(xs[1..]) }

  lemma {:induction false} AddUpNext(xs: seq<real>, x: real)
    ensures AddUp(xs + [x]) == AddUp(xs) + x
  {
    if xs == [] {
      assert [x][1..] == [] && [] + [x] == [x];
    } else {
      AddUpNext(xs[1..], x);
      assert (xs + [x])[1..] == xs[1..] + [x];
    }
  }

  /** The sum of amounts is the sum of each field. */
  lemma {:induction false} SumFields(xs: seq<Vec>, cpus: seq<real>, memories: seq<real>)
    requires |cpus| == |memories| == |xs|
    requires forall i | 0 <= i < |xs| :: xs[i] == Vec(cpus[i], memories[i])
    ensures Sum(xs) == Vec(AddUp(cpus), AddUp(memories))
  {
    if xs != [] {
      var n := |xs| - 1;
      SumFields(xs[..n], cpus[..n], memories[..n]);
      AddUpNext(cpus[..n], cpus[n]);
      AddUpNext(memories[..n], memories[n]);
      assert cpus == cpus[..n] + [cpus[n]] && memories == memories[..n] + [memories[n]];
    }
  }

  ghost predicate Given(rs: seq<Resources>) {
    forall i | 0 <= i < |rs| :: rs[i].requests.cpu.Some? && rs[i].requests.memory.Some?
  }

  function Cpus(rs: seq<Resources>): seq<real>
    requires Given(rs)
  {
    seq(|rs|, i requires 0 <= i < |rs| => rs[i].requests.cpu.value)
  }

  function Memories(rs: seq<Resources>): seq<real>
    requires Given(rs)
  {
    seq(|rs|, i requires 0 <= i < |rs| => rs[i].requests.memory.value)
  }

  /** `x` is the largest of `a` and of `bs`. */
  ghost predicate IsLargest(x: real, a: real, bs: seq<real>) {
    && x >= a && (forall i | 0 <= i < |bs| :: x >= bs[i])
    && (x == a || exists i | 0 <= i < |bs| :: x == bs[i])
  }

  lemma {:induction false} GivenSum(rs: seq<Resources>)
    requires Given(rs)
    ensures Sum(EffectiveAll(rs)) == Vec(AddUp(Cpus(rs)), AddUp(Memories(rs)))
    ensures AddUp(Cpus(rs)) >= 0.0 && AddUp(Memories(rs)) >= 0.0
  {
    SumFields(EffectiveAll(rs), Cpus(rs), Memories(rs));
    NotNegative(Cpus(rs));
    NotNegative(Memories(rs));
  }

  lemma {:induction false} NotNegative(xs: seq<real>)
    requires forall i | 0 <= i < |xs| :: xs[i] >= 0.0
    ensures AddUp(xs) >= 0.0
  {
    if xs != [] {
      NotNegative(xs[1..]);
    }
  }

  /** The peak of amounts that are not negative is the largest of them, or nothing. */
  lemma {:induction false} PeakIs(xs: seq<Vec>, cpus: seq<real>, memories: seq<real>)
    requires |cpus| == |memories| == |xs|
    requires forall i | 0 <= i < |xs| :: xs[i] == Vec(cpus[i], memories[i])
    ensures IsLargest(Peak(xs).cpu, 0.0, cpus) && IsLargest(Peak(xs).memory, 0.0, memories)
  {
    if xs != [] {
      var n := |xs| - 1;
      PeakIs(xs[..n], cpus[..n], memories[..n]);
      assert forall i | 0 <= i < n :: cpus[i] == cpus[..n][i] && memories[i] == memories[..n][i];
    }
  }

  /** A pod requests, of each resource, the largest of what its containers request together and of what
      each init container requests. */
  lemma {:induction false} PodIs(pod: PodSpec)
    requires Given(pod.containers) && Given(pod.initContainers)
    ensures IsLargest(PodRequests(pod).cpu, AddUp(Cpus(pod.containers)), Cpus(pod.initContainers))
    ensures IsLargest(PodRequests(pod).memory, AddUp(Memories(pod.containers)), Memories(pod.initContainers))
  {
    GivenSum(pod.containers);
    var inits := pod.initContainers;
    PeakIs(EffectiveAll(inits), Cpus(inits), Memories(inits));
    hide Sum, AddUp, Peak, EffectiveAll, Cpus, Memories;
  }

  /** An amount, nothing where none is declared. */
  function Declared(x: Option<amount>): real { if x.Some? then x.value else 0.0 }

  /** The CPU of a Flink manager, as often as it runs. */
  function ManagerCpu(part: (nat, Option<Quantities>)): real {
    if part.1.None? then 0.0 else Declared(part.1.value.cpu) * part.0 as real
  }

  function ManagerMemory(part: (nat, Option<Quantities>)): real {
    if part.1.None? then 0.0 else Declared(part.1.value.memory) * part.0 as real
  }

  function ManagerCpus(parts: seq<(nat, Option<Quantities>)>): seq<real> {
    seq(|parts|, i requires 0 <= i < |parts| => ManagerCpu(parts[i]))
  }

  function ManagerMemories(parts: seq<(nat, Option<Quantities>)>): seq<real> {
    seq(|parts|, i requires 0 <= i < |parts| => ManagerMemory(parts[i]))
  }

  lemma {:induction false} ManagerIs(part: (nat, Option<Quantities>))
    ensures Times(ManagerVec(part.1), part.0) == Vec(ManagerCpu(part), ManagerMemory(part))
  {
  }

  lemma {:induction false} ManagersNext(front: seq<(nat, Option<Quantities>)>, part: (nat, Option<Quantities>))
    ensures AddUp(ManagerCpus(front + [part])) == AddUp(ManagerCpus(front)) + ManagerCpu(part)
    ensures AddUp(ManagerMemories(front + [part])) == AddUp(ManagerMemories(front)) + ManagerMemory(part)
  {
    hide ManagerCpu, ManagerMemory;
    AddUpNext(ManagerCpus(front), ManagerCpu(part));
    AddUpNext(ManagerMemories(front), ManagerMemory(part));
    hide AddUp;
    assert ManagerCpus(front + [part]) == ManagerCpus(front) + [ManagerCpu(part)];
    assert ManagerMemories(front + [part]) == ManagerMemories(front) + [ManagerMemory(part)];
  }

  lemma {:induction false} ManagersAre(parts: seq<(nat, Option<Quantities>)>)
    ensures Sum(ManagerPods(parts)) == Vec(AddUp(ManagerCpus(parts)), AddUp(ManagerMemories(parts)))
  {
    if parts == [] {
      assert ManagerCpus(parts) == [] && ManagerMemories(parts) == [];
    } else {
      var front, part := parts[..|parts| - 1], parts[|parts| - 1];
      assert parts == front + [part];
      SumConcat(ManagerPods(front), Copies(ManagerVec(part.1), part.0));
      assert ManagerPods(parts) == ManagerPods(front) + Copies(ManagerVec(part.1), part.0);
      hide Sum, AddUp, ManagerCpu, ManagerMemory, ManagerCpus, ManagerMemories, Times, ManagerVec, ManagerPods, Copies;
      var x, y := Sum(ManagerPods(front)), Sum(Copies(ManagerVec(part.1), part.0));
      assert Sum(ManagerPods(parts)) == Plus(x, y);
      ManagersAre(front);
      SumCopies(ManagerVec(part.1), part.0);
      ManagerIs(part);
      assert y == Vec(ManagerCpu(part), ManagerMemory(part));
      ManagersNext(front, part);
    }
  }

  /** `total` is `x` taken `n` times. */
  predicate IsTaken(total: Vec, n: nat, cpu: real, memory: real) {
    total == Vec(cpu * n as real, memory * n as real)
  }

  /** What the pods of a workload request together: the pod as often as it runs, a job once; the resource
      block as often as there are instances; all the blocks that were found; all managers. */
  ghost predicate RequestsTogether(doc: Doc, total: Vec) {
    match doc.spec
    case Pods(n, pod) =>
      IsTaken(total, if doc.kind.Job? || doc.kind.CronJob? then 1 else n, PodRequests(pod).cpu, PodRequests(pod).memory)
    case Counted(n, r) =>
      r.requests.cpu.Some? && r.requests.memory.Some? ==>
        IsTaken(total, n, r.requests.cpu.value, r.requests.memory.value)
    case Scattered(rs) => Given(rs) ==> total == Vec(AddUp(Cpus(rs)), AddUp(Memories(rs)))
    case Managers(parts) => total == Vec(AddUp(ManagerCpus(parts)), AddUp(ManagerMemories(parts)))
  }

  lemma {:induction false} WorkloadIs(doc: Doc)
    ensures RequestsTogether(doc, Sum(PodsOf(doc)))
  {
    hide Sum, AddUp, EffectiveAll, PodRequests, ManagerPods, ManagerCpus, ManagerMemories, Cpus, Memories, Given;
    match doc.spec {
      case Pods(n, pod) => SumCopies(PodRequests(pod), if doc.Transient() then 1 else n);
      case Counted(n, r) => SumCopies(EffectiveVec(r), n);
      case Scattered(rs) =>
        if Given(rs) {
          GivenSum(rs);
        }
      case Managers(parts) => ManagersAre(parts);
    }
  }

  function CpuLimits(rs: seq<Resources>): seq<real> {
    seq(|rs|, i requires 0 <= i < |rs| => Declared(rs[i].limits.cpu))
  }

  function MemoryLimits(rs: seq<Resources>): seq<real> {
    seq(|rs|, i requires 0 <= i < |rs| => Declared(rs[i].limits.memory))
  }

  /** Limits add up as they are declared; a missing one counts as nothing. */
  lemma {:induction false} LimitsAre(rs: seq<Resources>)
    ensures Sum(LimitAll(rs)) == Vec(AddUp(CpuLimits(rs)), AddUp(MemoryLimits(rs)))
  {
    SumFields(LimitAll(rs), CpuLimits(rs), MemoryLimits(rs));
  }

  /** The same for the limits; those of the Flink managers are their requests. */
  ghost predicate LimitsTogether(doc: Doc, total: Vec) {
    match doc.spec
    case Pods(n, pod) =>
      IsTaken(total, if doc.kind.Job? || doc.kind.CronJob? then 1 else n,
              AddUp(CpuLimits(pod.containers)), AddUp(MemoryLimits(pod.containers)))
    case Counted(n, r) => IsTaken(total, n, Declared(r.limits.cpu), Declared(r.limits.memory))
    case Scattered(rs) => total == Vec(AddUp(CpuLimits(rs)), AddUp(MemoryLimits(rs)))
    case Managers(parts) => total == Vec(AddUp(ManagerCpus(parts)), AddUp(ManagerMemories(parts)))
  }

  lemma {:induction false} LimitsTogetherIs(doc: Doc)
    ensures LimitsTogether(doc, Sum(LimitsOf(doc)))
  {
    hide Sum, AddUp, LimitAll, ManagerPods, ManagerCpus, ManagerMemories, CpuLimits, MemoryLimits;
    match doc.spec {
      case Pods(n, pod) =>
        SumCopies(Sum(LimitAll(pod.containers)), if doc.Transient() then 1 else n);
        LimitsAre(pod.containers);
      case Counted(n, r) => SumCopies(LimitVec(r), n);
      case Scattered(rs) => LimitsAre(rs);
      case Managers(parts) => ManagersAre(parts);
    }
  }

  // ----- Which workloads count

  /** `ks` are the positions of the first `n` documents that no document before them of the same kind,
      namespace and name replaces, in order. */
  ghost predicate AreFirsts(docs: seq<Doc>, n: nat, ks: seq<nat>) {
    && n <= |docs| && (forall i, j | 0 <= i < j < |ks| :: ks[i] < ks[j])
    && (forall k: nat :: k in ks <==> k < n && IsFirst(docs, k))
  }

  ghost predicate IsFirst(docs: seq<Doc>, k: nat) {
    k < |docs| && forall j | 0 <= j < k ::
      docs[j].kind != docs[k].kind || docs[j].namespace != docs[k].namespace || docs[j].name != docs[k].name
  }

  lemma {:induction false} FirstDocsAre(docs: seq<Doc>, n: nat) returns (ks: seq<nat>)
    requires n <= |docs|
    ensures AreFirsts(docs, n, ks) && |FirstDocs(docs[..n])| == |ks|
    ensures forall i | 0 <= i < |ks| :: ks[i] < n && FirstDocs(docs[..n])[i] == docs[ks[i]]
  {
    if n == 0 {
      ks := [];
    } else {
      var front := FirstDocsAre(docs, n - 1);
      assert docs[..n][..n - 1] == docs[..n - 1];
      assert IsFirst(docs, n - 1) <==> !HasId(docs[..n - 1], docs[n - 1]);
      hide IsFirst, HasId;
      if IsFirst(docs, n - 1) {
        ks := front + [n - 1];
        NextFirst(docs, n - 1, front, ks);
      } else {
        ks := front;
      }
    }
  }

  lemma {:induction false} NextFirst(docs: seq<Doc>, n: nat, front: seq<nat>, ks: seq<nat>)
    requires AreFirsts(docs, n, front) && ks == front + [n] && n < |docs| && IsFirst(docs, n)
    ensures AreFirsts(docs, n + 1, ks)
  {
    hide IsFirst;
    forall i | 0 <= i < |front| ensures front[i] < n {
      assert front[i] in front;
    }
    forall k: nat ensures k in ks <==> k in front || k == n {
    }
  }

  /** Every workload but a Job and a CronJob adds its pods to the render. */
  lemma {:induction false} RenderGrows(docs: seq<Doc>, doc: Doc)
    ensures Sum(AllPods(docs + [doc])) ==
            if doc.kind == Job || doc.kind == CronJob then Sum(AllPods(docs))
            else Vec(Sum(AllPods(docs)).cpu + Sum(PodsOf(doc)).cpu, Sum(AllPods(docs)).memory + Sum(PodsOf(doc)).memory)
  {
    AllPodsSnoc(docs, doc);
  }

  /** The capacity is that of one master and all workers, a CPU being 1000 millicores. */
  lemma {:induction false} CapacityIs(profile: Profile)
    ensures profile.CpuCapacity() == 1000 * (profile.masterCpus + profile.workers * profile.workerCpus)
    ensures profile.MemoryCapacity() == profile.masterMemory + profile.workers * profile.workerMemory
    ensures profile.Worker() == Vec(1000.0 * profile.workerCpus as real, profile.workerMemory as real)
  {
  }
}
