/** What the verdict of the sizing report means for placing the pods on the machines of a profile. */
module Placement {
  import opened Wrappers
  import opened Sizing

  // ----- The verdict

  /** A profile: one master and some workers. */
  datatype Profile = Profile(masterCpus: nat, masterMemory: nat, workerCpus: nat, workerMemory: nat, workers: nat) {
    function CpuCapacity(): int { masterCpus * 1000 + workers * workerCpus * 1000 }
    function MemoryCapacity(): int { masterMemory + workers * workerMemory }
    function Master(): Vec { Vec((masterCpus * 1000) as real, masterMemory as real) }
    function Worker(): Vec { Vec((workerCpus * 1000) as real, workerMemory as real) }
    function Machines(): seq<Vec> { [Master()] + Copies(Worker(), workers) }
  }

  /** The nearest integer, and the even one of two. */
  function Nearest(y: real): int {
    var k := y.Floor;
    if y - (k as real) < 0.5 then k
    else if y - (k as real) > 0.5 then k + 1
    else if k % 2 == 0 then k else k + 1
  }

  /** `_round` in tenths: a whole number stays, anything else is rounded to one decimal. */
  function RoundedTenths(x: real): int {
    if x == (x.Floor as real) then 10 * x.Floor else Nearest(x * 10.0)
  }

  predicate Over(x: real, capacity: int) { RoundedTenths(x) > 10 * capacity }

  datatype Violation = CpuOver | MemoryOver | PodOver(id: (Kind, string, string))

  predicate Exceeds(x: Vec, machine: Vec) { x.memory > machine.memory || x.cpu > machine.cpu }

  predicate TooBig(w: Record, profile: Profile) { !w.doc.Transient() && Exceeds(w.podRequests, profile.Worker()) }

  /** Exactly the violations: the totals are compared after rounding, the pods as they are. */
  ghost predicate AreViolations(profile: Profile, total: Vec, ws: seq<Record>, violations: seq<Violation>) {
    && (CpuOver in violations <==> Over(total.cpu, profile.CpuCapacity()))
    && (MemoryOver in violations <==> Over(total.memory, profile.MemoryCapacity()))
    && forall id :: PodOver(id) in violations <==>
         exists i | 0 <= i < |ws| :: ws[i].doc.Id() == id && TooBig(ws[i], profile)
  }

  method Evaluate(profile: Profile, total: Vec, ws: seq<Record>) returns (violations: seq<Violation>)
    ensures AreViolations(profile, total, ws, violations)
  {
    violations := [];
    if Over(total.cpu, profile.CpuCapacity()) {
      violations := violations + [CpuOver];
    }
    if Over(total.memory, profile.MemoryCapacity()) {
      violations := violations + [MemoryOver];
    }
    for n := 0 to |ws|
      invariant CpuOver in violations <==> Over(total.cpu, profile.CpuCapacity())
      invariant MemoryOver in violations <==> Over(total.memory, profile.MemoryCapacity())
      invariant forall id :: PodOver(id) in violations <==>
                  exists i | 0 <= i < n :: ws[i].doc.Id() == id && TooBig(ws[i], profile)
    {
      hide Over, TooBig;
      if TooBig(ws[n], profile) {
        violations := violations + [PodOver(ws[n].doc.Id())];
      }
    }
  }

  // ----- Placements

  /** What the pods assigned to machine `v` request together. */
  function Load(pods: seq<Vec>, at: seq<nat>, v: nat): Vec
    requires |at| == |pods|
  {
    if pods == [] then ZERO
    else
      var n := |pods| - 1;
      Plus(Load(pods[..n], at[..n], v), if at[n] == v then pods[n] else ZERO)
  }

  /** `at` puts every pod on a machine, and no machine gets more than it has. */
  ghost predicate Fits(pods: seq<Vec>, machines: seq<Vec>, at: seq<nat>) {
    && |at| == |pods| && (forall i | 0 <= i < |at| :: at[i] < |machines|)
    && forall v, f | 0 <= v < |machines| :: Load(pods, at, v).Get(f) <= machines[v].Get(f)
  }

  function Loads(pods: seq<Vec>, at: seq<nat>, m: nat): (r: seq<Vec>)
    requires |at| == |pods|
  {
    seq(m, v requires 0 <= v < m => Load(pods, at, v))
  }

  lemma {:induction false} SumZeros(xs: seq<Vec>)
    requires forall i | 0 <= i < |xs| :: xs[i] == ZERO
    ensures Sum(xs) == ZERO
  {
    if xs != [] {
      SumZeros(xs[..|xs| - 1]);
    }
  }

  /** Nothing is lost by placing pods: the loads of the machines add up to the pods. */
  lemma {:induction false} LoadsSum(pods: seq<Vec>, at: seq<nat>, m: nat)
    requires |at| == |pods| && forall i | 0 <= i < |at| :: at[i] < m
    ensures Sum(Loads(pods, at, m)) == Sum(pods)
  {
    if pods == [] {
      SumZeros(Loads(pods, at, m));
    } else {
      var n := |pods| - 1;
      LoadsSum(pods[..n], at[..n], m);
      var before := Loads(pods[..n], at[..n], m);
      SumUpdate(before, at[n], pods[n]);
      assert Loads(pods, at, m) == before[at[n] := Plus(before[at[n]], pods[n])];
    }
  }

  lemma {:induction false} SumMonotone(xs: seq<Vec>, ys: seq<Vec>, f: Field)
    requires |xs| == |ys| && forall i | 0 <= i < |xs| :: xs[i].Get(f) <= ys[i].Get(f)
    ensures Sum(xs).Get(f) <= Sum(ys).Get(f)
  {
    if xs != [] {
      SumMonotone(xs[..|xs| - 1], ys[..|ys| - 1], f);
    }
  }

  /** What fits does not request more than the machines have together. */
  lemma {:induction false} FitsWithin(pods: seq<Vec>, machines: seq<Vec>, at: seq<nat>, f: Field)
    requires Fits(pods, machines, at)
    ensures Sum(pods).Get(f) <= Sum(machines).Get(f)
  {
    hide Load, Sum;
    LoadsSum(pods, at, |machines|);
    SumMonotone(Loads(pods, at, |machines|), machines, f);
  }

  lemma {:induction false} SumOne(x: Vec)
    ensures Sum([x]) == x
  {
    assert [x][..0] == [];
  }

  lemma {:induction false} MachinesSum(profile: Profile)
    ensures Sum(profile.Machines()) == Vec(profile.CpuCapacity() as real, profile.MemoryCapacity() as real)
  {
    hide Sum;
    SumConcat([profile.Master()], Copies(profile.Worker(), profile.workers));
    SumCopies(profile.Worker(), profile.workers);
    SumOne(profile.Master());
  }

  ghost predicate NonNegative(xs: seq<Vec>) { forall i | 0 <= i < |xs| :: xs[i].cpu >= 0.0 && xs[i].memory >= 0.0 }

  lemma {:induction false} LoadNonNegative(pods: seq<Vec>, at: seq<nat>, v: nat, f: Field)
    requires |at| == |pods| && NonNegative(pods)
    ensures Load(pods, at, v).Get(f) >= 0.0
  {
    if pods != [] {
      LoadNonNegative(pods[..|pods| - 1], at[..|pods| - 1], v, f);
    }
  }

  /** A machine carries at least each of its pods. */
  lemma {:induction false} LoadAtLeast(pods: seq<Vec>, at: seq<nat>, i: nat, f: Field)
    requires |at| == |pods| && i < |pods| && NonNegative(pods)
    ensures Load(pods, at, at[i]).Get(f) >= pods[i].Get(f)
  {
    var n := |pods| - 1;
    if i == n {
      LoadNonNegative(pods[..n], at[..n], at[i], f);
    } else {
      LoadAtLeast(pods[..n], at[..n], i, f);
    }
  }

  /** What fits, fits pod by pod. */
  lemma {:induction false} FitsEach(pods: seq<Vec>, machines: seq<Vec>, at: seq<nat>, k: nat)
    requires Fits(pods, machines, at) && NonNegative(pods) && k < |pods|
    ensures pods[k].cpu <= machines[at[k]].cpu && pods[k].memory <= machines[at[k]].memory
  {
    LoadAtLeast(pods, at, k, Cpu);
    LoadAtLeast(pods, at, k, Memory);
    assert Load(pods, at, at[k]).Get(Cpu) <= machines[at[k]].Get(Cpu);
    assert Load(pods, at, at[k]).Get(Memory) <= machines[at[k]].Get(Memory);
  }

  // ----- The pods of a render

  /** The pods of all steady workloads. */
  function AllPods(docs: seq<Doc>): seq<Vec> {
    if docs == [] then []
    else
      var n := |docs| - 1;
      AllPods(docs[..n]) + if docs[n].Transient() then [] else PodsOf(docs[n])
  }

  lemma {:induction false} AllPodsSnoc(docs: seq<Doc>, doc: Doc)
    ensures Sum(AllPods(docs + [doc])) ==
            if doc.Transient() then Sum(AllPods(docs)) else Plus(Sum(AllPods(docs)), Sum(PodsOf(doc)))
  {
    hide PodsOf, Sum;
    assert (docs + [doc])[..|docs|] == docs;
    assert AllPods(docs) + [] == AllPods(docs);
    SumConcat(AllPods(docs), PodsOf(doc));
  }

  lemma {:induction false} AllPodsSum(docs: seq<Doc>, rs: seq<Record>)
    requires Records(docs, rs)
    ensures Sum(AllPods(docs)) == Sum(Steady(rs, Requests))
  {
    hide PodsOf, Sum;
    if docs != [] {
      hide AllPods, Steady;
      var n := |docs| - 1;
      AllPodsSum(docs[..n], rs[..n]);
      assert RecordOf(docs[n], rs[n]);
      AllPodsSnoc(docs[..n], docs[n]);
      SteadySnoc(rs[..n], rs[n], Requests);
      assert docs == docs[..n] + [docs[n]] && rs == rs[..n] + [rs[n]];
    }
  }

  lemma {:induction false} PodIncluded(docs: seq<Doc>, i: nat, x: Vec)
    requires i < |docs| && !docs[i].Transient() && x in PodsOf(docs[i])
    ensures x in AllPods(docs)
  {
    if i < |docs| - 1 {
      PodIncluded(docs[..|docs| - 1], i, x);
    }
  }

  lemma {:induction false} PeakNonNegative(xs: seq<Vec>)
    requires NonNegative(xs)
    ensures Peak(xs).cpu >= 0.0 && Peak(xs).memory >= 0.0
  {
    if xs != [] {
      PeakNonNegative(xs[..|xs| - 1]);
    }
  }

  lemma {:induction false} ManagersNonNegative(parts: seq<(nat, Option<Quantities>)>)
    ensures NonNegative(ManagerPods(parts))
  {
    if parts != [] {
      ManagersNonNegative(parts[..|parts| - 1]);
    }
  }

  lemma {:induction false} PodsNonNegative(doc: Doc)
    ensures NonNegative(PodsOf(doc))
  {
    match doc.spec {
      case Pods(n, pod) => PeakNonNegative(EffectiveAll(pod.initContainers));
      case Counted(n, resources) =>
      case Scattered(found) =>
      case Managers(parts) => ManagersNonNegative(parts);
    }
  }

  lemma {:induction false} AllPodsNonNegative(docs: seq<Doc>)
    ensures NonNegative(AllPods(docs))
  {
    if docs != [] {
      AllPodsNonNegative(docs[..|docs| - 1]);
      PodsNonNegative(docs[|docs| - 1]);
    }
  }

  // ----- What the verdict means

  /** The rounded comparison flags a total exactly when it exceeds the capacity by more than 1/20. */
  lemma {:induction false} RoundingSlack(x: real, c: int)
    ensures Over(x, c) <==> x > c as real + 0.05
  {
    if x == x.Floor as real {
    } else {
      FractionOver(x, x * 10.0, c);
    }
  }

  lemma {:induction false} FractionOver(x: real, y: real, c: int)
    requires x != x.Floor as real && y == x * 10.0
    ensures Over(x, c) <==> x > c as real + 0.05
  {
    hide Nearest;
    assert RoundedTenths(x) == Nearest(y);
    TenthsSlack(y, c);
  }

  lemma {:induction false} TenthsSlack(y: real, c: int)
    ensures Nearest(y) > 10 * c <==> y > (10 * c) as real + 0.5
  {
    hide Nearest;
    EvenSlack(y, 10 * c, 5 * c);
  }

  lemma {:induction false} EvenSlack(y: real, m: int, half: int)
    requires m == 2 * half
    ensures Nearest(y) > m <==> y > m as real + 0.5
  {
    var k := y.Floor;
    if k < m {
      assert y < (k + 1) as real <= m as real;
    } else if k > m {
      assert y >= k as real >= (m + 1) as real;
    }
  }

  /** OVERSUBSCRIBED is sound: when the report flags the totals of the documents, no placement of their
      pods on the machines exists. It misses an overload of at most 1/20 millicore or MiB. */
  lemma {:induction false} TotalsSound(profile: Profile, docs: seq<Doc>, rs: seq<Record>, total: Vec, at: seq<nat>)
    requires Records(docs, rs) && total == Sum(Steady(rs, Requests))
    ensures total.cpu > profile.CpuCapacity() as real || total.memory > profile.MemoryCapacity() as real ==>
            !Fits(AllPods(docs), profile.Machines(), at)
    ensures Over(total.cpu, profile.CpuCapacity()) <==> total.cpu > profile.CpuCapacity() as real + 0.05
    ensures Over(total.memory, profile.MemoryCapacity()) <==>
            total.memory > profile.MemoryCapacity() as real + 0.05
  {
    AllPodsSum(docs, rs);
    MachinesSum(profile);
    RoundingSlack(total.cpu, profile.CpuCapacity());
    RoundingSlack(total.memory, profile.MemoryCapacity());
    if Fits(AllPods(docs), profile.Machines(), at) {
      FitsWithin(AllPods(docs), profile.Machines(), at, Cpu);
      FitsWithin(AllPods(docs), profile.Machines(), at, Memory);
    }
  }

  // ----- What a flag on a workload means

  /** Some single pod of the workload is larger than a worker. */
  ghost predicate BigPod(doc: Doc, profile: Profile) {
    exists i | 0 <= i < |PodsOf(doc)| :: Exceeds(PodsOf(doc)[i], profile.Worker())
  }

  /** The master is no larger than a worker. */
  predicate WorkersLead(profile: Profile) {
    profile.masterCpus <= profile.workerCpus && profile.masterMemory <= profile.workerMemory
  }

  lemma {:induction false} SumAtLeast(xs: seq<Vec>, i: nat)
    requires NonNegative(xs) && i < |xs|
    ensures Sum(xs).cpu >= xs[i].cpu && Sum(xs).memory >= xs[i].memory
    ensures Sum(xs[..|xs| - 1]).cpu >= 0.0 && Sum(xs[..|xs| - 1]).memory >= 0.0
  {
    var p := xs[..|xs| - 1];
    if i < |p| {
      SumAtLeast(p, i);
    } else if p != [] {
      SumAtLeast(p, 0);
    }
  }

  /** Which workloads are flagged: all that have a pod larger than a worker. Where the pods are equal, a
      workload without replicas is flagged too; where they are not, one whose pods exceed a worker only
      together. */
  lemma {:induction false} FlaggedWhen(profile: Profile, doc: Doc, r: Record)
    requires RecordOf(doc, r) && !doc.Transient()
    ensures BigPod(doc, profile) ==> TooBig(r, profile)
    ensures EqualPods(doc) ==> (BigPod(doc, profile) <==> TooBig(r, profile) && r.replicas > 0)
    ensures !EqualPods(doc) ==> (TooBig(r, profile) <==> Exceeds(Sum(PodsOf(doc)), profile.Worker()))
  {
    hide Sum, PodRequests, EffectiveVec;
    var pods := PodsOf(doc);
    PodsNonNegative(doc);
    if EqualPods(doc) {
      assert forall i | 0 <= i < |pods| :: pods[i] == PodRequest(doc);
      assert |pods| > 0 && Exceeds(PodRequest(doc), profile.Worker()) ==> Exceeds(pods[0], profile.Worker());
    } else {
      forall i | 0 <= i < |pods| && Exceeds(pods[i], profile.Worker()) ensures Exceeds(Sum(pods), profile.Worker()) {
        SumAtLeast(pods, i);
      }
    }
  }

  /** A pod larger than a worker rules out every placement of the render, whatever else is in it. */
  lemma {:induction false} BigPodSound(profile: Profile, docs: seq<Doc>, i: nat, at: seq<nat>)
    requires WorkersLead(profile) && i < |docs| && !docs[i].Transient() && BigPod(docs[i], profile)
    ensures !Fits(AllPods(docs), profile.Machines(), at)
  {
    hide Sum, Load, AllPods, PodsOf;
    var k :| 0 <= k < |PodsOf(docs[i])| && Exceeds(PodsOf(docs[i])[k], profile.Worker());
    var x := PodsOf(docs[i])[k];
    PodIncluded(docs, i, x);
    var j :| 0 <= j < |AllPods(docs)| && AllPods(docs)[j] == x;
    AllPodsNonNegative(docs);
    if Fits(AllPods(docs), profile.Machines(), at) {
      FitsEach(AllPods(docs), profile.Machines(), at, j);
    }
  }

  /** Where the pods fit, no workload of equal pods with at least one replica is flagged, when a worker
      is at least as large as the master: a flag on such a workload rules out every placement. */
  lemma {:induction false} PodSound(profile: Profile, docs: seq<Doc>, rs: seq<Record>, i: nat, at: seq<nat>)
    requires Records(docs, rs) && i < |rs| && rs[i].replicas > 0 && EqualPods(docs[i])
    requires WorkersLead(profile) && Fits(AllPods(docs), profile.Machines(), at)
    ensures !TooBig(rs[i], profile)
  {
    hide AllPods, Fits, BigPod;
    assert RecordOf(docs[i], rs[i]);
    if !docs[i].Transient() {
      FlaggedWhen(profile, docs[i], rs[i]);
      if BigPod(docs[i], profile) {
        BigPodSound(profile, docs, i, at);
      }
    }
  }

  /** Every pod on a worker of its own. */
  function Apart(n: nat): (at: seq<nat>)
    ensures |at| == n && forall i | 0 <= i < n :: at[i] == i + 1
  {
    seq(n, i requires 0 <= i < n => i + 1)
  }

  lemma {:induction false} ApartLoad(pods: seq<Vec>, v: nat)
    ensures Load(pods, Apart(|pods|), v) == if 1 <= v <= |pods| then pods[v - 1] else ZERO
  {
    if pods != [] {
      hide Load, Plus;
      var n := |pods| - 1;
      ApartLoad(pods[..n], v);
      assert Apart(n + 1) == Apart(n) + [n + 1] && pods == pods[..n] + [pods[n]];
    }
  }

  lemma {:induction false} ApartFits(profile: Profile, pods: seq<Vec>)
    requires forall i | 0 <= i < |pods| :: !Exceeds(pods[i], profile.Worker())
    ensures Fits(pods, profile.(workers := |pods|).Machines(), Apart(|pods|))
  {
    hide Load;
    var machines := profile.(workers := |pods|).Machines();
    forall v, f | 0 <= v < |machines| ensures Load(pods, Apart(|pods|), v).Get(f) <= machines[v].Get(f) {
      ApartLoad(pods, v);
      assert v > 0 ==> machines[v] == profile.Worker();
    }
  }

  /** When a flag on a workload is conclusive: no number of workers is enough for the workload exactly
      when a single pod of it is larger than a worker. */
  lemma {:induction false} FlagIsConclusive(profile: Profile, doc: Doc)
    requires WorkersLead(profile)
    ensures (forall n: nat, at :: !Fits(PodsOf(doc), profile.(workers := n).Machines(), at)) <==> BigPod(doc, profile)
  {
    hide Load, PodsOf;
    var pods := PodsOf(doc);
    if BigPod(doc, profile) {
      var k :| 0 <= k < |pods| && Exceeds(pods[k], profile.Worker());
      PodsNonNegative(doc);
      forall n: nat, at ensures !Fits(pods, profile.(workers := n).Machines(), at) {
        if Fits(pods, profile.(workers := n).Machines(), at) {
          FitsEach(pods, profile.(workers := n).Machines(), at, k);
        }
      }
    } else {
      ApartFits(profile, pods);
    }
  }

  // ----- Inputs at which the verdict is off

  /** A workload without replicas is flagged although nothing has to be placed. */
  lemma {:induction false} FlaggedWithoutReplicas(profile: Profile, doc: Doc, r: Record)
    requires RecordOf(doc, r) && doc.spec.Pods? && doc.spec.replicas == 0 && TooBig(r, profile)
    ensures Fits(AllPods([doc]), profile.Machines(), [])
  {
    assert [doc][..0] == [];
    assert AllPods([doc]) == [];
  }

  lemma {:induction false} TwoManagers(parts: seq<(nat, Option<Quantities>)>, q: Option<Quantities>, x: Vec)
    requires parts == [(1, q), (1, q)] && x == ManagerVec(q)
    ensures ManagerPods(parts) == [x, x] && Sum([x, x]) == Plus(x, x)
  {
    hide ManagerVec, Sum, Plus, Copies;
    assert Copies(x, 1) == [x];
    assert parts == [(1, q)] + [(1, q)] && [(1, q)] == [] + [(1, q)];
    ManagerPodsSnoc([], (1, q));
    ManagerPodsSnoc([(1, q)], (1, q));
    assert [x, x] == [x] + [x];
    SumSnoc([x], x);
    SumOne(x);
  }

  lemma {:induction false} ManagerPodsSnoc(parts: seq<(nat, Option<Quantities>)>, part: (nat, Option<Quantities>))
    ensures ManagerPods([]) == []
    ensures ManagerPods(parts + [part]) == ManagerPods(parts) + Copies(ManagerVec(part.1), part.0)
  {
    assert (parts + [part])[..|parts|] == parts;
  }

  lemma {:induction false} OneEach(x: Vec, v: nat)
    ensures Load([x, x], [0, 1], v) == if v < 2 then x else ZERO
  {
    assert Load([], [], v) == ZERO;
    hide Load;
    assert [x, x] == ([] + [x]) + [x] && [0, 1] == ([] + [0]) + [1];
  }

  lemma {:induction false} AllPodsOne(doc: Doc)
    requires !doc.Transient()
    ensures AllPods([doc]) == PodsOf(doc)
  {
    hide PodsOf;
    assert [doc][..0] == [] && AllPods([]) == [];
    assert [] + PodsOf(doc) == PodsOf(doc);
  }

  lemma {:induction false} TwoFit(profile: Profile, x: Vec)
    requires profile.workers > 0 && !Exceeds(x, profile.Master()) && !Exceeds(x, profile.Worker())
    requires x.cpu >= 0.0 && x.memory >= 0.0
    ensures Fits([x, x], profile.Machines(), [0, 1])
  {
    hide Load;
    var machines := profile.Machines();
    forall v: nat, f | v < |machines| ensures Load([x, x], [0, 1], v).Get(f) <= machines[v].Get(f) {
      OneEach(x, v);
    }
  }

  /** The managers of a Flink deployment are compared with a worker together. Two equal ones that fit a
      machine each, but not one worker together, are flagged although they can be placed. */
  lemma {:induction false} FlaggedTogether(profile: Profile, doc: Doc, q: Option<Quantities>, r: Record)
    requires doc.kind.FlinkDeployment? && doc.spec == Managers([(1, q), (1, q)]) && RecordOf(doc, r)
    requires profile.workers > 0
    requires !Exceeds(ManagerVec(q), profile.Master()) && !Exceeds(ManagerVec(q), profile.Worker())
    requires Exceeds(Plus(ManagerVec(q), ManagerVec(q)), profile.Worker())
    ensures TooBig(r, profile) && Fits(AllPods([doc]), profile.Machines(), [0, 1])
  {
    var x := ManagerVec(q);
    TwoManagers(doc.spec.parts, q, x);
    TwoFit(profile, x);
    AllPodsOne(doc);
    FlaggedWhen(profile, doc, r);
    hide Sum, Plus, AllPods, ManagerVec, ManagerPods, TooBig, Exceeds, Fits, RecordOf, BigPod;
    assert PodsOf(doc) == [x, x];
  }

  /** Two machines of one CPU and 1024 MiB each. */
  const SMALL := Profile(1, 1024, 1, 1024, 1)

  /** Such a deployment: two managers of 600 MiB on two machines of 1024 MiB. */
  lemma {:induction false} FlaggedTogetherAt(doc: Doc, r: Record)
    requires doc == Doc(FlinkDeployment, "n", "f",
      Managers([(1, Some(Quantities(None, Some(600.0)))), (1, Some(Quantities(None, Some(600.0))))]))
    requires RecordOf(doc, r)
    ensures TooBig(r, SMALL) && Fits(AllPods([doc]), SMALL.Machines(), [0, 1])
  {
    hide RecordOf, AllPods, Fits, TooBig;
    FlaggedTogether(SMALL, doc, Some(Quantities(None, Some(600.0))), r);
  }

  /** What the rounding misses: a total that exceeds the capacity by no more than 0.05 is not flagged,
      and no placement exists. */
  lemma {:induction false} Unflagged(profile: Profile, doc: Doc, rs: seq<Record>, at: seq<nat>)
    requires !doc.Transient()
    ensures var total := Sum(PodsOf(doc));
            && Records([doc], rs) && !Exceeds(PodRequest(doc), profile.Worker())
            && total.cpu <= profile.CpuCapacity() as real
            && profile.MemoryCapacity() as real < total.memory <= profile.MemoryCapacity() as real + 0.05
            ==>
            && total == Sum(Steady(rs, Requests))
            && !Over(total.cpu, profile.CpuCapacity()) && !Over(total.memory, profile.MemoryCapacity())
            && !TooBig(rs[0], profile) && !Fits(AllPods([doc]), profile.Machines(), at)
  {
    hide Sum, PodRequest, PodsOf, Over, Fits, AllPods, LimitsOf;
    if Records([doc], rs) {
      assert RecordOf([doc][0], rs[0]);
      AllPodsSum([doc], rs);
      AllPodsOne(doc);
      TotalsSound(profile, [doc], rs, Sum(Steady(rs, Requests)), at);
    }
  }

  lemma {:induction false} OneContainer(pod: PodSpec, x: Vec)
    requires pod.initContainers == [] && |pod.containers| == 1 && EffectiveVec(pod.containers[0]) == x
    requires x.cpu >= 0.0 && x.memory >= 0.0
    ensures PodRequests(pod) == x
  {
    hide Sum, EffectiveVec;
    assert EffectiveAll(pod.containers) == [x] && EffectiveAll(pod.initContainers) == [];
    SumOne(x);
  }

  lemma {:induction false} EqualSum(doc: Doc, x: Vec)
    requires doc.kind.Deployment? && doc.spec.Pods? && PodRequests(doc.spec.pod) == x
    ensures PodRequest(doc) == x && Sum(PodsOf(doc)) == Times(x, doc.spec.replicas)
  {
    hide Sum, PodRequests, Times;
    SumCopies(x, doc.spec.replicas);
  }

  /** Such a deployment: four pods of 512.01 MiB on two machines of 1024 MiB. */
  lemma {:induction false} UnflaggedAt(doc: Doc, rs: seq<Record>, at: seq<nat>)
    requires doc == Doc(Deployment, "n", "d",
      Pods(4, PodSpec([], [Resources(Quantities(None, Some(512.01)), Quantities(None, None))])))
    requires Records([doc], rs)
    ensures !TooBig(rs[0], SMALL) && !Over(Sum(Steady(rs, Requests)).memory, SMALL.MemoryCapacity())
    ensures !Over(Sum(Steady(rs, Requests)).cpu, SMALL.CpuCapacity()) && !Fits(AllPods([doc]), SMALL.Machines(), at)
  {
    hide Records, Over, Fits, TooBig, AllPods, Steady, Sum, PodRequests, PodRequest, PodsOf;
    var pod, x := doc.spec.pod, Vec(0.0, 512.01);
    OneContainer(pod, x);
    EqualSum(doc, x);
    assert Times(x, 4) == Vec(0.0, 2048.04);
    Unflagged(SMALL, doc, rs, at);
  }

  // ----- The report from end to end

  /** No assignment of the pods to the machines of the profile respects their capacities. */
  ghost predicate NoPlacement(profile: Profile, docs: seq<Doc>) {
    forall at :: !Fits(AllPods(docs), profile.Machines(), at)
  }

  /** A workload with a pod larger than a worker is among the violations. */
  ghost predicate BigPodOver(profile: Profile, docs: seq<Doc>, violations: seq<Violation>) {
    exists i | 0 <= i < |docs| :: PodOver(docs[i].Id()) in violations && !docs[i].Transient() && BigPod(docs[i], profile)
  }

  /** The violations in terms of the documents, and what they say about placing their pods. */
  ghost predicate IsVerdict(profile: Profile, ds: seq<Doc>, violations: seq<Violation>) {
    var total := Sum(AllPods(ds));
    && (CpuOver in violations <==> total.cpu > profile.CpuCapacity() as real + 0.05)
    && (MemoryOver in violations <==> total.memory > profile.MemoryCapacity() as real + 0.05)
    && (forall id :: PodOver(id) in violations <==> exists i | 0 <= i < |ds| ::
          ds[i].Id() == id && !ds[i].Transient() && Exceeds(PodRequest(ds[i]), profile.Worker()))
    && (CpuOver in violations || MemoryOver in violations ==> NoPlacement(profile, ds))
    && (WorkersLead(profile) && BigPodOver(profile, ds, violations) ==> NoPlacement(profile, ds))
  }

  lemma {:induction false} TooBigWhen(profile: Profile, doc: Doc, r: Record)
    requires RecordOf(doc, r)
    ensures r.doc == doc && (TooBig(r, profile) <==> !doc.Transient() && Exceeds(PodRequest(doc), profile.Worker()))
  {
  }

  lemma {:induction false} OverIsConclusive(profile: Profile, ds: seq<Doc>, rs: seq<Record>, total: Vec,
                                            violations: seq<Violation>)
    ensures Records(ds, rs) && total == Sum(Steady(rs, Requests)) && AreViolations(profile, total, rs, violations) ==>
            && (CpuOver in violations || MemoryOver in violations ==> NoPlacement(profile, ds))
            && (WorkersLead(profile) && BigPodOver(profile, ds, violations) ==> NoPlacement(profile, ds))
  {
    hide RecordOf, Sum, Over, AllPods, Steady, Fits, TooBig, BigPod, WorkersLead;
    if Records(ds, rs) && total == Sum(Steady(rs, Requests)) && AreViolations(profile, total, rs, violations) {
      forall at | CpuOver in violations || MemoryOver in violations
        ensures !Fits(AllPods(ds), profile.Machines(), at)
      {
        TotalsSound(profile, ds, rs, total, at);
      }
      if WorkersLead(profile) {
        if i :| 0 <= i < |ds| && PodOver(ds[i].Id()) in violations && !ds[i].Transient() && BigPod(ds[i], profile) {
          forall at ensures !Fits(AllPods(ds), profile.Machines(), at) {
            BigPodSound(profile, ds, i, at);
          }
        }
      }
    }
  }

  lemma {:induction false} Verdict(profile: Profile, ds: seq<Doc>, rs: seq<Record>, total: Vec, violations: seq<Violation>)
    ensures Records(ds, rs) && total == Sum(Steady(rs, Requests)) && AreViolations(profile, total, rs, violations) ==>
            IsVerdict(profile, ds, violations)
  {
    hide RecordOf, Sum, Over, AllPods, Steady, TooBig, Exceeds, PodRequest, WorkersLead, BigPodOver, NoPlacement;
    if Records(ds, rs) && total == Sum(Steady(rs, Requests)) && AreViolations(profile, total, rs, violations) {
      AllPodsSum(ds, rs);
      forall i | 0 <= i < |ds|
        ensures rs[i].doc == ds[i]
        ensures TooBig(rs[i], profile) <==> !ds[i].Transient() && Exceeds(PodRequest(ds[i]), profile.Worker())
      {
        assert RecordOf(ds[i], rs[i]);
        TooBigWhen(profile, ds[i], rs[i]);
      }
      RoundingSlack(total.cpu, profile.CpuCapacity());
      RoundingSlack(total.memory, profile.MemoryCapacity());
      OverIsConclusive(profile, ds, rs, total, violations);
    }
  }

  /** One profile of `build_report`, from the documents to the verdict: exactly which violations there
      are; a total among them rules out every placement, and so does a pod larger than a worker where no
      other machine of the profile exceeds the workers. */
  method Assess(profile: Profile, docs: seq<Doc>) returns (r: Result<seq<Violation>>)
    requires forall i | 0 <= i < |docs| :: docs[i].Valid()
    ensures r.Failure? <==> exists i | 0 <= i < |docs| :: docs[i].spec.Counted? && docs[i].spec.count == 0
    ensures r.Success? ==> IsVerdict(profile, FirstDocs(docs), r.value)
  {
    hide RecordOf, Sum, Over, Steady, FirstDocs, AreViolations, IsVerdict;
    var records := CollectRender(docs);
    if records.Failure? {
      return Failure(records.error);
    }
    var rs := records.value;
    var sum := Summarize(rs);
    var violations := Evaluate(profile, sum.requests, rs);
    Verdict(profile, FirstDocs(docs), rs, sum.requests, violations);
    r := Success(violations);
  }
}
