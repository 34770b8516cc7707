/** `scripts/ops/check-live-drift.py`: what the live cluster shows against what Git declares. */
module LiveDrift {
  import opened Wrappers

  // ----- The cluster

  datatype Container = Container(name: string, image: Option<string>)

  /** The two lists of a pod. */
  datatype Pod = Pod(containers: seq<Container>, initContainers: seq<Container>)

  /** `template` is where most kinds keep their pod, `jobTemplate` is where a CronJob does. */
  datatype Workload = Workload(kind: string, namespace: string, name: string, template: Pod, jobTemplate: Pod)

  datatype Tracked = Tracked(kind: string, group: string, namespace: Option<string>, name: Option<string>,
                             status: Option<string>, health: Option<string>)

  /** An `ignoreDifferences` rule; an absent name or namespace matches all. */
  datatype Rule = Rule(kind: string, group: string, namespace: Option<string>, name: Option<string>)

  datatype Application = Application(name: string, sync: Option<string>, revisions: seq<string>,
                                     health: Option<string>, rules: seq<Rule>, resources: seq<Tracked>)

  /** Images by container name. */
  datatype Images = Images(containers: map<string, Option<string>>, initContainers: map<string, Option<string>>)

  datatype Cluster = Cluster(apps: seq<Application>, workloads: seq<Workload>, rootKnown: bool)

  /** What Git declares: images by workload, Applications and the revision. */
  datatype Declared = Declared(workloads: map<string, Images>, apps: seq<string>, revision: string)

  const WORKLOAD_KINDS := {"Deployment", "StatefulSet", "DaemonSet", "CronJob"}

  function Wid(kind: string, namespace: string, name: string): string { kind + "/" + namespace + "/" + name }

  function OrElse(x: Option<string>, default: string): string {
    match x
    case Some(v) => v
    case None => default
  }

  function TrackedId(r: Tracked): string { Wid(r.kind, OrElse(r.namespace, ""), OrElse(r.name, "?")) }

  function PodOf(w: Workload): Pod { if w.kind == "CronJob" then w.jobTemplate else w.template }

  function WorkloadId(w: Workload): string { Wid(w.kind, w.namespace, w.name) }

  // ----- Later entries replace earlier ones

  /** The dictionary that is filled with `xs` in order, under the given keys. */
  function LastBy<T>(xs: seq<T>, key: T -> string): map<string, T> {
    if xs == [] then map[] else LastBy(xs[..|xs| - 1], key)[key(xs[|xs| - 1]) := xs[|xs| - 1]]
  }

  /** `x` is the last entry with that key. */
  ghost predicate IsLast<T>(xs: seq<T>, key: T -> string, k: string, x: T) {
    exists i | 0 <= i < |xs| :: xs[i] == x && key(xs[i]) == k && forall j | i < j < |xs| :: key(xs[j]) != k
  }

  lemma {:induction false} StillLast<T>(xs: seq<T>, key: T -> string, y: T, k: string, x: T)
    requires IsLast(xs, key, k, x) && key(y) != k
    ensures IsLast(xs + [y], key, k, x)
  {
    var i :| 0 <= i < |xs| && xs[i] == x && key(xs[i]) == k && forall j | i < j < |xs| :: key(xs[j]) != k;
    assert (xs + [y])[i] == x;
  }

  /** What the dictionary holds: exactly the keys that occur, each with the last entry that has it. */
  lemma {:induction false} LastByIs<T>(xs: seq<T>, key: T -> string, k: string)
    ensures k in LastBy(xs, key) <==> exists i | 0 <= i < |xs| :: key(xs[i]) == k
    ensures k in LastBy(xs, key) ==> IsLast(xs, key, k, LastBy(xs, key)[k])
  {
    if xs != [] {
      var p, y := xs[..|xs| - 1], xs[|xs| - 1];
      LastByIs(p, key, k);
      assert xs == p + [y];
      if key(y) == k {
        assert IsLast(xs, key, k, y);
      } else if k in LastBy(p, key) {
        StillLast(p, key, y, k, LastBy(p, key)[k]);
      }
      hide IsLast;
      assert (exists i | 0 <= i < |xs| :: key(xs[i]) == k) <==> key(y) == k || exists i | 0 <= i < |p| :: key(p[i]) == k;
    }
  }

  function ContainerName(c: Container): string { c.name }

  function AppName(app: Application): string { app.name }

  function ImagesOf(cs: seq<Container>): map<string, Option<string>> {
    var last := LastBy(cs, ContainerName);
    map name | name in last :: last[name].image
  }

  /** Of the containers of one name the image of the last one counts. */
  lemma {:induction false} ImagesAre(cs: seq<Container>, name: string)
    ensures name in ImagesOf(cs) <==> exists i | 0 <= i < |cs| :: cs[i].name == name
    ensures name in ImagesOf(cs) ==>
              exists i | 0 <= i < |cs| :: cs[i] == Container(name, ImagesOf(cs)[name]) &&
                forall j | i < j < |cs| :: cs[j].name != name
  {
    LastByIs(cs, ContainerName, name);
  }

  /** The images of a pod by container name. */
  function PodImages(w: Workload): Images {
    Images(ImagesOf(PodOf(w).containers), ImagesOf(PodOf(w).initContainers))
  }

  function ByName(apps: seq<Application>): map<string, Application> { LastBy(apps, AppName) }

  function Live(ws: seq<Workload>): map<string, Workload> { LastBy(ws, WorkloadId) }

  // ----- The findings

  datatype Finding =
    | UnknownRoot
    | AppMissing(app: string)
    | NotSynced(app: string)
    | OtherRevision(app: string)
    | AppHealth(app: string)
    | NothingTracked(app: string)
    | ResourceHealth(app: string, resource: Tracked)
    | Untracked(app: string, resource: Tracked)
    | OutOfSyncIgnored(app: string, resource: Tracked)
    | OutOfSync(app: string, resource: Tracked)
    | OtherStatus(app: string, resource: Tracked)
    | WorkloadMissing(key: string)
    | ContainerMissing(key: string, init: bool, container: string)
    | ContainerUndeclared(key: string, init: bool, container: string)
    | OtherImage(key: string, init: bool, container: string)
    | TrackedMissing(key: string)
    | Undeclared(key: string)

  predicate Tolerated(f: Finding) {
    f.AppHealth? || f.NothingTracked? || f.ResourceHealth? || f.Untracked? || f.OutOfSyncIgnored? || f.OtherStatus?
  }

  predicate Matches(rule: Rule, r: Tracked) {
    && rule.kind == r.kind && rule.group == r.group
    && (rule.name.None? || rule.name == r.name)
    && (rule.namespace.None? || rule.namespace == r.namespace)
  }

  ghost predicate IsIgnored(r: Tracked, rules: seq<Rule>) { exists i | 0 <= i < |rules| :: Matches(rules[i], r) }

  method Ignored(r: Tracked, rules: seq<Rule>) returns (found: bool)
    ensures found <==> IsIgnored(r, rules)
  {
    for n := 0 to |rules|
      invariant forall i | 0 <= i < n :: !Matches(rules[i], r)
    {
      if rules[n].kind != r.kind {
        continue;
      }
      if rules[n].group != r.group {
        continue;
      }
      if rules[n].name.Some? && rules[n].name != r.name {
        continue;
      }
      if rules[n].namespace.Some? && rules[n].namespace != r.namespace {
        continue;
      }
      return true;
    }
    found := false;
  }

  /** What is reported of one list of containers. */
  ghost predicate SectionReports(key: string, init: bool, got: map<string, Option<string>>,
                                 want: map<string, Option<string>>, f: Finding)
  {
    match f
    case ContainerMissing(k, i, c) => k == key && i == init && c in want && c !in got
    case ContainerUndeclared(k, i, c) => k == key && i == init && c in got && c !in want
    case OtherImage(k, i, c) => k == key && i == init && c in got && c in want && got[c] != want[c]
    case _ => false
  }

  method SectionFindings(key: string, init: bool, got: map<string, Option<string>>, want: map<string, Option<string>>)
    returns (out: seq<Finding>)
    ensures forall f :: f in out <==> SectionReports(key, init, got, want, f)
  {
    out := [];
    var left := got.Keys + want.Keys;
    while left != {}
      invariant left <= got.Keys + want.Keys
      invariant forall f :: f in out <==> SectionReports(key, init, got, want, f) && f.container !in left
      decreases left
    {
      var c :| c in left;
      left := left - {c};
      if c !in got {
        out := out + [ContainerMissing(key, init, c)];
      } else if c !in want {
        out := out + [ContainerUndeclared(key, init, c)];
      } else if got[c] != want[c] {
        out := out + [OtherImage(key, init, c)];
      }
    }
  }

  ghost predicate ContainerReports(key: string, got: Images, want: Images, f: Finding) {
    || SectionReports(key, false, got.containers, want.containers, f)
    || SectionReports(key, true, got.initContainers, want.initContainers, f)
  }

  method ContainerFindings(key: string, got: Images, want: Images) returns (out: seq<Finding>)
    ensures forall f :: f in out <==> ContainerReports(key, got, want, f)
  {
    hide SectionReports;
    var ordinary := SectionFindings(key, false, got.containers, want.containers);
    var init := SectionFindings(key, true, got.initContainers, want.initContainers);
    out := ordinary + init;
  }

  /** What is reported of one tracked resource. */
  ghost predicate ResourceReports(app: Application, r: Tracked, f: Finding) {
    match f
    case ResourceHealth(a, x) => a == app.name && x == r && r.health != None && r.health != Some("Healthy")
    case Untracked(a, x) => a == app.name && x == r && r.status == None
    case OutOfSyncIgnored(a, x) => a == app.name && x == r && r.status == Some("OutOfSync") && IsIgnored(r, app.rules)
    case OutOfSync(a, x) => a == app.name && x == r && r.status == Some("OutOfSync") && !IsIgnored(r, app.rules)
    case OtherStatus(a, x) =>
      a == app.name && x == r && r.status != None && r.status != Some("OutOfSync") && r.status != Some("Synced")
    case _ => false
  }

  method ResourceFindings(app: Application, r: Tracked) returns (out: seq<Finding>)
    ensures forall f :: f in out <==> ResourceReports(app, r, f)
  {
    out := [];
    if r.health != None && r.health != Some("Healthy") {
      out := out + [ResourceHealth(app.name, r)];
    }
    if r.status == None {
      out := out + [Untracked(app.name, r)];
    } else if r.status == Some("OutOfSync") {
      var covered := Ignored(r, app.rules);
      out := out + [if covered then OutOfSyncIgnored(app.name, r) else OutOfSync(app.name, r)];
    } else if r.status != Some("Synced") {
      out := out + [OtherStatus(app.name, r)];
    }
  }

  /** What is reported of one expected Application. */
  ghost predicate AppReports(app: Application, revision: string, f: Finding) {
    || (f == NotSynced(app.name) && app.sync != Some("Synced"))
    || (f == OtherRevision(app.name) && revision !in app.revisions)
    || (f == AppHealth(app.name) && app.health != Some("Healthy"))
    || (f == NothingTracked(app.name) && app.resources == [])
    || exists i | 0 <= i < |app.resources| :: ResourceReports(app, app.resources[i], f)
  }

  /** The app tracks the workload. */
  ghost predicate Tracks(app: Application, key: string) {
    exists i | 0 <= i < |app.resources| :: app.resources[i].kind in WORKLOAD_KINDS && TrackedId(app.resources[i]) == key
  }

  method AppFindings(app: Application, revision: string) returns (out: seq<Finding>, managed: set<string>)
    ensures forall f :: f in out <==> AppReports(app, revision, f)
    ensures forall k :: k in managed <==> Tracks(app, k)
  {
    hide ResourceReports, TrackedId;
    out, managed := [], {};
    if app.sync != Some("Synced") {
      out := out + [NotSynced(app.name)];
    }
    if revision !in app.revisions {
      out := out + [OtherRevision(app.name)];
    }
    if app.health != Some("Healthy") {
      out := out + [AppHealth(app.name)];
    }
    if app.resources == [] {
      out := out + [NothingTracked(app.name)];
    }
    ghost var own := out;
    for n := 0 to |app.resources|
      invariant forall f :: f in out <==> f in own || exists i | 0 <= i < n :: ResourceReports(app, app.resources[i], f)
      invariant forall k :: k in managed <==>
                  exists i | 0 <= i < n :: app.resources[i].kind in WORKLOAD_KINDS && TrackedId(app.resources[i]) == k
    {
      var r := app.resources[n];
      if r.kind in WORKLOAD_KINDS {
        managed := managed + {TrackedId(r)};
      }
      var more := ResourceFindings(app, r);
      out := out + more;
    }
  }

  /** One of the first `n` expected Applications is there and tracks the workload. */
  ghost predicate Managed(apps: seq<Application>, expected: seq<string>, n: nat, key: string)
    requires n <= |expected|
  {
    exists i | 0 <= i < n :: expected[i] in ByName(apps) && Tracks(ByName(apps)[expected[i]], key)
  }

  /** What is reported of the first `n` expected Applications. */
  ghost predicate AppsReport(apps: seq<Application>, expected: seq<string>, n: nat, revision: string, f: Finding)
    requires n <= |expected|
  {
    exists i | 0 <= i < n ::
      if expected[i] in ByName(apps) then AppReports(ByName(apps)[expected[i]], revision, f)
      else f == AppMissing(expected[i])
  }

  method AppsFindings(apps: seq<Application>, expected: seq<string>, revision: string)
    returns (out: seq<Finding>, managed: set<string>)
    ensures forall f :: f in out <==> AppsReport(apps, expected, |expected|, revision, f)
    ensures forall k :: k in managed <==> Managed(apps, expected, |expected|, k)
  {
    hide AppReports, Tracks;
    var byName := map[];
    assert apps[..0] == [];
    for n := 0 to |apps|
      invariant byName == ByName(apps[..n])
    {
      assert apps[..n + 1][..n] == apps[..n];
      byName := byName[apps[n].name := apps[n]];
    }
    assert apps[..|apps|] == apps;
    hide ByName;
    out, managed := [], {};
    for n := 0 to |expected|
      invariant forall f :: f in out <==> AppsReport(apps, expected, n, revision, f)
      invariant forall k :: k in managed <==> Managed(apps, expected, n, k)
    {
      if expected[n] in byName {
        var more, tracked := AppFindings(byName[expected[n]], revision);
        out, managed := out + more, managed + tracked;
      } else {
        out := out + [AppMissing(expected[n])];
      }
    }
  }

  /** What is reported of the workloads, given the tracked ones. */
  ghost predicate WorkloadReports(live: map<string, Workload>, declared: map<string, Images>, managed: set<string>,
                                  f: Finding)
  {
    match f
    case WorkloadMissing(k) => k in declared && k !in live
    case ContainerMissing(k, _, _) => k in declared && k in live && ContainerReports(k, PodImages(live[k]), declared[k], f)
    case ContainerUndeclared(k, _, _) => k in declared && k in live && ContainerReports(k, PodImages(live[k]), declared[k], f)
    case OtherImage(k, _, _) => k in declared && k in live && ContainerReports(k, PodImages(live[k]), declared[k], f)
    case TrackedMissing(k) => k in managed && k !in live && k !in declared
    case Undeclared(k) => k in managed && k in live && k !in declared
    case _ => false
  }

  lemma {:induction false} ContainerKind(key: string, got: Images, want: Images, f: Finding)
    requires ContainerReports(key, got, want, f)
    ensures (f.ContainerMissing? || f.ContainerUndeclared? || f.OtherImage?) && f.key == key
  {
  }

  method DeclaredFindings(live: map<string, Workload>, declared: map<string, Images>) returns (out: seq<Finding>)
    ensures forall f :: f in out <==> WorkloadReports(live, declared, {}, f)
  {
    hide ContainerReports, PodImages;
    out := [];
    var left := declared.Keys;
    while left != {}
      invariant left <= declared.Keys
      invariant forall f :: f in out <==> WorkloadReports(live, declared, {}, f) && f.key !in left
      decreases left
    {
      var key :| key in left;
      left := left - {key};
      if key !in live {
        out := out + [WorkloadMissing(key)];
      } else {
        var more := ContainerFindings(key, PodImages(live[key]), declared[key]);
        forall f | f in more ensures (f.ContainerMissing? || f.ContainerUndeclared? || f.OtherImage?) && f.key == key {
          ContainerKind(key, PodImages(live[key]), declared[key], f);
        }
        out := out + more;
      }
    }
  }

  method FlagAll(keys: set<string>, finding: string -> Finding) returns (out: seq<Finding>)
    ensures forall f :: f in out <==> exists k :: k in keys && f == finding(k)
  {
    out := [];
    var left := keys;
    while left != {}
      invariant left <= keys
      invariant forall f :: f in out <==> exists k :: k in keys - left && f == finding(k)
      decreases left
    {
      var k :| k in left;
      left := left - {k};
      out := out + [finding(k)];
    }
  }

  method LiveWorkloads(ws: seq<Workload>) returns (live: map<string, Workload>)
    ensures live == Live(ws)
    ensures forall k :: k in live <==> exists i | 0 <= i < |ws| :: WorkloadId(ws[i]) == k
    ensures forall k | k in live :: IsLast(ws, WorkloadId, k, live[k])
  {
    hide WorkloadId, IsLast;
    live := map[];
    assert ws[..0] == [];
    for n := 0 to |ws|
      invariant live == Live(ws[..n])
    {
      assert ws[..n + 1][..n] == ws[..n];
      live := live[WorkloadId(ws[n]) := ws[n]];
    }
    assert ws[..|ws|] == ws;
    forall k
      ensures k in live <==> exists i | 0 <= i < |ws| :: WorkloadId(ws[i]) == k
      ensures k in live ==> IsLast(ws, WorkloadId, k, live[k])
    {
      LastByIs(ws, WorkloadId, k);
    }
  }

  method WorkloadFindings(live: map<string, Workload>, declared: map<string, Images>, managed: set<string>)
    returns (out: seq<Finding>)
    ensures forall f :: f in out <==> WorkloadReports(live, declared, managed, f)
  {
    hide ContainerReports, PodImages;
    var ofDeclared := DeclaredFindings(live, declared);
    var gone := FlagAll(managed - live.Keys - declared.Keys, k => TrackedMissing(k));
    var undeclared := FlagAll((managed * live.Keys) - declared.Keys, k => Undeclared(k));
    out := ofDeclared + gone + undeclared;
    forall f ensures f in out <==> WorkloadReports(live, declared, managed, f) {
      assert f in out <==> f in ofDeclared || f in gone || f in undeclared;
      if f.TrackedMissing? {
        assert f in gone <==> f.key in managed - live.Keys - declared.Keys;
      }
      if f.Undeclared? {
        assert f in undeclared <==> f.key in (managed * live.Keys) - declared.Keys;
      }
    }
  }

  // ----- The report

  /** The workloads that expected Applications track. */
  ghost predicate AreManaged(c: Cluster, d: Declared, managed: set<string>) {
    forall k :: k in managed <==> Managed(c.apps, d.apps, |d.apps|, k)
  }

  ghost predicate Reports(c: Cluster, d: Declared, managed: set<string>, f: Finding) {
    || (f == UnknownRoot && !c.rootKnown)
    || AppsReport(c.apps, d.apps, |d.apps|, d.revision, f)
    || WorkloadReports(Live(c.workloads), d.workloads, managed, f)
  }

  datatype Report = Report(findings: seq<Finding>, live: nat, imageChecked: nat, skipped: set<string>)

  method Evaluate(c: Cluster, d: Declared) returns (r: Report, ghost managed: set<string>)
    ensures AreManaged(c, d, managed)
    ensures forall f :: f in r.findings <==> Reports(c, d, managed, f)
    ensures r.live == |Live(c.workloads)| && r.imageChecked == |Live(c.workloads).Keys * d.workloads.Keys|
    ensures r.skipped == Live(c.workloads).Keys - d.workloads.Keys - managed
  {
    hide AppsReport, Managed, Live, ContainerReports, PodImages;
    var root := if c.rootKnown then [] else [UnknownRoot];
    var ofApps, tracked := AppsFindings(c.apps, d.apps, d.revision);
    var live := LiveWorkloads(c.workloads);
    managed := tracked;
    var ofWorkloads := WorkloadFindings(live, d.workloads, tracked);
    hide WorkloadReports;
    r := Report(root + ofApps + ofWorkloads, |live|, |live.Keys * d.workloads.Keys|,
                live.Keys - d.workloads.Keys - tracked);
  }

  /** The exit code is 0 when no finding is unauthorized. */
  ghost predicate Passes(c: Cluster, d: Declared, managed: set<string>) {
    forall f :: Reports(c, d, managed, f) ==> Tolerated(f)
  }

  ghost predicate AppInSync(app: Application, revision: string) {
    && app.sync == Some("Synced") && revision in app.revisions
    && forall i | 0 <= i < |app.resources| ::
         app.resources[i].status == Some("OutOfSync") ==> IsIgnored(app.resources[i], app.rules)
  }

  /** The cluster is what Git declares, as far as the check looks. */
  ghost predicate InSync(c: Cluster, d: Declared, managed: set<string>) {
    && c.rootKnown
    && (forall name | name in d.apps :: name in ByName(c.apps) && AppInSync(ByName(c.apps)[name], d.revision))
    && (forall k | k in d.workloads :: k in Live(c.workloads) && PodImages(Live(c.workloads)[k]) == d.workloads[k])
    && managed <= d.workloads.Keys
  }

  lemma {:induction false} AppPasses(app: Application, revision: string)
    ensures (forall f :: AppReports(app, revision, f) ==> Tolerated(f)) <==> AppInSync(app, revision)
  {
    hide IsIgnored;
    if forall f :: AppReports(app, revision, f) ==> Tolerated(f) {
      assert !AppReports(app, revision, NotSynced(app.name)) && !AppReports(app, revision, OtherRevision(app.name));
      forall i | 0 <= i < |app.resources| && app.resources[i].status == Some("OutOfSync")
        ensures IsIgnored(app.resources[i], app.rules)
      {
        var f := OutOfSync(app.name, app.resources[i]);
        assert !Tolerated(f);
        assert !ResourceReports(app, app.resources[i], f);
      }
    }
  }

  lemma {:induction false} SectionPasses(key: string, init: bool, got: map<string, Option<string>>,
                                         want: map<string, Option<string>>)
    ensures (forall f :: !SectionReports(key, init, got, want, f)) <==> got == want
  {
    if forall f :: !SectionReports(key, init, got, want, f) {
      forall c ensures c in got <==> c in want {
        assert !SectionReports(key, init, got, want, ContainerMissing(key, init, c));
        assert !SectionReports(key, init, got, want, ContainerUndeclared(key, init, c));
      }
      forall c | c in got ensures got[c] == want[c] {
        assert !SectionReports(key, init, got, want, OtherImage(key, init, c));
      }
      assert got == want;
    }
  }

  lemma {:induction false} ImagesPass(key: string, got: Images, want: Images)
    ensures (forall f :: !ContainerReports(key, got, want, f)) <==> got == want
  {
    hide SectionReports;
    SectionPasses(key, false, got.containers, want.containers);
    SectionPasses(key, true, got.initContainers, want.initContainers);
    if forall f :: !ContainerReports(key, got, want, f) {
      assert forall f :: SectionReports(key, false, got.containers, want.containers, f) ==> ContainerReports(key, got, want, f);
      assert forall f :: SectionReports(key, true, got.initContainers, want.initContainers, f) ==> ContainerReports(key, got, want, f);
    }
  }

  lemma {:induction false} WorkloadsPass(live: map<string, Workload>, declared: map<string, Images>, managed: set<string>)
    ensures (forall f :: !WorkloadReports(live, declared, managed, f)) <==>
            && (forall k | k in declared :: k in live && PodImages(live[k]) == declared[k])
            && managed <= declared.Keys
  {
    hide ContainerReports, PodImages;
    if forall f :: !WorkloadReports(live, declared, managed, f) {
      forall k | k in declared ensures k in live && PodImages(live[k]) == declared[k] {
        assert !WorkloadReports(live, declared, managed, WorkloadMissing(k));
        ImagesPass(k, PodImages(live[k]), declared[k]);
        forall f ensures !ContainerReports(k, PodImages(live[k]), declared[k], f) {
          assert !WorkloadReports(live, declared, managed, f);
          if ContainerReports(k, PodImages(live[k]), declared[k], f) {
            ContainerKind(k, PodImages(live[k]), declared[k], f);
          }
        }
      }
      forall k | k in managed ensures k in declared {
        assert !WorkloadReports(live, declared, managed, TrackedMissing(k));
        assert !WorkloadReports(live, declared, managed, Undeclared(k));
      }
    } else {
      forall k | k in declared && k in live && PodImages(live[k]) == declared[k]
        ensures forall f :: !ContainerReports(k, PodImages(live[k]), declared[k], f)
      {
        ImagesPass(k, PodImages(live[k]), declared[k]);
      }
    }
  }

  /** No unauthorized finding means the cluster is what Git declares, and the other way round. */
  lemma {:induction false} PassesIff(c: Cluster, d: Declared, managed: set<string>)
    ensures Passes(c, d, managed) <==> InSync(c, d, managed)
  {
    hide AppReports, AppInSync, WorkloadReports, PodImages, ByName, Live;
    var live := Live(c.workloads);
    WorkloadsPass(live, d.workloads, managed);
    WorkloadFindingsCount(live, d.workloads, managed);
    forall app: Application
      ensures (forall f :: AppReports(app, d.revision, f) ==> Tolerated(f)) <==> AppInSync(app, d.revision)
    {
      AppPasses(app, d.revision);
    }
    if Passes(c, d, managed) {
      assert !Reports(c, d, managed, UnknownRoot) || c.rootKnown;
      forall name | name in d.apps ensures name in ByName(c.apps) && AppInSync(ByName(c.apps)[name], d.revision) {
        var i :| 0 <= i < |d.apps| && d.apps[i] == name;
        assert !Reports(c, d, managed, AppMissing(name));
        assert name in ByName(c.apps);
        forall f | AppReports(ByName(c.apps)[name], d.revision, f) ensures Tolerated(f) {
          assert AppsReport(c.apps, d.apps, |d.apps|, d.revision, f);
          assert Reports(c, d, managed, f);
        }
      }
      forall f ensures !WorkloadReports(live, d.workloads, managed, f) {
        assert WorkloadReports(live, d.workloads, managed, f) ==> Reports(c, d, managed, f);
      }
    }
  }

  lemma {:induction false} WorkloadFindingsCount(live: map<string, Workload>, declared: map<string, Images>,
                                                 managed: set<string>)
    ensures forall f :: WorkloadReports(live, declared, managed, f) ==> !Tolerated(f)
  {
  }

  /** Every live workload is image-checked, flagged as undeclared, or skipped; the three add up. */
  lemma {:induction false} EveryWorkloadIsCounted(c: Cluster, d: Declared, managed: set<string>)
    ensures var live := Live(c.workloads).Keys;
            var checked, skipped := live * d.workloads.Keys, live - d.workloads.Keys - managed;
            var flagged := set k | k in live && Reports(c, d, managed, Undeclared(k));
            && live == checked + flagged + skipped && checked !! flagged && checked !! skipped && flagged !! skipped
            && |live| == |checked| + |flagged| + |skipped|
  {
    hide Live, Reports;
    var live := Live(c.workloads).Keys;
    var flagged := set k | k in live && Reports(c, d, managed, Undeclared(k));
    forall k | k in live ensures Reports(c, d, managed, Undeclared(k)) <==> k in managed && k !in d.workloads {
      FlaggedWhen(c, d, managed, k);
    }
    assert flagged == (live * managed) - d.workloads.Keys;
  }

  lemma {:induction false} FlaggedWhen(c: Cluster, d: Declared, managed: set<string>, k: string)
    requires k in Live(c.workloads)
    ensures Reports(c, d, managed, Undeclared(k)) <==> k in managed && k !in d.workloads
  {
    hide Live, AppsReport;
    AppsNeverUndeclared(c, d, k);
  }

  lemma {:induction false} AppsNeverUndeclared(c: Cluster, d: Declared, k: string)
    ensures !AppsReport(c.apps, d.apps, |d.apps|, d.revision, Undeclared(k))
  {
    hide ByName;
  }

  /** A skipped workload is not looked at: whatever becomes of it, the findings stay the same. */
  lemma {:induction false} SkippedAreUnseen(c: Cluster, c': Cluster, d: Declared, managed: set<string>)
    requires c'.apps == c.apps && c'.rootKnown == c.rootKnown
    requires forall k | k in managed || k in d.workloads ::
               (k in Live(c.workloads) <==> k in Live(c'.workloads)) &&
               (k in Live(c.workloads) ==> Live(c.workloads)[k] == Live(c'.workloads)[k])
    ensures forall f :: Reports(c, d, managed, f) <==> Reports(c', d, managed, f)
  {
    hide AppsReport, Live, ContainerReports, PodImages;
  }
}
