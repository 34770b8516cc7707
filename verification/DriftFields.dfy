/** When the live cluster passes, in terms of the entries in its lists: which Application, which workload
    and which container counts, and where a workload keeps its containers. */
module DriftFields {
  import opened Wrappers
  import opened LiveDrift

  // ----- Containers

  /** The last container of each name has the image, and no other name is there. */
  ghost predicate Runs(cs: seq<Container>, images: map<string, Option<string>>) {
    && (forall name | name in images :: exists i | 0 <= i < |cs| :: cs[i].name == name)
    && (forall i | 0 <= i < |cs| :: cs[i].name in images)
    && (forall i | 0 <= i < |cs| :: (forall j | i < j < |cs| :: cs[j].name != cs[i].name) ==> images[cs[i].name] == cs[i].image)
  }

  /** The names that occur, each with the image of its last container. */
  ghost predicate AreLast(cs: seq<Container>, got: map<string, Option<string>>) {
    && (forall name :: name in got <==> exists i | 0 <= i < |cs| :: cs[i].name == name)
    && forall name | name in got ::
         exists i | 0 <= i < |cs| :: cs[i] == Container(name, got[name]) && forall j | i < j < |cs| :: cs[j].name != name
  }

  lemma {:induction false} RunsIff(cs: seq<Container>, images: map<string, Option<string>>)
    ensures Runs(cs, images) <==> ImagesOf(cs) == images
  {
    var got := ImagesOf(cs);
    assert AreLast(cs, got) by {
      forall name
        ensures name in got <==> exists i | 0 <= i < |cs| :: cs[i].name == name
        ensures name in got ==>
                  exists i | 0 <= i < |cs| :: cs[i] == Container(name, got[name]) && forall j | i < j < |cs| :: cs[j].name != name
      {
        ImagesAre(cs, name);
      }
    }
    hide ImagesOf, AreLast, Runs;
    RunsLast(cs, got);
    if Runs(cs, images) {
      RunsOnly(cs, images, got);
    }
  }

  lemma {:induction false} RunsLast(cs: seq<Container>, got: map<string, Option<string>>)
    requires AreLast(cs, got)
    ensures Runs(cs, got)
  {
  }

  lemma {:induction false} RunsOnly(cs: seq<Container>, images: map<string, Option<string>>, got: map<string, Option<string>>)
    requires Runs(cs, images) && AreLast(cs, got)
    ensures got == images
  {
    forall name | name in got ensures name in images && got[name] == images[name] {
      var i :| 0 <= i < |cs| && cs[i] == Container(name, got[name]) && forall j | i < j < |cs| :: cs[j].name != name;
      assert images[cs[i].name] == cs[i].image;
    }
  }

  /** A CronJob keeps its pod in the job template. */
  ghost predicate RunsImages(w: Workload, images: Images) {
    if w.kind == "CronJob" then
      Runs(w.jobTemplate.containers, images.containers) && Runs(w.jobTemplate.initContainers, images.initContainers)
    else
      Runs(w.template.containers, images.containers) && Runs(w.template.initContainers, images.initContainers)
  }

  lemma {:induction false} RunsImagesIff(w: Workload, images: Images)
    ensures RunsImages(w, images) <==> PodImages(w) == images
  {
    hide Runs, ImagesOf;
    RunsIff(w.jobTemplate.containers, images.containers);
    RunsIff(w.jobTemplate.initContainers, images.initContainers);
    RunsIff(w.template.containers, images.containers);
    RunsIff(w.template.initContainers, images.initContainers);
  }

  // ----- Workloads

  function KeyOf(w: Workload): string { w.kind + "/" + w.namespace + "/" + w.name }

  /** The workload at `i` is the last under its key. */
  ghost predicate IsLatest(ws: seq<Workload>, i: nat) {
    i < |ws| && forall j | i < j < |ws| :: KeyOf(ws[j]) != KeyOf(ws[i])
  }

  /** The last live workload under the key runs the images. */
  ghost predicate LiveRuns(ws: seq<Workload>, key: string, images: Images) {
    exists i: nat :: IsLatest(ws, i) && KeyOf(ws[i]) == key && RunsImages(ws[i], images)
  }

  lemma {:induction false} LatestIs(ws: seq<Workload>, i: nat)
    requires IsLatest(ws, i)
    ensures KeyOf(ws[i]) in Live(ws) && Live(ws)[KeyOf(ws[i])] == ws[i]
  {
    var key := KeyOf(ws[i]);
    assert forall w: Workload :: WorkloadId(w) == KeyOf(w);
    LastByIs(ws, WorkloadId, key);
    hide KeyOf, WorkloadId, LastBy;
    var j :| 0 <= j < |ws| && ws[j] == Live(ws)[key] && WorkloadId(ws[j]) == key &&
             forall k | j < k < |ws| :: WorkloadId(ws[k]) != key;
  }

  lemma {:induction false} LatestOf(ws: seq<Workload>, key: string) returns (i: nat)
    requires key in Live(ws)
    ensures IsLatest(ws, i) && KeyOf(ws[i]) == key && ws[i] == Live(ws)[key]
  {
    assert forall w: Workload :: WorkloadId(w) == KeyOf(w);
    LastByIs(ws, WorkloadId, key);
    hide KeyOf, WorkloadId, LastBy;
    i :| i < |ws| && ws[i] == Live(ws)[key] && WorkloadId(ws[i]) == key && forall k | i < k < |ws| :: WorkloadId(ws[k]) != key;
  }

  lemma {:induction false} LiveIff(ws: seq<Workload>, key: string, images: Images)
    ensures LiveRuns(ws, key, images) <==> key in Live(ws) && PodImages(Live(ws)[key]) == images
  {
    hide KeyOf, Live, PodImages, RunsImages;
    if key in Live(ws) {
      var i := LatestOf(ws, key);
      RunsImagesIff(ws[i], images);
      assert RunsImages(ws[i], images) ==> LiveRuns(ws, key, images);
    }
    if i: nat :| IsLatest(ws, i) && KeyOf(ws[i]) == key && RunsImages(ws[i], images) {
      LatestIs(ws, i);
      RunsImagesIff(ws[i], images);
    }
  }

  /** A tracked resource and a workload of the same kind, namespace and name have the same key; without
      slashes in kind and namespace only these do. */
  lemma {:induction false} SameKey(r: Tracked, w: Workload)
    requires r.namespace.Some? && r.name.Some?
    ensures r.kind == w.kind && r.namespace.value == w.namespace && r.name.value == w.name ==> TrackedId(r) == WorkloadId(w)
    ensures TrackedId(r) == r.kind + "/" + r.namespace.value + "/" + r.name.value
  {
  }

  // ----- Applications

  /** The application at `i` is the last of its name. */
  predicate IsCurrent(apps: seq<Application>, i: nat) {
    i < |apps| && forall j | i < j < |apps| :: apps[j].name != apps[i].name
  }

  /** Some rule has the kind and the group of the resource, and its name and namespace where it gives any. */
  ghost predicate Covered(r: Tracked, rules: seq<Rule>) {
    exists i | 0 <= i < |rules| ::
      && rules[i].kind == r.kind && rules[i].group == r.group
      && (rules[i].name.Some? ==> rules[i].name == r.name)
      && (rules[i].namespace.Some? ==> rules[i].namespace == r.namespace)
  }

  /** The resource is in sync, or has no say, or is covered; a workload is declared. */
  ghost predicate ResourceFine(app: Application, d: Declared, r: Tracked) {
    && (r.status == Some("OutOfSync") ==> Covered(r, app.rules))
    && (r.kind == "Deployment" || r.kind == "StatefulSet" || r.kind == "DaemonSet" || r.kind == "CronJob" ==>
          r.kind + "/" + (if r.namespace.Some? then r.namespace.value else "") + "/" +
            (if r.name.Some? then r.name.value else "?") in d.workloads)
  }

  ghost predicate AppFine(app: Application, d: Declared) {
    && app.sync == Some("Synced") && d.revision in app.revisions
    && forall i | 0 <= i < |app.resources| :: ResourceFine(app, d, app.resources[i])
  }

  /** The last application of that name is fine. */
  ghost predicate IsThere(apps: seq<Application>, d: Declared, name: string) {
    exists i: nat :: IsCurrent(apps, i) && apps[i].name == name && AppFine(apps[i], d)
  }

  /** The root is known, every expected Application is there and fine, and every declared workload runs
      the declared images. */
  ghost predicate MatchesGit(c: Cluster, d: Declared) {
    && c.rootKnown
    && (forall name | name in d.apps :: IsThere(c.apps, d, name))
    && forall key | key in d.workloads :: LiveRuns(c.workloads, key, d.workloads[key])
  }

  lemma {:induction false} AppIff(apps: seq<Application>, i: nat)
    requires IsCurrent(apps, i)
    ensures apps[i].name in ByName(apps) && ByName(apps)[apps[i].name] == apps[i]
  {
    LastByIs(apps, AppName, apps[i].name);
    hide LastBy;
    var j :| 0 <= j < |apps| && apps[j] == ByName(apps)[apps[i].name] && apps[j].name == apps[i].name &&
             forall k | j < k < |apps| :: apps[k].name != apps[i].name;
  }

  lemma {:induction false} CurrentOf(apps: seq<Application>, name: string) returns (i: nat)
    requires name in ByName(apps)
    ensures IsCurrent(apps, i) && apps[i] == ByName(apps)[name] && apps[i].name == name
  {
    LastByIs(apps, AppName, name);
    hide LastBy;
    i :| i < |apps| && apps[i] == ByName(apps)[name] && apps[i].name == name && forall k | i < k < |apps| :: apps[k].name != name;
  }

  lemma {:induction false} SyncIff(app: Application, d: Declared)
    ensures AppFine(app, d) <==>
            AppInSync(app, d.revision) && forall key | Tracks(app, key) :: key in d.workloads
  {
    forall i | 0 <= i < |app.resources| && app.resources[i].kind in WORKLOAD_KINDS
      ensures Tracks(app, TrackedId(app.resources[i]))
    {
    }
    forall i | 0 <= i < |app.resources|
      ensures IsIgnored(app.resources[i], app.rules) <==> Covered(app.resources[i], app.rules)
      ensures ResourceFine(app, d, app.resources[i]) <==>
              && (app.resources[i].status == Some("OutOfSync") ==> IsIgnored(app.resources[i], app.rules))
              && (app.resources[i].kind in WORKLOAD_KINDS ==> TrackedId(app.resources[i]) in d.workloads)
    {
      ResourceIff(app, d, app.resources[i]);
    }
    hide IsIgnored, Covered, ResourceFine, TrackedId;
  }

  lemma {:induction false} ResourceIff(app: Application, d: Declared, r: Tracked)
    ensures IsIgnored(r, app.rules) <==> Covered(r, app.rules)
    ensures ResourceFine(app, d, r) <==>
            && (r.status == Some("OutOfSync") ==> IsIgnored(r, app.rules))
            && (r.kind in WORKLOAD_KINDS ==> TrackedId(r) in d.workloads)
  {
    assert forall rule: Rule :: Matches(rule, r) <==>
        && rule.kind == r.kind && rule.group == r.group
        && (rule.name.Some? ==> rule.name == r.name) && (rule.namespace.Some? ==> rule.namespace == r.namespace);
    hide Matches;
  }

  /** Nothing unauthorized is reported exactly when the cluster matches what Git declares. */
  lemma {:induction false} PassesWhen(c: Cluster, d: Declared, managed: set<string>)
    requires AreManaged(c, d, managed)
    ensures Passes(c, d, managed) <==> MatchesGit(c, d)
  {
    hide Passes, LiveRuns, Live, PodImages, ByName, IsThere, AppInSync, Tracks;
    PassesIff(c, d, managed);
    forall key, images ensures LiveRuns(c.workloads, key, images) <==> key in Live(c.workloads) && PodImages(Live(c.workloads)[key]) == images {
      LiveIff(c.workloads, key, images);
    }
    forall name
      ensures IsThere(c.apps, d, name) <==>
              && name in ByName(c.apps) && AppInSync(ByName(c.apps)[name], d.revision)
              && forall key | Tracks(ByName(c.apps)[name], key) :: key in d.workloads
    {
      ExpectedIff(c, d, name);
    }
    assert managed <= d.workloads.Keys <==>
           forall name, key | name in d.apps && name in ByName(c.apps) && Tracks(ByName(c.apps)[name], key) :: key in d.workloads
    by {
      ManagedIff(c, d, managed);
    }
  }

  lemma {:induction false} ManagedIff(c: Cluster, d: Declared, managed: set<string>)
    requires AreManaged(c, d, managed)
    ensures managed <= d.workloads.Keys <==>
            forall name, key | name in d.apps && name in ByName(c.apps) && Tracks(ByName(c.apps)[name], key) :: key in d.workloads
  {
    hide ByName, Tracks;
    forall name, key | name in d.apps && name in ByName(c.apps) && Tracks(ByName(c.apps)[name], key) ensures key in managed {
      var i :| 0 <= i < |d.apps| && d.apps[i] == name;
    }
  }

  lemma {:induction false} ExpectedIff(c: Cluster, d: Declared, name: string)
    ensures IsThere(c.apps, d, name) <==>
            && name in ByName(c.apps) && AppInSync(ByName(c.apps)[name], d.revision)
            && forall key | Tracks(ByName(c.apps)[name], key) :: key in d.workloads
  {
    hide ByName, AppFine, AppInSync, Tracks;
    if name in ByName(c.apps) {
      var i := CurrentOf(c.apps, name);
      SyncIff(c.apps[i], d);
    }
    if i: nat :| IsCurrent(c.apps, i) && c.apps[i].name == name && AppFine(c.apps[i], d) {
      AppIff(c.apps, i);
      SyncIff(c.apps[i], d);
    }
  }

  // ----- Nothing to report at all

  predicate IsQuiet(r: Tracked) {
    r.status == Some("Synced") && (r.health == None || r.health == Some("Healthy"))
  }

  lemma {:induction false} QuietResource(app: Application, r: Tracked)
    ensures (forall f :: !ResourceReports(app, r, f)) <==> IsQuiet(r)
  {
    if forall f :: !ResourceReports(app, r, f) {
      assert !ResourceReports(app, r, ResourceHealth(app.name, r)) && !ResourceReports(app, r, Untracked(app.name, r));
      assert !ResourceReports(app, r, OutOfSync(app.name, r)) && !ResourceReports(app, r, OutOfSyncIgnored(app.name, r));
      assert !ResourceReports(app, r, OtherStatus(app.name, r));
    }
  }

  /** Not even a tolerated finding about an Application: it is synced, healthy, at the revision, and tracks
      some resources, all of them synced and healthy if they have a health. */
  lemma {:induction false} QuietApp(app: Application, revision: string)
    ensures (forall f :: !AppReports(app, revision, f)) <==>
            && app.sync == Some("Synced") && app.health == Some("Healthy") && revision in app.revisions
            && app.resources != [] && forall i | 0 <= i < |app.resources| :: IsQuiet(app.resources[i])
  {
    hide ResourceReports, IsQuiet;
    if forall f :: !AppReports(app, revision, f) {
      assert !AppReports(app, revision, NotSynced(app.name)) && !AppReports(app, revision, OtherRevision(app.name));
      assert !AppReports(app, revision, AppHealth(app.name)) && !AppReports(app, revision, NothingTracked(app.name));
    }
    forall i | 0 <= i < |app.resources|
      ensures (forall f :: !ResourceReports(app, app.resources[i], f)) <==> IsQuiet(app.resources[i])
    {
      QuietResource(app, app.resources[i]);
    }
    if i :| 0 <= i < |app.resources| && !IsQuiet(app.resources[i]) {
      var f :| ResourceReports(app, app.resources[i], f);
      assert AppReports(app, revision, f);
    }
  }
}
