/** `scripts/ci/mark-review-pass.py`: posting the review status of a pull request while others push to
    it, close it and merge it. Each read and each post is one atomic step of a run; the steps of any
    number of runs and of everybody else interleave freely. */
module ReviewPass {
  import opened Text
  import opened Wrappers

  // ----- The decision

  datatype PrState = Open | Closed | Merged

  /** What `gh pr view` returned: text that is no object, or an object in which fields may be missing
      or of the wrong type. */
  datatype View = NoObject | View(head: Option<string>, draft: Option<bool>, state: Option<PrState>)

  predicate IsFullSha(s: string) {
    |s| == 40 && forall i | 0 <= i < |s| :: IsDigit(s[i]) || 'a' <= s[i] <= 'f'
  }

  /** May a success status be posted for `sha`? If so, on which SHA? */
  function PlanStatus(view: View, sha: string): (r: Option<string>)
    ensures r.Some? <==>
            && view.View? && view.head == Some(Lower(sha)) && IsFullSha(Lower(sha))
            && view.draft == Some(false) && view.state == Some(Open)
    ensures r.Some? ==> r.value == Lower(sha)
  {
    if view.NoObject? then None
    else if view.head.None? || !IsFullSha(view.head.value) then None
    else
      var want := Lower(sha);
      if !IsFullSha(want) then None
      else if want != view.head.value then None
      else if view.draft != Some(false) then None
      else if view.state != Some(Open) then None
      else Some(view.head.value)
  }

  /** In plain characters: the SHA is 40 digits and letters `a` to `f`, which may be capital where it is
      given; the answer names it in small ones, open and no draft. */
  lemma {:induction false} PlanIff(view: View, sha: string, x: string)
    ensures PlanStatus(view, sha) == Some(x) <==>
            && view == View(Some(x), Some(false), Some(Open)) && |sha| == |x| == 40
            && forall i | 0 <= i < 40 ::
                 && ('0' <= x[i] <= '9' || 'a' <= x[i] <= 'f')
                 && (sha[i] == x[i] || ('A' <= sha[i] <= 'F' && sha[i] as int + 32 == x[i] as int))
  {
    if |sha| == 40 {
      forall i | 0 <= i < 40 ensures Lower(sha)[i] as int == sha[i] as int + if 65 <= sha[i] as int <= 90 then 32 else 0 {
        LowerAt(sha, i);
      }
    }
    if Lower(sha) == x || PlanStatus(view, sha) == Some(x) {
      assert |Lower(sha)| == |sha|;
    }
  }

  // ----- A run

  /** What a call of `gh` came back with; a failed post may or may not have reached the server. */
  datatype Read = Answer(view: View) | ReadFailed
  datatype Post = Posted | PostFailed(effective: bool)

  datatype Stage =
    | Started
    | Planned(detail: string)
    | Reported(detail: string)
    | Exited(code: nat)

  /** A run of the script: the SHA it was given, how far it is, when it read the pull request first and
      again, and what the second answer said about the head. */
  datatype Run = Run(sha: string, stage: Stage, first: Option<nat>, second: Option<nat>, seen: Option<string>)

  function AfterFirstRead(run: Run, read: Read, now: nat): Run {
    match read
    case ReadFailed => run.(stage := Exited(1))
    case Answer(view) =>
      match PlanStatus(view, run.sha)
      case None => run.(stage := Exited(1))
      case Some(detail) => run.(stage := Planned(detail), first := Some(now))
  }

  function AfterPost(run: Run, post: Post): Run
    requires run.stage.Planned?
  {
    match post
    case Posted => run.(stage := Reported(run.stage.detail))
    case PostFailed(_) => run.(stage := Exited(1))
  }

  /** An answer that is no object raises an error that `mark` does not catch; the interpreter exits with 1. */
  function AfterSecondRead(run: Run, read: Read, now: nat): Run
    requires run.stage.Reported?
  {
    match read
    case ReadFailed => run.(stage := Exited(1))
    case Answer(NoObject) => run.(stage := Exited(1))
    case Answer(View(head, _, _)) =>
      run.(stage := Exited(if head != Some(run.stage.detail) then 3 else 0), second := Some(now), seen := head)
  }

  // ----- The world

  datatype Pr = Pr(head: string, draft: bool, state: PrState)

  /** `log` holds the pull request after every step so far, the last entry being the present one;
      `statuses` the SHAs with a success status; `merged` the heads that were merged. */
  datatype World = World(log: seq<Pr>, statuses: set<string>, runs: map<nat, Run>, merged: seq<string>)
  {
    function Now(): nat
      requires |log| > 0
    {
      |log| - 1
    }

    function Current(): Pr
      requires |log| > 0
    {
      log[Now()]
    }
  }

  datatype Event =
    | Push(head: string)
    | SetDraft(draft: bool)
    | Close
    | Reopen
    | Merge
    | Begin(id: nat, sha: string)
    | FirstRead(id: nat, read: Read)
    | PostStatus(id: nat, post: Post)
    | SecondRead(id: nat, read: Read)

  ghost predicate Init(w: World) {
    |w.log| == 1 && w.statuses == {} && w.runs == map[] && w.merged == []
  }

  /** An answer may leave fields out, but what it says is true. */
  predicate Truthful(read: Read, pr: Pr) {
    read.Answer? && read.view.View? ==>
      && (read.view.head.Some? ==> read.view.head.value == pr.head)
      && (read.view.draft.Some? ==> read.view.draft.value == pr.draft)
      && (read.view.state.Some? ==> read.view.state.value == pr.state)
  }

  predicate IsAt(w: World, id: nat, event: Event)
  {
    && id in w.runs
    && match event
       case FirstRead(_, _) => w.runs[id].stage.Started?
       case PostStatus(_, _) => w.runs[id].stage.Planned?
       case SecondRead(_, _) => w.runs[id].stage.Reported?
       case _ => false
  }

  /** A merge needs an open pull request that is no draft and a success status on its head. */
  predicate Enabled(w: World, event: Event)
    requires |w.log| > 0
  {
    var pr := w.Current();
    match event
    case Push(_) => pr.state == Open
    case SetDraft(_) => pr.state == Open
    case Close => pr.state == Open
    case Reopen => pr.state == Closed
    case Merge => pr.state == Open && !pr.draft && pr.head in w.statuses
    case Begin(id, _) => id !in w.runs
    case FirstRead(id, read) => IsAt(w, id, event) && Truthful(read, pr)
    case PostStatus(id, _) => IsAt(w, id, event)
    case SecondRead(id, read) => IsAt(w, id, event) && Truthful(read, pr)
  }

  function Apply(w: World, event: Event): World
    requires |w.log| > 0 && Enabled(w, event)
  {
    var pr, now := w.Current(), w.Now();
    match event
    case Push(head) => w.(log := w.log + [pr.(head := head)])
    case SetDraft(draft) => w.(log := w.log + [pr.(draft := draft)])
    case Close => w.(log := w.log + [pr.(state := Closed)])
    case Reopen => w.(log := w.log + [pr.(state := Open)])
    case Merge => w.(log := w.log + [pr.(state := Merged)], merged := w.merged + [pr.head])
    case Begin(id, sha) => w.(log := w.log + [pr], runs := w.runs[id := Run(sha, Started, None, None, None)])
    case FirstRead(id, read) =>
      w.(log := w.log + [pr], runs := w.runs[id := AfterFirstRead(w.runs[id], read, now)])
    case PostStatus(id, post) =>
      var run := w.runs[id];
      var reached := post.Posted? || post.effective;
      w.(log := w.log + [pr], runs := w.runs[id := AfterPost(run, post)],
         statuses := if reached then w.statuses + {run.stage.detail} else w.statuses)
    case SecondRead(id, read) =>
      w.(log := w.log + [pr], runs := w.runs[id := AfterSecondRead(w.runs[id], read, now)])
  }

  /** The world after the events, when each was possible in its turn. */
  ghost predicate Reachable(w0: World, events: seq<Event>, w: World)
  {
    if events == [] then w == w0
    else
      var n := |events| - 1;
      exists w' ::
        Reachable(w0, events[..n], w') && |w'.log| > 0 && Enabled(w', events[n]) && w == Apply(w', events[n])
  }

  // ----- What every reachable world keeps

  /** The run read the pull request at time `t`, when `sha` was the head of an open, ready one. */
  ghost predicate WasReady(w: World, t: Option<nat>, sha: string) {
    t.Some? && t.value < |w.log| && w.log[t.value] == Pr(sha, false, Open)
  }

  /** The run was given `sha`, in full, and found it to be the head of an open, ready pull request. */
  ghost predicate Approves(w: World, run: Run, sha: string) {
    sha == Lower(run.sha) && IsFullSha(sha) && WasReady(w, run.first, sha)
  }

  ghost predicate RunOk(w: World, run: Run)
    requires |w.log| > 0
  {
    match run.stage
    case Started => run.first == None
    case Planned(detail) => Approves(w, run, detail) && run.first.value < w.Now()
    case Reported(detail) => Approves(w, run, detail) && run.first.value < w.Now() && detail in w.statuses
    case Exited(code) =>
      && (code == 0 || code == 1 || code == 3)
      && (code != 1 ==>
           && Approves(w, run, Lower(run.sha)) && Lower(run.sha) in w.statuses
           && run.second.Some? && run.first.value < run.second.value < |w.log|
           && (run.seen == None || run.seen == Some(w.log[run.second.value].head))
           && (code == 0 <==> run.seen == Some(Lower(run.sha))))
  }

  ghost predicate Reviewed(w: World, sha: string) {
    exists id :: id in w.runs && Approves(w, w.runs[id], sha)
  }

  ghost predicate Inv(w: World) {
    && |w.log| > 0
    && (forall id :: id in w.runs ==> RunOk(w, w.runs[id]))
    && (forall sha :: sha in w.statuses ==> Reviewed(w, sha))
    && (forall i | 0 <= i < |w.merged| :: w.merged[i] in w.statuses)
  }

  /** A run keeps what it was given and what it read. */
  ghost predicate Keeps(run: Run, run': Run) {
    run'.sha == run.sha && (run.first.Some? ==> run'.first == run.first)
  }

  ghost predicate Extends(w: World, w': World) {
    && |w'.log| > |w.log| && (forall i | 0 <= i < |w.log| :: w'.log[i] == w.log[i])
    && w.statuses <= w'.statuses
    && forall id :: id in w.runs ==> id in w'.runs && Keeps(w.runs[id], w'.runs[id])
  }

  lemma {:induction false} RunStaysOk(w: World, w': World, run: Run)
    requires |w.log| > 0 && Extends(w, w') && RunOk(w, run)
    ensures RunOk(w', run)
  {
  }

  lemma {:induction false} ApplyExtends(w: World, event: Event)
    requires Inv(w) && Enabled(w, event)
    ensures Extends(w, Apply(w, event))
  {
    hide Truthful;
  }

  lemma {:induction false} StepRun(w: World, event: Event, id: nat)
    requires Inv(w) && Enabled(w, event) && id in Apply(w, event).runs
    ensures RunOk(Apply(w, event), Apply(w, event).runs[id])
  {
    var w' := Apply(w, event);
    ApplyExtends(w, event);
    if id in w.runs {
      RunStaysOk(w, w', w.runs[id]);
    }
  }

  lemma {:induction false} StepInv(w: World, event: Event)
    requires Inv(w) && Enabled(w, event)
    ensures Inv(Apply(w, event))
  {
    var w' := Apply(w, event);
    ApplyExtends(w, event);
    forall id | id in w'.runs ensures RunOk(w', w'.runs[id]) {
      StepRun(w, event, id);
    }
    forall sha | sha in w'.statuses ensures Reviewed(w', sha) {
      if sha in w.statuses {
      } else {
        assert Approves(w', w'.runs[event.id], sha);
      }
    }
  }

  lemma {:induction false} ReachableInv(w0: World, events: seq<Event>, w: World)
    requires Init(w0) && Reachable(w0, events, w)
    ensures Inv(w)
  {
    if events != [] {
      var n := |events| - 1;
      var w' :| Reachable(w0, events[..n], w') && |w'.log| > 0 && Enabled(w', events[n]) && w == Apply(w', events[n]);
      ReachableInv(w0, events[..n], w');
      StepInv(w', events[n]);
    }
  }

  // ----- The guarantees, over every interleaving

  /** Every status is on the full SHA that some run was given and that was the head of the open, ready
      pull request when that run read it first; and so nothing that was not reviewed is merged. */
  lemma {:induction false} OnlyReviewedIsMerged(w0: World, events: seq<Event>, w: World)
    requires Init(w0) && Reachable(w0, events, w)
    ensures forall sha :: sha in w.statuses ==> Reviewed(w, sha)
    ensures forall i | 0 <= i < |w.merged| :: w.merged[i] in w.statuses && Reviewed(w, w.merged[i])
  {
    ReachableInv(w0, events, w);
  }

  /** Exit code 0: the status is posted, and the head was the reviewed SHA at both reads. */
  lemma {:induction false} ExitZero(w0: World, events: seq<Event>, w: World, id: nat)
    requires Init(w0) && Reachable(w0, events, w) && id in w.runs && w.runs[id].stage == Exited(0)
    ensures var run, sha := w.runs[id], Lower(w.runs[id].sha);
            && sha in w.statuses && run.first.Some? && run.second.Some?
            && run.first.value < run.second.value < |w.log|
            && w.log[run.first.value].head == sha == w.log[run.second.value].head
  {
    ReachableInv(w0, events, w);
    assert RunOk(w, w.runs[id]);
  }

  /** Exit code 3: the status is posted and the head was the reviewed SHA at the first read; at the
      second it had moved, or the answer did not name it. Nothing else ends with 3 or 0, and no other
      code but 1 exists. */
  lemma {:induction false} ExitThree(w0: World, events: seq<Event>, w: World, id: nat)
    requires Init(w0) && Reachable(w0, events, w) && id in w.runs && w.runs[id].stage.Exited?
    ensures w.runs[id].stage.code in {0, 1, 3}
    ensures w.runs[id].stage.code == 3 ==>
            var run, sha := w.runs[id], Lower(w.runs[id].sha);
            && sha in w.statuses && run.first.Some? && run.second.Some?
            && run.first.value < run.second.value < |w.log| && w.log[run.first.value].head == sha
            && (run.seen == None || w.log[run.second.value].head != sha)
  {
    ReachableInv(w0, events, w);
    assert RunOk(w, w.runs[id]);
  }

  /** How the second read decides. The run ends with 0 exactly when the answer names the reviewed SHA,
      and with 3 exactly when it is an object that does not: because the head moved, or because the
      answer leaves it out. So a head that did not move gives exit code 3 exactly when the answer is an
      object without it. */
  lemma {:induction false} SecondReadDecides(w0: World, events: seq<Event>, w: World, id: nat, read: Read)
    requires Init(w0) && Reachable(w0, events, w) && Enabled(w, SecondRead(id, read))
    ensures var sha := Lower(w.runs[id].sha);
            var code := Apply(w, SecondRead(id, read)).runs[id].stage.code;
            var named := read.Answer? && read.view.View? && read.view.head.Some?;
            && (code == 0 <==> named && w.Current().head == sha)
            && (code == 3 <==> read.Answer? && read.view.View? && (named ==> w.Current().head != sha))
  {
    ReachableInv(w0, events, w);
    assert RunOk(w, w.runs[id]);
  }

  // ----- Exit code 3 without a push

  lemma {:induction false} OneMoreEvent(w0: World, events: seq<Event>, w: World, event: Event)
    requires Reachable(w0, events, w) && |w.log| > 0 && Enabled(w, event)
    ensures Reachable(w0, events + [event], Apply(w, event))
  {
    assert (events + [event])[..|events|] == events;
  }

  /** A run of its own, with a second answer that leaves the head out. */
  function Alone(sha: string): seq<Event> {
    [Begin(0, sha), FirstRead(0, Answer(View(Some(sha), Some(false), Some(Open)))), PostStatus(0, Posted),
     SecondRead(0, Answer(View(None, Some(false), Some(Open))))]
  }

  /** A full SHA is its own lower case, and the answer of that first read lets it pass. */
  lemma {:induction false} AlonePlans(sha: string)
    requires IsFullSha(sha)
    ensures PlanStatus(View(Some(sha), Some(false), Some(Open)), sha) == Some(sha)
  {
    assert Lower(sha) == sha;
  }

  lemma {:induction false} AloneSteps(sha: string, w0: World) returns (w1: World, w2: World, w3: World, w: World)
    requires IsFullSha(sha) && w0 == World([Pr(sha, false, Open)], {}, map[], [])
    ensures var e := Alone(sha);
            && Enabled(w0, e[0]) && w1 == Apply(w0, e[0]) && |w1.log| > 0
            && Enabled(w1, e[1]) && w2 == Apply(w1, e[1]) && |w2.log| > 0
            && Enabled(w2, e[2]) && w3 == Apply(w2, e[2]) && |w3.log| > 0
            && Enabled(w3, e[3]) && w == Apply(w3, e[3])
    ensures 0 in w.runs && w.runs[0].sha == sha && w.runs[0].stage == Exited(3) && sha in w.statuses
    ensures forall i | 0 <= i < |w.log| :: w.log[i] == Pr(sha, false, Open)
  {
    AlonePlans(sha);
    hide IsFullSha, PlanStatus;
    var pr := Pr(sha, false, Open);
    var run := Run(sha, Started, None, None, None);
    w1 := World([pr, pr], {}, map[0 := run], []);
    assert w1 == Apply(w0, Begin(0, sha));
    w2 := World([pr, pr, pr], {}, map[0 := run.(stage := Planned(sha), first := Some(1))], []);
    assert w2 == Apply(w1, Alone(sha)[1]);
    w3 := World([pr, pr, pr, pr], {sha}, map[0 := run.(stage := Reported(sha), first := Some(1))], []);
    assert w3 == Apply(w2, PostStatus(0, Posted));
    w := Apply(w3, Alone(sha)[3]);
  }

  /** Nobody pushes, and still a run ends with 3: the second answer leaves the head out. */
  lemma {:induction false} ThreeWithoutPush(sha: string) returns (w0: World, w: World)
    requires IsFullSha(sha)
    ensures Init(w0) && Reachable(w0, Alone(sha), w)
    ensures 0 in w.runs && w.runs[0].sha == sha && w.runs[0].stage == Exited(3) && sha in w.statuses
    ensures forall i | 0 <= i < |w.log| :: w.log[i] == Pr(sha, false, Open)
  {
    w0 := World([Pr(sha, false, Open)], {}, map[], []);
    assert Reachable(w0, [], w0);
    hide Apply, Enabled, Reachable, IsFullSha;
    var w1, w2, w3;
    w1, w2, w3, w := AloneSteps(sha, w0);
    var events := Alone(sha);
    assert [] + [events[0]] == events[..1] && events[..1] + [events[1]] == events[..2];
    assert events[..2] + [events[2]] == events[..3] && events[..3] + [events[3]] == events;
    hide Alone;
    OneMoreEvent(w0, [], w0, events[0]);
    OneMoreEvent(w0, events[..1], w1, events[1]);
    OneMoreEvent(w0, events[..2], w2, events[2]);
    OneMoreEvent(w0, events[..3], w3, events[3]);
  }
}
