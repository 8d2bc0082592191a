/** Fail-closed launching: what holds whenever a child or reviewer is started. */
module Launching {
  import opened Prelude
  import opened GitModel
  import opened PromptPack
  import opened Protocol
  import opened Ledger
  import opened History
  import opened Runs

  /** The conditions under which a child may be started. */
  ghost predicate LaunchOk(u: Setup, l: Launch) {
    var s := l.at.state;
    && l.at.git.head == s.commit && OnlyFindings(l.at.git.dirty)
    && l.ids != [] && l.ids[0] == s.next
    && (s.next in Expected(u, s.last) || (s.next == R3 && ReportsBound(u, l.at)))
    && (forall i :: 0 <= i < |l.ids| ==> !LateTask(l.ids[i]) && !Gated(u.pack, l.ids[i]))
    && (R3 in l.ids && HasReviewPair(u.pack) ==> l.ids[0] == R3 && ReportsBound(u, l.at))
  }

  /** Both reports were made at the commit that is HEAD now. */
  ghost predicate ReportsBound(u: Setup, w: World) {
    w.state.review.status.ReportsComplete? && w.state.review.sha == w.git.head && Expected(u, w.state.last) == [R1, R2]
  }

  /** T04-R3 comes right after the reviewer pair, so it follows only last == the pair's predecessor. */
  lemma R3Place(p: Pack, k: nat)
    requires ValidPack(p) && k < |p.order| && p.order[k] == Reviewers([R1, R2])
    ensures Item(p, R3) == Some(k + 1) && k + 1 < |p.order| && p.order[k + 1] == One(R3)
  {
    hide Flatten, ItemFrom;
    ItemOf(p, k + 1, R3);
  }

  lemma R3NotNext(u: Setup, last: PromptId)
    requires ValidSetup(u) && HasReviewPair(u.pack) && IsOne(u.pack, last)
    ensures R3 !in Expected(u, last)
  {
    hide Flatten, ItemFrom;
    var k: nat :| k < |u.pack.order| && u.pack.order[k] == Reviewers([R1, R2]);
    var j := Item(u.pack, last).value;
    R3Place(u.pack, k);
    if R3 in Expected(u, last) {
      ItemOf(u.pack, j + 1, R3);
    }
  }

  /** Inside a group T04-R3 can only be the first prompt. */
  lemma R3First(u: Setup, ids: seq<PromptId>, q: nat)
    requires ValidSetup(u) && HasReviewPair(u.pack) && IntervalAt(u.pack, ids, q) && R3 in ids
    ensures ids[0] == R3
  {
    var i: nat :| i < |ids| && ids[i] == R3;
    var k: nat :| k < |u.pack.order| && u.pack.order[k] == Reviewers([R1, R2]);
    R3Place(u.pack, k);
    assert i > 0 ==> u.pack.order[q + (i - 1)] == One(ids[i - 1]);
    assert u.pack.order[q + i] == One(ids[i]);
    ItemOf(u.pack, q + i, R3);
  }

  lemma GroupUngated(u: Setup, g: Group)
    requires ValidSetup(u) && g.ids != [] && Select(u.groups, g.ids[0]) == Some(g)
    requires !LateTask(g.ids[0])
    ensures forall i :: 0 <= i < |g.ids| ==> !LateTask(g.ids[i]) && !Gated(u.pack, g.ids[i])
  {
    hide ValidPack, Select;
    var h := SelectSound(u.groups, g.ids[0]);
    var all, m := u.groups[h].ids, IndexOf(u.groups[h].ids, g.ids[0]);
    assert Interval(u.pack, all);
    forall i | 0 <= i < |g.ids| ensures !LateTask(g.ids[i]) && !Gated(u.pack, g.ids[i]) {
      assert g.ids[i] == all[m + i] && g.ids[0] == all[m];
      SameTaskNotLate(g.ids[0], g.ids[i]);
    }
  }

  /** One numbered task: either all of its prompts are late or none is. */
  lemma SameTaskNotLate(a: PromptId, b: PromptId)
    requires TaskOf(a).Some? && TaskOf(a) == TaskOf(b) && !LateTask(a)
    ensures !LateTask(b)
  {
    LateIsTask(a);
    LateIsTask(b);
  }

  lemma LateIsTask(id: PromptId)
    requires TaskOf(id).Some?
    ensures LateTask(id) <==> TaskOf(id).value == "18" || TaskOf(id).value == "19"
  {
    var t := TaskOf(id).value;
    assert t[0] == id[1] && t[1] == id[2];
    assert id[..4] == ['T', id[1], id[2], '-'];
    assert StartsWith(id, "T18-") <==> id[..4] == "T18-";
    assert StartsWith(id, "T19-") <==> id[..4] == "T19-";
    assert t == [id[1], id[2]];
  }

  /** The stored state has been validated and the command dispatches a child. */
  ghost predicate Validated(u: Setup, c: Ctx, w: World) {
    Fits(u, c) && Startable(u, w) && OnlyFindings(w.git.dirty)
  }

  /** A launch at a validated place, with w1 the world once `running` is durable. */
  lemma LaunchPlace(u: Setup, c: Ctx, w: World, w1: World, ids: seq<PromptId>)
    requires Validated(u, c, w) && w1.git == w.git
    requires w1.state.last == w.state.last && w1.state.commit == w.state.commit
    requires w1.state.next == w.state.next && w1.state.review == w.state.review
    requires ids != [] && ids[0] == w.state.next
    requires forall i :: 0 <= i < |ids| ==> !LateTask(ids[i]) && !Gated(u.pack, ids[i])
    requires R3 in ids && HasReviewPair(u.pack) ==> ids[0] == R3
    ensures LaunchOk(u, Launch(ids, w1))
  {
    hide Accounted, ValidSetup, ItemFrom, LateTask, Gated, RunOk, Follows;
    if HasReviewPair(u.pack) {
      AccountedOne(u, w);
      R3NotNext(u, w.state.last);
    }
  }

  lemma SoloLaunch(u: Setup, c: Ctx, w: World, env: StepEnv)
    requires Validated(u, c, w) && !IsReviewer(u.pack, w.state.next)
    requires !LateTask(w.state.next) && !Gated(u.pack, w.state.next)
    ensures forall i :: 0 <= i < |RunSolo(c, w, env).launches| ==> LaunchOk(u, RunSolo(c, w, env).launches[i])
  {
    hide FinishSolo, Validated, IsReviewer, LaunchOk, LateTask, Gated, LoadReports;
    NoLaunchInFinishSolo(c, w, env);
    var a := Active([w.state.next], [], None, w.git.head, c.cfg.profile.Efficient?);
    LaunchPlace(u, c, w, w.(state := Cleared(w.state).(status := Running, active := Some(a)), files := NO_FILES),
      [w.state.next]);
  }

  /** On its own, T04-R3 also needs both report files to be readable; inside a group it does not. */
  lemma {:induction false} SoloR3NeedsFiles(c: Ctx, w: World, env: StepEnv)
    requires w.state.next == R3 && RunSolo(c, w, env).launches != []
    ensures w.state.review.status.ReportsComplete? && w.state.review.reports == {R1, R2}
    ensures (R1, w.state.review.sha) in w.reports && (R2, w.state.review.sha) in w.reports
  {
    hide FinishSolo;
    assert LoadReports(w).Some?;
  }

  lemma AccountedOne(u: Setup, w: World)
    requires Inv(u, w)
    ensures IsOne(u.pack, w.state.last)
  {
    hide LedgerOk, Singles, FlatIds;
  }

  lemma NoLaunchInFinishSolo(c: Ctx, w: World, env: StepEnv)
    ensures forall v: World, r: ChildRun, id: PromptId, pre: Sha, scope: string
      {:trigger FinishSolo(c, v, r, id, pre, scope)} ::
      FinishSolo(c, v, r, id, pre, scope).launches == []
  {
    hide ValidChild, CompleteState;
  }

  lemma NoLaunchInFinishGroup(c: Ctx, w: World, r: ChildRun, g: Group, pre: Sha)
    requires g.ids != []
    ensures FinishGroup(c, w, r, g, pre).launches == []
  {
    hide ValidGroup, RecoverablePrefix, CompleteState, PrefixState, HandoffWrites;
  }

  lemma GroupLaunch(u: Setup, c: Ctx, w: World, g: Group, env: StepEnv)
    requires Validated(u, c, w) && !IsReviewer(u.pack, w.state.next)
    requires !LateTask(w.state.next)
    requires g.ids != [] && g.ids[0] == w.state.next && Select(u.groups, w.state.next) == Some(g)
    ensures forall i :: 0 <= i < |RunGroup(c, w, g, env).launches| ==> LaunchOk(u, RunGroup(c, w, g, env).launches[i])
  {
    hide FinishGroup, Startable, IsReviewer, Select, IntervalAt, ValidSetup, LaunchOk, LateTask, Gated;
    GroupUngated(u, g);
    StartableFollows(u, w);
    var q := GroupRun(u, w.state.last, g);
    if R3 in g.ids && HasReviewPair(u.pack) {
      R3First(u, g.ids, q);
    }
    var a := Active(g.ids, g.configured, g.subject, w.git.head, true);
    var w1 := w.(state := Cleared(w.state).(status := Running, active := Some(a)), files := NO_FILES);
    LaunchPlace(u, c, w, w1, g.ids);
    NoLaunchInFinishGroup(c, w1.(git := env.child.git, files := env.child.files), env.child, g, a.preHead);
  }

  lemma PairLaunch(u: Setup, c: Ctx, w: World, env: StepEnv)
    requires Validated(u, c, w) && !LateTask(w.state.next)
    ensures forall i :: 0 <= i < |RunPair(c, w, env).launches| ==>
      RunPair(c, w, env).launches[i].ids == [R1, R2]
      && RunPair(c, w, env).launches[i].at.git.head == w.state.commit
      && RunPair(c, w, env).launches[i].at.state.review.sha == w.state.commit
      && OnlyFindings(RunPair(c, w, env).launches[i].at.git.dirty)
  {
    hide Accounted, ItemFrom, FinishPair;
    NoLaunchInFinishPair(c, w, env);
  }

  /** Every launch of a step is at the stored commit, in a clean worktree, for the prompt that
      follows; never a T18, T19 or gated prompt; and T04-R3 only with reports bound to HEAD. */
  ghost predicate StepLaunchOk(u: Setup, l: Launch) {
    || LaunchOk(u, l)
    || (l.ids == [R1, R2] && l.at.git.head == l.at.state.commit == l.at.state.review.sha
        && OnlyFindings(l.at.git.dirty) && Expected(u, l.at.state.last) == [R1, R2]
        && !LateTask(l.at.state.next) && !Gated(u.pack, l.at.state.next))
  }

  lemma DispatchLaunches(u: Setup, c: Ctx, w: World, env: StepEnv)
    requires Validated(u, c, w)
    ensures forall i :: 0 <= i < |Dispatch(c, w, env).launches| ==> StepLaunchOk(u, Dispatch(c, w, env).launches[i])
    ensures |Dispatch(c, w, env).launches| <= 1
  {
    hide Accounted, RunSolo, RunGroup, RunPair, IsReviewer, Resolved, Select, NextOk, ReviewOk, LaunchOk, ItemFrom;
    var id := w.state.next;
    AtMostOne(c, w, env);
    if id in c.pack.prompts && !LateTask(id) && !Gated(c.pack, id) {
      if IsReviewer(c.pack, id) {
        PairLaunch(u, c, w, env);
        PairPlace(c, w, env);
      } else {
        SoloLaunch(u, c, w, env);
        if c.cfg.profile.Efficient? && Resolved(c.pack, c.cfg.specs, c.cfg.maxIds).Ok? && Select(u.groups, id).Some? {
          GroupLaunch(u, c, w, Select(u.groups, id).value, env);
          AtMostOneGroup(c, w, Select(u.groups, id).value, env);
        }
      }
    }
  }

  lemma AtMostOne(c: Ctx, w: World, env: StepEnv)
    ensures |RunSolo(c, w, env).launches| <= 1 && |RunPair(c, w, env).launches| <= 1
  {
    hide FinishSolo, FinishPair, ItemFrom;
    NoLaunchInFinishSolo(c, w, env);
    NoLaunchInFinishPair(c, w, env);
  }

  lemma AtMostOneGroup(c: Ctx, w: World, g: Group, env: StepEnv)
    requires g.ids != []
    ensures |RunGroup(c, w, g, env).launches| <= 1
  {
    hide FinishGroup;
    var a := Active(g.ids, g.configured, g.subject, w.git.head, true);
    var w1 := w.(state := Cleared(w.state).(status := Running, active := Some(a)), files := NO_FILES);
    NoLaunchInFinishGroup(c, w1.(git := env.child.git, files := env.child.files), env.child, g, a.preHead);
  }

  lemma NoLaunchInFinishPair(c: Ctx, w: World, env: StepEnv)
    ensures forall v: World {:trigger FinishPair(c, v, env)} :: FinishPair(c, v, env).launches == []
  {
    hide ReviewFailure;
  }

  lemma PairPlace(c: Ctx, w: World, env: StepEnv)
    ensures forall i :: 0 <= i < |RunPair(c, w, env).launches| ==>
      && RunPair(c, w, env).launches[i].at.state.commit == w.state.commit
      && RunPair(c, w, env).launches[i].at.state.next == w.state.next
      && RunPair(c, w, env).launches[i].at.state.last == w.state.last
      && ExpectedNext(c.pack, w.state.last) == Some([R1, R2])
  {
    hide FinishPair, ItemFrom;
    NoLaunchInFinishPair(c, w, env);
  }

  lemma StepLaunches(u: Setup, c: Ctx, w: World, env: StepEnv)
    requires Fits(u, c) && Inv(u, w)
    ensures |Step(c, w, env).launches| <= 1
    ensures forall i :: 0 <= i < |Step(c, w, env).launches| ==> StepLaunchOk(u, Step(c, w, env).launches[i])
  {
    hide Inv, Dispatch, Startable, StepLaunchOk, Fits, GuidanceCurrent, Reconcile;
    ValidateInv(u, c, w, env.checks);
    ReconcileNoLaunch(c, w);
    var e := Validate(c, w, env.checks);
    if e.ok {
      DispatchLaunches(u, c, Final(w, e), env);
    }
  }

  lemma ReconcileNoLaunch(c: Ctx, w: World)
    ensures Reconcile(c, w).launches == []
  {
    hide ValidChild, ValidGroup, RecoverablePrefix, CompleteState, PrefixState, HandoffWrites;
  }

  /** In no run, however interrupted, is a child started outside those conditions. */
  lemma EveryLaunchIsSafe(u: Setup, pol: Policy, w: World, events: seq<Event>, cfg: Config, env: StepEnv)
    requires ValidSetup(u) && GoodRevList(pol.revList) && Adopted(u, w) && SameGroups(u, events) && ConfigOk(u, cfg)
    ensures var l := Step(Ctx(u.pack, pol, cfg), Run(u, pol, w, events), env).launches;
      |l| <= 1 && forall i :: 0 <= i < |l| ==> StepLaunchOk(u, l[i])
  {
    hide Inv, Run, Step, StepLaunchOk, ValidSetup, GoodRevList, Adopted, SameGroups;
    AdoptInv(u, w);
    RunInv(u, pol, w, events);
    StepLaunches(u, Ctx(u.pack, pol, cfg), Run(u, pol, w, events), env);
  }
}
