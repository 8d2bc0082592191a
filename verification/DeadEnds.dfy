/** Positions no command gets past: the complete list, how each is entered, and that none is ever left. */
module DeadEnds {
  import opened Prelude
  import opened GitModel
  import opened PromptPack
  import opened Protocol
  import opened Ledger
  import opened History
  import opened Runs
  import opened Failing
  import opened Progress
  import opened Launching
  import opened Evidence

  /** T04-R3 is done but the reports still count as complete; the reviewer pair failed and stays
      marked as running; the reviewers due are not a pair the supervisor runs; T04-R3 is due
      without reports and outside every group; a group's progress record was left behind; or
      nothing is left to run. */
  ghost predicate DeadEnd(u: Setup, w: World) {
    && Settled(w.state)
    && (Rejected(u, w) || w.state.review.status.InReview? || NoPair(u, w)
        || (Unreviewed(w.state) && Select(u.groups, R3).None?))
  }

  /** Stored-state validation refuses these. */
  ghost predicate Rejected(u: Setup, w: World) {
    PastFinalReview(w.state) || Stale(u, w) || Expected(u, w.state.last) == []
  }

  predicate PastFinalReview(s: State) {
    s.review.status.ReportsComplete? && s.next != R3
  }

  /** Reviewers are due that are not T04-R1 and T04-R2, or without the handoff they are given. */
  ghost predicate NoPair(u: Setup, w: World) {
    w.state.review.status.Pending? && (Expected(u, w.state.last) != [R1, R2] || K !in w.handoffs)
  }

  predicate Unreviewed(s: State) {
    s.next == R3 && !s.review.status.ReportsComplete?
  }

  lemma DeadIsRejected(u: Setup, c: Ctx, w: World)
    requires Fits(u, c) && Inv(u, w) && Rejected(u, w)
    ensures !ValidStored(c, w)
  {
    hide Accounted, GuidanceCurrent, Resolved, ItemFrom, Flatten, WellFormed, Follows;
    if Stale(u, w) {
      AccountedRepo(u, w);
      StaleIsRejected(u, c, w);
    }
  }

  /** No command launches anything or moves the position; where validation already refuses, every
      command fails without writing at all. */
  lemma DeadEffect(u: Setup, c: Ctx, w: World, command: Command)
    requires Fits(u, c) && Inv(u, w) && DeadEnd(u, w)
    ensures var e := Effect(c, w, command);
      && e.launches == []
      && (forall i :: 0 <= i < |e.writes| ==> DeadEnd(u, e.writes[i]) && SameTriple(w, e.writes[i]))
      && (Rejected(u, w) ==> e.writes == [] && !e.ok)
  {
    hide Accounted, GuidanceCurrent, Resolved, Expected, ValidSetup, StaticOk, Stale, Dispatch, Rejected, Unreviewed,
      NoPair;
    if Rejected(u, w) {
      DeadIsRejected(u, c, w);
    } else {
      StoppedIsDead(u, w);
      if command.DoStep? { DeadDispatch(u, c, w, command.env); }
    }
  }

  lemma StoppedIsDead(u: Setup, w: World)
    requires Inv(u, w) && DeadEnd(u, w)
    ensures DeadEnd(u, StopWrite(w).writes[0]) && SameTriple(w, StopWrite(w).writes[0])
  {
    hide Accounted, StaleAt, ItemFrom;
    if Stale(u, w) { StaleKept(u, w, StopWrite(w).writes[0]); }
  }

  /** Past validation such a state can at most be stopped. */
  lemma DeadDispatch(u: Setup, c: Ctx, w: World, env: StepEnv)
    requires Fits(u, c) && Inv(u, w) && DeadEnd(u, w) && !Rejected(u, w)
    ensures Dispatch(c, w, env) == RAISE || Dispatch(c, w, env) == StopWrite(w)
  {
    hide Accounted, Resolved, ItemFrom, Flatten, Select, LateTask, Gated, FinishSolo, FinishPair;
    if Unreviewed(w.state) && !w.state.review.status.InReview? && !NoPair(u, w) {
      assert Expected(u, w.state.last)[0] == R3;
      assert RunPair(c, w, env) == RAISE && RunSolo(c, w, env) == RAISE;
    } else {
      FirstReviewer(u, w.state.last);
      assert RunPair(c, w, env) == RAISE;
    }
  }

  /** When several prompts are expected they are reviewers. */
  lemma FirstReviewer(u: Setup, last: PromptId)
    ensures |Expected(u, last)| > 1 ==> IsReviewer(u.pack, Expected(u, last)[0])
  {
    if |Expected(u, last)| > 1 {
      var k := Item(u.pack, last).value + 1;
      assert u.pack.order[k].Reviewers? && Expected(u, last)[0] in u.pack.order[k].ids;
    }
  }

  lemma DeadApply(u: Setup, pol: Policy, w: World, e: Event)
    requires ValidSetup(u) && GoodRevList(pol.revList) && Inv(u, w) && DeadEnd(u, w)
    requires e.Cmd? ==> ConfigOk(u, e.cfg)
    ensures DeadEnd(u, Apply(u, pol, w, e)) && SameTriple(w, Apply(u, pol, w, e))
  {
    hide Accounted, Effect, NextOk, ReviewOk, ValidSetup, StaleAt;
    match e
    case Outside(git, files, review1, review2) =>
      if Extends(w.git, git) && Stale(u, w) {
        StaleKept(u, w, w.(git := git, files := files, review1 := review1, review2 := review2));
      }
    case Cmd(cfg, command, cut) =>
      if CommandOk(w, command) { DeadEffect(u, Ctx(u.pack, pol, cfg), w, command); }
    case Interrupt =>
      if Stale(u, w) { StaleKept(u, w, w.(state := w.state.(blocker := Some(Signal)))); }
  }

  lemma StaleKept(u: Setup, w: World, w': World)
    requires Stale(u, w) && w.git.commits <= w'.git.commits && SameTriple(w, w')
      && w'.state.progress == w.state.progress
    ensures Stale(u, w')
  {
    hide Follows, ItemFrom;
    var g: nat, k: nat :| StaleAt(u, w, g, k);
    assert StaleAt(u, w', g, k);
  }

  /** Whatever happens afterwards, a dead end stays one, the position stays, and no step under
      any configuration starts anything. */
  lemma {:induction false} DeadForever(u: Setup, pol: Policy, w: World, events: seq<Event>)
    requires ValidSetup(u) && GoodRevList(pol.revList) && Inv(u, w) && DeadEnd(u, w) && SameGroups(u, events)
    ensures DeadEnd(u, Run(u, pol, w, events)) && SameTriple(w, Run(u, pol, w, events))
    ensures forall cfg: Config, env: StepEnv :: ConfigOk(u, cfg) ==>
      Step(Ctx(u.pack, pol, cfg), Run(u, pol, w, events), env).launches == []
  {
    hide Inv, Apply, ConfigOk, ValidSetup, GoodRevList, DeadEnd, Step, Effect;
    RunInv(u, pol, w, events);
    if events != [] {
      var front, e := events[..|events| - 1], events[|events| - 1];
      DeadForever(u, pol, w, front);
      RunInv(u, pol, w, front);
      assert e.Cmd? ==> ConfigOk(u, e.cfg);
      DeadApply(u, pol, Run(u, pol, w, front), e);
    }
    forall cfg: Config, env: StepEnv | ConfigOk(u, cfg)
      ensures Step(Ctx(u.pack, pol, cfg), Run(u, pol, w, events), env).launches == []
    {
      NoLaunch(u, Ctx(u.pack, pol, cfg), Run(u, pol, w, events), env);
    }
  }

  lemma NoLaunch(u: Setup, c: Ctx, w: World, env: StepEnv)
    requires ValidSetup(u) && GoodRevList(c.pol.revList) && c.pack == u.pack && ConfigOk(u, c.cfg)
    requires Inv(u, w) && DeadEnd(u, w)
    ensures Step(c, w, env).launches == []
  {
    hide Inv, DeadEnd, Step;
    DeadEffect(u, c, w, DoStep(env));
  }

  // ----- the list is complete -----

  lemma NextIsKnown(u: Setup, w: World)
    requires ValidSetup(u) && Inv(u, w) && ExpectedNext(u.pack, w.state.last).Some?
    requires w.state.next in Expected(u, w.state.last) || (w.state.review.status.ReportsComplete? && w.state.next == R3)
    ensures w.state.next in u.pack.prompts
  {
    hide Accounted, ItemFrom;
    var k := Item(u.pack, w.state.last).value;
    if w.state.next in Expected(u, w.state.last) {
      ItemInFlat(u.pack.order, k + 1, w.state.next);
    } else {
      assert u.pack.order[k + 1] == Reviewers([R1, R2]);
      ItemInFlat(u.pack.order, k + 2, R3);
    }
  }

  /** T04-R3 is not itself a reviewer once it is due after the pair. */
  lemma FinalIsWritable(u: Setup, last: PromptId)
    requires ValidSetup(u) && Expected(u, last) == [R1, R2]
    ensures !IsReviewer(u.pack, R3)
  {
    hide ItemFrom, Flatten;
    var k := Item(u.pack, last).value;
    assert u.pack.order[k + 1] == Reviewers([R1, R2]);
    R3Place(u.pack, k + 1);
    if IsReviewer(u.pack, R3) {
      var r: nat :| r < |u.pack.order| && u.pack.order[r].Reviewers? && R3 in u.pack.order[r].ids;
      ItemOf(u.pack, r, R3);
    }
  }

  /** A validated state with reviewers due that is no dead end has the pair ready. */
  lemma PairReady(u: Setup, w: World)
    requires ValidSetup(u) && Startable(u, w) && !DeadEnd(u, w) && IsReviewer(u.pack, w.state.next)
    ensures Expected(u, w.state.last) == [R1, R2] && w.state.review.status.Pending? && K in w.handoffs
  {
    hide Accounted, ItemFrom, Flatten, Stale;
    if w.state.review.status.ReportsComplete? {
      FinalIsWritable(u, w.state.last);
      assert false;
    }
    var k := Item(u.pack, w.state.last).value;
    var r: nat :| r < |u.pack.order| && u.pack.order[r].Reviewers? && w.state.next in u.pack.order[r].ids;
    ItemOf(u.pack, r, w.state.next);
    ItemOf(u.pack, k + 1, w.state.next);
  }

  /** The outside at its most harmless. */
  function Quiet(git: Repo): StepEnv {
    var none := ReviewRun(ReviewFiles(NoReceipt, None, None), false, false, false, 0, "");
    StepEnv(Checks(true, true), true, ChildRun(git, NO_FILES, false, false, false, 0, None, []), none, none, git)
  }

  lemma LiveStarts(u: Setup, c: Ctx, w: World)
    requires Fits(u, c) && Startable(u, w) && OnDisk(w) && StaticOk(c, w, true) && !DeadEnd(u, w)
    requires !LateTask(w.state.next) && !Gated(u.pack, w.state.next) && (c.cfg.profile.Strict? ==> !Unreviewed(w.state))
    ensures Dispatch(c, w, Quiet(w.git)).launches != []
  {
    hide Accounted, LateTask, Gated, Resolved, Select, IsReviewer, Expected, FinishSolo, FinishGroup, FinishPair,
      NextOk, ReviewOk, RunOk, ValidSetup, Stale, ItemFrom;
    NextIsKnown(u, w);
    var env := Quiet(w.git);
    if IsReviewer(u.pack, w.state.next) {
      PairReady(u, w);
      PairStarts(u, c, w, env);
    } else {
      SoloStarts(u, c, w, env);
    }
  }

  lemma PairStarts(u: Setup, c: Ctx, w: World, env: StepEnv)
    requires c.pack == u.pack && Startable(u, w) && env.promptOk
    requires Expected(u, w.state.last) == [R1, R2] && w.state.review.status.Pending? && K in w.handoffs
    ensures RunPair(c, w, env).launches != []
  {
    hide Accounted, FinishPair, ItemFrom;
  }

  lemma SoloStarts(u: Setup, c: Ctx, w: World, env: StepEnv)
    requires c.pack == u.pack && Startable(u, w) && OnDisk(w) && env.promptOk
    ensures !Unreviewed(w.state) ==> RunSolo(c, w, env).launches != []
    ensures forall g: Group :: g.ids != [] ==> RunGroup(c, w, g, env).launches != []
  {
    hide Accounted, FinishSolo, FinishGroup, ItemFrom, NextOk, ReviewOk, RunOk;
  }

  /** A validated state, short of late and gated prompts, can start something for some behaviour of
      the outside if and only if it is no dead end, and not one that only a group could pass
      while groups are off. The prompt texts are made from the pack and from stored handoffs and reports
      alone; passes says whether they are free of secrets. */
  lemma StartsExactly(u: Setup, c: Ctx, w: World, passes: bool)
    requires Fits(u, c) && Inv(u, w) && OnDisk(w) && Settled(w.state) && StaticOk(c, w, true) && ValidStored(c, w)
    requires !LateTask(w.state.next) && !Gated(u.pack, w.state.next)
    ensures (exists env :: EnvOk(w.git, env) && env.promptOk == passes && Step(c, w, env).launches != [])
      <==> passes && !DeadEnd(u, w) && (c.cfg.profile.Strict? ==> !Unreviewed(w.state))
  {
    hide Accounted, LateTask, Gated, Resolved, DeadEnd, Dispatch, NextOk, ReviewOk, RunOk, GuidanceCurrent, OnDisk,
      ItemFrom;
    AccountedRepo(u, w);
    ValidateInv(u, c, w, Checks(true, true));
    if !passes {
      forall env: StepEnv | !env.promptOk ensures Step(c, w, env).launches == [] { NeedsPrompt(c, w, env); }
    } else if DeadEnd(u, w) {
      forall env: StepEnv ensures Step(c, w, env).launches == [] { DeadEffect(u, c, w, DoStep(env)); }
    } else if c.cfg.profile.Strict? && Unreviewed(w.state) {
      forall env: StepEnv ensures Step(c, w, env).launches == [] { StrictNeedsReports(u, c, w, env); }
    } else {
      LiveStarts(u, c, w);
      assert EnvOk(w.git, Quiet(w.git)) && Step(c, w, Quiet(w.git)).launches != [];
    }
  }

  lemma NeedsPrompt(c: Ctx, w: World, env: StepEnv)
    requires !env.promptOk && Settled(w.state)
    ensures Step(c, w, env).launches == []
  {
    hide LateTask, Gated, ItemFrom, FinishSolo, FinishGroup, FinishPair, Select, Resolved, ValidStored, StaticOk;
  }

  lemma StrictNeedsReports(u: Setup, c: Ctx, w: World, env: StepEnv)
    requires Fits(u, c) && Inv(u, w) && c.cfg.profile.Strict? && Unreviewed(w.state)
    ensures Dispatch(c, w, env).launches == []
  {
    hide Accounted, LateTask, Gated, ItemFrom, FinishSolo, FinishPair;
  }

  /** After any run, a state that validates short of the boundary and is not in the list can go on. */
  lemma EveryStopIsListed(u: Setup, pol: Policy, w: World, events: seq<Event>, cfg: Config)
    requires ValidSetup(u) && GoodRevList(pol.revList) && Adopted(u, w) && SameGroups(u, events) && ConfigOk(u, cfg)
    requires var v, c := Run(u, pol, w, events), Ctx(u.pack, pol, cfg);
      && Settled(v.state) && StaticOk(c, v, true) && ValidStored(c, v)
      && !LateTask(v.state.next) && !Gated(u.pack, v.state.next) && (cfg.profile.Strict? ==> !Unreviewed(v.state))
    ensures var v := Run(u, pol, w, events);
      DeadEnd(u, v) || exists env :: EnvOk(v.git, env) && Step(Ctx(u.pack, pol, cfg), v, env).launches != []
  {
    hide Inv, OnDisk, Run, DeadEnd, Step, StaticOk, ValidStored, LateTask, Gated, ValidSetup, GoodRevList, SameGroups;
    AdoptInv(u, w);
    RunInv(u, pol, w, events);
    AdoptedOnDisk(u, w);
    RunOnDisk(u, pol, w, events);
    StartsExactly(u, Ctx(u.pack, pol, cfg), Run(u, pol, w, events), true);
  }

  lemma AdoptedOnDisk(u: Setup, w: World)
    requires Adopted(u, w)
    ensures OnDisk(w)
  {}

  // ----- how they are entered -----

  lemma NotStale(u: Setup, w: World)
    ensures w.state.progress.None? ==> !Stale(u, w)
  {}

  /** The reviewer pair ends in a dead end exactly when it fails. */
  lemma FailedPairIsDead(u: Setup, c: Ctx, w: World, env: StepEnv)
    requires ValidSetup(u) && Inv(u, w) && ProgressInv(u, w) && w.state.status.Reviewing?
    ensures DeadEnd(u, Final(w, FinishPair(c, w, env))) <==> !FinishPair(c, w, env).ok
  {
    NoProgressInReview(u, w);
    hide Accounted, ReviewFailure, ItemFrom, ValidSetup, Stale;
    NotStale(u, Final(w, FinishPair(c, w, env)));
  }

  /** A failed reviewer command is not the end by itself: a crash before the failure is recorded
      lets reconciliation put the pair back to pending. */
  lemma CrashedPairIsRetried(u: Setup, c: Ctx, w: World)
    requires ValidSetup(u) && Inv(u, w) && ProgressInv(u, w) && OnDisk(w) && w.state.status.Reviewing?
    requires ReconcilePair(c, w).ok
    ensures !DeadEnd(u, Final(w, ReconcilePair(c, w)))
  {
    NoProgressInReview(u, w);
    hide Accounted, ReviewRecoverable, ItemFrom, ValidSetup, Stale;
    NotStale(u, Final(w, ReconcilePair(c, w)));
  }

  /** Where a prompt's successor cannot be started. */
  ghost predicate StuckAfter(u: Setup, w: World, id: PromptId) {
    var e := Expected(u, id);
    || e == []
    || (|e| > 1 && (e != [R1, R2] || (K !in w.handoffs && id != K)))
    || (e == [R3] && Select(u.groups, R3).None?)
  }

  /** Before the reviewers, recovering a single prompt is a dead end exactly when the progress of
      a group was recorded or the prompt has no successor that could be started. */
  lemma RecoveredSuffixIsDead(u: Setup, c: Ctx, w: World, a: Active)
    requires Fits(u, c) && Inv(u, w) && ProgressInv(u, w) && w.state.status.Running? && w.state.active == Some(a)
    requires ReconcileSolo(c, w, a).ok && |a.ids| == 1 && w.state.review.status.NotReached?
    ensures DeadEnd(u, Final(w, ReconcileSolo(c, w, a))) <==> w.state.progress.Some? || StuckAfter(u, w, a.ids[0])
  {
    hide Accounted, Select, Follows, NextOk, ReviewOk, ValidChild, LoadReports, ItemFrom, Live, Stale;
    NotStale(u, Final(w, ReconcileSolo(c, w, a)));
    if w.state.progress.Some? {
      SoloLeavesStale(u, c, w, a);
    }
  }
}
