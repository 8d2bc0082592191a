/** A successful step moves strictly forward in the prompt order, or ends at the review. */
module Advance {
  import opened Prelude
  import opened GitModel
  import opened PromptPack
  import opened Protocol
  import opened Ledger
  import opened History
  import opened Runs
  import opened Launching
  import opened Progress

  /** The index of the order item last stands at. */
  ghost function Position(u: Setup, s: State): nat {
    if Item(u.pack, s.last).Some? then Item(u.pack, s.last).value else 0
  }

  lemma PositionBound(u: Setup, w: World)
    requires Inv(u, w)
    ensures Item(u.pack, w.state.last).Some? && Position(u, w.state) < |u.pack.order|
  {
    hide LedgerOk, Singles, FlatIds;
  }

  ghost predicate MovesOn(u: Setup, w: World, v: World) {
    Settled(v.state) && (v.state.status.ReviewComplete? || Position(u, w.state) < Position(u, v.state))
  }

  lemma SoloMoves(u: Setup, c: Ctx, w: World, env: StepEnv)
    requires Fits(u, c) && Startable(u, w) && !IsReviewer(u.pack, w.state.next) && RunSolo(c, w, env).ok
    ensures MovesOn(u, w, Final(w, RunSolo(c, w, env)))
  {
    hide Accounted, ValidChild, LoadReports, NextOk, ReviewOk, RunOk, ItemFrom, Flatten, ExpectedNext;
    StartableFollows(u, w);
    var q: nat :| AfterItem(u.pack, Item(u.pack, w.state.last).value, q) && u.pack.order[q] == One(w.state.next);
    ItemOf(u.pack, q, w.state.next);
  }

  lemma GroupMoves(u: Setup, c: Ctx, w: World, g: Group, env: StepEnv)
    requires Fits(u, c) && Startable(u, w) && !IsReviewer(u.pack, w.state.next)
    requires g.ids != [] && g.ids[0] == w.state.next && Select(u.groups, w.state.next) == Some(g)
    requires RunGroup(c, w, g, env).ok
    ensures MovesOn(u, w, Final(w, RunGroup(c, w, g, env)))
  {
    hide Inv, FinishGroup, ItemFrom, Follows, Select, IntervalAt;
    StartableFollows(u, w);
    GroupEnd(u, w.state.last, g);
    var w2 := RunGroup(c, w, g, env).writes[1];
    GroupCompletes(c, w2, env.child, g, w.git.head);
  }

  lemma GroupEnd(u: Setup, last: PromptId, g: Group)
    requires ValidSetup(u) && g.ids != [] && Follows(u, last, g.ids[0]) && Select(u.groups, g.ids[0]) == Some(g)
    ensures Item(u.pack, last).Some? && Item(u.pack, g.ids[|g.ids| - 1]).Some?
    ensures Item(u.pack, last).value < Item(u.pack, g.ids[|g.ids| - 1]).value
  {
    hide Flatten, ItemFrom, Select, Follows, IntervalAt;
    var q := GroupRun(u, last, g);
    LastOfRun(u.pack, g.ids, q);
  }

  lemma GroupCompletes(c: Ctx, w: World, r: ChildRun, g: Group, pre: Sha)
    requires g.ids != [] && FinishGroup(c, w, r, g, pre).ok
    ensures Final(w, FinishGroup(c, w, r, g, pre)).state.last == g.ids[|g.ids| - 1]
    ensures Settled(Final(w, FinishGroup(c, w, r, g, pre)).state)
  {
    hide ValidGroup, RecoverablePrefix, HandoffWrites, ExpectedNext;
  }

  lemma PairMoves(u: Setup, c: Ctx, w: World, env: StepEnv)
    requires RunPair(c, w, env).ok
    ensures MovesOn(u, w, Final(w, RunPair(c, w, env)))
  {
    hide ExpectedNext, ReviewFailure;
  }

  lemma DispatchMoves(u: Setup, c: Ctx, w: World, env: StepEnv)
    requires Fits(u, c) && Startable(u, w) && Dispatch(c, w, env).ok
    ensures MovesOn(u, w, Final(w, Dispatch(c, w, env)))
  {
    hide Startable, RunSolo, RunGroup, RunPair, IsReviewer, Resolved, Select, LateTask, Gated, MovesOn;
    if IsReviewer(c.pack, w.state.next) {
      PairMoves(u, c, w, env);
    } else if c.cfg.profile.Efficient? && Select(u.groups, w.state.next).Some? {
      GroupMoves(u, c, w, Select(u.groups, w.state.next).value, env);
    } else {
      SoloMoves(u, c, w, env);
    }
  }

  /** What is started: the next prompt alone, the reviewer pair, or what is left of its group. */
  ghost predicate StartsNext(u: Setup, c: Ctx, w: World, l: Launch) {
    && l.at.state.next == w.state.next
    && (l.ids == [w.state.next] || (l.ids == [R1, R2] && Expected(u, l.at.state.last) == [R1, R2])
        || (c.cfg.profile.Efficient? && Select(u.groups, w.state.next).Some?
          && l.ids == Select(u.groups, w.state.next).value.ids))
  }

  lemma DispatchStarts(u: Setup, c: Ctx, w: World, env: StepEnv)
    requires Fits(u, c)
    ensures forall i :: 0 <= i < |Dispatch(c, w, env).launches| ==> StartsNext(u, c, w, Dispatch(c, w, env).launches[i])
  {
    hide FinishSolo, FinishGroup, FinishPair, IsReviewer, Resolved, Select, LateTask, Gated, ExpectedNext, LoadReports;
    NoLaunchInFinishSolo(c, w, env);
    NoLaunchInFinishPair(c, w, env);
    if c.cfg.profile.Efficient? && Resolved(c.pack, c.cfg.specs, c.cfg.maxIds).Ok?
        && Select(u.groups, w.state.next).Some? {
      var g := Select(u.groups, w.state.next).value;
      var a := Active(g.ids, g.configured, g.subject, w.git.head, true);
      var w1 := w.(state := Cleared(w.state).(status := Running, active := Some(a)), files := NO_FILES);
      NoLaunchInFinishGroup(c, w1.(git := env.child.git, files := env.child.files), env.child, g, a.preHead);
    }
  }

  /** One successful step from a settled world. */
  lemma StepMovesOn(u: Setup, c: Ctx, w: World, env: StepEnv)
    requires Fits(u, c) && Inv(u, w) && Settled(w.state)
    ensures Step(c, w, env).ok ==> MovesOn(u, w, Final(w, Step(c, w, env)))
    ensures forall i :: 0 <= i < |Step(c, w, env).launches| ==> StartsNext(u, c, w, Step(c, w, env).launches[i])
  {
    hide Inv, Dispatch, Startable, StartsNext, MovesOn, ValidStored, StaticOk, Fits;
    ValidateInv(u, c, w, env.checks);
    DispatchStarts(u, c, w, env);
    if Step(c, w, env).ok { DispatchMoves(u, c, w, env); }
  }

  /** What run_until allows: never at the stop prompt, never late, never gated; in the strict
      profile the stop prompt is in no launch unless it is a reviewer. */
  ghost predicate BeforeStop(u: Setup, c: Ctx, stop: PromptId, l: Launch) {
    && StepLaunchOk(u, l) && l.at.state.next != stop && !LateTask(l.at.state.next)
    && (c.cfg.profile.Strict? && !IsReviewer(u.pack, stop) ==> stop !in l.ids)
  }

  lemma StopRespected(u: Setup, c: Ctx, w: World, stop: PromptId, l: Launch)
    requires StartsNext(u, c, w, l) && StepLaunchOk(u, l) && w.state.next != stop && !LateTask(w.state.next)
    ensures BeforeStop(u, c, stop, l)
  {
    hide LaunchOk, LateTask, ItemFrom;
    if l.ids == [R1, R2] && stop in l.ids && Expected(u, l.at.state.last) == [R1, R2] {
      var k := Item(u.pack, l.at.state.last).value + 1;
      assert u.pack.order[k].Reviewers? && stop in u.pack.order[k].ids;
    }
  }

  lemma Accumulate(u: Setup, w: World, done: seq<World>, e: Eff)
    requires Inv(u, w) && AllInv(u, done) && AllInv(u, e.writes)
    ensures Inv(u, Final(w, e)) && AllInv(u, done + e.writes)
  {
    hide Inv;
  }

  /** One launch more stays within the positions passed. */
  lemma StepStarts(u: Setup, c: Ctx, w: World, env: StepEnv, stop: PromptId)
    requires Fits(u, c) && Inv(u, w) && Settled(w.state) && w.state.next != stop && !LateTask(w.state.next)
    ensures |Step(c, w, env).launches| <= 1
    ensures forall i :: 0 <= i < |Step(c, w, env).launches| ==> BeforeStop(u, c, stop, Step(c, w, env).launches[i])
  {
    hide Inv, Step, BeforeStop, StartsNext, StepLaunchOk, Fits, LateTask;
    StepLaunches(u, c, w, env);
    StepMovesOn(u, c, w, env);
    forall i | 0 <= i < |Step(c, w, env).launches| ensures BeforeStop(u, c, stop, Step(c, w, env).launches[i]) {
      StopRespected(u, c, w, stop, Step(c, w, env).launches[i]);
    }
  }
}
