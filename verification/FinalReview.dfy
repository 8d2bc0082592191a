/** What follows once T04-R3 is accepted: with the reviewer pair in the pack nothing does; without it
    the run goes on as after any other prompt. */
module FinalReview {
  import opened Prelude
  import opened GitModel
  import opened PromptPack
  import opened Protocol
  import opened Ledger
  import opened History
  import opened Runs
  import opened Failing
  import opened Progress
  import opened Launching
  import opened Advance
  import opened Commands
  import opened Evidence
  import opened DeadEnds

  // ----- packs with the pair -----

  /** Where an accepted prompt leaves the reviewers: as they were, or due again. */
  predicate Accepted(w: World, v: World) {
    !v.state.status.Running? && !v.state.status.Reviewing?
    && (v.state.review == w.state.review || v.state.review.status.Pending?)
  }

  /** Past T04-R3 there is no second pair, and the reports still count as complete. */
  lemma PastFinalIsDead(u: Setup, c: Ctx, w: World, v: World)
    requires ValidSetup(u) && c.pack == u.pack && Inv(u, w) && Inv(u, v)
    requires w.state.review.status.ReportsComplete? && w.state.next == R3
    requires v.state.last != w.state.last && Accepted(w, v)
    ensures DeadEnd(u, v)
  {
    hide Accounted, ItemFrom, Flatten, Stale;
    AccountedOne(u, w);
    AccountedOne(u, v);
    if Expected(u, v.state.last) == [R1, R2] {
      ItemOf(u.pack, Item(u.pack, w.state.last).value + 1, R1);
      ItemOf(u.pack, Item(u.pack, v.state.last).value + 1, R1);
    }
  }

  lemma PairBefore(u: Setup, w: World)
    requires Inv(u, w) && w.state.review.status.ReportsComplete? && w.state.next == R3
    ensures Expected(u, w.state.last) == [R1, R2]
  {
    hide Accounted, ItemFrom;
  }

  lemma RecoveredReview(c: Ctx, w: World, a: Active)
    ensures Final(w, ReconcileSolo(c, w, a)).state.last != w.state.last ==>
      Accepted(w, Final(w, ReconcileSolo(c, w, a)))
    ensures Final(w, ReconcileGroup(c, w, a)).state.last != w.state.last ==>
      Accepted(w, Final(w, ReconcileGroup(c, w, a)))
  {
    hide ValidChild, LoadReports, Item, ValidGroup, RecoverablePrefix, HandoffWrites;
    var final := if w.files.final.Some? then w.files.final.value else None;
    ParsedGroup(c, w.git, ActiveGroup(a), a.preHead, final, true);
  }

  lemma SoloReview(c: Ctx, w: World, env: StepEnv)
    requires Final(w, RunSolo(c, w, env)).state.last != w.state.last
    ensures Accepted(w, Final(w, RunSolo(c, w, env)))
  {
    hide ValidChild, LoadReports, ItemFrom;
  }

  lemma GroupReview(c: Ctx, w: World, g: Group, env: StepEnv)
    requires g.ids != [] && Final(w, RunGroup(c, w, g, env)).state.last != w.state.last
    ensures Accepted(w, Final(w, RunGroup(c, w, g, env)))
  {
    hide FinishGroup, Item, Accepted;
    FinishGroupReview(c, w, RunGroup(c, w, g, env).writes[1], env.child, g, w.git.head);
  }

  lemma FinishGroupReview(c: Ctx, w: World, w2: World, r: ChildRun, g: Group, pre: Sha)
    requires g.ids != []
    requires w2.state.last == w.state.last && w2.state.review == w.state.review
    requires Final(w2, FinishGroup(c, w2, r, g, pre)).state.last != w.state.last
    ensures Accepted(w, Final(w2, FinishGroup(c, w2, r, g, pre)))
  {
    hide ValidGroup, RecoverablePrefix, HandoffWrites, Item;
  }

  /** With the pair in the pack T04-R3 is next only once the reports count as complete. */
  lemma ReviewedBefore(u: Setup, w: World)
    requires ValidSetup(u) && Inv(u, w) && HasReviewPair(u.pack) && w.state.next == R3
    ensures w.state.review.status.ReportsComplete?
  {
    hide Accounted, ItemFrom, HasReviewPair, ReviewOk, ValidSetup;
    AccountedOne(u, w);
    R3NotNext(u, w.state.last);
  }

  lemma WithPair(u: Setup, c: Ctx, w: World, env: StepEnv)
    requires Fits(u, c) && Startable(u, w) && EnvOk(w.git, env)
    requires HasReviewPair(u.pack) && w.state.next == R3
    requires Final(w, Dispatch(c, w, env)).state.last != w.state.last
    ensures DeadEnd(u, Final(w, Dispatch(c, w, env)))
  {
    hide Inv, RunSolo, RunGroup, IsReviewer, Resolved, Select, DeadEnd, Accepted, LateTask, Gated, Expected,
      HasReviewPair;
    DispatchInv(u, c, w, env);
    ReviewedBefore(u, w);
    assert Expected(u, w.state.last) == [R1, R2] by { PairBefore(u, w); }
    FinalIsWritable(u, w.state.last);
    if c.cfg.profile.Efficient? && Resolved(c.pack, c.cfg.specs, c.cfg.maxIds).Ok? && Select(u.groups, R3).Some? {
      GroupReview(c, w, Select(u.groups, R3).value, env);
    } else {
      SoloReview(c, w, env);
    }
    PastFinalIsDead(u, c, w, Final(w, Dispatch(c, w, env)));
  }

  lemma WithPairRecovered(u: Setup, c: Ctx, w: World)
    requires Fits(u, c) && Inv(u, w) && w.state.status.Running?
    requires HasReviewPair(u.pack) && w.state.next == R3
    requires Final(w, Reconcile(c, w)).state.last != w.state.last
    ensures DeadEnd(u, Final(w, Reconcile(c, w)))
  {
    hide Inv, ReconcileGroup, ReconcileSolo, DeadEnd, Accepted, HasReviewPair;
    ReconcileInv(u, c, w);
    ReviewedBefore(u, w);
    RecoveredReview(c, w, w.state.active.value);
    PastFinalIsDead(u, c, w, Final(w, Reconcile(c, w)));
  }

  // ----- packs without it -----

  /** v stands at T04-R3 or past it, in a group. */
  ghost predicate PastR3(u: Setup, v: World) {
    && Item(u.pack, R3).Some? && Item(u.pack, v.state.last).Some?
    && Item(u.pack, R3).value <= Item(u.pack, v.state.last).value
    && Settled(v.state) && !Stale(u, v)
  }

  lemma WithoutPair(u: Setup, v: World)
    requires ValidSetup(u) && Inv(u, v) && !HasReviewPair(u.pack) && PastR3(u, v)
    ensures DeadEnd(u, v) <==> |Expected(u, v.state.last)| != 1
  {
    hide Accounted, ItemFrom, Flatten, Stale, HasReviewPair;
    PairIsInPack(u, v.state.last);
    if R3 in Expected(u, v.state.last) {
      ItemOf(u.pack, Item(u.pack, v.state.last).value + 1, R3);
    }
  }

  /** A prefix advance stands inside its group. */
  lemma PrefixNotStale(u: Setup, c: Ctx, w: World, v: World)
    requires ValidSetup(u) && Inv(u, v) && PrefixAdvance(u, c, w, v)
    ensures !Stale(u, v) && Settled(v.state)
  {
    hide Accounted, ValidGroup, Follows, Flatten, Interval, IntervalAt, ItemFrom, ReviewOk, RunOk, AnnouncesNext,
      ValidSetup, Select;
    var g, hs :| PrefixAdvanceBy(u, c, w, v, g, hs);
    var h, m := AtPosition(u, w.state, g);
    assert g.ids[|hs|] == u.groups[h].ids[m + |hs|];
    var ids := u.groups[h].ids;
    forall i: nat, k: nat ensures !StaleAt(u, v, i, k) {
      if i < |u.groups| && u.groups[i].ids == ids && v.state.last == ids[|ids| - 1] {
        NextOutside(u, v.state, i);
      }
    }
  }

  lemma DroppedProgress(c: Ctx, w: World, r: ChildRun, g: Group, pre: Sha)
    requires g.ids != [] && FinishGroup(c, w, r, g, pre).ok
    ensures Final(w, FinishGroup(c, w, r, g, pre)).state.progress.None?
  {
    hide ValidGroup, RecoverablePrefix, HandoffWrites, ExpectedNext;
  }

  lemma GroupPastR3(u: Setup, c: Ctx, w: World, g: Group, env: StepEnv)
    requires Fits(u, c) && Startable(u, w) && EnvOk(w.git, env) && w.state.next == R3 && Select(u.groups, R3) == Some(g)
    requires Inv(u, Final(w, RunGroup(c, w, g, env))) && Final(w, RunGroup(c, w, g, env)).state.last != w.state.last
    ensures PastR3(u, Final(w, RunGroup(c, w, g, env)))
  {
    hide Inv, FinishGroup, Follows, Select, Stale, ItemFrom, PrefixAdvance, Accepted, ValidSetup;
    var e := RunGroup(c, w, g, env);
    GroupNotReviewer(u, R3);
    StartableFollows(u, w);
    GroupReview(c, w, g, env);
    assert Settled(Final(w, e).state) by { Unfold(w, Final(w, e)); }
    if e.ok {
      GroupCompletes(c, e.writes[1], env.child, g, w.git.head);
      DroppedProgress(c, e.writes[1], env.child, g, w.git.head);
      NotStale(u, Final(w, e));
      Span(u, w.state.last, g, |g.ids|);
    } else {
      RunGroupFails(u, c, w, g, env);
      PrefixNotStale(u, c, w, Final(w, e));
      PrefixMoves(u, c, w, Final(w, e));
    }
  }

  lemma Unfold(w: World, v: World)
    requires Accepted(w, v)
    ensures Settled(v.state)
  {}

  lemma NeverAlone(u: Setup, c: Ctx, w: World, env: StepEnv)
    requires Inv(u, w) && !HasReviewPair(u.pack) && w.state.next == R3
    ensures RunSolo(c, w, env) == RAISE
  {
    hide Accounted, HasReviewPair, FinishSolo;
  }

  /** Once a step accepts T04-R3, alone, in a group or in a group prefix: with the reviewer pair in
      the pack the run is over; without it, exactly when no single prompt follows. */
  lemma AfterFinalReview(u: Setup, c: Ctx, w: World, env: StepEnv)
    requires Fits(u, c) && Startable(u, w) && EnvOk(w.git, env) && w.state.next == R3
    requires Final(w, Dispatch(c, w, env)).state.last != w.state.last
    ensures var v := Final(w, Dispatch(c, w, env));
      DeadEnd(u, v) <==> HasReviewPair(u.pack) || |Expected(u, v.state.last)| != 1
  {
    hide Inv, RunSolo, RunGroup, IsReviewer, Resolved, Select, DeadEnd, LateTask, Gated, HasReviewPair, PastR3,
      ExpectedNext;
    if HasReviewPair(u.pack) {
      WithPair(u, c, w, env);
    } else {
      DispatchInv(u, c, w, env);
      NeverAlone(u, c, w, env);
      PairKeepsLast(c, w, env);
      GroupPastR3(u, c, w, Select(u.groups, R3).value, env);
      WithoutPair(u, Final(w, Dispatch(c, w, env)));
    }
  }

  lemma PairKeepsLast(c: Ctx, w: World, env: StepEnv)
    ensures Final(w, RunPair(c, w, env)).state.last == w.state.last
  {
    hide ReviewFailure, ItemFrom;
  }

  /** The same when T04-R3 is accepted by recovery after a crash. */
  lemma AfterRecoveredFinalReview(u: Setup, c: Ctx, w: World)
    requires Fits(u, c) && Inv(u, w) && w.state.status.Running? && w.state.next == R3
    requires Final(w, Reconcile(c, w)).state.last != w.state.last
    ensures var v := Final(w, Reconcile(c, w));
      DeadEnd(u, v) <==> HasReviewPair(u.pack) || |Expected(u, v.state.last)| != 1
  {
    hide Inv, Reconcile, DeadEnd, HasReviewPair, PastR3, ExpectedNext;
    if HasReviewPair(u.pack) {
      WithPairRecovered(u, c, w);
    } else {
      ReconcileInv(u, c, w);
      RecoveredPastR3(u, c, w);
      WithoutPair(u, Final(w, Reconcile(c, w)));
    }
  }

  lemma RecoveredPastR3(u: Setup, c: Ctx, w: World)
    requires Fits(u, c) && Inv(u, w) && w.state.status.Running? && w.state.next == R3 && !HasReviewPair(u.pack)
    requires Inv(u, Final(w, Reconcile(c, w))) && Final(w, Reconcile(c, w)).state.last != w.state.last
    ensures PastR3(u, Final(w, Reconcile(c, w)))
  {
    hide Accounted, NextOk, Follows, Select, Stale, ItemFrom, PrefixAdvance, Accepted, ValidSetup, Reconcile,
      HasReviewPair, ReconcileSolo, ValidGroup;
    var a, v := w.state.active.value, Final(w, Reconcile(c, w));
    if Reconcile(c, w).ok {
      if !Recovers(c, w) { NotRecovered(u, c, w); }
      RunRecovered(u, c, w);
      NotStale(u, v);
      assert |a.ids| > 1;
      Span(u, w.state.last, ActiveGroup(a), |a.ids|);
    } else {
      ReconcileFails(u, c, w);
      PrefixNotStale(u, c, w, v);
      PrefixMoves(u, c, w, v);
    }
  }

  /** With the pair, recovering T04-R3 when no reviewers follow makes every command fail: the
      recovered position is durable, and refused. */
  lemma RecoveredReviewFails(u: Setup, c: Ctx, w: World, command: Command)
    requires Fits(u, c) && Inv(u, w) && ProgressInv(u, w) && CommandOk(w, command)
    requires HasReviewPair(u.pack) && w.state.status.Running? && w.state.next == R3
    requires StaticOk(c, w, ChecksOf(command).setup) && Recovers(c, w)
    requires |Expected(u, Final(w, Reconcile(c, w)).state.last)| <= 1
    ensures var e := Effect(c, w, command); !e.ok && !Explained(u, c, w, Final(w, e))
  {
    hide Inv, Reconcile, Recovers, Effect, Explained, StaticOk, HasReviewPair, Accepted, ProgressInv, ValidStored, Fits;
    var v := Final(w, Reconcile(c, w));
    RunMovesOn(u, c, w);
    ReconcileInv(u, c, w);
    RecoveredEnds(u, c, w, v);
    DeadIsRejected(u, c, v);
    FailingCommand(u, c, w, command);
  }

  lemma RecoveredEnds(u: Setup, c: Ctx, w: World, v: World)
    requires Fits(u, c) && Inv(u, w) && v == Final(w, Reconcile(c, w)) && Inv(u, v)
    requires HasReviewPair(u.pack) && w.state.status.Running? && w.state.next == R3
    requires v.state.last != w.state.last && |Expected(u, v.state.last)| <= 1
    ensures Rejected(u, v)
  {
    hide Accounted, ReconcileGroup, ReconcileSolo, HasReviewPair, Stale, ItemFrom, NextOk;
    ReviewedBefore(u, w);
    RecoveredReview(c, w, w.state.active.value);
  }

  // ----- starting T04-R3 -----

  /** A child that runs T04-R3 has reports bound to HEAD if and only if the pack has the pair. */
  lemma ReviewedExactly(u: Setup, l: Launch)
    requires LaunchOk(u, l) && R3 in l.ids
    ensures ReportsBound(u, l.at) <==> HasReviewPair(u.pack)
  {
    hide HasReviewPair, ItemFrom, LateTask, Gated;
    PairIsInPack(u, l.at.state.last);
  }

  /** And without the pair an efficient group does start it. */
  lemma StartsUnreviewed(u: Setup, c: Ctx, w: World, g: Group, env: StepEnv)
    requires Fits(u, c) && Startable(u, w) && c.cfg.profile.Efficient? && env.promptOk
    requires Resolved(c.pack, c.cfg.specs, c.cfg.maxIds).Ok? && Select(u.groups, w.state.next) == Some(g) && R3 in g.ids
    requires !HasReviewPair(u.pack) && !LateTask(w.state.next) && !Gated(u.pack, w.state.next)
    ensures var l := Dispatch(c, w, env).launches;
      |l| == 1 && R3 in l[0].ids && !l[0].at.state.review.status.ReportsComplete?
  {
    hide Accounted, HasReviewPair, FinishGroup, Resolved, LateTask, Gated, ItemFrom, IsReviewer;
    GroupNotReviewer(u, w.state.next);
    NextIsKnown(u, w);
    var a := Active(g.ids, g.configured, g.subject, w.git.head, true);
    var w1 := w.(state := Cleared(w.state).(status := Running, active := Some(a)), files := NO_FILES);
    NoLaunchInFinishGroup(c, w1.(git := env.child.git, files := env.child.files), env.child, g, a.preHead);
  }
}
