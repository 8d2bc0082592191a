/** Whole commands that fail: what they leave behind, and the one case in which that is more than
    a validated group prefix. */
module Commands {
  import opened Prelude
  import opened GitModel
  import opened PromptPack
  import opened Protocol
  import opened Ledger
  import opened History
  import opened Runs
  import opened Failing
  import opened Progress
  import opened Recovery
  import opened Advance

  // ----- when reconciliation accepts a boundary -----

  predicate PairRecovers(c: Ctx, w: World) {
    && w.state.review.status.InReview?
    && ReceiptUsable(w.review1.receipt) && ReceiptUsable(w.review2.receipt)
    && w.git.head == w.state.review.sha && OnlyFindings(w.git.dirty)
    && ReviewRecoverable(c.pol, w.review1) && ReviewRecoverable(c.pol, w.review2)
  }

  predicate GroupRecovers(c: Ctx, w: World, a: Active) {
    var final := if w.files.final.Some? then w.files.final.value else None;
    && w.files.log.Some? && c.pol.logOk(w.files.log.value, GroupAudit(a.ids))
    && w.files.receipt.Receipt? && !NotASuccess(w.files.receipt)
    && ValidGroup(c, w.git, ActiveGroup(a), a.preHead, final, true)
  }

  predicate RunRecovers(c: Ctx, w: World, a: Active) {
    && a.ids != [] && (a.efficient ==> c.cfg.profile.Efficient?)
    && ReceiptUsable(w.files.receipt) && w.git.head != a.preHead
    && (if a.efficient && |a.ids| > 1 then GroupRecovers(c, w, a)
        else Recoverable(c, w, w.files, w.git, a.ids[0], a.preHead, a.efficient))
  }

  /** The crashed run or reviewer pair succeeded, as far as files and repository tell. */
  predicate Recovers(c: Ctx, w: World) {
    || (w.state.status.Reviewing? && PairRecovers(c, w))
    || (w.state.status.Running? && w.state.active.Some? && RunRecovers(c, w, w.state.active.value))
  }

  /** Where an accepted run leaves the position. */
  lemma RunRecovered(u: Setup, c: Ctx, w: World)
    requires Fits(u, c) && Inv(u, w) && w.state.status.Running? && Recovers(c, w)
    ensures var e, a := Reconcile(c, w), w.state.active.value;
      && e.ok && Final(w, e).state.last == a.ids[|a.ids| - 1] && Final(w, e).state.status.Ready?
      && (a.efficient && |a.ids| > 1 ==> Final(w, e).state.progress.None?)
      && (!(a.efficient && |a.ids| > 1) ==>
            |a.ids| == 1 && e == ReconcileSolo(c, w, a) && Final(w, e).state.progress == w.state.progress)
  {
    hide Accounted, ValidChild, ValidGroup, LoadReports, ExpectedNext, Select, Follows, NextOk, ReviewOk,
      HandoffWrites;
  }

  lemma PairRecovered(c: Ctx, w: World)
    requires w.state.status.Reviewing? && PairRecovers(c, w)
    ensures var e := Reconcile(c, w);
      && e.ok && Final(w, e).state.next == R3 && Final(w, e).state.last == w.state.last
      && Final(w, e).state.progress == w.state.progress && Final(w, e).state.status.ReviewComplete?
  {}

  lemma NotRecovered(u: Setup, c: Ctx, w: World)
    requires Fits(u, c) && Inv(u, w) && !Recovers(c, w) && Reconcile(c, w).ok
    ensures forall i :: 0 <= i < |Reconcile(c, w).writes| ==> Kept(w, Reconcile(c, w).writes[i])
    ensures Kept(w, Final(w, Reconcile(c, w)))
  {
    hide Accounted, ValidChild, ValidGroup, LoadReports, ExpectedNext, Select, Follows, RecoverablePrefix,
      HandoffWrites, CompleteState, RecordGroup, ItemFrom;
  }

  /** Recovering a run moves last forward, past where guidance stood. */
  lemma RunMovesOn(u: Setup, c: Ctx, w: World)
    requires Fits(u, c) && Inv(u, w) && ProgressInv(u, w) && w.state.status.Running? && Recovers(c, w)
    ensures var v := Final(w, Reconcile(c, w));
      && Item(u.pack, v.state.last).Some? && Item(u.pack, Guidance(w.state)).Some? && Item(u.pack, w.state.last).Some?
      && Item(u.pack, Guidance(w.state)).value <= Item(u.pack, w.state.last).value
      && Item(u.pack, w.state.last).value < Item(u.pack, v.state.last).value
  {
    hide Accounted, ItemFrom, Flatten, Select, NextOk, ReviewOk, Reconcile, RunRecovers, LiveAt;
    RunRecovered(u, c, w);
    PositionBound(u, w);
    var a := w.state.active.value;
    if |a.ids| > 1 {
      GroupEnd(u, w.state.last, ActiveGroup(a));
    } else {
      assert a.ids == [w.state.next];
      SoloEnd(u, w.state.last, w.state.next);
    }
    if w.state.progress.Some? {
      var g: nat, k: nat, j: nat :| LiveAt(u, w.state, g, k, j);
      GuidanceBefore(u, w.state, g, k, j);
    }
  }

  lemma SoloEnd(u: Setup, last: PromptId, next: PromptId)
    requires ValidSetup(u) && Follows(u, last, next)
    ensures Item(u.pack, next).Some? && Item(u.pack, last).value < Item(u.pack, next).value
  {
    hide ItemFrom, Flatten;
    var q: nat :| AfterItem(u.pack, Item(u.pack, last).value, q) && u.pack.order[q] == One(next);
    ItemOf(u.pack, q, next);
  }

  lemma GuidanceBefore(u: Setup, s: State, g: nat, k: nat, j: nat)
    requires ValidSetup(u) && LiveAt(u, s, g, k, j)
    ensures Item(u.pack, Guidance(s)).Some? && Item(u.pack, s.last).Some?
    ensures Item(u.pack, Guidance(s)).value <= Item(u.pack, s.last).value
  {
    hide ItemFrom, Flatten, Interval;
    var ids := u.groups[g].ids;
    var q := GroupAt(u, g);
    SoloEnd(u, Guidance(s), ids[k]);
    assert u.pack.order[q + k] == One(ids[k]) && u.pack.order[q + (j - 1)] == One(ids[j - 1]);
    ItemOf(u.pack, q + k, ids[k]);
    ItemOf(u.pack, q + j - 1, ids[j - 1]);
  }

  lemma GroupNotReviewer(u: Setup, next: PromptId)
    requires ValidSetup(u) && Select(u.groups, next).Some?
    ensures !IsReviewer(u.pack, next)
  {
    hide ItemFrom, Flatten, Interval;
    var h := SelectSound(u.groups, next);
    var q := GroupAt(u, h);
    var m: nat :| m < |u.groups[h].ids| && u.groups[h].ids[m] == next;
    assert u.pack.order[q + m] == One(u.groups[h].ids[m]);
    if IsReviewer(u.pack, next) {
      var r: nat :| r < |u.pack.order| && u.pack.order[r].Reviewers? && next in u.pack.order[r].ids;
      ItemOf(u.pack, q + m, next);
      ItemOf(u.pack, r, next);
    }
  }

  /** The first n prompts of a selected group lie after last, in order. */
  lemma Span(u: Setup, last: PromptId, g: Group, n: nat)
    requires ValidSetup(u) && 0 < n <= |g.ids| && Follows(u, last, g.ids[0]) && Select(u.groups, g.ids[0]) == Some(g)
    ensures Item(u.pack, last).Some? && Item(u.pack, g.ids[0]).Some? && Item(u.pack, g.ids[n - 1]).Some?
    ensures Item(u.pack, last).value < Item(u.pack, g.ids[0]).value <= Item(u.pack, g.ids[n - 1]).value
  {
    hide Select, Follows, ItemFrom, Flatten, Interval;
    var q := GroupRun(u, last, g);
    assert u.pack.order[q + 0] == One(g.ids[0]) && u.pack.order[q + (n - 1)] == One(g.ids[n - 1]);
    ItemOf(u.pack, q, g.ids[0]);
    ItemOf(u.pack, q + n - 1, g.ids[n - 1]);
  }

  /** A prefix advance moves last forward and takes guidance from where it started. */
  lemma PrefixMoves(u: Setup, c: Ctx, v: World, f: World)
    requires ValidSetup(u) && PrefixAdvance(u, c, v, f)
    requires Startable(u, v) || Follows(u, v.state.last, v.state.next)
    ensures Item(u.pack, v.state.last).Some? && Item(u.pack, v.state.next).Some? && Item(u.pack, f.state.last).Some?
    ensures Item(u.pack, v.state.last).value < Item(u.pack, v.state.next).value <= Item(u.pack, f.state.last).value
    ensures f.state.progress.Some? && f.state.progress.value.guidance == Guidance(v.state)
  {
    hide Inv, ValidGroup, Select, Follows, ItemFrom, Flatten, IntervalAt;
    var g, hs :| PrefixAdvanceBy(u, c, v, f, g, hs);
    GroupNotReviewer(u, v.state.next);
    if Startable(u, v) { StartableFollows(u, v); }
    Span(u, v.state.last, g, |hs|);
  }

  // ----- whole commands -----

  function ChecksOf(command: Command): Checks {
    match command
    case DoValidate(checks) => checks
    case DoStep(env) => env.checks
    case DoStop(checks) => checks
  }

  /** The final world has the old triple, or stands after a validated group prefix. */
  ghost predicate Explained(u: Setup, c: Ctx, w: World, w': World) {
    Kept(w, w') || PrefixAdvance(u, c, w, w')
  }

  /** What comes after reconciliation fails. */
  predicate FailsAfter(c: Ctx, v: World, command: Command) {
    || !(ChecksOf(command).stored && ValidStored(c, v))
    || (command.DoStep? && !Dispatch(c, v, command.env).ok)
  }

  /** Writes that keep the triple can be put in front. */
  lemma Rebase(u: Setup, c: Ctx, w: World, e: Eff, f: Eff)
    requires (forall i :: 0 <= i < |e.writes| ==> Kept(w, e.writes[i])) && FailSafe(u, c, Final(w, e), f)
    ensures FailSafe(u, c, w, Then(e, f))
  {
    hide ValidGroup, Select;
    var v, all := Final(w, e), Then(e, f);
    forall i | 0 <= i < |all.writes| - 1 ensures Kept(w, all.writes[i]) {
      if i >= |e.writes| { assert all.writes[i] == f.writes[i - |e.writes|]; }
    }
    if !f.ok && f.writes != [] && PrefixAdvance(u, c, v, Final(v, f)) {
      var g, hs :| PrefixAdvanceBy(u, c, v, Final(v, f), g, hs);
      assert PrefixAdvanceBy(u, c, w, Final(w, all), g, hs);
    }
  }

  lemma ReconciledEnv(c: Ctx, w: World, command: Command)
    requires CommandOk(w, command)
    ensures CommandOk(Final(w, Reconcile(c, w)), command)
  {
    hide Reconcile;
    ReconcileFrame(c, w);
  }

  /** Short of an accepted recovery a command moves the triple in its last write only, and when it
      fails only over a validated group prefix. */
  lemma NothingRecovered(u: Setup, c: Ctx, w: World, command: Command)
    requires Fits(u, c) && Inv(u, w) && CommandOk(w, command)
    requires !(StaticOk(c, w, ChecksOf(command).setup) && Recovers(c, w))
    ensures FailSafe(u, c, w, Effect(c, w, command))
  {
    hide Inv, StaticOk, ValidStored, Reconcile, Dispatch, PrefixAdvance, Recovers, Fits, Startable;
    var checks, r := ChecksOf(command), Reconcile(c, w);
    if !StaticOk(c, w, checks.setup) {
      Nothing(u, c, w);
    } else if !r.ok {
      ReconcileFails(u, c, w);
    } else {
      NotRecovered(u, c, w);
      ValidateInv(u, c, w, checks);
      ReconciledEnv(c, w, command);
      if Validate(c, w, checks).ok && command.DoStep? {
        DispatchFails(u, c, Final(w, r), command.env);
        Rebase(u, c, w, r, Dispatch(c, Final(w, r), command.env));
      }
    }
  }

  /** After an accepted recovery nothing brings the old triple back, nor does the result pass for a
      prefix of the interrupted run. */
  lemma RecoveredIsMoved(u: Setup, c: Ctx, w: World)
    requires Fits(u, c) && Inv(u, w) && ProgressInv(u, w) && Recovers(c, w)
    ensures var v := Final(w, Reconcile(c, w)); !SameTriple(w, v) && !Explained(u, c, w, v)
  {
    hide Accounted, Select, Follows, Reconcile, RunRecovers, PairRecovers, NextOk, ValidGroup, Item;
    if w.state.status.Running? {
      RunRecovered(u, c, w);
      RunMovesOn(u, c, w);
    } else {
      PairRecovered(c, w);
    }
  }

  lemma RecoveredProgress(u: Setup, c: Ctx, w: World)
    requires Fits(u, c) && Inv(u, w) && ProgressInv(u, w) && Recovers(c, w)
    requires ValidStored(c, Final(w, Reconcile(c, w)))
    ensures Final(w, Reconcile(c, w)).state.progress.None?
  {
    hide Inv, Select, Follows, Reconcile, ReconcileSolo, ValidStored, Stale, RunRecovers, PairRecovers, ValidSetup;
    ReconcileInv(u, c, w);
    assert Inv(u, Final(w, Reconcile(c, w)));
    AccountedRepo(u, Final(w, Reconcile(c, w)));
    if w.state.status.Reviewing? {
      PairRecovered(c, w);
      NoProgressInReview(u, w);
    } else {
      RunRecovered(u, c, w);
      var a := w.state.active.value;
      if w.state.progress.Some? && !(a.efficient && |a.ids| > 1) {
        SoloLeavesStale(u, c, w, a);
        StaleIsRejected(u, c, Final(w, Reconcile(c, w)));
      }
    }
  }

  lemma DispatchStaysMoved(u: Setup, c: Ctx, w: World, env: StepEnv)
    requires Fits(u, c) && Inv(u, w) && ProgressInv(u, w) && Recovers(c, w)
    requires var v := Final(w, Reconcile(c, w));
      Startable(u, v) && ValidStored(c, v) && EnvOk(v.git, env) && !Dispatch(c, v, env).ok
    ensures var v := Final(w, Reconcile(c, w)); !Explained(u, c, w, Final(v, Dispatch(c, v, env)))
  {
    hide Inv, Reconcile, Dispatch, ValidStored, Startable, PrefixAdvance, RunRecovers, PairRecovers, Item, ValidSetup;
    var v := Final(w, Reconcile(c, w));
    var f := Final(v, Dispatch(c, v, env));
    RecoveredIsMoved(u, c, w);
    RecoveredProgress(u, c, w);
    DispatchFails(u, c, v, env);
    if PrefixAdvance(u, c, v, f) {
      PrefixMoves(u, c, v, f);
      PrefixApart(u, c, w, f);
    } else {
      NoProgressNoPrefix(u, c, w, f);
    }
  }

  lemma NoProgressNoPrefix(u: Setup, c: Ctx, w: World, f: World)
    requires f.state.progress.None?
    ensures !PrefixAdvance(u, c, w, f)
  {
    hide ValidGroup, Select;
  }

  /** Guidance and place tell a prefix after a recovery from one before it. */
  lemma PrefixApart(u: Setup, c: Ctx, w: World, f: World)
    requires Fits(u, c) && Inv(u, w) && ProgressInv(u, w) && Recovers(c, w)
    requires var v := Final(w, Reconcile(c, w));
      && Item(u.pack, v.state.last).Some? && Item(u.pack, f.state.last).Some?
      && Item(u.pack, v.state.last).value < Item(u.pack, f.state.last).value
      && f.state.progress.Some? && f.state.progress.value.guidance == v.state.last
    ensures !Explained(u, c, w, f)
  {
    hide Accounted, Reconcile, RunRecovers, PairRecovers, ItemFrom, ValidGroup, Select, Follows, ValidSetup, LiveAt,
      NextOk;
    if w.state.status.Running? {
      RunMovesOn(u, c, w);
    } else {
      PairRecovered(c, w);
      if PrefixAdvance(u, c, w, f) {
        GroupNotReviewer(u, w.state.next);
        FirstIsReviewer(u, w.state.last);
        assert false;
      }
    }
  }

  lemma FirstIsReviewer(u: Setup, last: PromptId)
    requires Expected(u, last) == [R1, R2]
    ensures IsReviewer(u.pack, R1)
  {
    var k := Item(u.pack, last).value + 1;
    assert u.pack.order[k].Reviewers? && R1 in u.pack.order[k].ids;
  }

  /** Every command from every world of the invariant. Unless reconciliation accepts a boundary, a
      failure keeps the triple or moves it over a validated group prefix, in the last write. A
      failing command leaves anything else behind if and only if reconciliation accepts a boundary
      and the validation or the dispatch after it fails. */
  lemma FailingCommand(u: Setup, c: Ctx, w: World, command: Command)
    requires Fits(u, c) && Inv(u, w) && ProgressInv(u, w) && CommandOk(w, command)
    ensures var e, recovers := Effect(c, w, command), StaticOk(c, w, ChecksOf(command).setup) && Recovers(c, w);
      && (!recovers ==> FailSafe(u, c, w, e))
      && (!e.ok && !Explained(u, c, w, Final(w, e)) <==>
            recovers && FailsAfter(c, Final(w, Reconcile(c, w)), command))
  {
    hide Inv, StaticOk, ValidStored, Reconcile, Dispatch, PrefixAdvance, Recovers, Fits, Startable, ProgressInv;
    var checks, r := ChecksOf(command), Reconcile(c, w);
    if !(StaticOk(c, w, checks.setup) && Recovers(c, w)) {
      NothingRecovered(u, c, w, command);
    } else {
      RecoversIsOk(u, c, w);
      RecoveredIsMoved(u, c, w);
      ValidateInv(u, c, w, checks);
      ReconciledEnv(c, w, command);
      if command.DoStep? && Validate(c, w, checks).ok && !Dispatch(c, Final(w, r), command.env).ok {
        DispatchStaysMoved(u, c, w, command.env);
      }
    }
  }

  lemma RecoversIsOk(u: Setup, c: Ctx, w: World)
    requires Fits(u, c) && Inv(u, w) && Recovers(c, w)
    ensures Reconcile(c, w).ok
  {
    hide Inv, Reconcile, RunRecovers, PairRecovers;
    if w.state.status.Running? { RunRecovered(u, c, w); } else { PairRecovered(c, w); }
  }

  /** From a settled world nothing can be recovered, so every failing command is of the first kind. */
  lemma SettledCommand(u: Setup, c: Ctx, w: World, command: Command)
    requires Fits(u, c) && Inv(u, w) && CommandOk(w, command) && Settled(w.state)
    ensures FailSafe(u, c, w, Effect(c, w, command))
  {
    hide Inv, Fits, FailSafe, Effect, StaticOk;
    NothingRecovered(u, c, w, command);
  }

  /** The same after any run. */
  lemma EveryFailure(u: Setup, pol: Policy, w: World, events: seq<Event>, cfg: Config, command: Command)
    requires ValidSetup(u) && GoodRevList(pol.revList) && Adopted(u, w) && SameGroups(u, events) && ConfigOk(u, cfg)
    requires CommandOk(Run(u, pol, w, events), command)
    ensures var c, v := Ctx(u.pack, pol, cfg), Run(u, pol, w, events);
      var e, recovers := Effect(c, v, command), StaticOk(c, v, ChecksOf(command).setup) && Recovers(c, v);
      && (!recovers ==> FailSafe(u, c, v, e))
      && (!e.ok && !Explained(u, c, v, Final(v, e)) <==>
            recovers && FailsAfter(c, Final(v, Reconcile(c, v)), command))
  {
    hide Inv, Run, Effect, FailSafe, Explained, Recovers, FailsAfter, ValidSetup, GoodRevList, SameGroups, StaticOk,
      ProgressInv;
    AdoptInv(u, w);
    AdoptProgress(u, w);
    RunProgress(u, pol, w, events);
    FailingCommand(u, Ctx(u.pack, pol, cfg), Run(u, pol, w, events), command);
  }

  lemma AdoptProgress(u: Setup, w: World)
    requires Adopted(u, w)
    ensures ProgressInv(u, w)
  {}
}
