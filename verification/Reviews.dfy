/** The reviewer pair: what it takes to be accepted, whose report is filed where, and what T04-R3 is
    given. */
module Reviews {
  import opened Prelude
  import opened GitModel
  import opened PromptPack
  import opened Protocol
  import opened Ledger
  import opened History
  import opened Runs
  import opened Acceptance
  import opened Commands
  import opened Launching
  import opened DeadEnds

  /** Each reviewer's report under its own name at sha, and no other report touched. */
  ghost predicate Filed(m: map<(PromptId, Sha), string>, m': map<(PromptId, Sha), string>, sha: Sha,
      one: string, two: string)
  {
    && ("T04-R1", sha) in m' && m'[("T04-R1", sha)] == one
    && ("T04-R2", sha) in m' && m'[("T04-R2", sha)] == two
    && (forall k :: k != ("T04-R1", sha) && k != ("T04-R2", sha) ==>
          (k in m' <==> k in m) && (k in m ==> m'[k] == m[k]))
  }

  predicate ReviewedWell(pol: Policy, r: ReviewRun) {
    && !r.timedOut && !r.interrupted && !r.violation && r.exit == 0
    && !pol.blank(r.report) && !pol.secret(r.report)
  }

  /** Both reports are in; T04-R3 is next. */
  predicate AwaitsFinal(s: State, s': State, sha: Sha) {
    s' == s.(next := "T04-R3", status := ReviewComplete, blocker := None, active := None,
             review := Review(ReportsComplete, ["T04-R1", "T04-R2"], sha, {"T04-R1", "T04-R2"}))
  }

  /** The scope text of T04-R3 is the first reviewer's report, a line break, and the second's. */
  lemma FinalScope(w: World, text: string)
    ensures LoadReports(w) == Some(text) <==>
      var r := w.state.review;
      && r.status == ReportsComplete && r.reports == {"T04-R1", "T04-R2"}
      && ("T04-R1", r.sha) in w.reports && ("T04-R2", r.sha) in w.reports
      && text == w.reports[("T04-R1", r.sha)] + "\n" + w.reports[("T04-R2", r.sha)]
  {}

  /** The pair is started exactly here. */
  ghost predicate PairDue(c: Ctx, w: World, env: StepEnv) {
    && FollowedBy(c.pack, w.state.last, ["T04-R1", "T04-R2"]) && w.state.review.status == Pending
    && w.state.review.sha == w.state.commit && w.git.head == w.state.commit
    && "T04-K" in w.handoffs && env.promptOk
  }

  /** What it takes to be accepted, and everything that is stored then. */
  lemma PairAccepted(c: Ctx, w: World, env: StepEnv)
    ensures var e, v, sha := RunPair(c, w, env), Final(w, RunPair(c, w, env)), w.state.commit;
      && (e.ok <==>
            && PairDue(c, w, env) && ReviewedWell(c.pol, env.r1) && ReviewedWell(c.pol, env.r2)
            && env.reviewGit.head == sha && AtMostFindings(env.reviewGit))
      && (e.ok ==>
            && Filed(w.reports, v.reports, sha, env.r1.report, env.r2.report) && AwaitsFinal(w.state, v.state, sha)
            && LoadReports(v) == Some(env.r1.report + "\n" + env.r2.report)
            && v.handoffs == w.handoffs && v.git == env.reviewGit)
  {
    hide ExpectedNext, FollowedBy;
    FollowedExactly(c.pack, w.state.last, [R1, R2]);
    assert OnlyFindings(env.reviewGit.dirty) <==> AtMostFindings(env.reviewGit);
    if RunPair(c, w, env).ok { FinalScope(Final(w, RunPair(c, w, env)), env.r1.report + "\n" + env.r2.report); }
  }

  /** A started pair that is not accepted is blocked, still marked as being reviewed. */
  lemma PairBlocked(c: Ctx, w: World, env: StepEnv)
    requires RunPair(c, w, env).launches != [] && !RunPair(c, w, env).ok
    ensures var v := Final(w, RunPair(c, w, env));
      && v.reports == w.reports && v.handoffs == w.handoffs && v.git == env.reviewGit
      && v.state == w.state.(status := Blocked, active := None,
           blocker := Some(if ReviewedWell(c.pol, env.r1) && ReviewedWell(c.pol, env.r2) then ManualReconciliation
                           else ReviewerFailed),
           failed := Some(Active(["T04-R1", "T04-R2"], [], None, w.state.commit, false)),
           review := w.state.review.(status := InReview, reports := {}))
  {
    hide ExpectedNext;
  }

  predicate ReadsWell(pol: Policy, f: ReviewFiles) {
    && (f.receipt.Receipt? ==> !f.receipt.active && f.receipt.exit == Some(0))
    && (f.log.Some? ==> pol.logOk(f.log.value, ReviewAudit))
    && f.report.Some? && !pol.blank(f.report.value) && !pol.secret(f.report.value)
  }

  /** The receipt is usable: readable, and no live process behind it that cannot be stopped. */
  predicate Usable(r: Receipt) {
    r != BadReceipt && (r.Receipt? && r.active ==> r.killable)
  }

  /** A crashed pair is looked at only at its own commit, in a clean worktree, once no reviewer can
      still be running. */
  predicate PairReadable(w: World) {
    && w.state.review.status == InReview
    && Usable(w.review1.receipt)
    && Usable(w.review2.receipt)
    && w.git.head == w.state.review.sha && AtMostFindings(w.git)
  }

  /** Recovery of a crashed pair: both reports filed, or the pair due again; and when neither. */
  lemma PairRecoveredExactly(c: Ctx, w: World)
    ensures var e, v, sha := ReconcilePair(c, w), Final(w, ReconcilePair(c, w)), w.state.review.sha;
      && (e.ok <==> PairReadable(w))
      && (e.ok && ReadsWell(c.pol, w.review1) && ReadsWell(c.pol, w.review2) ==>
            && Filed(w.reports, v.reports, sha, w.review1.report.value, w.review2.report.value)
            && AwaitsFinal(w.state, v.state, sha) && v.handoffs == w.handoffs
            && LoadReports(v) == Some(w.review1.report.value + "\n" + w.review2.report.value))
      && (e.ok && !(ReadsWell(c.pol, w.review1) && ReadsWell(c.pol, w.review2)) ==>
            v == w.(state := w.state.(next := "T04-R1", status := Blocked, blocker := Some(ReviewInterrupted),
                      active := None, review := Review(Pending, ["T04-R1", "T04-R2"], sha, {}))))
      && (!e.ok ==> v == w)
  {
    assert OnlyFindings(w.git.dirty) <==> AtMostFindings(w.git);
  }

  // ----- filed reports stay -----

  /** No other pair can be filed: the reports are complete, or reviewers are due that are never run. */
  ghost predicate Closed(u: Setup, w: World) {
    w.state.review.status.ReportsComplete? || (w.state.review.status.Pending? && Expected(u, w.state.last) != [R1, R2])
  }

  /** v has the reports of w, and its review unless a later prompt was accepted. */
  ghost predicate Onward(w: World, v: World) {
    && v.reports == w.reports
    && (v.state.review == w.state.review || (v.state.review.status.Pending? && v.state.last != w.state.last))
  }

  ghost predicate AllOnward(w: World, ws: seq<World>) {
    forall i :: 0 <= i < |ws| ==> Onward(w, ws[i])
  }

  lemma StillClosed(u: Setup, w: World, v: World)
    requires ValidSetup(u) && Inv(u, w) && Inv(u, v) && w.state.review.status.ReportsComplete? && w.state.next == R3
    requires Onward(w, v)
    ensures Closed(u, v)
  {
    hide Accounted, ItemFrom, Flatten;
    AccountedOne(u, w);
    AccountedOne(u, v);
    if v.state.review != w.state.review && Expected(u, v.state.last) == [R1, R2] {
      ItemOf(u.pack, Item(u.pack, w.state.last).value + 1, R1);
      ItemOf(u.pack, Item(u.pack, v.state.last).value + 1, R1);
    }
  }

  lemma {:induction false} HandoffsOnward(w: World, hs: seq<Handoff>)
    ensures AllOnward(w, HandoffWrites(w, hs))
    decreases hs
  {
    if hs != [] {
      HandoffsOnward(w.(handoffs := w.handoffs[hs[0].prompt := hs[0]]), hs[1..]);
    }
  }

  lemma UnfinishedOnward(u: Setup, c: Ctx, w: World, g: Group, pre: Sha, messages: seq<Response>)
    ensures AllOnward(w, ReconcileOrBlock(c, w, w.state, g, pre, messages).writes)
  {
    hide ExpectedNext, RecoverablePrefix;
    HandoffsOnward(w, RecoverablePrefix(c, w.git, g, pre, messages));
  }

  lemma RecordOnward(c: Ctx, w: World, g: Group, hs: seq<Handoff>)
    requires g.ids != [] && g.ids[|g.ids| - 1] != w.state.last
    ensures AllOnward(w, RecordGroup(c, w, w.state, g, hs).writes)
  {
    hide ExpectedNext;
    HandoffsOnward(w, hs);
  }

  lemma EndApart(u: Setup, last: PromptId, g: Group)
    requires ValidSetup(u) && g.ids != [] && Follows(u, last, g.ids[0]) && Select(u.groups, g.ids[0]) == Some(g)
    ensures g.ids[|g.ids| - 1] != last
  {
    hide Select, Follows, IntervalAt, AfterItem;
    var q := GroupRun(u, last, g);
    RunApart(u, last, g.ids, q);
  }

  lemma ReconcileOnward(u: Setup, c: Ctx, w: World)
    requires Fits(u, c) && Inv(u, w) && !w.state.status.Reviewing?
    ensures AllOnward(w, Reconcile(c, w).writes)
  {
    hide Accounted, ValidChild, ValidGroup, LoadReports, ExpectedNext, Select, Follows, NextOk, ReviewOk, RecordGroup,
      ReconcileOrBlock, ValidSetup;
    if w.state.status.Running? {
      var a := w.state.active.value;
      NextApart(u, w.state.last, w.state.next);
      if a.efficient && |a.ids| > 1 {
        EndApart(u, w.state.last, ActiveGroup(a));
        var final := if w.files.final.Some? then w.files.final.value else None;
        ParsedGroup(c, w.git, ActiveGroup(a), a.preHead, final, true);
        if final.Some? { RecordOnward(c, w, ActiveGroup(a), final.value); }
        if w.files.log.Some? {
          UnfinishedOnward(u, c, w, ActiveGroup(a), a.preHead, c.pol.messages(w.files.log.value));
        }
      }
    }
  }

  lemma SoloOnward(c: Ctx, w: World, env: StepEnv)
    requires w.state.next != w.state.last
    ensures AllOnward(w, RunSolo(c, w, env).writes)
  {
    hide ValidChild, LoadReports, ExpectedNext;
  }

  lemma GroupOnward(u: Setup, c: Ctx, w: World, g: Group, env: StepEnv)
    requires g.ids != [] && g.ids[|g.ids| - 1] != w.state.last
    ensures AllOnward(w, RunGroup(c, w, g, env).writes)
  {
    hide ValidGroup, RecordGroup, ReconcileOrBlock;
    var a := Active(g.ids, g.configured, g.subject, w.git.head, true);
    var w1 := w.(state := Cleared(w.state).(status := Running, active := Some(a)), files := NO_FILES);
    var w2 := w1.(git := env.child.git, files := env.child.files);
    ParsedGroup(c, w2.git, g, w.git.head, env.child.final, true);
    if env.child.final.Some? { RecordOnward(c, w2, g, env.child.final.value); }
    UnfinishedOnward(u, c, w2, g, w.git.head, env.child.messages);
  }

  lemma DispatchOnward(u: Setup, c: Ctx, w: World, env: StepEnv)
    requires Fits(u, c) && Startable(u, w) && w.state.review.status.ReportsComplete?
    ensures AllOnward(w, Dispatch(c, w, env).writes)
  {
    hide Inv, RunSolo, RunGroup, IsReviewer, Resolved, Select, LateTask, Gated, Follows, ExpectedNext, AllOnward,
      ValidSetup;
    var id := w.state.next;
    NoWrites(c, w, env);
    if !IsReviewer(c.pack, id) {
      StartableFollows(u, w);
      NextApart(u, w.state.last, id);
      SoloOnward(c, w, env);
      if Resolved(c.pack, c.cfg.specs, c.cfg.maxIds).Ok? && Select(u.groups, id).Some? {
        var g := Select(u.groups, id).value;
        EndApart(u, w.state.last, g);
        GroupOnward(u, c, w, g, env);
      }
    }
  }

  lemma NoWrites(c: Ctx, w: World, env: StepEnv)
    requires w.state.review.status.ReportsComplete?
    ensures RunPair(c, w, env) == RAISE && AllOnward(w, StopWrite(w).writes) && AllOnward(w, [])
  {
    hide ExpectedNext;
  }

  ghost predicate Keeps(u: Setup, w: World, ws: seq<World>) {
    forall i :: 0 <= i < |ws| ==> Closed(u, ws[i]) && ws[i].reports == w.reports
  }

  lemma NotRunning(u: Setup, w: World)
    requires ValidSetup(u) && Inv(u, w) && Closed(u, w)
    ensures !w.state.status.Reviewing?
    ensures w.state.status.Running? ==> w.state.review.status.ReportsComplete? && w.state.next == R3
  {
    hide Accounted, Select, Follows, ValidSetup;
    if w.state.status.Running? { NotInReview(u, w.state); }
  }

  lemma AllClosed(u: Setup, w: World, ws: seq<World>)
    requires ValidSetup(u) && Inv(u, w) && w.state.review.status.ReportsComplete? && w.state.next == R3
    requires AllInv(u, ws) && AllOnward(w, ws)
    ensures Keeps(u, w, ws)
  {
    hide Inv, Closed, Onward;
    forall i | 0 <= i < |ws| ensures Closed(u, ws[i]) && ws[i].reports == w.reports {
      StillClosed(u, w, ws[i]);
      SameReports(w, ws[i]);
    }
  }

  lemma SameReports(w: World, v: World)
    requires Onward(w, v)
    ensures v.reports == w.reports
  {}

  lemma ReconcileKeeps(u: Setup, c: Ctx, w: World)
    requires Fits(u, c) && Inv(u, w) && Closed(u, w)
    ensures Keeps(u, w, Reconcile(c, w).writes)
  {
    hide Inv, ReconcileRun, ReconcilePair, Closed, AllOnward, AllInv;
    NotRunning(u, w);
    if w.state.status.Running? {
      ReconcileOnward(u, c, w);
      ReconcileInv(u, c, w);
      AllClosed(u, w, Reconcile(c, w).writes);
    }
  }

  lemma DispatchKeeps(u: Setup, c: Ctx, w: World, env: StepEnv)
    requires Fits(u, c) && Startable(u, w) && Closed(u, w) && EnvOk(w.git, env)
    ensures Keeps(u, w, Dispatch(c, w, env).writes)
  {
    hide Inv, Dispatch, AllOnward, AllInv, EnvOk, ValidSetup, Resolved;
    if w.state.review.status.ReportsComplete? {
      DispatchOnward(u, c, w, env);
      DispatchInv(u, c, w, env);
      AllClosed(u, w, Dispatch(c, w, env).writes);
    } else {
      OthersNeverRun(u, c, w, env);
    }
  }

  /** Reviewers other than the pair are not run. */
  lemma OthersNeverRun(u: Setup, c: Ctx, w: World, env: StepEnv)
    requires Fits(u, c) && Startable(u, w) && w.state.review.status.Pending? && Expected(u, w.state.last) != [R1, R2]
    ensures Dispatch(c, w, env) == RAISE || Dispatch(c, w, env) == StopWrite(w)
  {
    hide Accounted, Resolved, ItemFrom, Flatten, Select, LateTask, Gated, RunSolo, FinishPair;
    FirstReviewer(u, w.state.last);
  }

  /** One command from a closed world leaves the reports, and the world closed. */
  lemma EffectKeeps(u: Setup, c: Ctx, w: World, command: Command)
    requires Fits(u, c) && Inv(u, w) && Closed(u, w) && CommandOk(w, command)
    ensures Keeps(u, w, Effect(c, w, command).writes)
  {
    hide Inv, Reconcile, Dispatch, ValidStored, StaticOk, Closed, Fits, Startable;
    ReconcileKeeps(u, c, w);
    var checks, v := ChecksOf(command), Final(w, Reconcile(c, w));
    ValidateInv(u, c, w, checks);
    ReconciledEnv(c, w, command);
    StopCloses(u, v);
    if command.DoStep? && Validate(c, w, checks).ok { DispatchKeeps(u, c, v, command.env); }
  }

  lemma StopCloses(u: Setup, w: World)
    ensures Closed(u, w) ==> Keeps(u, w, StopWrite(w).writes)
  {}

  lemma ApplyKeeps(u: Setup, pol: Policy, w: World, e: Event)
    requires ValidSetup(u) && GoodRevList(pol.revList) && Inv(u, w) && Closed(u, w)
    requires e.Cmd? ==> ConfigOk(u, e.cfg)
    ensures Closed(u, Apply(u, pol, w, e)) && Apply(u, pol, w, e).reports == w.reports
  {
    hide Inv, Effect, Extends, CommandOk, ValidSetup;
    if e.Cmd? && CommandOk(w, e.command) { EffectKeeps(u, Ctx(u.pack, pol, e.cfg), w, e.command); }
  }

  /** Once both reports are filed, no run ever changes any report. */
  lemma {:induction false} FiledForGood(u: Setup, pol: Policy, w: World, events: seq<Event>)
    requires ValidSetup(u) && GoodRevList(pol.revList) && Inv(u, w) && Closed(u, w) && SameGroups(u, events)
    ensures Closed(u, Run(u, pol, w, events)) && Run(u, pol, w, events).reports == w.reports
  {
    hide Inv, Closed, Apply, ConfigOk, ValidSetup, GoodRevList;
    if events != [] {
      var front, e := events[..|events| - 1], events[|events| - 1];
      FiledForGood(u, pol, w, front);
      RunInv(u, pol, w, front);
      assert e.Cmd? ==> ConfigOk(u, e.cfg);
      ApplyKeeps(u, pol, Run(u, pol, w, front), e);
    }
  }
}
