/** Children a step refuses and recovery accepts: the step sees more than the files keep. A crash
    between the child's exit and the write that blocks leaves the decision to the files. */
module Refused {
  import opened Prelude
  import opened GitModel
  import opened PromptPack
  import opened Protocol
  import opened History
  import opened Runs
  import opened Recovery
  import opened Commands

  /** What only the running step knows: a time limit, an interrupt, or a violation (staging, paths,
      a secret in the output). */
  predicate SeenLive(timedOut: bool, interrupted: bool, violation: bool) {
    timedOut || interrupted || violation
  }

  predicate ChildSeen(r: ChildRun) {
    SeenLive(r.timedOut, r.interrupted, r.violation)
  }

  predicate ReviewSeen(pol: Policy, r: ReviewRun) {
    SeenLive(r.timedOut, r.interrupted, r.violation || pol.secret(r.report))
  }

  predicate ExitRecorded(receipt: Receipt, exit: int) {
    receipt.Receipt? && !receipt.active && receipt.exit == Some(exit)
  }

  /** The files an ended process leaves (1885-1905): its exit status, and its final text, which is
      another one only after a secret in it, a violation. */
  predicate Recorded(f: Files, r: ChildRun) {
    ExitRecorded(f.receipt, r.exit) && f.final.Some? && (f.final == Some(r.final) || r.violation)
  }

  predicate ReviewRecorded(pol: Policy, f: ReviewFiles, r: ReviewRun) {
    && ExitRecorded(f.receipt, r.exit) && f.report.Some?
    && (f.report == Some(r.report) || r.violation || pol.secret(r.report))
  }

  /** One prompt: refused by the step and accepted by recovery if and only if it was stopped for
      something seen live, while exit status, event log and the text on disk pass at a new commit. */
  lemma SoloRefused(c: Ctx, w: World, env: StepEnv)
    requires RunSolo(c, w, env).launches != [] && Recorded(env.child.files, env.child)
    ensures var e, r := RunSolo(c, w, env), env.child;
      !e.ok && Recovers(c, Cut(w, e, 2)) <==>
        && ChildSeen(r) && r.git.head != w.git.head
        && Recoverable(c, w, r.files, r.git, w.state.next, w.git.head, c.cfg.profile.Efficient?)
  {
    hide ExpectedNext, ValidChild, LoadReports;
    SoloRan(c, w, env);
    SameScope(w, Cut(w, RunSolo(c, w, env), 2));
  }

  /** The world after the child has exited. */
  lemma SoloRan(c: Ctx, w: World, env: StepEnv)
    requires RunSolo(c, w, env).launches != []
    ensures var e, id := RunSolo(c, w, env), w.state.next;
      && |e.writes| >= 2 && (id == R3 ==> LoadReports(w).Some?)
      && (e.ok <==> !ChildFailure(env.child) && ValidChild(c, env.child.git, id, w.git.head, env.child.final,
            if id == R3 then LoadReports(w).value else ""))
      && (var v := Cut(w, e, 2);
        && v.state.status.Running? && v.git == env.child.git && v.files == env.child.files
        && v.state.active == Some(Active([id], [], None, w.git.head, c.cfg.profile.Efficient?))
        && v.state.review == w.state.review && v.reports == w.reports)
  {
    hide ExpectedNext, ValidChild, LoadReports;
  }

  lemma GroupRan(c: Ctx, w: World, g: Group, env: StepEnv)
    requires g.ids != [] && RunGroup(c, w, g, env).launches != []
    ensures var e := RunGroup(c, w, g, env);
      && |e.writes| >= 2
      && (e.ok <==> !ChildFailure(env.child) && ValidGroup(c, env.child.git, g, w.git.head, env.child.final, true))
      && (var v := Cut(w, e, 2);
        && v.state.status.Running? && v.git == env.child.git && v.files == env.child.files
        && v.state.active == Some(Active(g.ids, g.configured, g.subject, w.git.head, true))
        && v.state.review == w.state.review && v.reports == w.reports)
  {
    hide ExpectedNext, ValidGroup, RecoverablePrefix, HandoffWrites;
  }

  /** A group of several prompts: the same, with its own validation. */
  lemma GroupRefused(c: Ctx, w: World, g: Group, env: StepEnv)
    requires c.cfg.profile.Efficient? && |g.ids| > 1
    requires RunGroup(c, w, g, env).launches != [] && Recorded(env.child.files, env.child)
    ensures var e, r := RunGroup(c, w, g, env), env.child;
      !e.ok && Recovers(c, Cut(w, e, 2)) <==>
        && ChildSeen(r) && r.git.head != w.git.head && r.exit == 0
        && r.files.log.Some? && c.pol.logOk(r.files.log.value, GroupAudit(g.ids))
        && ValidGroup(c, r.git, g, w.git.head, r.files.final.value, true)
  {
    hide ValidGroup, RunGroup;
    GroupRan(c, w, g, env);
  }

  /** A group of one prompt is also accepted where only the group's validation refused it. */
  lemma OneLeftRefused(c: Ctx, w: World, g: Group, env: StepEnv)
    requires c.cfg.profile.Efficient? && |g.ids| == 1
    requires RunGroup(c, w, g, env).launches != [] && Recorded(env.child.files, env.child)
    ensures var e, r := RunGroup(c, w, g, env), env.child;
      !e.ok && Recovers(c, Cut(w, e, 2)) <==>
        && (ChildSeen(r) || !ValidGroup(c, r.git, g, w.git.head, r.final, true)) && r.git.head != w.git.head
        && Recoverable(c, w, r.files, r.git, g.ids[0], w.git.head, true)
  {
    hide ValidGroup, ValidChild, RunGroup, LoadReports;
    GroupRan(c, w, g, env);
    SameScope(w, Cut(w, RunGroup(c, w, g, env), 2));
  }

  /** The reviewer pair: refused and accepted if and only if a reviewer was stopped for something
      seen live, a secret in its report included, while both texts on disk pass. */
  lemma PairRefused(c: Ctx, w: World, env: StepEnv)
    requires RunPair(c, w, env).launches != []
    requires ReviewRecorded(c.pol, env.r1.files, env.r1) && ReviewRecorded(c.pol, env.r2.files, env.r2)
    ensures var e := RunPair(c, w, env);
      !e.ok && Recovers(c, Cut(w, e, 2)) <==>
        && (ReviewSeen(c.pol, env.r1) || ReviewSeen(c.pol, env.r2)) && env.r1.exit == 0 && env.r2.exit == 0
        && env.reviewGit.head == w.state.review.sha && OnlyFindings(env.reviewGit.dirty)
        && ReviewRecoverable(c.pol, env.r1.files) && ReviewRecoverable(c.pol, env.r2.files)
  {
    hide ItemFrom;
    var v := Cut(w, RunPair(c, w, env), 2);
    assert v.review1 == env.r1.files && v.review2 == env.r2.files && v.git == env.reviewGit;
  }
}
