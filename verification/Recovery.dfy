/** Crash confluence: reconciling after a crash between the child's exit and the last durable
    write gives what the uninterrupted step would have written. */
module Recovery {
  import opened Prelude
  import opened GitModel
  import opened PromptPack
  import opened Protocol
  import opened History
  import opened Runs

  /** The child's success is on disk: usable exit-0 receipt (or none), an event log that passes
      the audit (or none), and the final response. */
  predicate Durable(c: Ctx, f: Files, final: Response, mode: AuditMode) {
    ReceiptUsable(f.receipt) && !NotASuccess(f.receipt) && (f.log.Some? ==> c.pol.logOk(f.log.value, mode))
      && f.final == Some(final)
  }

  /** The four writes of a successful single-prompt run. */
  lemma SoloWrites(c: Ctx, w: World, env: StepEnv)
    requires RunSolo(c, w, env).ok
    ensures var e, id := RunSolo(c, w, env), w.state.next;
      && |e.writes| == 4 && env.child.final.Some? && |env.child.final.value| == 1
      && (id == R3 ==> LoadReports(w).Some?)
      && ValidChild(c, env.child.git, id, w.git.head, env.child.final, if id == R3 then LoadReports(w).value else "")
      && env.child.git.head != w.git.head
      && (var w2 := e.writes[1];
        && w2.state.status.Running?
        && w2.state.active == Some(Active([id], [], None, w.git.head, c.cfg.profile.Efficient?))
        && w2.git == env.child.git && w2.files == env.child.files
        && w2.state.review == w.state.review && w2.reports == w.reports && w2.state.progress == w.state.progress
        && e.writes[2] == w2.(handoffs := w2.handoffs[id := env.child.final.value[0]])
        && e.writes[3]
          == e.writes[2].(state := CompleteState(c.pack, w2.state, id, w2.git.head, c.cfg.profile.Efficient?)))
  {
    hide ExpectedNext, CompleteState, GuidanceOk, LoadReports;
  }

  /** For one prompt: a crash after the child exited, or after its handoff was written, is
      reconciled to exactly the uninterrupted outcome; under the efficient profile, if and only
      if no group progress was recorded. */
  lemma {:induction false} SoloConfluence(c: Ctx, w: World, env: StepEnv, k: nat)
    requires RunSolo(c, w, env).ok && 2 <= k <= 3
    requires Durable(c, env.child.files, env.child.final, SoloAudit(c.cfg.profile.Efficient?, w.state.next))
    ensures var e := RunSolo(c, w, env);
      var v := Cut(w, e, k);
      && Reconcile(c, v).ok
      && (Final(v, Reconcile(c, v)) == Final(w, e) <==> c.cfg.profile.Strict? || w.state.progress.None?)
  {
    hide RunSolo, ValidChild, LoadReports, ExpectedNext;
    SoloWrites(c, w, env);
    var e := RunSolo(c, w, env);
    var id, w2, v, h := w.state.next, e.writes[1], Cut(w, e, k), env.child.final.value[0];
    assert v == e.writes[k - 1];
    SameScope(w, v);
    assert Reconcile(c, v) == ReconcileSolo(c, v, v.state.active.value);
    assert v.handoffs[id := h] == e.writes[3].handoffs;
  }

  lemma SameScope(w: World, v: World)
    requires v.state.review == w.state.review && v.reports == w.reports
    ensures LoadReports(v) == LoadReports(w)
  {}

  // ----- groups -----

  lemma {:induction false} AddIsMerge(m: map<PromptId, Handoff>, hs: seq<Handoff>)
    ensures AddHandoffs(m, hs) == m + AddHandoffs(map[], hs)
    decreases hs
  {
    if hs != [] {
      var one: map<PromptId, Handoff> := map[hs[0].prompt := hs[0]];
      AddIsMerge(m[hs[0].prompt := hs[0]], hs[1..]);
      AddIsMerge(one, hs[1..]);
      assert m + one == m[hs[0].prompt := hs[0]];
    }
  }

  lemma {:induction false} AddKeys(hs: seq<Handoff>, i: nat)
    requires i <= |hs|
    ensures AddHandoffs(map[], hs[..i]).Keys <= AddHandoffs(map[], hs).Keys
    decreases hs
  {
    if i > 0 {
      AddKeys(hs[1..], i - 1);
      var one: map<PromptId, Handoff> := map[hs[0].prompt := hs[0]];
      AddIsMerge(one, hs[1..]);
      AddIsMerge(one, hs[..i][1..]);
      assert hs[..i][1..] == hs[1..][..i - 1];
    }
  }

  /** Writing all handoffs over some already written ones changes nothing. */
  lemma AddAgain(m: map<PromptId, Handoff>, hs: seq<Handoff>, i: nat)
    requires i <= |hs|
    ensures AddHandoffs(AddHandoffs(m, hs[..i]), hs) == AddHandoffs(m, hs)
  {
    AddIsMerge(m, hs[..i]);
    AddIsMerge(AddHandoffs(m, hs[..i]), hs);
    AddIsMerge(m, hs);
    AddKeys(hs, i);
  }

  lemma {:induction false} HandoffWriteAt(w: World, hs: seq<Handoff>, i: nat)
    requires i < |hs|
    ensures |HandoffWrites(w, hs)| == |hs|
    ensures HandoffWrites(w, hs)[i] == w.(handoffs := AddHandoffs(w.handoffs, hs[..i + 1]))
    decreases hs
  {
    var w' := w.(handoffs := w.handoffs[hs[0].prompt := hs[0]]);
    assert hs[..i + 1][1..] == hs[1..][..i];
    if i > 0 {
      HandoffWriteAt(w', hs[1..], i - 1);
    } else if |hs| > 1 {
      HandoffWriteAt(w', hs[1..], 0);
    }
  }

  ghost predicate GitOk(c: Ctx, w: World, env: StepEnv) {
    GoodRevList(c.pol.revList) && ValidRepo(w.git) && Extends(w.git, env.child.git)
  }

  /** An accepted group has moved HEAD. */
  lemma HeadMoved(c: Ctx, git: Repo, g: Group, pre: Sha, final: Response)
    requires GoodRevList(c.pol.revList) && ValidRepo(git) && pre < |git.commits| && g.ids != []
    requires ValidGroup(c, git, g, pre, final, true)
    ensures git.head != pre
    ensures g.subject.Some? ==> git.commits[git.head].subject == g.subject.value
  {
    hide Ancestors, WellFormed, ExpectedNext, Subject, GuidanceOk;
    var l := c.pol.revList(git.commits, pre, git.head);
    assert l[0] in Elems(l);
    if git.head == pre {
      assert false;
    }
    assert GroupItemValid(c, git, g, pre, l, final.value, |g.ids| - 1);
    if g.subject.Some? {
      SingleNewCommit(git.commits, pre, git.head, l);
    }
  }

  /** For a group of several prompts: a crash anywhere between the child's exit and the state
      write, however many handoffs are already written, is reconciled to the uninterrupted
      outcome, once log and receipt are there. */
  lemma GroupConfluence(c: Ctx, w: World, g: Group, env: StepEnv, k: nat)
    requires c.cfg.profile.Efficient? && |g.ids| > 1 && GitOk(c, w, env)
    requires RunGroup(c, w, g, env).ok && 2 <= k < |RunGroup(c, w, g, env).writes|
    requires Durable(c, env.child.files, env.child.final, GroupAudit(g.ids))
    requires env.child.files.log.Some? && env.child.files.receipt.Receipt?
    ensures var e := RunGroup(c, w, g, env);
      var v := Cut(w, e, k);
      Reconcile(c, v).ok && Final(v, Reconcile(c, v)) == Final(w, e)
  {
    hide ItemFrom, ValidGroup, CompleteState, RecoverablePrefix, PrefixState, HandoffWrites, AddHandoffs;
    var e, a := RunGroup(c, w, g, env), Active(g.ids, g.configured, g.subject, w.git.head, true);
    GroupWrites(c, w, g, env);
    var w2, hs := e.writes[1], env.child.final.value;
    HeadMoved(c, w2.git, g, w.git.head, env.child.final);
    var i := k - 2;
    var v := Cut(w, e, k);
    assert v == w2.(handoffs := AddHandoffs(w2.handoffs, hs[..i])) by {
      if i > 0 {
        HandoffWriteAt(w2, hs, i - 1);
        assert e.writes[2..][i - 1] == HandoffWrites(w2, hs)[i - 1];
      } else {
        NoHandoffs(w2.handoffs, hs);
      }
    }
    assert ActiveGroup(a) == g;
    assert ValidGroup(c, v.git, g, a.preHead, env.child.final, true);
    assert Reconcile(c, v) == RecordGroup(c, v, v.state, g, hs);
    AddAgain(w2.handoffs, hs, i);
  }

  lemma NoHandoffs(m: map<PromptId, Handoff>, hs: seq<Handoff>)
    ensures AddHandoffs(m, hs[..0]) == m
  {}

  lemma GroupWrites(c: Ctx, w: World, g: Group, env: StepEnv)
    requires g.ids != [] && RunGroup(c, w, g, env).ok
    ensures var e, w2 := RunGroup(c, w, g, env), RunGroup(c, w, g, env).writes[1];
      && env.child.final.Some? && ValidGroup(c, w2.git, g, w.git.head, env.child.final, true)
      && e.writes[2..] == RecordGroup(c, w2, w2.state, g, env.child.final.value).writes
      && |HandoffWrites(w2, env.child.final.value)| == |env.child.final.value|
      && |e.writes| == |env.child.final.value| + 3
      && w2.git == env.child.git && w2.files == env.child.files && w2.state.status.Running?
      && w2.state.active == Some(Active(g.ids, g.configured, g.subject, w.git.head, true))
  {
    hide ItemFrom, ValidGroup, CompleteState, RecoverablePrefix, PrefixState, HandoffWrites, AddHandoffs;
    var w2 := RunGroup(c, w, g, env).writes[1];
    ParsedGroup(c, w2.git, g, w.git.head, env.child.final, true);
    assert RunGroup(c, w, g, env).writes[2..] == RecordGroup(c, w2, w2.state, g, env.child.final.value).writes;
    if env.child.final.value != [] {
      HandoffWriteAt(w2, env.child.final.value, 0);
    }
  }

  /** What single-prompt recovery asks of the files and the repository. */
  predicate Recoverable(c: Ctx, w: World, f: Files, git: Repo, id: PromptId, pre: Sha, efficient: bool) {
    && ReceiptUsable(f.receipt) && !NotASuccess(f.receipt)
    && (f.log.Some? ==> c.pol.logOk(f.log.value, SoloAudit(efficient, id))) && f.final.Some?
    && (id == R3 ==> LoadReports(w).Some?)
    && ValidChild(c, git, id, pre, f.final.value, if id == R3 then LoadReports(w).value else "")
  }

  /** A group of one prompt is recovered by the single-prompt path, so exactly when its boundary
      passes the single-prompt validation as well. */
  lemma OneLeftRecovered(c: Ctx, w: World, g: Group, env: StepEnv, k: nat)
    requires c.cfg.profile.Efficient? && |g.ids| == 1 && GitOk(c, w, env)
    requires RunGroup(c, w, g, env).ok && 2 <= k <= 3
    ensures var v := Cut(w, RunGroup(c, w, g, env), k);
      && v.state.active == Some(Active(g.ids, g.configured, g.subject, w.git.head, true)) && v.state.status.Running?
      && (ReceiptUsable(v.files.receipt) ==> Reconcile(c, v) == ReconcileSolo(c, v, v.state.active.value))
      && v.files == env.child.files
      && (Reconcile(c, v).ok <==> Recoverable(c, w, env.child.files, env.child.git, g.ids[0], w.git.head, true))
      && (!Reconcile(c, v).ok ==> Reconcile(c, v) == RAISE)
  {
    hide ExpectedNext, ValidGroup, ValidChild, CompleteState, LoadReports, RecoverablePrefix, PrefixState;
    GroupWrites(c, w, g, env);
    HeadMoved(c, env.child.git, g, w.git.head, env.child.final);
    OneHandoff(c, w, g, env);
    var v := Cut(w, RunGroup(c, w, g, env), k);
    SameScope(w, v);
  }

  /** The four writes of a successful one-prompt group. */
  lemma OneHandoff(c: Ctx, w: World, g: Group, env: StepEnv)
    requires |g.ids| == 1 && RunGroup(c, w, g, env).ok
    ensures var e, id := RunGroup(c, w, g, env), g.ids[0];
      && env.child.final.Some? && |env.child.final.value| == 1 && env.child.final.value[0].prompt == id
      && |e.writes| == 4
      && (var w2 := e.writes[1];
        && w2.git == env.child.git && w2.files == env.child.files && w2.state.status.Running?
        && w2.state.review == w.state.review && w2.reports == w.reports && w2.state.progress == w.state.progress
        && e.writes[2] == w2.(handoffs := w2.handoffs[id := env.child.final.value[0]])
        && e.writes[3] == e.writes[2].(state := CompleteState(c.pack, w2.state, id, w2.git.head, true)))
  {
    hide ExpectedNext, CompleteState, ValidGroup, RecoverablePrefix, PrefixState;
    GroupWrites(c, w, g, env);
    var e, hs := RunGroup(c, w, g, env), env.child.final.value;
    ParsedGroup(c, e.writes[1].git, g, w.git.head, env.child.final, true);
    var w2, r := e.writes[1], RecordGroup(c, e.writes[1], e.writes[1].state, g, hs);
    assert hs[1..] == [];
    assert HandoffWrites(w2, hs) == [w2.(handoffs := w2.handoffs[hs[0].prompt := hs[0]])];
    assert AddHandoffs(w2.handoffs, hs) == w2.handoffs[hs[0].prompt := hs[0]];
    assert e.writes[2] == e.writes[2..][0] == r.writes[0] && e.writes[3] == e.writes[2..][1] == r.writes[1];
  }

  /** For a group of one prompt, durable success included, a crash is reconciled to the
      uninterrupted outcome if and only if the boundary also passes as a single prompt's (own
      commit subject, readable reports for T04-R3) and no progress of an earlier part was
      recorded. */
  lemma OneLeftConfluence(c: Ctx, w: World, g: Group, env: StepEnv, k: nat)
    requires c.cfg.profile.Efficient? && |g.ids| == 1 && GitOk(c, w, env)
    requires RunGroup(c, w, g, env).ok && 2 <= k <= 3
    requires Durable(c, env.child.files, env.child.final, SoloAudit(true, g.ids[0]))
    ensures var e, id := RunGroup(c, w, g, env), g.ids[0];
      var v := Cut(w, e, k);
      Reconcile(c, v).ok && Final(v, Reconcile(c, v)) == Final(w, e) <==>
        && (id == R3 ==> LoadReports(w).Some?)
        && ValidChild(c, env.child.git, id, w.git.head, env.child.final, if id == R3 then LoadReports(w).value else "")
        && w.state.progress.None?
  {
    hide RunGroup, Reconcile, ExpectedNext, ValidChild, LoadReports;
    OneLeftRecovered(c, w, g, env, k);
    OneHandoff(c, w, g, env);
    var e := RunGroup(c, w, g, env);
    var v, h, id := Cut(w, e, k), env.child.final.value[0], g.ids[0];
    SameScope(w, v);
    assert v.handoffs[id := h] == e.writes[3].handoffs;
  }

  /** With a consolidated subject other than the prompt's own nothing is ever recovered. */
  lemma OneLeftNeedsOwnSubject(c: Ctx, w: World, g: Group, env: StepEnv)
    requires c.cfg.profile.Efficient? && |g.ids| == 1 && g.subject.Some? && RunGroup(c, w, g, env).ok
    requires Subject(c.pack, g.ids[0]) != g.subject && GitOk(c, w, env)
    ensures Reconcile(c, Cut(w, RunGroup(c, w, g, env), 2)) == RAISE
  {
    hide RunGroup, Reconcile, ExpectedNext, LoadReports, GuidanceOk, ValidGroup;
    OneHandoff(c, w, g, env);
    GroupWrites(c, w, g, env);
    HeadMoved(c, env.child.git, g, w.git.head, env.child.final);
    OneLeftRecovered(c, w, g, env, 2);
  }

  // ----- the reviewer pair -----

  predicate ReviewDurable(pol: Policy, f: ReviewFiles, report: string) {
    ReceiptUsable(f.receipt) && !NotASuccess(f.receipt) && (f.log.Some? ==> pol.logOk(f.log.value, ReviewAudit))
      && f.report == Some(report)
  }

  /** For the reviewer pair: a crash after the reviewers exited, before or after either report was
      filed, is reconciled to exactly the uninterrupted outcome. */
  lemma {:induction false} PairConfluence(c: Ctx, w: World, env: StepEnv, k: nat)
    requires RunPair(c, w, env).ok && 2 <= k <= 4
    requires ReviewDurable(c.pol, env.r1.files, env.r1.report) && ReviewDurable(c.pol, env.r2.files, env.r2.report)
    ensures var e := RunPair(c, w, env);
      var v := Cut(w, e, k);
      Reconcile(c, v).ok && Final(v, Reconcile(c, v)) == Final(w, e)
  {
    hide ItemFrom;
    var e := RunPair(c, w, env);
    var v, sha := Cut(w, e, k), w.state.review.sha;
    assert v == e.writes[k - 1] && v.state.status.Reviewing? && v.state.review.sha == sha;
    assert v.reports[(R1, sha) := env.r1.report][(R2, sha) := env.r2.report] == e.writes[3].reports;
    assert Final(w, e) == e.writes[4];
  }
}
