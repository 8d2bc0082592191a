/** What acceptance of a single prompt means: which reports and repositories it takes, and exactly
    what is stored then. Everything is said of the inputs themselves. */
module Acceptance {
  import opened Prelude
  import opened GitModel
  import opened PromptPack
  import opened Protocol
  import opened Ledger
  import opened History
  import opened Runs
  import opened Recovery
  import opened Refused

  /** e is what the order index lists after id. */
  ghost predicate FollowedBy(p: Pack, id: PromptId, e: seq<PromptId>) {
    exists k: nat :: FollowedAt(p, id, e, k)
  }

  predicate FollowedAt(p: Pack, id: PromptId, e: seq<PromptId>, k: nat) {
    && k < |p.order| && Lists(p.order[k], id)
    && (forall j: nat :: j < k ==> !Lists(p.order[j], id))
    && (if k + 1 == |p.order| then e == []
        else match p.order[k + 1] case One(next) => e == [next] case Reviewers(ids) => e == ids)
  }

  predicate Lists(item: OrderItem, id: PromptId) {
    match item case One(x) => x == id case Reviewers(ids) => id in ids
  }

  lemma {:induction false} FirstListed(order: seq<OrderItem>, id: PromptId, from: nat)
    requires from <= |order|
    ensures match ItemFrom(order, id, from)
      case Some(k) => k < |order| && Lists(order[k], id) && forall j :: from <= j < k ==> !Lists(order[j], id)
      case None => forall j :: from <= j < |order| ==> !Lists(order[j], id)
    decreases |order| - from
  {
    if from < |order| && !Lists(order[from], id) {
      FirstListed(order, id, from + 1);
    }
  }

  lemma FollowedExactly(p: Pack, id: PromptId, e: seq<PromptId>)
    ensures ExpectedNext(p, id) == Some(e) <==> FollowedBy(p, id, e)
  {
    hide ItemFrom;
    FirstListed(p.order, id, 0);
    if ExpectedNext(p, id) == Some(e) {
      assert FollowedAt(p, id, e, Item(p, id).value);
    }
    if k: nat :| FollowedAt(p, id, e, k) {
      assert Item(p, id).Some?;
      assert Item(p, id).value == k;
    }
  }

  /** Both guidance files record id and announce exactly the prompts of e. */
  predicate GuidanceShows(git: Repo, id: PromptId, e: seq<PromptId>) {
    && git.claude.Section? && id in git.claude.recorded && git.claude.next == (set x | x in e)
    && git.agents.Section? && id in git.agents.recorded && git.agents.next == (set x | x in e)
  }

  /** The worktree holds at most the one untracked file. */
  predicate AtMostFindings(git: Repo) {
    forall i :: 0 <= i < |git.dirty| ==> git.dirty[i].status == "??" && git.dirty[i].path == "FINDINGS.md"
  }

  predicate HeadIs(git: Repo, subject: string, parent: Sha) {
    && git.head < |git.commits| && git.commits[git.head].subject == subject && git.head != parent
    && git.commits[git.head].parents != [] && git.commits[git.head].parents[0] == parent
  }

  // ----- one prompt -----

  /** The response is one handoff: of this prompt, complete, reporting HEAD under the prompt's exact
      subject. HEAD is one new commit on top of pre; what follows is announced everywhere. */
  ghost predicate Delivered(c: Ctx, git: Repo, id: PromptId, pre: Sha, final: Response, scope: string) {
    exists h, subject, e :: DeliveredBy(c, git, id, pre, final, scope, h, subject, e)
  }

  ghost predicate DeliveredBy(c: Ctx, git: Repo, id: PromptId, pre: Sha, final: Response, scope: string,
      h: Handoff, subject: string, e: seq<PromptId>)
  {
    && final == Some([h]) && h.prompt == id && h.complete
    && id in c.pack.prompts && c.pack.prompts[id].subject == Some(subject)
    && h.commit == Some(Reported(git.head, subject)) && HeadIs(git, subject, pre)
    && |c.pol.revList(git.commits, pre, git.head)| == 1
    && FollowedBy(c.pack, id, e) && (forall x :: x in h.next <==> x in e)
    && GuidanceShows(git, id, e) && AtMostFindings(git)
    && c.pol.childOk(c.cfg.profile, git, id, pre, h, scope)
  }

  lemma DeliveredExactly(c: Ctx, git: Repo, id: PromptId, pre: Sha, final: Response, scope: string)
    ensures ValidChild(c, git, id, pre, final, scope) <==> Delivered(c, git, id, pre, final, scope)
  {
    hide ExpectedNext, FollowedBy;
    if ValidChild(c, git, id, pre, final, scope) {
      var h, e := final.value[0], ExpectedNext(c.pack, id).value;
      FollowedExactly(c.pack, id, e);
      assert final.value == [h];
      forall x ensures x in h.next <==> x in e {
        assert x in Elems(h.next) <==> x in Elems(e);
      }
      assert DeliveredBy(c, git, id, pre, final, scope, h, h.commit.value.subject, e);
    }
    if h, subject, e :| DeliveredBy(c, git, id, pre, final, scope, h, subject, e) {
      FollowedExactly(c.pack, id, e);
      assert Elems(h.next) == Elems(e);
    }
  }

  /** Where acceptance of id at HEAD leaves the state; e is what follows, kept the progress record. */
  predicate StandsAt(s: State, s': State, id: PromptId, head: Sha, e: seq<PromptId>, kept: Option<Progress>) {
    && s'.last == id && s'.commit == head && s'.next == (if |e| == 0 then "STOP" else e[0])
    && s'.status == Ready && s'.blocker == None && s'.active == None && s'.failed == s.failed
    && s'.progress == kept
    && (if |e| >= 2 then
          s'.review.status == Pending && s'.review.reviewers == e && s'.review.sha == head && s'.review.reports == {}
        else s'.review == s.review)
    && (s'.finished <==> s.finished || (|e| > 0 && |e[0]| >= 4 && e[0][..4] == "T18-"))
  }

  lemma Completes(p: Pack, s: State, id: PromptId, head: Sha, e: seq<PromptId>, drop: bool)
    requires FollowedBy(p, id, e)
    ensures StandsAt(s, CompleteState(p, s, id, head, drop), id, head, e, if drop then None else s.progress)
  {
    hide ExpectedNext, FollowedBy;
    FollowedExactly(p, id, e);
    if e != [] { LatePrefix(e[0]); }
  }

  lemma LatePrefix(id: PromptId)
    ensures StartsWith(id, "T18-") <==> |id| >= 4 && id[..4] == "T18-"
  {}

  predicate EndedWell(r: ChildRun) {
    !r.timedOut && !r.interrupted && !r.violation && r.exit == 0
  }

  /** A single prompt: what it takes to be accepted, and everything that changes then. */
  lemma SoloAccepted(c: Ctx, w: World, env: StepEnv)
    ensures var id, git, e := w.state.next, env.child.git, RunSolo(c, w, env);
      && (e.ok <==>
            && w.state.last in w.handoffs && env.promptOk && (id == "T04-R3" ==> LoadReports(w).Some?)
            && EndedWell(env.child)
            && Delivered(c, git, id, w.git.head, env.child.final,
                 if id == "T04-R3" then LoadReports(w).value else ""))
      && (e.ok ==> exists follow ::
            && FollowedBy(c.pack, id, follow)
            && StandsAt(w.state, Final(w, e).state, id, git.head, follow,
                 if c.cfg.profile == Efficient then None else w.state.progress))
      && (e.ok ==>
            && env.child.final.Some? && |env.child.final.value| == 1
            && Final(w, e).handoffs == w.handoffs[id := env.child.final.value[0]]
            && Final(w, e).reports == w.reports && Final(w, e).git == git && Final(w, e).files == env.child.files)
  {
    hide ValidChild, Delivered, LoadReports, CompleteState, FollowedBy, StandsAt;
    var id := w.state.next;
    if RunSolo(c, w, env).launches != [] { SoloRan(c, w, env); }
    SoloStarts(c, w, env);
    DeliveredExactly(c, env.child.git, id, w.git.head, env.child.final,
      if id == R3 && LoadReports(w).Some? then LoadReports(w).value else "");
    if RunSolo(c, w, env).ok {
      SoloWrites(c, w, env);
      var follow := DeliveredFollow(c, env.child.git, id, w.git.head, env.child.final,
        if id == R3 then LoadReports(w).value else "");
      Completes(c.pack, RunSolo(c, w, env).writes[1].state, id, env.child.git.head, follow, c.cfg.profile.Efficient?);
      SoloRunning(c, w, env);
      SameStand(RunSolo(c, w, env).writes[1].state, w.state, Final(w, RunSolo(c, w, env)).state, id,
        env.child.git.head, follow, if c.cfg.profile == Efficient then None else w.state.progress);
    }
  }

  lemma SoloStarts(c: Ctx, w: World, env: StepEnv)
    ensures RunSolo(c, w, env).launches != [] <==>
      w.state.last in w.handoffs && env.promptOk && (w.state.next == R3 ==> LoadReports(w).Some?)
    ensures RunSolo(c, w, env).launches == [] ==> !RunSolo(c, w, env).ok
  {
    hide FinishSolo, LoadReports;
  }

  lemma SoloRunning(c: Ctx, w: World, env: StepEnv)
    requires RunSolo(c, w, env).ok
    ensures var s := RunSolo(c, w, env).writes[1].state;
      s.failed == w.state.failed && s.finished == w.state.finished && s.review == w.state.review
      && s.progress == w.state.progress
  {
    hide ValidChild, LoadReports, CompleteState;
  }

  lemma SameStand(s: State, t: State, s': State, id: PromptId, head: Sha, e: seq<PromptId>, kept: Option<Progress>)
    requires StandsAt(s, s', id, head, e, kept)
    requires s.failed == t.failed && s.finished == t.finished && s.review == t.review
    ensures StandsAt(t, s', id, head, e, kept)
  {}

  lemma DeliveredFollow(c: Ctx, git: Repo, id: PromptId, pre: Sha, final: Response, scope: string)
    returns (e: seq<PromptId>)
    requires Delivered(c, git, id, pre, final, scope)
    ensures FollowedBy(c.pack, id, e)
  {
    hide FollowedBy;
    var h, subject, f :| DeliveredBy(c, git, id, pre, final, scope, h, subject, f);
    e := f;
  }

  /** A started prompt that is not accepted is blocked as it stands, with nothing stored. */
  lemma SoloBlocked(c: Ctx, w: World, env: StepEnv)
    requires RunSolo(c, w, env).launches != [] && !RunSolo(c, w, env).ok
    ensures var v, id := Final(w, RunSolo(c, w, env)), w.state.next;
      && v.git == env.child.git && v.files == env.child.files && v.handoffs == w.handoffs && v.reports == w.reports
      && v.state == w.state.(status := Blocked, active := None,
           blocker := Some(if EndedWell(env.child) then InvalidBoundary else ChildFailed),
           failed := Some(Active([id], [], None, w.git.head, c.cfg.profile == Efficient)))
  {
    hide ValidChild, LoadReports, CompleteState;
  }

  /** Recovery of a single prompt accepts the same deliveries, read from the files. */
  lemma RecoveredAccepted(c: Ctx, w: World, a: Active)
    requires a.ids != []
    ensures var id, f, e := a.ids[0], w.files, ReconcileSolo(c, w, a);
      && (e.ok <==>
            && (f.receipt.Receipt? ==> !f.receipt.active && f.receipt.exit == Some(0))
            && (f.log.Some? ==> c.pol.logOk(f.log.value, SoloAudit(a.efficient, id))) && f.final.Some?
            && (id == "T04-R3" ==> LoadReports(w).Some?)
            && Delivered(c, w.git, id, a.preHead, f.final.value,
                 if id == "T04-R3" then LoadReports(w).value else ""))
      && (e.ok ==> exists follow ::
            && FollowedBy(c.pack, id, follow)
            && StandsAt(w.state, Final(w, e).state, id, w.git.head, follow, w.state.progress))
      && (e.ok ==>
            && f.final.value.Some? && |f.final.value.value| == 1
            && Final(w, e).handoffs == w.handoffs[id := f.final.value.value[0]]
            && Final(w, e).reports == w.reports && Final(w, e).git == w.git)
  {
    hide ValidChild, Delivered, LoadReports, CompleteState, FollowedBy, StandsAt;
    var id, f := a.ids[0], w.files;
    if f.final.Some? {
      var scope := if id == R3 && LoadReports(w).Some? then LoadReports(w).value else "";
      DeliveredExactly(c, w.git, id, a.preHead, f.final.value, scope);
      if ReconcileSolo(c, w, a).ok {
        var follow := DeliveredFollow(c, w.git, id, a.preHead, f.final.value, scope);
        Completes(c.pack, w.state, id, w.git.head, follow, false);
        OneHandoffDelivered(c, w.git, id, a.preHead, f.final.value, scope);
      }
    }
  }

  lemma OneHandoffDelivered(c: Ctx, git: Repo, id: PromptId, pre: Sha, final: Response, scope: string)
    requires Delivered(c, git, id, pre, final, scope)
    ensures final.Some? && |final.value| == 1
  {
    hide FollowedBy;
  }
}
