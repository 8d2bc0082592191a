/** Which path a command takes, what is durable before anything is started, and in which order the
    results become durable. */
module Dispatching {
  import opened Prelude
  import opened GitModel
  import opened PromptPack
  import opened Protocol
  import opened Ledger
  import opened History
  import opened Runs
  import opened Recovery
  import opened Refused
  import opened Acceptance
  import opened GroupAcceptance
  import opened Resolution
  import opened Reviews

  // ----- what is written before a child runs -----

  /** Started: the state names what runs and from which HEAD, an old blocker is cleared, and no file
      of an earlier child is left. */
  predicate Started(w: World, v: World, a: Active) {
    v == w.(state := w.state.(status := Running, active := Some(a),
                              blocker := if w.state.status == Blocked then None else w.state.blocker),
            files := Files(NoReceipt, None, None))
  }

  predicate Exited(v: World, v': World, r: ChildRun) {
    v' == v.(git := r.git, files := r.files)
  }

  /** A single prompt: started, exited, and then blocked in one write, or the handoff first and the
      state after it. */
  lemma SoloOrder(c: Ctx, w: World, env: StepEnv)
    requires RunSolo(c, w, env).launches != []
    ensures var e, id := RunSolo(c, w, env), w.state.next;
      && |e.writes| == (if e.ok then 4 else 3) && e.launches == [Launch([id], e.writes[0])]
      && Started(w, e.writes[0], Active([id], [], None, w.git.head, c.cfg.profile == Efficient))
      && Exited(e.writes[0], e.writes[1], env.child)
      && (e.ok ==> e.writes[2] == e.writes[1].(handoffs := e.writes[3].handoffs))
  {
    hide ValidChild, LoadReports, CompleteState;
  }

  /** The first n handoffs are stored, and nothing else has changed. */
  ghost predicate PartlyStored(v: World, v': World, ids: seq<PromptId>, hs: seq<Handoff>, n: nat)
    requires n <= |ids| == |hs|
  {
    v' == v.(handoffs := v'.handoffs) && Stored(v.handoffs, v'.handoffs, ids[..n], hs[..n])
  }

  lemma {:induction false} HandoffOrder(w: World, ids: seq<PromptId>, hs: seq<Handoff>, n: nat)
    requires Distinct(ids) && |ids| == |hs| && forall i :: 0 <= i < |ids| ==> hs[i].prompt == ids[i]
    requires n < |hs|
    ensures |HandoffWrites(w, hs)| == |hs| && PartlyStored(w, HandoffWrites(w, hs)[n], ids, hs, n + 1)
    decreases hs
  {
    HandoffCount(w, hs);
    assert forall i :: 0 <= i <= n ==> hs[..n + 1][i] == hs[i] && ids[..n + 1][i] == ids[i];
    AddedExactly(w.handoffs, ids[..n + 1], hs[..n + 1]);
    NthWrite(w, hs, n);
  }

  lemma {:induction false} HandoffCount(w: World, hs: seq<Handoff>)
    ensures |HandoffWrites(w, hs)| == |hs|
    decreases hs
  {
    if hs != [] { HandoffCount(w.(handoffs := w.handoffs[hs[0].prompt := hs[0]]), hs[1..]); }
  }

  lemma {:induction false} NthWrite(w: World, hs: seq<Handoff>, n: nat)
    requires n < |hs|
    ensures |HandoffWrites(w, hs)| == |hs|
    ensures HandoffWrites(w, hs)[n] == w.(handoffs := AddHandoffs(w.handoffs, hs[..n + 1]))
    decreases hs
  {
    HandoffCount(w, hs);
    var w1 := w.(handoffs := w.handoffs[hs[0].prompt := hs[0]]);
    assert hs[..n + 1][1..] == hs[1..][..n];
    if n > 0 {
      NthWrite(w1, hs[1..], n - 1);
    } else {
      assert AddHandoffs(w.handoffs, hs[..1]) == AddHandoffs(w1.handoffs, hs[..1][1..]);
      assert hs[..1][1..] == [];
    }
  }

  /** A group: started, exited, and when accepted each handoff in a write of its own, before the state. */
  lemma GroupOrder(c: Ctx, w: World, g: Group, env: StepEnv)
    requires g.ids != [] && Distinct(g.ids) && RunGroup(c, w, g, env).launches != []
    ensures var e := RunGroup(c, w, g, env);
      && |e.writes| >= 3 && e.launches == [Launch(g.ids, e.writes[0])]
      && Started(w, e.writes[0], Active(g.ids, g.configured, g.subject, w.git.head, true))
      && Exited(e.writes[0], e.writes[1], env.child)
      && (e.ok ==>
            && |e.writes| == |g.ids| + 3 && env.child.final.Some? && |env.child.final.value| == |g.ids|
            && forall m :: 2 <= m < |g.ids| + 2 ==>
                 PartlyStored(e.writes[1], e.writes[m], g.ids, env.child.final.value, m - 1))
  {
    hide ExpectedNext, ValidGroup, CompleteState, RecoverablePrefix, PrefixState, HandoffWrites, AddHandoffs,
      PartlyStored, Distinct;
    var e := RunGroup(c, w, g, env);
    var w2 := e.writes[1];
    var r := FinishGroup(c, w2, env.child, g, w.git.head);
    assert e.writes == e.writes[..2] + r.writes;
    ParsedGroup(c, w2.git, g, w.git.head, env.child.final, true);
    if e.ok {
      var hs := env.child.final.value;
      HandoffCount(w2, hs);
      forall m | 2 <= m < |g.ids| + 2 ensures PartlyStored(e.writes[1], e.writes[m], g.ids, hs, m - 1) {
        HandoffOrder(w2, g.ids, hs, m - 2);
        assert e.writes[m] == r.writes[m - 2] == HandoffWrites(w2, hs)[m - 2];
      }
    }
  }

  /** The reviewer pair: started, exited, and then blocked in one write, or the first report, the
      second, and the state last. */
  lemma PairOrder(c: Ctx, w: World, env: StepEnv)
    requires RunPair(c, w, env).launches != []
    ensures var e, s, sha := RunPair(c, w, env), w.state, w.state.commit;
      var none := ReviewFiles(NoReceipt, None, None);
      && |e.writes| == (if e.ok then 5 else 3) && e.launches == [Launch(["T04-R1", "T04-R2"], e.writes[0])]
      && e.writes[0] == w.(review1 := none, review2 := none,
           state := s.(status := Reviewing, active := Some(Active(["T04-R1", "T04-R2"], [], None, sha, false)),
                       review := s.review.(status := InReview, reports := {})))
      && e.writes[1] == e.writes[0].(git := env.reviewGit, review1 := env.r1.files, review2 := env.r2.files)
      && (e.ok ==>
            && e.writes[2] == e.writes[1].(reports := w.reports[("T04-R1", sha) := env.r1.report])
            && e.writes[3] == e.writes[1].(reports := e.writes[4].reports))
  {
    hide ExpectedNext;
  }

  /** A group that is not accepted goes on from where its child exited: with what the child's
      messages show to be a committed prefix, or blocked. */
  lemma GroupRefusedOrder(c: Ctx, w: World, g: Group, env: StepEnv)
    requires g.ids != [] && RunGroup(c, w, g, env).launches != [] && !RunGroup(c, w, g, env).ok
    ensures var e := RunGroup(c, w, g, env);
      && |e.writes| >= 3
      && e.writes[2..] == ReconcileOrBlock(c, e.writes[1], e.writes[1].state, g, w.git.head, env.child.messages).writes
  {
    hide ExpectedNext, ValidGroup, CompleteState, RecoverablePrefix, PrefixState, HandoffWrites, AddHandoffs;
  }

  /** A kept prefix: each handoff in a write of its own, then the blocked state. */
  lemma PrefixOrder(c: Ctx, w: World, g: Group, pre: Sha, messages: seq<Response>, hs: seq<Handoff>)
    requires Distinct(g.ids) && PrefixKept(c, w.git, g, pre, messages, hs)
    ensures var e := ReconcileOrBlock(c, w, w.state, g, pre, messages);
      && |hs| <= |g.ids| && |e.writes| == |hs| + 1 && e.launches == []
      && forall m :: 0 <= m < |hs| ==> PartlyStored(w, e.writes[m], g.ids[..|hs|], hs, m + 1)
  {
    hide PrefixKept, PartlyStored, ExpectedNext, HandoffWrites, RecoverablePrefix, AddHandoffs, Distinct, PrefixState;
    NeverEmpty(c, w.git, g, pre, messages, hs);
    PrefixKeptExactly(c, w.git, g, pre, messages, hs);
    PrefixParsed(c, w.git, g, pre, messages, hs);
    PrefixDistinct(g.ids, |hs|);
    HandoffCount(w, hs);
    forall m | 0 <= m < |hs|
      ensures PartlyStored(w, ReconcileOrBlock(c, w, w.state, g, pre, messages).writes[m], g.ids[..|hs|], hs, m + 1)
    {
      HandoffOrder(w, g.ids[..|hs|], hs, m);
    }
  }

  // ----- recovery, in order -----

  /** A recovered prompt: the handoff, then the state; a refused one writes nothing. */
  lemma SoloRecoveryOrder(c: Ctx, w: World, a: Active)
    ensures var e := ReconcileSolo(c, w, a);
      && (e.ok ==> |e.writes| == 2 && e.launches == [] && e.writes[0] == w.(handoffs := e.writes[1].handoffs))
      && (!e.ok ==> e == Eff([], [], false))
  {
    hide ValidChild, LoadReports, CompleteState;
  }

  /** A recovered group: each handoff in a write of its own, then the state. One without a readable
      log writes nothing, and any other goes on from its log's messages. */
  lemma GroupRecoveryOrder(c: Ctx, w: World, a: Active)
    requires a.ids != [] && Distinct(a.ids)
    ensures var e, f, g := ReconcileGroup(c, w, a), w.files, Group(a.ids, a.subject, a.configured);
      && (e.ok ==>
            && |e.writes| == |a.ids| + 1 && f.final.Some? && f.final.value.Some? && |f.final.value.value| == |a.ids|
            && forall m :: 0 <= m < |a.ids| ==> PartlyStored(w, e.writes[m], a.ids, f.final.value.value, m + 1))
      && (!e.ok ==>
            if f.log.None? || !c.pol.logOk(f.log.value, GroupAudit(a.ids)) then e == Eff([], [], false)
            else e == ReconcileOrBlock(c, w, w.state, g, a.preHead, c.pol.messages(f.log.value)))
  {
    hide ExpectedNext, ValidGroup, CompleteState, RecoverablePrefix, PrefixState, HandoffWrites, AddHandoffs,
      PartlyStored, Distinct;
    var e, final := ReconcileGroup(c, w, a), if w.files.final.Some? then w.files.final.value else None;
    ParsedGroup(c, w.git, ActiveGroup(a), a.preHead, final, true);
    if e.ok {
      HandoffCount(w, final.value);
      forall m | 0 <= m < |a.ids| ensures PartlyStored(w, e.writes[m], a.ids, final.value, m + 1) {
        HandoffOrder(w, a.ids, final.value, m);
      }
    }
  }

  /** A recovered pair: the first report, the second, and the state last. */
  lemma PairRecoveryOrder(c: Ctx, w: World)
    requires ReconcilePair(c, w).ok && ReadsWell(c.pol, w.review1) && ReadsWell(c.pol, w.review2)
    ensures var e, sha := ReconcilePair(c, w), w.state.review.sha;
      && |e.writes| == 3 && e.writes[0] == w.(reports := w.reports[("T04-R1", sha) := w.review1.report.value])
      && e.writes[1] == w.(reports := e.writes[2].reports)
  {}

  // ----- which path a step takes -----

  predicate Late(id: PromptId) {
    |id| >= 4 && (id[..4] == "T18-" || id[..4] == "T19-")
  }

  ghost predicate Reviewed(p: Pack, id: PromptId) {
    exists k: nat :: InReviewers(p, id, k)
  }

  /** g is what is left of a group from id on. */
  ghost predicate RestFrom(groups: seq<Group>, id: PromptId, g: Group) {
    exists i: nat, k: nat :: RestAt(groups, id, g, i, k)
  }

  predicate RestAt(groups: seq<Group>, id: PromptId, g: Group, i: nat, k: nat) {
    && i < |groups| && k < |groups[i].ids| && groups[i].ids[k] == id
    && g == Group(groups[i].ids[k..], groups[i].subject, groups[i].ids)
  }

  predicate InGroups(groups: seq<Group>, id: PromptId) {
    exists i :: 0 <= i < |groups| && id in groups[i].ids
  }

  lemma SelectExactly(p: Pack, specs: seq<GroupSpec>, maxIds: set<PromptId>, groups: seq<Group>, id: PromptId)
    requires ValidPack(p) && Configured(p, specs, maxIds, groups)
    ensures Select(groups, id).Some? <==> InGroups(groups, id)
    ensures forall g :: Select(groups, id) == Some(g) ==> RestFrom(groups, id, g)
  {
    hide Select, GroupFor;
    forall i | 0 <= i < |groups| ensures groups[i].ids != [] && groups[i].configured == groups[i].ids {
      ConfiguredGroup(p, specs[i], maxIds, groups[i]);
    }
    if Select(groups, id).Some? {
      var i := SelectSound(groups, id);
      assert RestAt(groups, id, Select(groups, id).value, i, IndexOf(groups[i].ids, id));
    }
    if i :| 0 <= i < |groups| && id in groups[i].ids {
      ConfiguredApart(p, specs, maxIds, groups);
      SelectFinds(groups, id, i);
    }
  }

  lemma ConfiguredGroup(p: Pack, spec: GroupSpec, maxIds: set<PromptId>, g: Group)
    requires GroupFor(p, spec, maxIds, g)
    ensures g.ids != [] && g.configured == g.ids
  {}

  lemma ConfiguredApart(p: Pack, specs: seq<GroupSpec>, maxIds: set<PromptId>, groups: seq<Group>)
    requires Configured(p, specs, maxIds, groups)
    ensures forall i, j :: 0 <= i < j < |groups| ==> Elems(groups[i].ids) !! Elems(groups[j].ids)
  {
    hide GroupFor;
  }

  lemma LateExactly(id: PromptId)
    ensures LateTask(id) <==> Late(id)
  {}

  lemma ReviewedExactly(p: Pack, id: PromptId)
    ensures IsReviewer(p, id) <==> Reviewed(p, id)
  {
    if IsReviewer(p, id) {
      var k :| 0 <= k < |p.order| && p.order[k].Reviewers? && id in p.order[k].ids;
      assert InReviewers(p, id, k);
    }
  }

  /** A prompt the pack does not know, or groups that do not resolve, fail without a write; a late
      or gated prompt ends the run; reviewers run as a pair; a prompt of a group runs with the rest
      of its group; every other prompt runs alone. */
  lemma DispatchExactly(c: Ctx, w: World, env: StepEnv)
    requires ValidPack(c.pack)
    ensures var e, id, p := Dispatch(c, w, env), w.state.next, c.pack;
      var efficient, specs, maxIds := c.cfg.profile == Efficient, c.cfg.specs, c.cfg.maxIds;
      if id !in p.prompts then e == Eff([], [], false)
      else if Late(id) || p.prompts[id].gated then
        e == Eff([w.(state := w.state.(status := BoundaryReached, blocker := Some(StopBoundary), finished := true))],
          [], false)
      else if Reviewed(p, id) then e == RunPair(c, w, env)
      else if efficient && !Resolvable(p, specs, maxIds) then e == Eff([], [], false)
      else if efficient && (forall groups :: Configured(p, specs, maxIds, groups) ==> InGroups(groups, id)) then
        exists groups, g ::
          && Configured(p, specs, maxIds, groups) && RestFrom(groups, id, g) && g.ids != []
          && e == RunGroup(c, w, g, env)
      else e == RunSolo(c, w, env)
  {
    hide RunPair, RunSolo, RunGroup, Resolved, Select, Configured, Resolvable, InGroups, RestFrom, LateTask, Late;
    var id := w.state.next;
    LateExactly(id);
    ReviewedExactly(c.pack, id);
    ResolvesExactly(c.pack, c.cfg.specs, c.cfg.maxIds);
    var r := Resolved(c.pack, c.cfg.specs, c.cfg.maxIds);
    if r.Ok? {
      OneResolution(c.pack, c.cfg.specs, c.cfg.maxIds, r.value);
      SelectExactly(c.pack, c.cfg.specs, c.cfg.maxIds, r.value, id);
      if Select(r.value, id).Some? { assert RestFrom(r.value, id, Select(r.value, id).value); }
    }
  }

  lemma OneResolution(p: Pack, specs: seq<GroupSpec>, maxIds: set<PromptId>, groups: seq<Group>)
    requires ValidPack(p) && Resolved(p, specs, maxIds) == Ok(groups)
    ensures Configured(p, specs, maxIds, groups)
    ensures forall others :: Configured(p, specs, maxIds, others) ==> others == groups
  {
    hide Configured, Resolved;
    ResolvedExactly(p, specs, maxIds, groups);
    forall others | Configured(p, specs, maxIds, others) ensures others == groups {
      ResolvedExactly(p, specs, maxIds, others);
    }
  }

  // ----- which path a reconciliation takes -----

  /** Only an interrupted run is reconciled. An efficient one is not touched under the strict
      profile, nor any whose child may still run; without a new commit it is blocked, to be
      started again; otherwise it is taken up as the group or the prompt it was. */
  lemma ReconcileExactly(c: Ctx, w: World)
    ensures var e, s := Reconcile(c, w), w.state;
      if s.status == Reviewing then e == ReconcilePair(c, w)
      else if s.status != Running then e == Eff([], [], true)
      else match s.active
        case None => e == Eff([], [], false)
        case Some(a) =>
          if (a.efficient && c.cfg.profile == Strict) || !Usable(w.files.receipt) then e == Eff([], [], false)
          else if w.git.head == a.preHead then
            e == Eff([w.(state := s.(status := Blocked, blocker := Some(InterruptedBeforeCommit), active := None))],
              [], true)
          else if a.efficient && |a.ids| >= 2 then e == ReconcileGroup(c, w, a)
          else e == ReconcileSolo(c, w, a)
  {
    hide ReconcilePair, ReconcileGroup, ReconcileSolo;
  }

  // ----- validation -----

  /** What every command checks first: the setup, groups that resolve, and a clean worktree. */
  ghost predicate SetUp(c: Ctx, w: World, setup: bool) {
    setup && (c.cfg.profile == Efficient ==> Resolvable(c.pack, c.cfg.specs, c.cfg.maxIds)) && AtMostFindings(w.git)
  }

  /** The stored position is the repository's and the order's: HEAD is the stored commit, what is
      next follows what was last, progress is only kept under the efficient profile, and guidance
      shows the last prompt, or inside a group the one it showed when the group began. */
  ghost predicate WellStored(c: Ctx, w: World) {
    var s := w.state;
    && w.git.head == s.commit && AtMostFindings(w.git)
    && (exists e :: FollowedBy(c.pack, s.last, e) && (if s.review.status == ReportsComplete then s.next == "T04-R3"
                                                      else s.next in e))
    && (s.progress.Some? ==> c.cfg.profile == Efficient)
    && EndShown(c, w.git, if s.progress.Some? then s.progress.value.guidance else s.last)
  }

  lemma SetUpExactly(c: Ctx, w: World, setup: bool)
    requires ValidPack(c.pack)
    ensures StaticOk(c, w, setup) <==> SetUp(c, w, setup)
  {
    hide Resolved, Resolvable;
    ResolvesExactly(c.pack, c.cfg.specs, c.cfg.maxIds);
    assert OnlyFindings(w.git.dirty) <==> AtMostFindings(w.git);
  }

  lemma WellStoredExactly(c: Ctx, w: World)
    ensures ValidStored(c, w) <==> WellStored(c, w)
  {
    hide ExpectedNext, FollowedBy, GuidanceOk, EndShown;
    assert OnlyFindings(w.git.dirty) <==> AtMostFindings(w.git);
    var s := w.state;
    EndGuidance(c, w.git, if s.progress.Some? then s.progress.value.guidance else s.last);
    forall e: seq<PromptId> ensures ExpectedNext(c.pack, s.last) == Some(e) <==> FollowedBy(c.pack, s.last, e) {
      FollowedExactly(c.pack, s.last, e);
    }
    if ExpectedNext(c.pack, s.last).Some? {
      assert FollowedBy(c.pack, s.last, ExpectedNext(c.pack, s.last).value);
    }
  }

  /** A command validates before and after reconciling; where the first fails nothing is written,
      and no failure takes a reconciled write back. */
  lemma ValidateExactly(c: Ctx, w: World, checks: Checks)
    requires ValidPack(c.pack)
    ensures var e, r := Validate(c, w, checks), Reconcile(c, w);
      && (e.ok <==> SetUp(c, w, checks.setup) && r.ok && checks.stored && WellStored(c, Final(w, r)))
      && e.launches == [] && e.writes == if SetUp(c, w, checks.setup) then r.writes else []
  {
    hide Reconcile, StaticOk, ValidStored, SetUp, WellStored;
    SetUpExactly(c, w, checks.setup);
    WellStoredExactly(c, Final(w, Reconcile(c, w)));
    NoLaunch(c, w);
  }

  lemma NoLaunch(c: Ctx, w: World)
    ensures Reconcile(c, w).launches == []
  {
    hide ValidChild, ValidGroup, LoadReports, CompleteState, RecoverablePrefix, ExpectedNext, HandoffWrites;
    if w.state.status.Running? && w.state.active.Some? && w.state.active.value.ids != [] {
      GroupLaunch(c, w, w.state.active.value);
    }
  }

  lemma GroupLaunch(c: Ctx, w: World, a: Active)
    requires a.ids != []
    ensures ReconcileGroup(c, w, a).launches == []
  {
    hide ValidGroup, CompleteState, RecoverablePrefix, ExpectedNext, HandoffWrites, PrefixState;
  }

  /** A step goes on only from a validated position, and what it writes comes after the reconciled. */
  lemma StepExactly(c: Ctx, w: World, env: StepEnv)
    ensures var e, v := Step(c, w, env), Validate(c, w, env.checks);
      var d := Dispatch(c, Final(w, v), env);
      if v.ok then e == Eff(v.writes + d.writes, v.launches + d.launches, d.ok) else e == v
  {
    hide Validate, Dispatch;
  }

  /** `stop` validates like every command, and then marks the run as ended, without starting anything. */
  lemma StopExactly(c: Ctx, w: World, checks: Checks)
    ensures var e, v := Stop(c, w, checks), Validate(c, w, checks);
      && (e.ok <==> v.ok) && e.launches == v.launches
      && e.writes == v.writes + if !v.ok then [] else
           [Final(w, v).(state := Final(w, v).state.(status := BoundaryReached, blocker := Some(StopBoundary),
                                                     finished := true))]
  {
    hide Validate;
  }

  /** A crash leaves the world of the last write that was made, or the one before the command. */
  lemma CutExactly(w: World, e: Eff, k: nat)
    ensures k == 0 ==> Cut(w, e, k) == w
    ensures 0 < k <= |e.writes| ==> Cut(w, e, k) == e.writes[k - 1]
    ensures k >= |e.writes| ==> Cut(w, e, k) == Final(w, e)
  {}
}
