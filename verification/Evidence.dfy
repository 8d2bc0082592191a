/** What the reviewer states rest on stays on disk: the T04-K handoff while the pair runs, and both
    report files once they count as complete. */
module Evidence {
  import opened Prelude
  import opened GitModel
  import opened PromptPack
  import opened Protocol
  import opened Ledger
  import opened History
  import opened Runs

  const K := "T04-K"

  ghost predicate OnDisk(w: World) {
    var r := w.state.review;
    && (r.status.InReview? ==> K in w.handoffs)
    && (r.status.ReportsComplete? ==> r.reports == {R1, R2} && (R1, r.sha) in w.reports && (R2, r.sha) in w.reports)
  }

  ghost predicate AllOnDisk(ws: seq<World>) {
    forall i :: 0 <= i < |ws| ==> OnDisk(ws[i])
  }

  lemma {:induction false} HandoffsOnDisk(w: World, hs: seq<Handoff>)
    requires OnDisk(w)
    ensures AllOnDisk(HandoffWrites(w, hs))
    decreases hs
  {
    if hs != [] {
      HandoffsOnDisk(w.(handoffs := w.handoffs[hs[0].prompt := hs[0]]), hs[1..]);
    }
  }

  lemma RecordGroupOnDisk(c: Ctx, w: World, g: Group, hs: seq<Handoff>)
    requires OnDisk(w) && g.ids != []
    ensures AllOnDisk(RecordGroup(c, w, w.state, g, hs).writes)
  {
    hide ExpectedNext;
    HandoffsOnDisk(w, hs);
    AddedHandoffs(w.handoffs, hs);
  }

  lemma ReconcileOrBlockOnDisk(c: Ctx, w: World, g: Group, pre: Sha, messages: seq<Response>)
    requires OnDisk(w)
    ensures AllOnDisk(ReconcileOrBlock(c, w, w.state, g, pre, messages).writes)
  {
    hide ExpectedNext, RecoverablePrefix;
    var hs := RecoverablePrefix(c, w.git, g, pre, messages);
    HandoffsOnDisk(w, hs);
    AddedHandoffs(w.handoffs, hs);
  }

  lemma ReconcileGroupOnDisk(c: Ctx, w: World, a: Active)
    requires OnDisk(w)
    ensures AllOnDisk(ReconcileGroup(c, w, a).writes)
  {
    hide ValidGroup, RecordGroup, ReconcileOrBlock, OnDisk;
    var final := if w.files.final.Some? then w.files.final.value else None;
    if a.ids != [] && w.files.log.Some? {
      ReconcileOrBlockOnDisk(c, w, ActiveGroup(a), a.preHead, c.pol.messages(w.files.log.value));
      if final.Some? { RecordGroupOnDisk(c, w, ActiveGroup(a), final.value); }
    }
    ParsedGroup(c, w.git, ActiveGroup(a), a.preHead, final, true);
  }

  lemma ReconcileOnDisk(c: Ctx, w: World)
    requires OnDisk(w)
    ensures AllOnDisk(Reconcile(c, w).writes)
  {
    hide ValidChild, LoadReports, ExpectedNext, ReconcileGroup, ReviewRecoverable;
    if w.state.active.Some? { ReconcileGroupOnDisk(c, w, w.state.active.value); }
  }

  lemma FinishGroupOnDisk(c: Ctx, w: World, r: ChildRun, g: Group, pre: Sha)
    requires OnDisk(w) && g.ids != []
    ensures AllOnDisk(FinishGroup(c, w, r, g, pre).writes)
  {
    hide ValidGroup, RecordGroup, ReconcileOrBlock, OnDisk;
    ParsedGroup(c, w.git, g, pre, r.final, true);
    if r.final.Some? { RecordGroupOnDisk(c, w, g, r.final.value); }
    ReconcileOrBlockOnDisk(c, w, g, pre, r.messages);
  }

  lemma RunGroupOnDisk(c: Ctx, w: World, g: Group, env: StepEnv)
    requires OnDisk(w) && g.ids != []
    ensures AllOnDisk(RunGroup(c, w, g, env).writes)
  {
    hide FinishGroup;
    var a := Active(g.ids, g.configured, g.subject, w.git.head, true);
    var w1 := w.(state := Cleared(w.state).(status := Running, active := Some(a)), files := NO_FILES);
    FinishGroupOnDisk(c, w1.(git := env.child.git, files := env.child.files), env.child, g, a.preHead);
  }

  lemma RunSoloOnDisk(c: Ctx, w: World, env: StepEnv)
    requires OnDisk(w)
    ensures AllOnDisk(RunSolo(c, w, env).writes)
  {
    hide ValidChild, LoadReports, ExpectedNext;
  }

  lemma RunPairOnDisk(c: Ctx, w: World, env: StepEnv)
    requires OnDisk(w)
    ensures AllOnDisk(RunPair(c, w, env).writes)
  {
    hide ExpectedNext, ReviewFailure;
  }

  lemma DispatchOnDisk(c: Ctx, w: World, env: StepEnv)
    requires OnDisk(w)
    ensures AllOnDisk(Dispatch(c, w, env).writes)
  {
    hide RunSolo, RunGroup, RunPair, IsReviewer, Resolved, Select, LateTask, Gated;
    RunSoloOnDisk(c, w, env);
    RunPairOnDisk(c, w, env);
    if c.cfg.profile.Efficient? && Resolved(c.pack, c.cfg.specs, c.cfg.maxIds).Ok? {
      var g := Select(Resolved(c.pack, c.cfg.specs, c.cfg.maxIds).value, w.state.next);
      if g.Some? { RunGroupOnDisk(c, w, g.value, env); }
    }
  }

  lemma FinalOnDisk(w: World, e: Eff)
    requires OnDisk(w) && AllOnDisk(e.writes)
    ensures OnDisk(Final(w, e)) && OnDisk(StopWrite(Final(w, e)).writes[0])
  {}

  lemma EffectOnDisk(c: Ctx, w: World, command: Command)
    requires OnDisk(w)
    ensures AllOnDisk(Effect(c, w, command).writes)
  {
    hide OnDisk, Reconcile, Dispatch, ValidStored, StaticOk;
    ReconcileOnDisk(c, w);
    FinalOnDisk(w, Reconcile(c, w));
    if command.DoStep? { DispatchOnDisk(c, Final(w, Reconcile(c, w)), command.env); }
  }

  lemma ApplyOnDisk(u: Setup, pol: Policy, w: World, e: Event)
    requires OnDisk(w)
    ensures OnDisk(Apply(u, pol, w, e))
  {
    hide Effect, Extends, CommandOk;
    if e.Cmd? { EffectOnDisk(Ctx(u.pack, pol, e.cfg), w, e.command); }
  }

  /** In every reachable world the evidence is there. */
  lemma {:induction false} RunOnDisk(u: Setup, pol: Policy, w: World, events: seq<Event>)
    requires OnDisk(w)
    ensures OnDisk(Run(u, pol, w, events))
  {
    hide OnDisk, Apply;
    if events != [] {
      RunOnDisk(u, pol, w, events[..|events| - 1]);
      ApplyOnDisk(u, pol, Run(u, pol, w, events[..|events| - 1]), events[|events| - 1]);
    }
  }
}
