/** What a failing reconciliation or dispatch may leave behind: the completed/commit/next triple
    moves only in its last durable write, and a failure moves it only over a validated group
    prefix. Whole commands are the subject of module Commands. */
module Failing {
  import opened Prelude
  import opened GitModel
  import opened PromptPack
  import opened Protocol
  import opened Ledger
  import opened History
  import opened Runs

  predicate SameTriple(w: World, w': World) {
    w'.state.last == w.state.last && w'.state.commit == w.state.commit && w'.state.next == w.state.next
  }

  /** The triple and the progress of a partly committed group. */
  predicate Kept(w: World, w': World) {
    SameTriple(w, w') && w'.state.progress == w.state.progress
  }

  /** Where guidance stands, and the prompts recorded as completed. */
  function Guidance(s: State): PromptId {
    if s.progress.Some? then s.progress.value.guidance else s.last
  }

  function Completed(s: State): seq<PromptId> {
    if s.progress.Some? then s.progress.value.completed else []
  }

  /** w' stands inside the selected group, after n of its prompts whose commits were validated. */
  ghost predicate PrefixAdvance(u: Setup, c: Ctx, w: World, w': World) {
    exists g, hs :: PrefixAdvanceBy(u, c, w, w', g, hs)
  }

  ghost predicate PrefixAdvanceBy(u: Setup, c: Ctx, w: World, w': World, g: Group, hs: seq<Handoff>) {
    && Select(u.groups, w.state.next) == Some(g) && g.subject.None? && 0 < |hs| < |g.ids|
    && ValidGroup(c, w'.git, Group(g.ids[..|hs|], None, g.configured), w.state.commit, Some(hs), false)
    && w'.state.last == g.ids[|hs| - 1] && w'.state.commit == w'.git.head && w'.state.next == g.ids[|hs|]
    && w'.state.status.Blocked? && w'.state.blocker == Some(GroupPrefix)
    && w'.state.progress.Some? && w'.state.progress.value.configured == g.configured
    && w'.state.progress.value.guidance == Guidance(w.state)
    && w'.state.progress.value.completed == Completed(w.state) + g.ids[..|hs|]
  }

  ghost predicate AllButLastKeep(w: World, ws: seq<World>) {
    forall i :: 0 <= i < |ws| - 1 ==> Kept(w, ws[i])
  }

  /** The shape of every effect: intermediate writes keep the triple, and a failing effect's
      last write keeps it too or moves it over a validated prefix. */
  ghost predicate FailSafe(u: Setup, c: Ctx, w: World, e: Eff) {
    && AllButLastKeep(w, e.writes)
    && (!e.ok && e.writes != [] ==> Kept(w, Final(w, e)) || PrefixAdvance(u, c, w, Final(w, e)))
  }

  lemma ReconcileOrBlockFails(u: Setup, c: Ctx, w: World, g: Group, messages: seq<Response>)
    requires Fits(u, c) && InFlight(u, w) && g.ids != [] && g.ids[0] == w.state.next
      && Select(u.groups, w.state.next) == Some(g)
    ensures FailSafe(u, c, w, ReconcileOrBlock(c, w, w.state, g, w.state.commit, messages))
  {
    hide Inv, Accounted, ValidGroup, Select, RecoverablePrefix, IntervalAt, Follows, AfterItem, GroupTail, ValidSetup;
    var hs := RecoverablePrefix(c, w.git, g, w.state.commit, messages);
    if hs != [] {
      HandoffFrame(w, hs);
      var q := GroupRun(u, w.state.last, g);
      PrefixRun(u, g.ids, q, |hs|);
      assert PrefixAdvanceBy(u, c, w, Final(w, ReconcileOrBlock(c, w, w.state, g, w.state.commit, messages)), g, hs);
    }
  }

  lemma RecordGroupKeeps(c: Ctx, w: World, g: Group, hs: seq<Handoff>)
    requires g.ids != []
    ensures AllButLastKeep(w, RecordGroup(c, w, w.state, g, hs).writes)
  {
    HandoffFrame(w, hs);
  }

  /** Prepending the two writes before the child exits changes nothing. */
  lemma AfterLaunch(u: Setup, c: Ctx, w: World, w1: World, w2: World, l: Launch, f: Eff)
    requires Kept(w, w1) && Kept(w, w2) && FailSafe(u, c, w2, f)
    ensures FailSafe(u, c, w, Then(Eff([w1, w2], [l], true), f))
  {
    hide ValidGroup, Select;
    var e := Then(Eff([w1, w2], [l], true), f);
    forall i | 0 <= i < |e.writes| - 1 ensures Kept(w, e.writes[i]) {
      if i >= 2 { assert e.writes[i] == f.writes[i - 2]; }
    }
    if !f.ok && f.writes != [] && PrefixAdvance(u, c, w2, Final(w2, f)) {
      var g, hs :| PrefixAdvanceBy(u, c, w2, Final(w2, f), g, hs);
      assert PrefixAdvanceBy(u, c, w, Final(w, e), g, hs);
    }
  }

  lemma RunSoloFails(u: Setup, c: Ctx, w: World, env: StepEnv)
    ensures FailSafe(u, c, w, RunSolo(c, w, env))
  {
    hide ValidChild, PrefixAdvance, CompleteState, LoadReports;
  }

  lemma RunGroupFails(u: Setup, c: Ctx, w: World, g: Group, env: StepEnv)
    requires Fits(u, c) && Startable(u, w) && !IsReviewer(u.pack, w.state.next) && Extends(w.git, env.child.git)
    requires g.ids != [] && g.ids[0] == w.state.next && Select(u.groups, w.state.next) == Some(g)
    ensures FailSafe(u, c, w, RunGroup(c, w, g, env))
  {
    hide Accounted, NextOk, ReviewOk, RunOk, Follows, Select, FinishGroup, FailSafe;
    if RunGroup(c, w, g, env).writes == [] {
      Nothing(u, c, w);
    } else {
      StartableFollows(u, w);
      var a := Active(g.ids, g.configured, g.subject, w.git.head, true);
      assert ActiveGroup(a) == g;
      ClearedKeeps(u, w.state, a);
      var w1 := w.(state := Cleared(w.state).(status := Running, active := Some(a)), files := NO_FILES);
      var w2 := w1.(git := env.child.git, files := env.child.files);
      RunningInv(u, w, w1);
      RunningInv(u, w1, w2);
      FinishGroupFails(u, c, w2, env.child, g);
      AfterLaunch(u, c, w, w1, w2, Launch(g.ids, w1), FinishGroup(c, w2, env.child, g, a.preHead));
    }
  }

  lemma Nothing(u: Setup, c: Ctx, w: World)
    ensures FailSafe(u, c, w, RAISE)
  {}

  lemma FinishGroupFails(u: Setup, c: Ctx, w: World, r: ChildRun, g: Group)
    requires Fits(u, c) && InFlight(u, w)
    requires g.ids != [] && g.ids[0] == w.state.next && Select(u.groups, w.state.next) == Some(g)
    ensures FailSafe(u, c, w, FinishGroup(c, w, r, g, w.state.commit))
  {
    hide InFlight, ValidGroup, Select, ReconcileOrBlock, PrefixAdvance;
    ParsedGroup(c, w.git, g, w.state.commit, r.final, true);
    if ValidGroup(c, w.git, g, w.state.commit, r.final, true) {
      RecordGroupKeeps(c, w, g, r.final.value);
    }
    ReconcileOrBlockFails(u, c, w, g, r.messages);
  }

  lemma RunPairFails(u: Setup, c: Ctx, w: World, env: StepEnv)
    ensures FailSafe(u, c, w, RunPair(c, w, env))
  {
    hide PrefixAdvance, ReviewFailure, ItemFrom;
  }

  /** A failing step, after the stored state was validated, keeps the triple or moves it over a
      validated group prefix; a successful one moves it only in its last write. */
  lemma DispatchFails(u: Setup, c: Ctx, w: World, env: StepEnv)
    requires Fits(u, c) && Startable(u, w) && EnvOk(w.git, env)
    ensures FailSafe(u, c, w, Dispatch(c, w, env))
  {
    hide PrefixAdvance, RunSolo, RunGroup, RunPair, IsReviewer, Resolved, Select, Startable;
    RunSoloFails(u, c, w, env);
    RunPairFails(u, c, w, env);
    if !IsReviewer(c.pack, w.state.next) && Resolved(c.pack, c.cfg.specs, c.cfg.maxIds).Ok?
        && Select(u.groups, w.state.next).Some? {
      RunGroupFails(u, c, w, Select(u.groups, w.state.next).value, env);
    }
  }

  /** The same for reconciliation after a crash. */
  lemma ReconcileFails(u: Setup, c: Ctx, w: World)
    requires Fits(u, c) && Inv(u, w)
    ensures FailSafe(u, c, w, Reconcile(c, w))
  {
    hide PrefixAdvance, ReconcileOrBlock, RecordGroup, ValidChild, ValidGroup, CompleteState, Accounted, NextOk,
      ReviewOk, Select, Follows;
    if w.state.status.Running? {
      var a := w.state.active.value;
      if a.efficient && |a.ids| > 1 {
        ReconcileGroupFails(u, c, w, a);
      }
    }
  }

  lemma ReconcileGroupFails(u: Setup, c: Ctx, w: World, a: Active)
    requires Fits(u, c) && Inv(u, w) && w.state.status.Running? && w.state.active == Some(a) && a.efficient
      && |a.ids| > 1
    ensures FailSafe(u, c, w, ReconcileGroup(c, w, a))
  {
    hide PrefixAdvance, ReconcileOrBlock, RecordGroup, ValidGroup, Accounted, NextOk, ReviewOk, Select, Follows;
    if w.files.log.Some? {
      ReconcileOrBlockFails(u, c, w, ActiveGroup(a), c.pol.messages(w.files.log.value));
    }
    var final := if w.files.final.Some? then w.files.final.value else None;
    ParsedGroup(c, w.git, ActiveGroup(a), a.preHead, final, true);
    if ValidGroup(c, w.git, ActiveGroup(a), a.preHead, final, true) {
      RecordGroupKeeps(c, w, ActiveGroup(a), final.value);
      RecordGroupOk(c, w, ActiveGroup(a), final.value);
    }
  }

  lemma RecordGroupOk(c: Ctx, w: World, g: Group, hs: seq<Handoff>)
    requires g.ids != []
    ensures RecordGroup(c, w, w.state, g, hs).ok
  {}
}
