/** Whole runs: any commands under either profile, crashes after any durable write, signals,
    and arbitrary outside changes to Git and to the children's files. */
module Runs {
  import opened Prelude
  import opened GitModel
  import opened PromptPack
  import opened Protocol
  import opened Ledger
  import opened History

  datatype Command = DoValidate(checks: Checks) | DoStep(env: StepEnv) | DoStop(checks: Checks)

  datatype Event =
    | Outside(git: Repo, files: Files, review1: ReviewFiles, review2: ReviewFiles)
    | Cmd(cfg: Config, command: Command, cut: nat)
    | Interrupt

  /** run_until stopping before its boundary (2776-2791). */
  function Stop(c: Ctx, w: World, checks: Checks): Eff {
    var e := Validate(c, w, checks);
    if e.ok then Then(e, StopWrite(Final(w, e)).(ok := true)) else e
  }

  function Effect(c: Ctx, w: World, command: Command): Eff {
    match command
    case DoValidate(checks) => Validate(c, w, checks)
    case DoStep(env) => Step(c, w, env)
    case DoStop(checks) => Stop(c, w, checks)
  }

  /** The world left when the process dies after k of the durable writes. */
  function Cut(w: World, e: Eff, k: nat): World {
    if k == 0 || e.writes == [] then w
    else e.writes[(if k <= |e.writes| then k else |e.writes|) - 1]
  }

  ghost predicate CommandOk(w: World, command: Command) {
    command.DoStep? ==> EnvOk(w.git, command.env)
  }

  /** Events that are impossible (an outside change that loses Git objects) do nothing. */
  ghost function Apply(u: Setup, pol: Policy, w: World, e: Event): World {
    match e
    case Outside(git, files, review1, review2) =>
      if Extends(w.git, git) then w.(git := git, files := files, review1 := review1, review2 := review2) else w
    case Cmd(cfg, command, cut) =>
      if CommandOk(w, command) then Cut(w, Effect(Ctx(u.pack, pol, cfg), w, command), cut) else w
    case Interrupt => w.(state := w.state.(blocker := Some(Signal)))
  }

  ghost function Run(u: Setup, pol: Policy, w: World, events: seq<Event>): World {
    if events == [] then w
    else Apply(u, pol, Run(u, pol, w, events[..|events| - 1]), events[|events| - 1])
  }

  /** Every configuration used in the run resolves its groups to the same ones, or not at all. */
  ghost predicate SameGroups(u: Setup, events: seq<Event>) {
    forall i :: 0 <= i < |events| && events[i].Cmd? ==> ConfigOk(u, events[i].cfg)
  }

  ghost predicate ConfigOk(u: Setup, cfg: Config) {
    Resolved(u.pack, cfg.specs, cfg.maxIds).Ok? ==> Resolved(u.pack, cfg.specs, cfg.maxIds).value == u.groups
  }

  // ----- adoption (2395-2454) -----

  ghost predicate Adopted(u: Setup, w: World) {
    && u.basePrompt == "T01-C" && u.base == w.git.head && ValidRepo(w.git)
    && Expected(u, "T01-C") == ["T01-D"] && IsOne(u.pack, "T01-C") && LastReported(w)
    && w.state == State("T01-C", w.git.head, "T01-D", Ready, Review(NotReached, [], 0, {}), None, false, None, None,
      None)
  }

  ghost predicate IsOne(p: Pack, id: PromptId) {
    Item(p, id).Some? && p.order[Item(p, id).value] == One(id)
  }

  lemma AdoptInv(u: Setup, w: World)
    requires Adopted(u, w)
    ensures Inv(u, w)
  {
    hide WellFormed;
    assert AccountedBy(u, w.git.commits, [], "T01-C", u.base);
  }

  // ----- preservation -----

  lemma ReconcileFrame(c: Ctx, w: World)
    ensures forall i :: 0 <= i < |Reconcile(c, w).writes| ==> Reconcile(c, w).writes[i].git == w.git
  {
    hide ValidChild, ValidGroup, RecoverablePrefix, CompleteState, PrefixState, Checkpoint;
    if w.state.status.Running? && w.state.active.Some? {
      var a := w.state.active.value;
      var final := if w.files.final.Some? then w.files.final.value else None;
      ParsedGroup(c, w.git, ActiveGroup(a), a.preHead, final, true);
      if final.Some? { HandoffFrame(w, final.value); }
      if w.files.log.Some? {
        HandoffFrame(w, RecoverablePrefix(c, w.git, ActiveGroup(a), a.preHead, c.pol.messages(w.files.log.value)));
      }
    }
  }

  lemma {:induction false} HandoffFrame(w: World, hs: seq<Handoff>)
    ensures forall i :: 0 <= i < |HandoffWrites(w, hs)| ==>
      HandoffWrites(w, hs)[i].git == w.git && HandoffWrites(w, hs)[i].state == w.state
    decreases hs
  {
    if hs != [] {
      HandoffFrame(w.(handoffs := w.handoffs[hs[0].prompt := hs[0]]), hs[1..]);
    }
  }

  /** Reconciliation that returns normally leaves nothing running. */
  lemma ReconcileSettles(c: Ctx, w: World)
    requires Reconcile(c, w).ok
    ensures !Final(w, Reconcile(c, w)).state.status.Running? && !Final(w, Reconcile(c, w)).state.status.Reviewing?
  {
    hide ValidChild, ValidGroup, RecoverablePrefix, PrefixState, HandoffWrites;
  }

  lemma ValidateInv(u: Setup, c: Ctx, w: World, checks: Checks)
    requires Fits(u, c) && Inv(u, w)
    ensures AllInv(u, Validate(c, w, checks).writes)
    ensures var e := Validate(c, w, checks);
      e.ok ==> Startable(u, Final(w, e)) && Final(w, e).git == w.git && ValidStored(c, Final(w, e))
  {
    hide Inv, Reconcile, GuidanceCurrent, Resolved, ItemFrom;
    ReconcileInv(u, c, w);
    ReconcileFrame(c, w);
    if Reconcile(c, w).ok { ReconcileSettles(c, w); }
  }

  lemma ThenInv(u: Setup, e: Eff, f: Eff)
    requires AllInv(u, e.writes) && AllInv(u, f.writes)
    ensures AllInv(u, Then(e, f).writes)
  {
    hide Inv;
  }

  lemma StepInv(u: Setup, c: Ctx, w: World, env: StepEnv)
    requires Fits(u, c) && Inv(u, w) && EnvOk(w.git, env)
    ensures AllInv(u, Step(c, w, env).writes)
  {
    hide Inv, Validate, Dispatch, Startable, ValidStored;
    ValidateInv(u, c, w, env.checks);
    var e := Validate(c, w, env.checks);
    if e.ok {
      DispatchInv(u, c, Final(w, e), env);
      ThenInv(u, e, Dispatch(c, Final(w, e), env));
    }
  }

  lemma EffectInv(u: Setup, c: Ctx, w: World, command: Command)
    requires Fits(u, c) && Inv(u, w) && CommandOk(w, command)
    ensures AllInv(u, Effect(c, w, command).writes)
  {
    hide Inv, Validate, Step, ValidStored, Fits;
    match command
    case DoValidate(checks) => ValidateInv(u, c, w, checks);
    case DoStep(env) => StepInv(u, c, w, env);
    case DoStop(checks) =>
      ValidateInv(u, c, w, checks);
      var e := Validate(c, w, checks);
      if e.ok {
        StopInv(u, Final(w, e));
        ThenInv(u, e, StopWrite(Final(w, e)).(ok := true));
      }
  }

  lemma ApplyInv(u: Setup, pol: Policy, w: World, e: Event)
    requires ValidSetup(u) && GoodRevList(pol.revList) && Inv(u, w)
    requires e.Cmd? ==> ConfigOk(u, e.cfg)
    ensures Inv(u, Apply(u, pol, w, e))
  {
    hide Accounted, Effect, NextOk, ReviewOk, ValidSetup;
    match e
    case Outside(git, files, review1, review2) =>
      if Extends(w.git, git) {
        RunningInv(u, w, w.(git := git, files := files, review1 := review1, review2 := review2));
      }
    case Cmd(cfg, command, cut) =>
      if CommandOk(w, command) {
        EffectInv(u, Ctx(u.pack, pol, cfg), w, command);
      }
    case Interrupt =>
      InterruptInv(u, w);
  }

  lemma InterruptInv(u: Setup, w: World)
    requires Inv(u, w)
    ensures Inv(u, w.(state := w.state.(blocker := Some(Signal))))
  {
    hide Accounted, Follows, Select;
  }

  /** In every world reachable from an invariant one, by any events in any order, the
      invariant holds; in particular history is accounted for. */
  lemma {:induction false} RunInv(u: Setup, pol: Policy, w: World, events: seq<Event>)
    requires ValidSetup(u) && GoodRevList(pol.revList) && Inv(u, w) && SameGroups(u, events)
    ensures Inv(u, Run(u, pol, w, events))
  {
    hide Inv, Apply, ConfigOk, ValidSetup, GoodRevList;
    if events != [] {
      RunInv(u, pol, w, events[..|events| - 1]);
      ApplyInv(u, pol, Run(u, pol, w, events[..|events| - 1]), events[|events| - 1]);
    }
  }

  /** The main safety theorem: after adoption and any run, the stored position is the end of a
      ledger of accepted boundaries that completes exactly the writable prompts since adoption,
      in order; Git still has it whatever happened since; and its stored handoff is a complete one
      that reports the stored commit. */
  lemma EveryRunAccounted(u: Setup, pol: Policy, w: World, events: seq<Event>)
    requires ValidSetup(u) && GoodRevList(pol.revList) && Adopted(u, w) && SameGroups(u, events)
    ensures var v := Run(u, pol, w, events);
      && ValidRepo(v.git) && Accounted(u, v.git.commits, v.state.last, v.state.commit)
      && v.state.last in v.handoffs && v.state.commit < |v.git.commits|
      && var h := v.handoffs[v.state.last];
      && h.prompt == v.state.last && h.complete
      && h.commit == Some(Reported(v.state.commit, v.git.commits[v.state.commit].subject))
  {
    hide Accounted, NextOk, ReviewOk, RunOk, Run, ValidRepo;
    AdoptInv(u, w);
    RunInv(u, pol, w, events);
  }

  ghost predicate NoConsolidation(u: Setup) {
    forall g :: 0 <= g < |u.groups| ==> u.groups[g].subject.None?
  }

  lemma SoloLedger(u: Setup, cs: seq<Commit>, es: seq<Entry>, to: Sha)
    requires WellFormed(cs) && LedgerOk(u, cs, u.base, es, to) && NoConsolidation(u)
    ensures NoneConsolidated(es) && AllKept(cs, u.base, es)
  {
    hide Ancestors;
    forall i | 0 <= i < |es| ensures !es[i].consolidated && KeptAt(cs, u.base, es, i) {
      assert EntryAt(u, cs, u.base, es, i);
    }
  }

  /** The ledger of a run, and what it makes of history: history since adoption is the accepted
      commits and nothing else if and only if every consolidated commit kept its predecessor as a
      parent, and a first-parent chain if and only if it kept it as the first one. Without
      consolidated groups it always is both. */
  lemma EveryRunIsAChain(u: Setup, pol: Policy, w: World, events: seq<Event>) returns (es: seq<Entry>)
    requires ValidSetup(u) && GoodRevList(pol.revList) && Adopted(u, w) && SameGroups(u, events)
    ensures var v := Run(u, pol, w, events);
      && ValidRepo(v.git) && v.state.commit < |v.git.commits| && u.base < |v.git.commits|
      && AccountedBy(u, v.git.commits, es, v.state.last, v.state.commit)
      && (AllKept(v.git.commits, u.base, es) <==> ExactHistory(v.git.commits, u.base, es, v.state.commit))
      && (Line(v.git.commits, v.state.commit, |es|) == [u.base] + CommitList(es)
          <==> forall i :: 0 <= i < |es| && es[i].consolidated ==> FirstKeptAt(v.git.commits, u.base, es, i))
      && (NoConsolidation(u) ==> NoneConsolidated(es) && AllKept(v.git.commits, u.base, es) && |FlatIds(es)| == |es|)
  {
    hide ItemFrom, Ancestors, Run, WellFormed, ValidSetup, NextOk, ReviewOk, RunOk, Singles, FlatIds, Line,
      ExactHistory;
    AdoptInv(u, w);
    RunInv(u, pol, w, events);
    var v := Run(u, pol, w, events);
    es :| AccountedBy(u, v.git.commits, es, v.state.last, v.state.commit);
    if NoConsolidation(u) { SoloLedger(u, v.git.commits, es, v.state.commit); }
    HistoryIsLedger(u, v.git.commits, es, v.state.commit);
    FirstParentLine(u, v.git.commits, es, v.state.commit);
  }

  // ----- where the chain can break -----

  /** The audits let this group through. */
  ghost predicate Permissive(pol: Policy) {
    && (forall git: Repo, g: Group, i: nat, pre: Sha, h: Handoff :: pol.groupItemOk(git, g, i, pre, h))
    && (forall git: Repo, g: Group, pre: Sha, hs: seq<Handoff> :: pol.groupEndOk(git, g, pre, hs, true))
  }

  lemma Siblings(cs: seq<Commit>)
    requires |cs| == 3 && cs[0].parents == [] && cs[1].parents == [0] && cs[2].parents == [0]
    ensures WellFormed(cs) && Between(cs, 1, 2) == {2} && 1 !in Ancestors(cs, 2)
  {
    assert Ancestors(cs, 0) == {0};
    assert Ancestors(cs, 1) == {1, 0};
    assert Ancestors(cs, 2) == {2, 0};
  }

  lemma OnlyOne(l: seq<Sha>, x: Sha)
    requires Distinct(l) && Elems(l) == {x}
    ensures l == [x]
  {
    DistinctCard(l);
    assert l[0] in Elems(l);
  }

  /** A consolidated group's commit may discard the boundary it was started at: siblings 1 and 2
      of commit 0, where the run stood at 1. */
  lemma ConsolidatedCanDropHistory(c: Ctx, id: PromptId, subject: string, e: seq<PromptId>)
    returns (git: Repo, final: Response)
    requires GoodRevList(c.pol.revList) && Permissive(c.pol) && ExpectedNext(c.pack, id) == Some(e)
    ensures ValidRepo(git) && git.head == 2 && 1 < |git.commits|
    ensures ValidGroup(c, git, Group([id], Some(subject), [id]), 1, final, true)
    ensures 1 !in Ancestors(git.commits, git.head)
  {
    hide Item, Ancestors;
    var guide := Section({id}, Elems(e));
    var cs := [Commit([], "root", guide, guide), Commit([0], "before", guide, guide),
      Commit([0], subject, guide, guide)];
    git := Repo(cs, 2, [], guide, guide);
    final := Some([Handoff(id, true, Some(Reported(2, subject)), e, "")]);
    Siblings(cs);
    OnlyOne(c.pol.revList(cs, 1, 2), 2);
  }
}
