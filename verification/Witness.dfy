/** A run into a dead end: a group of two prompts is interrupted after its first, its second crashes
    before the last write, and recovering that one leaves the progress record behind. */
module Witness {
  import opened Prelude
  import opened GitModel
  import opened PromptPack
  import opened Protocol
  import opened Ledger
  import opened History
  import opened Runs
  import opened Failing
  import opened Progress
  import opened Commands
  import opened DeadEnds

  const C := "T01-C"
  const D := "T01-D"
  const E := "T01-E"
  const F := "T01-F"

  function ThePack(): Pack {
    Pack([One(C), One(D), One(E), One(F)],
         map[C := Prompt(Some("c"), false), D := Prompt(Some("d"), false),
             E := Prompt(Some("e"), false), F := Prompt(Some("f"), false)])
  }

  function TheConfig(): Config {
    Config(Efficient, [GroupSpec(D, E, None)], {})
  }

  function TheGroup(): Group {
    Group([D, E], None, [D, E])
  }

  function TheSetup(): Setup {
    Setup(ThePack(), [TheGroup()], C, 0)
  }

  /** Audits that let everything pass. */
  function Lenient(revList: (seq<Commit>, Sha, Sha) -> seq<Sha>): Policy {
    Policy(revList,
           (profile: Profile, git: Repo, id: PromptId, pre: Sha, h: Handoff, scope: string) => true,
           (git: Repo, g: Group, i: nat, pre: Sha, h: Handoff) => true,
           (git: Repo, g: Group, pre: Sha, hs: seq<Handoff>, whole: bool) => true,
           (log: Log, mode: AuditMode) => true,
           (log: Log) => [],
           (s: string) => false,
           (s: string) => false)
  }

  function Context(revList: (seq<Commit>, Sha, Sha) -> seq<Sha>): Ctx {
    Ctx(ThePack(), Lenient(revList), TheConfig())
  }

  // ----- the repository -----

  const BEFORE := Section({C}, {D})
  const AFTER := Section({E}, {F})

  const COMMITS: seq<Commit> := [
    Commit([], "c", BEFORE, BEFORE), Commit([0], "d", BEFORE, BEFORE), Commit([1], "e", AFTER, AFTER)]

  /** HEAD at commit n, with only the commits up to it. */
  function Git(n: nat): Repo
    requires n < 3
  {
    Repo(COMMITS[..n + 1], n, [], COMMITS[n].claude, COMMITS[n].agents)
  }

  lemma TheCommits(n: nat)
    requires n < 3
    ensures WellFormed(COMMITS[..n + 1]) && ValidRepo(Git(n))
    ensures Ancestors(COMMITS[..n + 1], n) == if n == 0 then {0} else if n == 1 then {0, 1} else {0, 1, 2}
    ensures n > 0 ==> Ancestors(COMMITS[..n + 1], n - 1) == if n == 1 then {0} else {0, 1}
    ensures n > 0 ==> Extends(Git(n - 1), Git(n))
  {
    var cs := COMMITS[..n + 1];
    assert WellFormed(cs);
    assert Ancestors(cs, 0) == {0};
    if n > 0 {
      assert cs[1].parents == [0];
      assert Ancestors(cs, 1) == {0, 1};
      assert COMMITS[..n] == cs[..n];
    }
    if n > 1 {
      assert cs[2].parents == [1];
      assert Ancestors(cs, 2) == {0, 1, 2};
    }
  }

  lemma NewCommit(revList: (seq<Commit>, Sha, Sha) -> seq<Sha>, n: nat)
    requires GoodRevList(revList) && 0 < n < 3
    ensures revList(COMMITS[..n + 1], n - 1, n) == [n]
  {
    hide Ancestors;
    TheCommits(n);
    OnlyOne(revList(COMMITS[..n + 1], n - 1, n), n);
  }

  // ----- the worlds -----

  function Done(id: PromptId, n: nat, subject: string, next: PromptId): Handoff {
    Handoff(id, true, Some(Reported(n, subject)), [next], "")
  }

  function Start(): World {
    var none := ReviewFiles(NoReceipt, None, None);
    World(State(C, 0, D, Ready, Review(NotReached, [], 0, {}), None, false, None, None, None),
          Git(0), map[C := Done(C, 0, "c", D)], map[], NO_FILES, none, none)
  }

  function Env(git: Repo, files: Files, exit: int, messages: seq<Response>): StepEnv {
    var none := ReviewRun(ReviewFiles(NoReceipt, None, None), false, false, false, 0, "");
    StepEnv(Checks(true, true), true, ChildRun(git, files, false, false, false, exit, None, messages), none, none, git)
  }

  /** The child commits the first prompt, reports it, and fails. */
  function First(): StepEnv {
    Env(Git(1), NO_FILES, 1, [Some([Done(D, 1, "d", E)])])
  }

  /** The next child completes the second prompt; the supervisor dies right after. */
  function Second(): StepEnv {
    Env(Git(2), Files(Receipt(false, Some(0), true), None, Some(Some([Done(E, 2, "e", F)]))), 0, [])
  }

  function Events(): seq<Event> {
    [Cmd(TheConfig(), DoStep(First()), 4), Cmd(TheConfig(), DoStep(Second()), 2),
     Cmd(TheConfig(), DoValidate(Checks(true, true)), 2)]
  }

  function Interrupted(): World {
    var a := Active([D, E], [D, E], None, 0, true);
    Start().(
      state := State(D, 1, E, Blocked, Review(NotReached, [], 0, {}), Some(GroupPrefix), false, None, Some(a),
                     Some(Progress([D, E], [D], C, 0))),
      git := Git(1), handoffs := map[C := Done(C, 0, "c", D), D := Done(D, 1, "d", E)])
  }

  function Crashed(): World {
    var a := Active([E], [D, E], None, 1, true);
    Interrupted().(
      state := Interrupted().state.(status := Running, blocker := None, active := Some(a)),
      git := Git(2), files := Second().child.files)
  }

  function Recovered(): World {
    Crashed().(
      state := Crashed().state.(last := E, commit := 2, next := F, status := Ready, active := None),
      handoffs := Crashed().handoffs[E := Done(E, 2, "e", F)])
  }

  // ----- the pack and its group -----

  lemma TheOrder()
    ensures Flatten(ThePack().order) == [C, D, E, F]
    ensures Item(ThePack(), C) == Some(0) && Item(ThePack(), D) == Some(1)
    ensures Item(ThePack(), E) == Some(2) && Item(ThePack(), F) == Some(3)
    ensures forall id :: !IsReviewer(ThePack(), id)
    ensures ValidPack(ThePack())
  {
    var o := ThePack().order;
    assert o[1..] == [One(D), One(E), One(F)] && o[1..][1..] == [One(E), One(F)];
    assert o[1..][1..][1..] == [One(F)] && o[1..][1..][1..][1..] == [];
    assert Flatten([One(F)]) == [F];
    assert Flatten([One(E), One(F)]) == [E, F];
    assert Flatten([One(D), One(E), One(F)]) == [D, E, F];
    assert ItemFrom(o, F, 3) == Some(3) && ItemFrom(o, E, 2) == Some(2) && ItemFrom(o, D, 1) == Some(1);
    assert ItemFrom(o, F, 2) == Some(3) && ItemFrom(o, E, 1) == Some(2);
    assert ItemFrom(o, F, 1) == Some(3);
  }

  lemma TheTasks()
    ensures TaskOf(D) == Some("01") && TaskOf(E) == Some("01")
  {
    assert D[1..3] == "01" && E[1..3] == "01";
  }

  lemma ThePlaces()
    ensures IndexOf([C, D, E, F], D) == 1 && IndexOf([C, D, E, F], E) == 2 && [C, D, E, F][1..3] == [D, E]
  {
    var flat := [C, D, E, F];
    IndexOfDistinct(flat, 1);
    IndexOfDistinct(flat, 2);
  }

  lemma TheCheck()
    ensures CheckSpec(ThePack(), GroupSpec(D, E, None), {}, {}) == Ok([D, E])
  {
    TheOrder();
    ThePlaces();
    TheTasks();
    hide IsReviewer, Flatten, TaskOf, IndexOf, ItemFrom, ValidPack;
    var ids := [D, E];
    assert forall i :: 0 <= i < 2 ==> !Gated(ThePack(), ids[i]);
  }

  lemma TheResolution()
    ensures Resolved(ThePack(), TheConfig().specs, {}) == Ok([TheGroup()])
    ensures ValidSetup(TheSetup())
  {
    hide CheckSpec, ValidPack, GroupsOk, ThePack;
    TheOrder();
    TheCheck();
    var specs := TheConfig().specs;
    assert specs[1..] == [];
    assert Resolve(ThePack(), specs[1..], {}, {} + Elems([D, E])) == Ok([]);
    assert Resolve(ThePack(), specs, {}, {}) == Prepend([TheGroup()], Ok([]));
    assert [TheGroup()] + [] == [TheGroup()];
    ResolveSound(ThePack(), specs, {}, {}, [TheGroup()]);
  }

  lemma TheRests()
    ensures Select([TheGroup()], D) == Some(TheGroup())
    ensures Select([TheGroup()], E) == Some(Group([E], None, [D, E]))
    ensures Select([TheGroup()], F) == None
  {
    IndexOfDistinct([D, E], 0);
    IndexOfDistinct([D, E], 1);
    assert [D, E][0..] == [D, E] && [D, E][1..] == [E];
    assert [TheGroup()][1..] == [];
    assert F !in [D, E];
  }

  // ----- step by step -----

  lemma Begins()
    ensures Adopted(TheSetup(), Start())
  {
    TheOrder();
    TheCommits(0);
    hide ItemFrom;
    assert ExpectedNext(ThePack(), C) == Some([D]);
  }

  lemma TheFollowers()
    ensures ExpectedNext(ThePack(), C) == Some([D]) && ExpectedNext(ThePack(), D) == Some([E])
    ensures ExpectedNext(ThePack(), E) == Some([F])
  {
    hide ItemFrom;
    TheOrder();
  }

  lemma Early(id: PromptId)
    requires id in {C, D, E, F}
    ensures !LateTask(id) && !Gated(ThePack(), id) && id in ThePack().prompts
  {
    assert id[1] == '0';
    assert "T18-"[1] == '1' && "T19-"[1] == '1';
  }

  /** The first command accepts the first prompt as a prefix. */
  lemma FirstStep(revList: (seq<Commit>, Sha, Sha) -> seq<Sha>)
    requires GoodRevList(revList)
    ensures var e := Dispatch(Context(revList), Start(), First());
      |e.writes| == 4 && e.writes[3] == Interrupted()
  {
    hide IsReviewer, Flatten, IndexOf, ItemFrom, CheckSpec, GoodRevList, LateTask, Gated, Ancestors, Select,
      ExpectedNext, Resolved, FinishGroup;
    var c, w, env, g := Context(revList), Start(), First(), TheGroup();
    TheOrder();
    TheResolution();
    TheRests();
    Early(D);
    assert Dispatch(c, w, env) == RunGroup(c, w, g, env);
    FirstEnds(revList);
  }

  /** Where the first child's exit is durable. */
  function Exited(): World {
    var a := Active([D, E], [D, E], None, 0, true);
    Start().(state := Start().state.(status := Running, active := Some(a)), git := Git(1), files := NO_FILES)
  }

  lemma FirstEnds(revList: (seq<Commit>, Sha, Sha) -> seq<Sha>)
    requires GoodRevList(revList)
    ensures var e := FinishGroup(Context(revList), Exited(), First().child, TheGroup(), 0);
      |e.writes| == 2 && e.writes[1] == Interrupted()
  {
    hide IsReviewer, Flatten, IndexOf, ItemFrom, GoodRevList, Ancestors, Select, ExpectedNext, ValidGroup,
      RecoverablePrefix;
    var hs, w := [Done(D, 1, "d", E)], Exited();
    ThePrefix(revList);
    TheFollowers();
    assert HandoffWrites(w, hs) == [w.(handoffs := w.handoffs[D := hs[0]])] by { assert hs[1..] == []; }
    assert AddHandoffs(w.handoffs, hs) == w.handoffs[D := hs[0]] by { assert hs[1..] == []; }
    assert [] + TheGroup().ids[..1] == [D];
  }

  lemma ThePrefix(revList: (seq<Commit>, Sha, Sha) -> seq<Sha>)
    requires GoodRevList(revList)
    ensures RecoverablePrefix(Context(revList), Git(1), TheGroup(), 0, First().child.messages) == [Done(D, 1, "d", E)]
  {
    hide IsReviewer, Flatten, IndexOf, ItemFrom, CheckSpec, GoodRevList, Ancestors, ExpectedNext;
    var c, hs, messages := Context(revList), [Done(D, 1, "d", E)], First().child.messages;
    NewCommit(revList, 1);
    TheFollowers();
    assert TheGroup().ids[..1] == [D] && [D][1..] == [];
    assert Checkpoint(messages, D) == Some(hs[0]);
    assert Prefix(messages, [D][1..]) == [];
    assert Prefix(messages, [D]) == hs;
    var g := Group([D], None, [D, E]);
    assert GroupItemValid(c, Git(1), g, 0, [1], hs, 0);
    assert ValidGroup(c, Git(1), g, 0, Some(hs), false);
  }

  /** Both places validate before the next command. */
  lemma Validates(revList: (seq<Commit>, Sha, Sha) -> seq<Sha>, w: World)
    requires w == Start() || w == Interrupted()
    ensures Validate(Context(revList), w, Checks(true, true)) == NOTHING
  {
    hide IsReviewer, Flatten, IndexOf, ItemFrom, CheckSpec, ExpectedNext, Resolved;
    TheResolution();
    TheFollowers();
  }

  /** The second command starts the rest of the group; the crash leaves it running. */
  lemma SecondStep(revList: (seq<Commit>, Sha, Sha) -> seq<Sha>)
    ensures var e := Dispatch(Context(revList), Interrupted(), Second());
      |e.writes| >= 2 && e.writes[1] == Crashed()
  {
    hide IsReviewer, Flatten, IndexOf, ItemFrom, CheckSpec, LateTask, Gated, Ancestors, Select, ExpectedNext, Resolved,
      FinishGroup;
    var c, w, env, g := Context(revList), Interrupted(), Second(), Group([E], None, [D, E]);
    TheOrder();
    TheResolution();
    TheRests();
    Early(E);
    assert Dispatch(c, w, env) == RunGroup(c, w, g, env);
  }

  lemma SecondPasses(revList: (seq<Commit>, Sha, Sha) -> seq<Sha>)
    requires GoodRevList(revList)
    ensures ValidChild(Context(revList), Git(2), E, 1, Some([Done(E, 2, "e", F)]), "")
  {
    hide IsReviewer, Flatten, IndexOf, ItemFrom, CheckSpec, ExpectedNext, GoodRevList, Ancestors;
    TheFollowers();
    NewCommit(revList, 2);
    assert Subject(ThePack(), E) == Some("e") && FirstParent(COMMITS[..3], 2) == Some(1);
  }

  lemma ThirdReads(revList: (seq<Commit>, Sha, Sha) -> seq<Sha>)
    requires GoodRevList(revList)
    ensures var c, w, a := Context(revList), Crashed(), Active([E], [D, E], None, 1, true);
      && w.state.status == Running && w.state.active == Some(a) && ReceiptUsable(w.files.receipt)
      && RunRecovers(c, w, a) && ReconcileRun(c, w, a) == ReconcileSolo(c, w, a)
  {
    hide IsReviewer, Flatten, IndexOf, ItemFrom, CheckSpec, ExpectedNext, GoodRevList, Resolved, ValidChild, ValidGroup,
      LoadReports, ReconcileSolo, ReconcileGroup;
    SecondPasses(revList);
  }

  lemma ThirdWrites(revList: (seq<Commit>, Sha, Sha) -> seq<Sha>)
    requires GoodRevList(revList)
    ensures var e := ReconcileSolo(Context(revList), Crashed(), Active([E], [D, E], None, 1, true));
      e.ok && |e.writes| == 2 && e.writes[1] == Recovered()
  {
    hide IsReviewer, Flatten, IndexOf, ItemFrom, CheckSpec, ExpectedNext, GoodRevList, Resolved, ValidChild, ValidGroup,
      LoadReports, ReconcileRun, ReconcileGroup;
    TheFollowers();
    SecondPasses(revList);
  }

  /** The third command recovers the second prompt alone and then refuses what it wrote. */
  lemma ThirdStep(revList: (seq<Commit>, Sha, Sha) -> seq<Sha>)
    requires GoodRevList(revList)
    ensures var c, e := Context(revList), Reconcile(Context(revList), Crashed());
      && Recovers(c, Crashed()) && e.ok && |e.writes| == 2 && e.writes[1] == Recovered()
      && StaticOk(c, Crashed(), true) && !ValidStored(c, Recovered())
  {
    hide GoodRevList, Resolved, RunRecovers, ReconcileRun, ReconcileSolo, ExpectedNext;
    ThirdReads(revList);
    ThirdWrites(revList);
    ThirdRefused(revList);
    hide Crashed, Recovered, StaticOk, ValidStored;
  }

  lemma ThirdRefused(revList: (seq<Commit>, Sha, Sha) -> seq<Sha>)
    ensures StaticOk(Context(revList), Crashed(), true) && !ValidStored(Context(revList), Recovered())
  {
    hide IsReviewer, Flatten, IndexOf, ItemFrom, CheckSpec, ExpectedNext, Resolved;
    TheResolution();
    TheFollowers();
  }

  lemma LeftBehind()
    ensures Stale(TheSetup(), Recovered()) && Settled(Recovered().state)
  {
    hide ItemFrom, Flatten;
    TheOrder();
    TheFollowers();
    var u := TheSetup();
    assert ThePack().order[1] == One(D) && AfterItem(u.pack, 0, 1);
    assert Follows(u, C, D);
    assert [D, E][0..1] == [D];
    assert StaleAt(u, Recovered(), 0, 0);
  }

  lemma TheRun(revList: (seq<Commit>, Sha, Sha) -> seq<Sha>)
    requires GoodRevList(revList)
    ensures var u, pol := TheSetup(), Lenient(revList);
      && Run(u, pol, Start(), Events()[..2]) == Crashed()
      && Run(u, pol, Start(), Events()) == Recovered()
  {
    hide ThePack, Dispatch, Reconcile, ValidStored, StaticOk, GoodRevList, Ancestors;
    var u, pol, es := TheSetup(), Lenient(revList), Events();
    TheCommits(1);
    TheCommits(2);
    Validates(revList, Start());
    Validates(revList, Interrupted());
    FirstStep(revList);
    SecondStep(revList);
    ThirdStep(revList);
    assert es[..2][..1] == es[..1] && es[..1][..0] == [] && es[..3] == es;
    assert Run(u, pol, Start(), es[..1]) == Interrupted();
    assert Run(u, pol, Start(), es[..2]) == Crashed();
  }

  /** From adoption three commands reach a dead end. The third fails and still has moved the
      position over a prompt that is no validated group prefix; the record no longer adds up. */
  lemma DeadEndReached(revList: (seq<Commit>, Sha, Sha) -> seq<Sha>)
    requires GoodRevList(revList)
    ensures var u, c, es := TheSetup(), Context(revList), Events();
      && ValidSetup(u) && Adopted(u, Start()) && SameGroups(u, es)
      && var crashed, v := Run(u, c.pol, Start(), es[..2]), Run(u, c.pol, Start(), es);
      && DeadEnd(u, v) && Stale(u, v) && !IsSuffix(u, v.state)
      && var e := Effect(c, crashed, DoValidate(Checks(true, true)));
      !e.ok && Final(crashed, e) == v && !Explained(u, c, crashed, v)
  {
    hide ThePack, Run, Reconcile, ValidStored, StaticOk, GoodRevList, Explained, Recovers, Adopted, Stale, Inv,
      ProgressInv, IsSuffix, Resolved;
    var u, c, es := TheSetup(), Context(revList), Events();
    Begins();
    TheResolution();
    TheRun(revList);
    ThirdStep(revList);
    LeftBehind();
    assert SameGroups(u, es) && SameGroups(u, es[..2]);
    AdoptInv(u, Start());
    AdoptProgress(u, Start());
    RunProgress(u, c.pol, Start(), es[..2]);
    RunProgress(u, c.pol, Start(), es);
    FailingCommand(u, c, Crashed(), DoValidate(Checks(true, true)));
    StaleSuffix(u, Recovered());
  }

  lemma StaleSuffix(u: Setup, w: World)
    requires ValidSetup(u) && Inv(u, w) && Stale(u, w)
    ensures !IsSuffix(u, w.state)
  {
    hide Inv, IsSuffix, StaleAt, ValidSetup;
    var g: nat, k: nat :| StaleAt(u, w, g, k);
    StaleNoSuffix(u, w, g, k);
  }
}
