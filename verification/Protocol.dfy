/** The supervisor's persisted state machine as functions from the durable world to the
    list of worlds its durable writes pass through (scripts/codex-v2-supervisor.py:2456-4061).
    Git, the child process and the reviewers are arbitrary inputs. */
module Protocol {
  import opened Prelude
  import opened GitModel
  import opened PromptPack

  // ----- inputs -----

  datatype Profile = Strict | Efficient

  datatype Config = Config(profile: Profile, specs: seq<GroupSpec>, maxIds: set<PromptId>)

  datatype Reported = Reported(sha: Sha, subject: string)

  /** A parsed SLICE HANDOFF; body stands for the fields only the audits look at. */
  datatype Handoff = Handoff(prompt: PromptId, complete: bool, commit: Option<Reported>, next: seq<PromptId>,
    body: string)

  /** The handoff blocks of a text, or None when it does not parse. */
  type Response = Option<seq<Handoff>>

  type Log = seq<string>

  /** A child's process receipt: absent, unusable, or a record. */
  datatype Receipt = NoReceipt | BadReceipt | Receipt(active: bool, exit: Option<int>, killable: bool)

  /** What a child leaves on disk. */
  datatype Files = Files(receipt: Receipt, log: Option<Log>, final: Option<Response>)
  datatype ReviewFiles = ReviewFiles(receipt: Receipt, log: Option<Log>, report: Option<string>)

  datatype AuditMode = SoloAudit(efficient: bool, id: PromptId) | GroupAudit(ids: seq<PromptId>) | ReviewAudit

  /** The text audits the supervisor applies, and its `git rev-list`: fixed but unknown functions. */
  datatype Policy = Policy(
    revList: (seq<Commit>, Sha, Sha) -> seq<Sha>,
    childOk: (Profile, Repo, PromptId, Sha, Handoff, string) -> bool,
    groupItemOk: (Repo, Group, nat, Sha, Handoff) -> bool,
    groupEndOk: (Repo, Group, Sha, seq<Handoff>, bool) -> bool,
    logOk: (Log, AuditMode) -> bool,
    messages: Log -> seq<Response>,
    blank: string -> bool,
    secret: string -> bool)

  datatype Ctx = Ctx(pack: Pack, pol: Policy, cfg: Config)

  // ----- durable state -----

  datatype Status = Ready | Running | Reviewing | Blocked | ReviewComplete | BoundaryReached
  datatype ReviewStatus = NotReached | Pending | InReview | ReportsComplete

  datatype Review = Review(status: ReviewStatus, reviewers: seq<PromptId>, sha: Sha, reports: set<PromptId>)

  datatype Active = Active(ids: seq<PromptId>, configured: seq<PromptId>, subject: Option<string>, preHead: Sha,
    efficient: bool)

  datatype Progress = Progress(configured: seq<PromptId>, completed: seq<PromptId>, guidance: PromptId,
    startCommit: Sha)

  datatype Blocker =
    ChildFailed | InvalidBoundary | InterruptedBeforeCommit | ManualReconciliation | GroupPrefix
    | ReviewerFailed | ReviewInterrupted | StopBoundary | Signal

  /** state.json without its timestamps and its copies of configuration values. */
  datatype State = State(
    last: PromptId, commit: Sha, next: PromptId, status: Status, review: Review, blocker: Option<Blocker>,
    finished: bool, active: Option<Active>, failed: Option<Active>, progress: Option<Progress>)

  /** Everything that survives a crash. */
  datatype World = World(
    state: State, git: Repo, handoffs: map<PromptId, Handoff>, reports: map<(PromptId, Sha), string>,
    files: Files, review1: ReviewFiles, review2: ReviewFiles)

  datatype Launch = Launch(ids: seq<PromptId>, at: World)

  /** One command: the worlds after each durable write, the children started, and whether it returned normally. */
  datatype Eff = Eff(writes: seq<World>, launches: seq<Launch>, ok: bool)

  function Final(w: World, e: Eff): World {
    if e.writes == [] then w else e.writes[|e.writes| - 1]
  }

  function Then(e: Eff, f: Eff): Eff {
    Eff(e.writes + f.writes, e.launches + f.launches, f.ok)
  }

  const RAISE := Eff([], [], false)
  const NOTHING := Eff([], [], true)
  const NO_FILES := Files(NoReceipt, None, None)
  const R1 := "T04-R1"
  const R2 := "T04-R2"
  const R3 := "T04-R3"
  const STOP := "STOP"

  datatype ChildRun = ChildRun(
    git: Repo, files: Files, timedOut: bool, interrupted: bool, violation: bool, exit: int,
    final: Response, messages: seq<Response>)

  datatype ReviewRun = ReviewRun(files: ReviewFiles, timedOut: bool, interrupted: bool, violation: bool, exit: int,
    report: string)

  /** What a validation compares outside the model: the static setup before reconciliation
      (4095-4141), and the stored path, branch, hashes, model and CLI mode after it (3262-3290). */
  datatype Checks = Checks(setup: bool, stored: bool)

  /** What the outside does during one `step`: static setup, prompt secrets, the child, the reviewers. */
  datatype StepEnv = StepEnv(checks: Checks, promptOk: bool, child: ChildRun, r1: ReviewRun, r2: ReviewRun,
    reviewGit: Repo)

  predicate ChildFailure(r: ChildRun) {
    r.timedOut || r.interrupted || r.violation || r.exit != 0
  }

  /** run_managed_process makes a secret in the final response a violation (1885-1888). */
  predicate ReviewFailure(pol: Policy, r: ReviewRun) {
    r.timedOut || r.interrupted || r.violation || pol.secret(r.report) || r.exit != 0 || pol.blank(r.report)
  }

  // ----- validation -----

  /** _validate_static_setup (4095-4141). */
  predicate StaticOk(c: Ctx, w: World, setupOk: bool) {
    && setupOk
    && (c.cfg.profile.Efficient? ==> Resolved(c.pack, c.cfg.specs, c.cfg.maxIds).Ok?)
    && OnlyFindings(w.git.dirty)
  }

  /** _validate_stored_state (3256-3328), the comparisons that involve Git, order and guidance. */
  predicate ValidStored(c: Ctx, w: World) {
    var s := w.state;
    && w.git.head == s.commit
    && OnlyFindings(w.git.dirty)
    && ExpectedNext(c.pack, s.last).Some?
    && (if s.review.status.ReportsComplete? then s.next == R3 else s.next in ExpectedNext(c.pack, s.last).value)
    && (s.progress.Some? ==> c.cfg.profile.Efficient?)
    && GuidanceCurrent(c, w)
  }

  predicate GuidanceCurrent(c: Ctx, w: World)
  {
    var checked := if w.state.progress.Some? then w.state.progress.value.guidance else w.state.last;
    ExpectedNext(c.pack, checked).Some? && GuidanceOk(w.git, checked, ExpectedNext(c.pack, checked).value)
  }

  /** _validate_completed_child (3625-3733). */
  predicate ValidChild(c: Ctx, git: Repo, id: PromptId, pre: Sha, final: Response, scope: string) {
    && final.Some? && |final.value| == 1
    && var h := final.value[0];
    && h.prompt == id && h.complete && h.commit.Some?
    && Subject(c.pack, id) == Some(h.commit.value.subject)
    && h.commit.value.sha == git.head && git.head < |git.commits|
    && git.commits[git.head].subject == h.commit.value.subject
    && git.head != pre
    && FirstParent(git.commits, git.head) == Some(pre)
    && |c.pol.revList(git.commits, pre, git.head)| == 1
    && ExpectedNext(c.pack, id).Some? && Elems(h.next) == Elems(ExpectedNext(c.pack, id).value)
    && GuidanceOk(git, id, ExpectedNext(c.pack, id).value)
    && OnlyFindings(git.dirty)
    && c.pol.childOk(c.cfg.profile, git, id, pre, h, scope)
  }

  function Prior(commits: seq<Sha>, pre: Sha, i: nat): Sha
    requires i <= |commits|
  {
    if i == 0 then pre else commits[i - 1]
  }

  /** One turn of the loop of _validate_completed_group (3437-3562). */
  predicate GroupItemValid(c: Ctx, git: Repo, g: Group, pre: Sha, commits: seq<Sha>, hs: seq<Handoff>, i: nat)
    requires i < |hs| == |g.ids| && |commits| == (if g.subject.None? then |g.ids| else 1)
  {
    var h := hs[i];
    && h.complete
    && (if i < |g.ids| - 1 then h.next == [g.ids[i + 1]] else ExpectedNext(c.pack, g.ids[i]) == Some(h.next))
    && (if g.subject.None? then
          && commits[i] < |git.commits|
          && h.commit == Some(Reported(commits[i], git.commits[commits[i]].subject))
          && Subject(c.pack, g.ids[i]) == Some(git.commits[commits[i]].subject)
          && FirstParent(git.commits, commits[i]) == Some(Prior(commits, pre, i))
        else if i < |g.ids| - 1 then h.commit.None?
        else
          && commits[0] < |git.commits|
          && h.commit == Some(Reported(commits[0], g.subject.value))
          && git.commits[commits[0]].subject == g.subject.value)
    && c.pol.groupItemOk(git, g, i, if g.subject.None? then Prior(commits, pre, i) else pre, h)
  }

  predicate HandoffsMatch(ids: seq<PromptId>, hs: seq<Handoff>) {
    |hs| == |ids| && forall i :: 0 <= i < |ids| ==> hs[i].prompt == ids[i]
  }

  /** _validate_completed_group (3391-3623). */
  predicate ValidGroup(c: Ctx, git: Repo, g: Group, pre: Sha, final: Response, whole: bool) {
    && final.Some? && HandoffsMatch(g.ids, final.value)
    && (whole || g.subject.None?)
    && var commits := c.pol.revList(git.commits, pre, git.head);
    && |commits| == (if g.subject.None? then |g.ids| else 1)
    && (forall i :: 0 <= i < |g.ids| ==> GroupItemValid(c, git, g, pre, commits, final.value, i))
    && (g.subject.None? ==> Prior(commits, pre, |commits|) == git.head)
    && OnlyFindings(git.dirty)
    && c.pol.groupEndOk(git, g, pre, final.value, whole)
    && (whole && g.ids != [] ==>
          var id := g.ids[|g.ids| - 1];
          ExpectedNext(c.pack, id).Some? && GuidanceOk(git, id, ExpectedNext(c.pack, id).value))
  }

  // ----- building blocks of the writes -----

  predicate StartsWith(s: string, p: string) {
    p <= s
  }

  /** The state written once a prompt or a group ending in id is accepted (2949-2968, 3109-3128, 2659-2681). */
  function CompleteState(p: Pack, s: State, id: PromptId, head: Sha, dropProgress: bool): State {
    var e := ExpectedNext(p, id);
    var expected := if e.Some? then e.value else [];
    s.(last := id, commit := head, next := if expected == [] then STOP else expected[0],
       status := Ready, blocker := None, active := None,
       progress := if dropProgress then None else s.progress,
       finished := s.finished || (expected != [] && StartsWith(expected[0], "T18-")),
       review := if |expected| > 1 then Review(Pending, expected, head, {}) else s.review)
  }

  /** _block_and_raise (3854-3861). */
  function Block(w: World, s: State, b: Blocker): Eff {
    Eff([w.(state := s.(status := Blocked, blocker := Some(b), failed := s.active, active := None))], [], false)
  }

  /** The handoff files, written one after the other. */
  function HandoffWrites(w: World, hs: seq<Handoff>): seq<World>
    decreases hs
  {
    if hs == [] then [] else
    var w' := w.(handoffs := w.handoffs[hs[0].prompt := hs[0]]);
    [w'] + HandoffWrites(w', hs[1..])
  }

  function AddHandoffs(m: map<PromptId, Handoff>, hs: seq<Handoff>): map<PromptId, Handoff>
    decreases hs
  {
    if hs == [] then m else AddHandoffs(m[hs[0].prompt := hs[0]], hs[1..])
  }

  /** _record_completed_group (3094-3129). */
  function RecordGroup(c: Ctx, w: World, s: State, g: Group, hs: seq<Handoff>): Eff
    requires g.ids != []
  {
    var done := w.(handoffs := AddHandoffs(w.handoffs, hs),
                   state := CompleteState(c.pack, s, g.ids[|g.ids| - 1], w.git.head, true));
    Eff(HandoffWrites(w, hs) + [done], [], true)
  }

  /** The last message that is exactly one handoff for id. */
  function Checkpoint(messages: seq<Response>, id: PromptId): Option<Handoff> {
    if messages == [] then None else
    var m := messages[|messages| - 1];
    if m.Some? && |m.value| == 1 && m.value[0].prompt == id then Some(m.value[0])
    else Checkpoint(messages[..|messages| - 1], id)
  }

  /** The longest run of completed checkpoints (3160-3167). */
  function Prefix(messages: seq<Response>, ids: seq<PromptId>): (hs: seq<Handoff>)
    ensures |hs| <= |ids| && forall i :: 0 <= i < |hs| ==> hs[i].prompt == ids[i]
  {
    if ids == [] then [] else
    var h := Checkpoint(messages, ids[0]);
    if h.None? || !h.value.complete then [] else
    CheckpointId(messages, ids[0]);
    [h.value] + Prefix(messages, ids[1..])
  }

  lemma {:induction false} CheckpointId(messages: seq<Response>, id: PromptId)
    ensures Checkpoint(messages, id).Some? ==> Checkpoint(messages, id).value.prompt == id
  {
    if messages != [] {
      CheckpointId(messages[..|messages| - 1], id);
    }
  }

  predicate PrefixCommits(hs: seq<Handoff>, commits: seq<Sha>) {
    |commits| == |hs| && forall i :: 0 <= i < |hs| ==> hs[i].commit.Some? && hs[i].commit.value.sha == commits[i]
  }

  /** The handoffs of a committed prefix that _reconcile_or_block_group accepts, or [] when it blocks (3141-3208). */
  function RecoverablePrefix(c: Ctx, git: Repo, g: Group, pre: Sha, messages: seq<Response>): (hs: seq<Handoff>)
    ensures hs != [] ==> git.head != pre && g.subject.None? && |hs| < |g.ids|
    ensures hs != [] ==> ValidGroup(c, git, Group(g.ids[..|hs|], None, g.configured), pre, Some(hs), false)
  {
    if git.head == pre || g.subject.Some? || g.ids == [] then [] else
    var hs := Prefix(messages, g.ids[..|g.ids| - 1]);
    if hs == [] || !PrefixCommits(hs, c.pol.revList(git.commits, pre, git.head)) then [] else
    if ValidGroup(c, git, Group(g.ids[..|hs|], None, g.configured), pre, Some(hs), false) then hs else []
  }

  function PrefixState(c: Ctx, s: State, g: Group, pre: Sha, head: Sha, n: nat): State
    requires 0 < n < |g.ids|
  {
    var last := g.ids[n - 1];
    var e := ExpectedNext(c.pack, last);
    s.(last := last, commit := head, next := if e.Some? && e.value != [] then e.value[0] else STOP,
       status := Blocked, blocker := Some(GroupPrefix), failed := s.active, active := None,
       progress := Some(Progress(g.configured,
         (if s.progress.Some? then s.progress.value.completed else []) + g.ids[..n],
         if s.progress.Some? then s.progress.value.guidance else s.last,
         if s.progress.Some? then s.progress.value.startCommit else pre)))
  }

  /** _reconcile_or_block_group (3131-3254); it always raises. */
  function ReconcileOrBlock(c: Ctx, w: World, s: State, g: Group, pre: Sha, messages: seq<Response>): Eff {
    var hs := RecoverablePrefix(c, w.git, g, pre, messages);
    if hs == [] then Block(w, s, if w.git.head == pre then ChildFailed else ManualReconciliation)
    else
      var done := w.(handoffs := AddHandoffs(w.handoffs, hs), state := PrefixState(c, s, g, pre, w.git.head, |hs|));
      Eff(HandoffWrites(w, hs) + [done], [], false)
  }

  /** _load_reviewer_reports (3863-3883), joined as the extra scope text. */
  function LoadReports(w: World): Option<string> {
    var r := w.state.review;
    if !r.status.ReportsComplete? || r.reports != {R1, R2} then None
    else if (R1, r.sha) in w.reports && (R2, r.sha) in w.reports then
      Some(w.reports[(R1, r.sha)] + "\n" + w.reports[(R2, r.sha)])
    else None
  }

  // ----- load_state(reconcile=True) -----

  /** A receipt that cannot be read, or whose live process cannot be stopped, raises (1960-2015). */
  predicate ReceiptUsable(r: Receipt) {
    !r.BadReceipt? && (r.Receipt? && r.active ==> r.killable)
  }

  predicate NotASuccess(r: Receipt) {
    r.Receipt? && (r.active || r.exit != Some(0))
  }

  function Reconcile(c: Ctx, w: World): Eff {
    match w.state.status
    case Reviewing => ReconcilePair(c, w)
    case Running => if w.state.active.None? then RAISE else ReconcileRun(c, w, w.state.active.value)
    case _ => NOTHING
  }

  /** 2492-2681. */
  function ReconcileRun(c: Ctx, w: World, a: Active): Eff {
    if a.efficient && !c.cfg.profile.Efficient? then RAISE
    else if !ReceiptUsable(w.files.receipt) then RAISE
    else if w.git.head == a.preHead then
      Eff([w.(state := w.state.(status := Blocked, blocker := Some(InterruptedBeforeCommit), active := None))],
          [], true)
    else if a.efficient && |a.ids| > 1 then ReconcileGroup(c, w, a)
    else ReconcileSolo(c, w, a)
  }

  function ActiveGroup(a: Active): Group {
    Group(a.ids, a.subject, a.configured)
  }

  function ReconcileGroup(c: Ctx, w: World, a: Active): Eff {
    if a.ids == [] || w.files.log.None? || !c.pol.logOk(w.files.log.value, GroupAudit(a.ids)) then RAISE
    else
      var final := if w.files.final.Some? then w.files.final.value else None;
      var r := w.files.receipt;
      if r.Receipt? && !NotASuccess(r) && ValidGroup(c, w.git, ActiveGroup(a), a.preHead, final, true) then
        RecordGroup(c, w, w.state, ActiveGroup(a), final.value)
      else
        ReconcileOrBlock(c, w, w.state, ActiveGroup(a), a.preHead, c.pol.messages(w.files.log.value))
  }

  function ReconcileSolo(c: Ctx, w: World, a: Active): Eff {
    if a.ids == [] || NotASuccess(w.files.receipt) then RAISE else
    var id := a.ids[0];
    if w.files.log.Some? && !c.pol.logOk(w.files.log.value, SoloAudit(a.efficient, id)) then RAISE
    else if w.files.final.None? then RAISE
    else if id == R3 && LoadReports(w).None? then RAISE
    else
      var scope := if id == R3 then LoadReports(w).value else "";
      var final := w.files.final.value;
      if !ValidChild(c, w.git, id, a.preHead, final, scope) then RAISE
      else
        var w1 := w.(handoffs := w.handoffs[id := final.value[0]]);
        Eff([w1, w1.(state := CompleteState(c.pack, w.state, id, w.git.head, false))], [], true)
  }

  predicate ReviewRecoverable(pol: Policy, f: ReviewFiles) {
    && !NotASuccess(f.receipt)
    && (f.log.Some? ==> pol.logOk(f.log.value, ReviewAudit))
    && f.report.Some? && !pol.blank(f.report.value) && !pol.secret(f.report.value)
  }

  /** _reconcile_interrupted_reviewer_pair (2684-2761). */
  function ReconcilePair(c: Ctx, w: World): Eff {
    var s := w.state;
    var sha := s.review.sha;
    if !s.review.status.InReview? then RAISE
    else if !ReceiptUsable(w.review1.receipt) || !ReceiptUsable(w.review2.receipt) then RAISE
    else if w.git.head != sha || !OnlyFindings(w.git.dirty) then RAISE
    else if ReviewRecoverable(c.pol, w.review1) && ReviewRecoverable(c.pol, w.review2) then
      RecordReports(w, s, w.review1.report.value, w.review2.report.value)
    else
      Eff([w.(state := s.(next := R1, status := Blocked, blocker := Some(ReviewInterrupted), active := None,
                          review := Review(Pending, [R1, R2], sha, {})))], [], true)
  }

  /** Both report files, then the state that waits for T04-R3 (4034-4061, 2725-2745). */
  function RecordReports(w: World, s: State, report1: string, report2: string): Eff {
    var sha := s.review.sha;
    var w1 := w.(reports := w.reports[(R1, sha) := report1]);
    var w2 := w1.(reports := w1.reports[(R2, sha) := report2]);
    var w3 := w2.(state := s.(next := R3, status := ReviewComplete, blocker := None, active := None,
                              review := Review(ReportsComplete, [R1, R2], sha, {R1, R2})));
    Eff([w1, w2, w3], [], true)
  }

  // ----- step -----

  /** Where a child is started: the state with any old blocker cleared (2830-2832, 2980-2982). */
  function Cleared(s: State): State {
    if s.status.Blocked? then s.(status := Ready, blocker := None) else s
  }

  /** The implementation path for one prompt (2833-2969). */
  function RunSolo(c: Ctx, w: World, env: StepEnv): Eff {
    var id := w.state.next;
    if w.state.last !in w.handoffs then RAISE
    else if id == R3 && LoadReports(w).None? then RAISE
    else if !env.promptOk then RAISE
    else
      var scope := if id == R3 then LoadReports(w).value else "";
      var a := Active([id], [], None, w.git.head, c.cfg.profile.Efficient?);
      var w1 := w.(state := Cleared(w.state).(status := Running, active := Some(a)), files := NO_FILES);
      var w2 := w1.(git := env.child.git, files := env.child.files);
      Then(Eff([w1, w2], [Launch([id], w1)], true), FinishSolo(c, w2, env.child, id, a.preHead, scope))
  }

  /** After the child has exited (2919-2969). */
  function FinishSolo(c: Ctx, w: World, r: ChildRun, id: PromptId, pre: Sha, scope: string): Eff {
    if ChildFailure(r) then Block(w, w.state, ChildFailed)
    else if !ValidChild(c, w.git, id, pre, r.final, scope) then Block(w, w.state, InvalidBoundary)
    else
      var w1 := w.(handoffs := w.handoffs[id := r.final.value[0]]);
      Eff([w1, w1.(state := CompleteState(c.pack, w.state, id, w.git.head, c.cfg.profile.Efficient?))], [], true)
  }

  /** _run_prompt_group (2971-3092). */
  function RunGroup(c: Ctx, w: World, g: Group, env: StepEnv): Eff
    requires g.ids != []
  {
    if w.state.last !in w.handoffs || !env.promptOk then RAISE
    else
      var a := Active(g.ids, g.configured, g.subject, w.git.head, true);
      var w1 := w.(state := Cleared(w.state).(status := Running, active := Some(a)), files := NO_FILES);
      var w2 := w1.(git := env.child.git, files := env.child.files);
      Then(Eff([w1, w2], [Launch(g.ids, w1)], true), FinishGroup(c, w2, env.child, g, a.preHead))
  }

  function FinishGroup(c: Ctx, w: World, r: ChildRun, g: Group, pre: Sha): Eff
    requires g.ids != []
  {
    if !ChildFailure(r) && ValidGroup(c, w.git, g, pre, r.final, true) then RecordGroup(c, w, w.state, g, r.final.value)
    else ReconcileOrBlock(c, w, w.state, g, pre, r.messages)
  }

  /** _run_reviewer_pair (3885-4061). */
  function RunPair(c: Ctx, w: World, env: StepEnv): Eff {
    var s := w.state;
    if ExpectedNext(c.pack, s.last) != Some([R1, R2]) || !s.review.status.Pending? then RAISE
    else if s.review.sha != s.commit || w.git.head != s.review.sha then RAISE
    else if "T04-K" !in w.handoffs || !env.promptOk then RAISE
    else
      var a := Active([R1, R2], [], None, s.review.sha, false);
      var s1 := s.(status := Reviewing, active := Some(a), review := s.review.(status := InReview, reports := {}));
      var none := ReviewFiles(NoReceipt, None, None);
      var w1 := w.(state := s1, review1 := none, review2 := none);
      var w2 := w1.(git := env.reviewGit, review1 := env.r1.files, review2 := env.r2.files);
      Then(Eff([w1, w2], [Launch([R1, R2], w1)], true), FinishPair(c, w2, env))
  }

  function FinishPair(c: Ctx, w: World, env: StepEnv): Eff {
    if ReviewFailure(c.pol, env.r1) || ReviewFailure(c.pol, env.r2) then Block(w, w.state, ReviewerFailed)
    else if w.git.head != w.state.review.sha || !OnlyFindings(w.git.dirty) then Block(w, w.state, ManualReconciliation)
    else RecordReports(w, w.state, env.r1.report, env.r2.report)
  }

  /** enforce_stop_boundary (1491-1502). */
  predicate LateTask(id: PromptId) {
    StartsWith(id, "T18-") || StartsWith(id, "T19-")
  }

  function StopWrite(w: World): Eff {
    Eff([w.(state := w.state.(status := BoundaryReached, blocker := Some(StopBoundary), finished := true))], [], false)
  }

  /** step once the stored state is validated (2802-2969). */
  function Dispatch(c: Ctx, w: World, env: StepEnv): Eff {
    var id := w.state.next;
    if id !in c.pack.prompts then RAISE
    else if LateTask(id) || Gated(c.pack, id) then StopWrite(w)
    else if IsReviewer(c.pack, id) then RunPair(c, w, env)
    else if c.cfg.profile.Efficient? && Resolved(c.pack, c.cfg.specs, c.cfg.maxIds).Err? then RAISE
    else if c.cfg.profile.Efficient? && Select(Resolved(c.pack, c.cfg.specs, c.cfg.maxIds).value, id).Some? then
      RunGroup(c, w, Select(Resolved(c.pack, c.cfg.specs, c.cfg.maxIds).value, id).value, env)
    else RunSolo(c, w, env)
  }

  /** validate / status (2763-2770). */
  function Validate(c: Ctx, w: World, checks: Checks): Eff {
    if !StaticOk(c, w, checks.setup) then RAISE
    else
      var e := Reconcile(c, w);
      if e.ok && !(checks.stored && ValidStored(c, Final(w, e))) then e.(ok := false) else e
  }

  /** step (2798-2969). */
  function Step(c: Ctx, w: World, env: StepEnv): Eff {
    var e := Validate(c, w, env.checks);
    if e.ok then Then(e, Dispatch(c, Final(w, e), env)) else e
  }
}
