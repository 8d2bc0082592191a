/** The supervisor as the program runs it: an object that reads the persisted state, changes it
    step by step and writes it back. Each method passes through exactly the durable worlds that
    Protocol gives for it, so everything proved about those holds of the object. */
module Machine {
  import opened Prelude
  import opened GitModel
  import opened PromptPack
  import opened Protocol
  import opened Ledger
  import opened History
  import opened Runs
  import opened Launching
  import opened Progress
  import opened Advance

  function Lookup(m: map<PromptId, Handoff>, id: PromptId): Option<Handoff> {
    if id in m then Some(m[id]) else None
  }

  lemma ThenSteps(w: World, log: seq<World>, starts: seq<Launch>, e: Eff, f: Eff)
    ensures Final(w, Then(e, f)) == Final(Final(w, e), f)
    ensures log + Then(e, f).writes == (log + e.writes) + f.writes
    ensures starts + Then(e, f).launches == (starts + e.launches) + f.launches
  {}

  class Supervisor {
    const c: Ctx
    var state: State
    var git: Repo
    var handoffs: map<PromptId, Handoff>
    var reports: map<(PromptId, Sha), string>
    var files: Files
    var review1: ReviewFiles
    var review2: ReviewFiles
    ghost var log: seq<World>
    ghost var launches: seq<Launch>

    constructor (c: Ctx, w: World)
      ensures this.c == c && Now() == w && log == [] && launches == []
    {
      this.c := c;
      state, git, handoffs, reports, files, review1, review2 :=
        w.state, w.git, w.handoffs, w.reports, w.files, w.review1, w.review2;
      log, launches := [], [];
    }

    /** What a crash would leave now. */
    function Now(): World
      reads this
    {
      World(state, git, handoffs, reports, files, review1, review2)
    }

    /** Since world w, with log and launches as given then, exactly e has happened. */
    ghost predicate Did(w: World, log0: seq<World>, launches0: seq<Launch>, e: Eff)
      reads this
    {
      Now() == Final(w, e) && log == log0 + e.writes && launches == launches0 + e.launches
    }

    // ----- single writes -----

    /** _write_state (4154). */
    method WriteState(s: State)
      modifies `state, `log
      ensures Did(old(Now()), old(log), old(launches), Eff([old(Now()).(state := s)], [], true))
    {
      state := s;
      log := log + [Now()];
    }

    method WriteHandoff(id: PromptId, h: Handoff)
      modifies `handoffs, `log
      ensures Did(old(Now()), old(log), old(launches), Eff([old(Now()).(handoffs := old(handoffs)[id := h])], [], true))
    {
      handoffs := handoffs[id := h];
      log := log + [Now()];
    }

    method WriteReport(id: PromptId, sha: Sha, report: string)
      modifies `reports, `log
      ensures Did(old(Now()), old(log), old(launches),
        Eff([old(Now()).(reports := old(reports)[(id, sha) := report])], [], true))
    {
      reports := reports[(id, sha) := report];
      log := log + [Now()];
    }

    /** _block_and_raise (3854-3861). */
    method BlockAndRaise(s: State, b: Blocker) returns (ok: bool)
      modifies `state, `log
      ensures Did(old(Now()), old(log), old(launches), Block(old(Now()), s, b)) && !ok
    {
      WriteState(s.(status := Blocked, blocker := Some(b), failed := s.active, active := None));
      return false;
    }

    /** The handoff files of an accepted run of prompts, in order (3103-3108, 3209-3214). */
    method WriteHandoffs(hs: seq<Handoff>)
      modifies `handoffs, `log
      ensures log == old(log) + HandoffWrites(old(Now()), hs)
      ensures handoffs == AddHandoffs(old(handoffs), hs)
    {
      var i := 0;
      assert hs[0..] == hs;
      while i < |hs|
        invariant 0 <= i <= |hs|
        invariant log + HandoffWrites(Now(), hs[i..]) == old(log) + HandoffWrites(old(Now()), hs)
        invariant AddHandoffs(handoffs, hs[i..]) == AddHandoffs(old(handoffs), hs)
      {
        ghost var before := Now();
        assert hs[i..][1..] == hs[i + 1..];
        WriteHandoff(hs[i].prompt, hs[i]);
        assert HandoffWrites(before, hs[i..]) == [Now()] + HandoffWrites(Now(), hs[i + 1..]);
        i := i + 1;
      }
    }

    /** What every accepted run of prompts does to the state (2949-2968, 3109-3128, 2659-2681). */
    method CompleteAt(s0: State, id: PromptId, dropProgress: bool)
      modifies `state, `log
      ensures Did(old(Now()), old(log), old(launches),
        Eff([old(Now()).(state := CompleteState(c.pack, s0, id, git.head, dropProgress))], [], true))
    {
      var s := s0;
      var expected := ExpectedNext(c.pack, id);
      var after := if expected.Some? then expected.value else [];
      s := s.(last := id, commit := git.head);
      s := s.(next := if after == [] then STOP else after[0]);
      s := s.(status := Ready, blocker := None, active := None);
      if dropProgress {
        s := s.(progress := None);
      }
      if after != [] && StartsWith(after[0], "T18-") {
        s := s.(finished := true);
      }
      if |after| > 1 {
        s := s.(review := Review(Pending, after, git.head, {}));
      }
      WriteState(s);
    }

    /** _record_completed_group (3094-3129). */
    method RecordCompletedGroup(s: State, g: Group, hs: seq<Handoff>) returns (ok: bool)
      requires g.ids != []
      modifies `state, `handoffs, `log
      ensures Did(old(Now()), old(log), old(launches), RecordGroup(c, old(Now()), s, g, hs)) && ok
    {
      WriteHandoffs(hs);
      CompleteAt(s, g.ids[|g.ids| - 1], true);
      return true;
    }

    // ----- validation -----

    /** One prompt of a group, given the commit accepted before it (3439-3562). */
    method ValidateGroupItem(g: Group, pre: Sha, commits: seq<Sha>, hs: seq<Handoff>, i: nat, prior: Sha)
      returns (ok: bool)
      requires i < |hs| == |g.ids| && |commits| == (if g.subject.None? then |g.ids| else 1)
      requires prior == if g.subject.None? then Prior(commits, pre, i) else pre
      ensures ok == GroupItemValid(c, git, g, pre, commits, hs, i)
    {
      var h, id := hs[i], g.ids[i];
      if !h.complete {
        return false;
      }
      var expected := if i < |g.ids| - 1 then Some([g.ids[i + 1]]) else ExpectedNext(c.pack, id);
      if expected != Some(h.next) {
        return false;
      }
      if g.subject.None? {
        var commit := commits[i];
        if commit >= |git.commits| || h.commit.None? || h.commit.value.sha != commit {
          return false;
        }
        if Subject(c.pack, id) != Some(h.commit.value.subject)
            || git.commits[commit].subject != h.commit.value.subject {
          return false;
        }
        if FirstParent(git.commits, commit) != Some(prior) {
          return false;
        }
      } else if i < |g.ids| - 1 {
        if h.commit.Some? {
          return false;
        }
      } else if commits[0] >= |git.commits| || h.commit != Some(Reported(commits[0], g.subject.value))
             || git.commits[commits[0]].subject != g.subject.value {
        return false;
      }
      return c.pol.groupItemOk(git, g, i, prior, h);
    }

    /** _validate_completed_group (3391-3623): the loop over prompts and handoffs. */
    method ValidateCompletedGroup(g: Group, pre: Sha, final: Response, whole: bool) returns (ok: bool)
      ensures ok == ValidGroup(c, git, g, pre, final, whole)
    {
      if final.None? || !HandoffsMatch(g.ids, final.value) {
        return false;
      }
      var hs, commits := final.value, c.pol.revList(git.commits, pre, git.head);
      if !whole && g.subject.Some? {
        return false;
      }
      if |commits| != (if g.subject.None? then |g.ids| else 1) {
        return false;
      }
      var prior, i := pre, 0;
      while i < |g.ids|
        invariant 0 <= i <= |g.ids|
        invariant prior == if g.subject.None? then Prior(commits, pre, i) else pre
        invariant forall j :: 0 <= j < i ==> GroupItemValid(c, git, g, pre, commits, hs, j)
      {
        ok := ValidateGroupItem(g, pre, commits, hs, i, prior);
        if !ok {
          return;
        }
        if g.subject.None? {
          prior := commits[i];
        }
        i := i + 1;
      }
      if g.subject.None? && prior != git.head {
        return false;
      }
      if !OnlyFindings(git.dirty) || !c.pol.groupEndOk(git, g, pre, hs, whole) {
        return false;
      }
      if whole && g.ids != [] {
        var id := g.ids[|g.ids| - 1];
        var expected := ExpectedNext(c.pack, id);
        return expected.Some? && GuidanceOk(git, id, expected.value);
      }
      return true;
    }

    /** The checkpoint dictionary: a later message for the same prompt replaces an earlier one (3152-3159). */
    method CollectCheckpoints(messages: seq<Response>, ids: seq<PromptId>) returns (checkpoints: map<PromptId, Handoff>)
      ensures forall id :: id in ids ==> Checkpoint(messages, id) == Lookup(checkpoints, id)
    {
      checkpoints := map[];
      var i := 0;
      while i < |messages|
        invariant 0 <= i <= |messages|
        invariant forall id :: id in ids ==> Checkpoint(messages[..i], id) == Lookup(checkpoints, id)
      {
        assert messages[..i + 1][..i] == messages[..i];
        var m := messages[i];
        if m.Some? && |m.value| == 1 && m.value[0].prompt in ids {
          checkpoints := checkpoints[m.value[0].prompt := m.value[0]];
        }
        i := i + 1;
      }
      assert messages[..i] == messages;
    }

    /** The run of completed checkpoints from the first prompt on, short of the last (3160-3167). */
    method CheckpointPrefix(messages: seq<Response>, ids: seq<PromptId>) returns (hs: seq<Handoff>)
      requires ids != []
      ensures hs == Prefix(messages, ids[..|ids| - 1])
    {
      hide Checkpoint;
      var checkpoints := CollectCheckpoints(messages, ids);
      var front := ids[..|ids| - 1];
      var i := 0;
      hs := [];
      assert front[0..] == front;
      while i < |front|
        invariant 0 <= i <= |front|
        invariant Prefix(messages, front) == hs + Prefix(messages, front[i..])
      {
        assert front[i..][1..] == front[i + 1..];
        assert Checkpoint(messages, front[i]) == Lookup(checkpoints, front[i]);
        if front[i] !in checkpoints || !checkpoints[front[i]].complete {
          return;
        }
        hs := hs + [checkpoints[front[i]]];
        i := i + 1;
      }
    }

    /** _reconcile_or_block_group (3131-3254). */
    method ReconcileOrBlockGroup(s0: State, g: Group, pre: Sha, messages: seq<Response>) returns (ok: bool)
      modifies `state, `handoffs, `log
      ensures Did(old(Now()), old(log), old(launches), ReconcileOrBlock(c, old(Now()), s0, g, pre, messages)) && !ok
    {
      hide ValidGroup, Prefix, PrefixCommits, PrefixState, Block;
      if git.head == pre {
        ok := BlockAndRaise(s0, ChildFailed);
        return;
      }
      if g.subject.Some? || g.ids == [] {
        ok := BlockAndRaise(s0, ManualReconciliation);
        return;
      }
      var hs := CheckpointPrefix(messages, g.ids);
      if hs == [] || !PrefixCommits(hs, c.pol.revList(git.commits, pre, git.head)) {
        ok := BlockAndRaise(s0, ManualReconciliation);
        return;
      }
      var prefixOk := ValidateCompletedGroup(Group(g.ids[..|hs|], None, g.configured), pre, Some(hs), false);
      if !prefixOk {
        ok := BlockAndRaise(s0, ManualReconciliation);
        return;
      }
      ok := RecordPrefix(s0, g, pre, hs);
    }

    /** The accepted prefix becomes the stored position, and the group stays open (3209-3254). */
    method RecordPrefix(s0: State, g: Group, pre: Sha, hs: seq<Handoff>) returns (ok: bool)
      requires 0 < |hs| < |g.ids|
      modifies `state, `handoffs, `log
      ensures var w := old(Now());
        var done := w.(handoffs := AddHandoffs(w.handoffs, hs), state := PrefixState(c, s0, g, pre, w.git.head, |hs|));
        Did(w, old(log), old(launches), Eff(HandoffWrites(w, hs) + [done], [], false)) && !ok
    {
      WriteHandoffs(hs);
      var s, last := s0, g.ids[|hs| - 1];
      var expected := ExpectedNext(c.pack, last);
      var prior := if s.progress.Some? then s.progress.value else Progress(g.configured, [], s.last, pre);
      s := s.(last := last, commit := git.head);
      s := s.(next := if expected.Some? && expected.value != [] then expected.value[0] else STOP);
      s := s.(status := Blocked, blocker := Some(GroupPrefix), failed := s.active, active := None);
      s := s.(progress := Some(Progress(g.configured, prior.completed + g.ids[..|hs|], prior.guidance,
        prior.startCommit)));
      WriteState(s);
      return false;
    }

    // ----- load_state(reconcile=True) -----

    /** 2456-2682. */
    method LoadState() returns (ok: bool)
      modifies `state, `handoffs, `reports, `log
      ensures var e := Reconcile(c, old(Now()));
        && Did(old(Now()), old(log), old(launches), e) && ok == e.ok
        && Now() == Final(old(Now()), e) && log == old(log) + e.writes && launches == old(launches) + e.launches
    {
      if state.status.Reviewing? {
        ok := ReconcileReviewerPair();
        return;
      }
      if !state.status.Running? {
        return true;
      }
      if state.active.None? {
        return false;
      }
      var a := state.active.value;
      if a.efficient && !c.cfg.profile.Efficient? {
        return false;
      }
      if !ReceiptUsable(files.receipt) {
        return false;
      }
      if git.head == a.preHead {
        WriteState(state.(status := Blocked, blocker := Some(InterruptedBeforeCommit), active := None));
        return true;
      }
      if a.efficient && |a.ids| > 1 {
        ok := RecoverGroup(a);
      } else {
        ok := RecoverChild(a);
      }
    }

    method RecoverGroup(a: Active) returns (ok: bool)
      modifies `state, `handoffs, `log
      ensures var e := ReconcileGroup(c, old(Now()), a);
        Did(old(Now()), old(log), old(launches), e) && ok == e.ok
    {
      hide ValidGroup, RecoverablePrefix;
      if a.ids == [] || files.log.None? || !c.pol.logOk(files.log.value, GroupAudit(a.ids)) {
        return false;
      }
      var messages := c.pol.messages(files.log.value);
      var final := if files.final.Some? then files.final.value else None;
      var g := ActiveGroup(a);
      if files.receipt.Receipt? && !NotASuccess(files.receipt) {
        var groupOk := ValidateCompletedGroup(g, a.preHead, final, true);
        if groupOk {
          ParsedFinal(c, git, g, a.preHead, final);
          ok := RecordCompletedGroup(state, g, final.value);
          return;
        }
      }
      ok := ReconcileOrBlockGroup(state, g, a.preHead, messages);
    }

    method RecoverChild(a: Active) returns (ok: bool)
      modifies `state, `handoffs, `log
      ensures var e := ReconcileSolo(c, old(Now()), a);
        Did(old(Now()), old(log), old(launches), e) && ok == e.ok
    {
      if a.ids == [] || NotASuccess(files.receipt) {
        return false;
      }
      var id := a.ids[0];
      if files.log.Some? && !c.pol.logOk(files.log.value, SoloAudit(a.efficient, id)) {
        return false;
      }
      if files.final.None? {
        return false;
      }
      var scope := "";
      if id == R3 {
        var loaded := LoadReviewerReports();
        if loaded.None? {
          return false;
        }
        scope := loaded.value;
      }
      if !ValidChild(c, git, id, a.preHead, files.final.value, scope) {
        return false;
      }
      WriteHandoff(id, files.final.value.value[0]);
      CompleteAt(state, id, false);
      return true;
    }

    /** _load_reviewer_reports (3863-3883). */
    method LoadReviewerReports() returns (r: Option<string>)
      ensures r == LoadReports(Now())
    {
      var review := state.review;
      if !review.status.ReportsComplete? || review.reports != {R1, R2} {
        return None;
      }
      if (R1, review.sha) !in reports || (R2, review.sha) !in reports {
        return None;
      }
      return Some(reports[(R1, review.sha)] + "\n" + reports[(R2, review.sha)]);
    }

    /** _reconcile_interrupted_reviewer_pair (2684-2761). */
    method ReconcileReviewerPair() returns (ok: bool)
      modifies `state, `reports, `log
      ensures var e := ReconcilePair(c, old(Now()));
        Did(old(Now()), old(log), old(launches), e) && ok == e.ok
    {
      if !state.review.status.InReview? {
        return false;
      }
      var sha := state.review.sha;
      if !ReceiptUsable(review1.receipt) || !ReceiptUsable(review2.receipt) {
        return false;
      }
      if git.head != sha || !OnlyFindings(git.dirty) {
        return false;
      }
      if ReviewRecoverable(c.pol, review1) && ReviewRecoverable(c.pol, review2) {
        ok := RecordReviewerReports(state, review1.report.value, review2.report.value);
      } else {
        var s := state.(next := R1, status := Blocked, blocker := Some(ReviewInterrupted), active := None);
        WriteState(s.(review := Review(Pending, [R1, R2], sha, {})));
        ok := true;
      }
    }

    /** 4034-4061, 2725-2745. */
    method RecordReviewerReports(s: State, report1: string, report2: string) returns (ok: bool)
      modifies `state, `reports, `log
      ensures Did(old(Now()), old(log), old(launches), RecordReports(old(Now()), s, report1, report2)) && ok
    {
      var sha := s.review.sha;
      WriteReport(R1, sha, report1);
      WriteReport(R2, sha, report2);
      var s' := s.(next := R3, status := ReviewComplete, blocker := None, active := None);
      WriteState(s'.(review := Review(ReportsComplete, [R1, R2], sha, {R1, R2})));
      return true;
    }

    // ----- step -----

    /** run_managed_process: the child is started, does what it does, and exits. */
    method RunChild(ids: seq<PromptId>, r: ChildRun)
      modifies `git, `files, `log, `launches
      ensures Did(old(Now()), old(log), old(launches),
        Eff([old(Now()).(git := r.git, files := r.files)], [Launch(ids, old(Now()))], true))
    {
      launches := launches + [Launch(ids, Now())];
      git, files := r.git, r.files;
      log := log + [Now()];
    }

    method RunReviewers(ids: seq<PromptId>, r1: ReviewRun, r2: ReviewRun, after: Repo)
      modifies `git, `review1, `review2, `log, `launches
      ensures Did(old(Now()), old(log), old(launches),
        Eff([old(Now()).(git := after, review1 := r1.files, review2 := r2.files)], [Launch(ids, old(Now()))], true))
    {
      launches := launches + [Launch(ids, Now())];
      git, review1, review2 := after, r1.files, r2.files;
      log := log + [Now()];
    }

    /** The `running` write; the new run's files do not exist yet (2876-2897, 3010-3033). */
    method MarkRunning(s: State, a: Active)
      modifies `state, `files, `log
      ensures Did(old(Now()), old(log), old(launches),
        Eff([old(Now()).(state := s.(status := Running, active := Some(a)), files := NO_FILES)], [], true))
    {
      files := NO_FILES;
      WriteState(s.(status := Running, active := Some(a)));
    }

    /** The `reviewing` write (3943-3973). */
    method MarkReviewing(a: Active)
      modifies `state, `review1, `review2, `log
      ensures var none := ReviewFiles(NoReceipt, None, None);
        var s := old(state).(status := Reviewing, active := Some(a),
          review := old(state).review.(status := InReview, reports := {}));
        Did(old(Now()), old(log), old(launches),
          Eff([old(Now()).(state := s, review1 := none, review2 := none)], [], true))
    {
      review1, review2 := ReviewFiles(NoReceipt, None, None), ReviewFiles(NoReceipt, None, None);
      var s := state.(status := Reviewing, review := state.review.(status := InReview, reports := {}));
      WriteState(s.(active := Some(a)));
    }

    method ClearBlocker() returns (s: State)
      ensures s == Cleared(state)
    {
      s := state;
      if s.status.Blocked? {
        s := s.(status := Ready, blocker := None);
      }
    }

    /** 2830-2969. */
    method RunSinglePrompt(env: StepEnv) returns (ok: bool)
      modifies this
      ensures var e := RunSolo(c, old(Now()), env);
        Did(old(Now()), old(log), old(launches), e) && ok == e.ok
    {
      hide FinishSolo, LoadReports;
      var id := state.next;
      var s := ClearBlocker();
      if s.last !in handoffs {
        return false;
      }
      var scope := "";
      if id == R3 {
        var loaded := LoadReviewerReports();
        if loaded.None? {
          return false;
        }
        scope := loaded.value;
      }
      if !env.promptOk {
        return false;
      }
      var pre := git.head;
      MarkRunning(s, Active([id], [], None, pre, c.cfg.profile.Efficient?));
      RunChild([id], env.child);
      ok := FinishChild(env.child, id, pre, scope);
    }

    method FinishChild(r: ChildRun, id: PromptId, pre: Sha, scope: string) returns (ok: bool)
      modifies `state, `handoffs, `log
      ensures var e := FinishSolo(c, old(Now()), r, id, pre, scope);
        Did(old(Now()), old(log), old(launches), e) && ok == e.ok
    {
      hide GuidanceOk, ExpectedNext, CompleteState;
      if ChildFailure(r) {
        ok := BlockAndRaise(state, ChildFailed);
        return;
      }
      if !ValidChild(c, git, id, pre, r.final, scope) {
        ok := BlockAndRaise(state, InvalidBoundary);
        return;
      }
      WriteHandoff(id, r.final.value[0]);
      CompleteAt(state, id, c.cfg.profile.Efficient?);
      return true;
    }

    /** _run_prompt_group (2971-3092). */
    method RunPromptGroup(g: Group, env: StepEnv) returns (ok: bool)
      requires g.ids != []
      modifies this
      ensures var e := RunGroup(c, old(Now()), g, env);
        Did(old(Now()), old(log), old(launches), e) && ok == e.ok
    {
      hide FinishGroup;
      var s := ClearBlocker();
      if s.last !in handoffs || !env.promptOk {
        return false;
      }
      var pre := git.head;
      MarkRunning(s, Active(g.ids, g.configured, g.subject, pre, true));
      RunChild(g.ids, env.child);
      ok := FinishPromptGroup(env.child, g, pre);
    }

    method FinishPromptGroup(r: ChildRun, g: Group, pre: Sha) returns (ok: bool)
      requires g.ids != []
      modifies `state, `handoffs, `log
      ensures var e := FinishGroup(c, old(Now()), r, g, pre);
        Did(old(Now()), old(log), old(launches), e) && ok == e.ok
    {
      hide ValidGroup, RecoverablePrefix;
      if !ChildFailure(r) {
        var groupOk := ValidateCompletedGroup(g, pre, r.final, true);
        if groupOk {
          ParsedFinal(c, git, g, pre, r.final);
          ok := RecordCompletedGroup(state, g, r.final.value);
          return;
        }
      }
      ok := ReconcileOrBlockGroup(state, g, pre, r.messages);
    }

    /** _run_reviewer_pair (3885-4061). */
    method RunReviewerPair(env: StepEnv) returns (ok: bool)
      modifies this
      ensures var e := RunPair(c, old(Now()), env);
        Did(old(Now()), old(log), old(launches), e) && ok == e.ok
    {
      hide ItemFrom, FinishPair;
      if ExpectedNext(c.pack, state.last) != Some([R1, R2]) || !state.review.status.Pending? {
        return false;
      }
      var sha := state.review.sha;
      if sha != state.commit || git.head != sha || "T04-K" !in handoffs || !env.promptOk {
        return false;
      }
      MarkReviewing(Active([R1, R2], [], None, sha, false));
      RunReviewers([R1, R2], env.r1, env.r2, env.reviewGit);
      ok := FinishReviewerPair(env);
    }

    method FinishReviewerPair(env: StepEnv) returns (ok: bool)
      modifies `state, `reports, `log
      ensures var e := FinishPair(c, old(Now()), env);
        Did(old(Now()), old(log), old(launches), e) && ok == e.ok
    {
      if ReviewFailure(c.pol, env.r1) || ReviewFailure(c.pol, env.r2) {
        ok := BlockAndRaise(state, ReviewerFailed);
      } else if git.head != state.review.sha || !OnlyFindings(git.dirty) {
        ok := BlockAndRaise(state, ManualReconciliation);
      } else {
        ok := RecordReviewerReports(state, env.r1.report, env.r2.report);
      }
    }

    /** validate (2763-2767): static setup, reconciliation, stored state. */
    method ValidateAll(checks: Checks) returns (ok: bool)
      modifies `state, `handoffs, `reports, `log
      ensures var e := Validate(c, old(Now()), checks);
        Did(old(Now()), old(log), old(launches), e) && ok == e.ok
    {
      hide Reconcile, ValidStored, StaticOk;
      if !StaticOk(c, Now(), checks.setup) {
        return false;
      }
      ok := LoadState();
      if ok {
        ok := checks.stored && ValidStored(c, Now());
      }
    }

    /** step (2798-2969). */
    method StepOnce(env: StepEnv) returns (ok: bool)
      modifies this
      ensures var e := Step(c, old(Now()), env);
        && Did(old(Now()), old(log), old(launches), e) && ok == e.ok
        && Now() == Final(old(Now()), e) && log == old(log) + e.writes && launches == old(launches) + e.launches
    {
      hide Validate, Dispatch;
      ok := ValidateAll(env.checks);
      if ok {
        ghost var w, mid := old(Now()), Now();
        ok := DispatchNext(env);
        ThenSteps(w, old(log), old(launches), Validate(c, w, env.checks), Dispatch(c, mid, env));
      }
    }

    method DispatchNext(env: StepEnv) returns (ok: bool)
      modifies this
      ensures var e := Dispatch(c, old(Now()), env);
        Did(old(Now()), old(log), old(launches), e) && ok == e.ok
    {
      hide RunSolo, RunGroup, RunPair, IsReviewer, Resolved, Select, LateTask;
      var id := state.next;
      if id !in c.pack.prompts {
        return false;
      }
      if LateTask(id) || Gated(c.pack, id) {
        WriteState(state.(status := BoundaryReached, blocker := Some(StopBoundary), finished := true));
        return false;
      }
      if IsReviewer(c.pack, id) {
        ok := RunReviewerPair(env);
        return;
      }
      if c.cfg.profile.Efficient? {
        var groups := ResolvePromptGroups(c.pack, c.cfg.specs, c.cfg.maxIds);
        if groups.Err? {
          return false;
        }
        var selected := Select(groups.value, id);
        if selected.Some? {
          ok := RunPromptGroup(selected.value, env);
          return;
        }
      }
      ok := RunSinglePrompt(env);
    }

    /** step as the loop of run_until uses it: a settled world short of the stop boundary. */
    method StepTowards(ghost u: Setup, stop: PromptId, env: StepEnv, ghost done: seq<World>) returns (ok: bool)
      requires Fits(u, c) && Inv(u, Now()) && Settled(state) && EnvOk(git, env) && AllInv(u, done)
      requires state.next != stop && !LateTask(state.next)
      modifies this
      ensures var e := Step(c, old(Now()), env);
        Did(old(Now()), old(log), old(launches), e) && ok == e.ok && AllInv(u, done + e.writes)
      ensures Inv(u, Now()) && Position(u, state) < |u.pack.order|
      ensures ok ==> MovesOn(u, old(Now()), Now())
      ensures |Step(c, old(Now()), env).launches| <= 1
      ensures forall i :: 0 <= i < |Step(c, old(Now()), env).launches| ==>
        BeforeStop(u, c, stop, Step(c, old(Now()), env).launches[i])
    {
      hide Inv, Fits, Step, BeforeStop, LateTask, MovesOn, EnvOk, Position;
      ghost var w := Now();
      StepInv(u, c, w, env);
      Accumulate(u, w, done, Step(c, w, env));
      StepStarts(u, c, w, env, stop);
      StepMovesOn(u, c, w, env);
      ok := StepOnce(env);
      PositionBound(u, Now());
    }

    method ValidateKept(ghost u: Setup, checks: Checks, ghost done: seq<World>) returns (ok: bool)
      requires Fits(u, c) && Inv(u, Now()) && AllInv(u, done)
      modifies `state, `handoffs, `reports, `log
      ensures var e := Validate(c, old(Now()), checks);
        Did(old(Now()), old(log), old(launches), e) && ok == e.ok && AllInv(u, done + e.writes)
      ensures Validate(c, old(Now()), checks).launches == []
      ensures Inv(u, Now()) && ValidRepo(git) && (ok ==> Settled(state))
      ensures old(Settled(state)) ==> Now() == old(Now())
    {
      hide Inv, Fits, ValidStored, AllInv, StaticOk, ReconcilePair, ReconcileRun;
      ghost var w := Now();
      ValidateInv(u, c, w, checks);
      ReconcileNoLaunch(c, w);
      Accumulate(u, w, done, Validate(c, w, checks));
      ok := ValidateAll(checks);
      AccountedRepo(u, Now());
    }

    /** One turn of the loop of run_until: stop, or take one step. */
    method Turn(ghost u: Setup, stop: PromptId, checks: Checks, envs: Repo -> StepEnv, ghost done: seq<World>)
      returns (ok: bool, over: bool, ghost e: Eff)
      requires Fits(u, c) && Inv(u, Now()) && AllInv(u, done)
      requires forall r: Repo :: ValidRepo(r) ==> EnvOk(r, envs(r))
      modifies this
      ensures Did(old(Now()), old(log), old(launches), e) && AllInv(u, done + e.writes)
      ensures Inv(u, Now()) && Position(u, state) < |u.pack.order|
      ensures |e.launches| <= 1 && forall i :: 0 <= i < |e.launches| ==> BeforeStop(u, c, stop, e.launches[i])
      ensures !over ==> ok && Settled(state) && (old(Settled(state)) ==> Position(u, old(state)) < Position(u, state))
      ensures !over ==> |e.launches| <= Position(u, state)
      ensures ok && over ==> state.status.ReviewComplete?
                             || (state.status.BoundaryReached? && (state.next == stop || LateTask(state.next)))
    {
      hide Inv, Fits, Validate, Step, BeforeStop, LateTask, AllInv, EnvOk, Position;
      ghost var w0 := Now();
      over, e := true, Validate(c, w0, checks);
      ok := ValidateKept(u, checks, done);
      PositionBound(u, Now());
      if !ok {
        return;
      }
      ghost var w1 := Now();
      if state.next == stop || LateTask(state.next) {
        StopInv(u, w1);
        Accumulate(u, w1, done + e.writes, StopWrite(w1));
        ThenSteps(w0, log, launches, e, StopWrite(w1));
        Assoc(done, e.writes, StopWrite(w1).writes);
        WriteState(state.(status := BoundaryReached, blocker := Some(StopBoundary), finished := true));
        e := Then(e, StopWrite(w1));
        PositionBound(u, Now());
        return;
      }
      if state.status.ReviewComplete? {
        return;
      }
      ghost var env := envs(git);
      ok := StepTowards(u, stop, envs(git), done + e.writes);
      ThenSteps(w0, old(log), old(launches), e, Step(c, w1, env));
      Assoc(done, e.writes, Step(c, w1, env).writes);
      e := Then(e, Step(c, w1, env));
      over := !ok || state.status.ReviewComplete?;
    }

    /** run_until (2772-2796). It always ends: each turn either returns, raises, or moves last
        strictly forward in the order. Whatever the children do in the repository they find
        (envs), nothing is started at the stop boundary or beyond the late and gated prompts. */
    method RunUntil(ghost u: Setup, stop: PromptId, checks: nat -> Checks, envs: (nat, Repo) -> StepEnv)
      returns (ok: bool)
      requires Fits(u, c) && Inv(u, Now())
      requires forall i: nat, r: Repo :: ValidRepo(r) ==> EnvOk(r, envs(i, r))
      modifies this
      ensures Inv(u, Now()) && old(log) <= log && old(launches) <= launches
      ensures AllInv(u, log[|old(log)|..])
      ensures forall i :: |old(launches)| <= i < |launches| ==> BeforeStop(u, c, stop, launches[i])
      ensures |launches| - |old(launches)| <= |u.pack.order|
      ensures ok ==> state.status.ReviewComplete?
                     || (state.status.BoundaryReached? && (state.next == stop || LateTask(state.next)))
    {
      hide Inv, Fits, BeforeStop, LateTask, AllInv, EnvOk, Position;
      if stop !in c.pack.prompts {
        assert AllInv(u, []) && log[|log|..] == [] by { NothingYet(u); }
        return false;
      }
      var i, over := 0, false;
      ok := true;
      ghost var done: seq<World>, started: seq<Launch> := [], [];
      NothingYet(u);
      while !over
        invariant Inv(u, Now()) && AllInv(u, done) && log == old(log) + done && launches == old(launches) + started
        invariant forall j :: 0 <= j < |started| ==> BeforeStop(u, c, stop, started[j])
        invariant |started| <= if over then |u.pack.order| else if i == 0 then 0 else Position(u, state)
        invariant i > 0 ==> Position(u, state) < |u.pack.order|
        invariant !over ==> ok && (i > 0 ==> Settled(state))
        invariant ok && over ==> state.status.ReviewComplete?
                                 || (state.status.BoundaryReached? && (state.next == stop || LateTask(state.next)))
        decreases !over, if Settled(state) then 0 else 1, |u.pack.order| - Position(u, state)
      {
        var j := i;
        ghost var e;
        ok, over, e := Turn(u, stop, checks(i), r => envs(j, r), done);
        done, started := done + e.writes, started + e.launches;
        i := i + 1;
      }
      assert log[|old(log)|..] == done;
    }
  }

  lemma NothingYet(u: Setup)
    ensures AllInv(u, [])
  {}

  lemma ParsedFinal(c: Ctx, git: Repo, g: Group, pre: Sha, final: Response)
    requires ValidGroup(c, git, g, pre, final, true)
    ensures final.Some?
  {}
}
