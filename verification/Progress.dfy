/** Partially committed groups: what efficient_group_progress records across any number of
    interruptions, and the one way it is left behind. */
module Progress {
  import opened Prelude
  import opened GitModel
  import opened PromptPack
  import opened Protocol
  import opened Ledger
  import opened History
  import opened Runs

  /** Prompts k..j of group g are committed, prompt j is next, and guidance still stands where
      the group was entered. */
  ghost predicate LiveAt(u: Setup, s: State, g: nat, k: nat, j: nat) {
    && s.progress.Some? && g < |u.groups| && k < j < |u.groups[g].ids|
    && var ids, p := u.groups[g].ids, s.progress.value;
    && p.configured == ids && p.completed == ids[k..j]
    && s.last == ids[j - 1] && s.next == ids[j] && Follows(u, p.guidance, ids[k])
  }

  /** The group's last prompt was accepted by the single-prompt recovery path, which keeps the progress record. */
  ghost predicate StaleAt(u: Setup, w: World, g: nat, k: nat) {
    && w.state.progress.Some? && g < |u.groups| && k < |u.groups[g].ids|
    && var ids, p := u.groups[g].ids, w.state.progress.value;
    && p.configured == ids && p.completed == ids[k..|ids| - 1]
    && w.state.last == ids[|ids| - 1] && Follows(u, p.guidance, ids[k])
    && w.state.commit < |w.git.commits|
    && AnnouncesNext(u, w.git.commits[w.state.commit].claude, w.state.last)
  }

  ghost predicate AnnouncesNext(u: Setup, g: Guide, last: PromptId) {
    g.Section? && g.next == Elems(Expected(u, last))
  }

  ghost predicate Live(u: Setup, s: State) {
    exists g: nat, k: nat, j: nat :: LiveAt(u, s, g, k, j)
  }

  ghost predicate Stale(u: Setup, w: World) {
    exists g: nat, k: nat :: StaleAt(u, w, g, k)
  }

  /** While a partly committed group runs, it runs as the rest of that group. */
  ghost predicate RunsRest(u: Setup, s: State) {
    s.status.Running? && s.active.Some? ==>
      s.active.value.efficient && Select(u.groups, s.next) == Some(ActiveGroup(s.active.value))
  }

  ghost predicate ProgressInv(u: Setup, w: World) {
    || w.state.progress.None?
    || (Live(u, w.state) && RunsRest(u, w.state))
    || (Stale(u, w) && Settled(w.state))
  }

  ghost predicate Settled(s: State) {
    !s.status.Running? && !s.status.Reviewing?
  }

  ghost predicate AllProgress(u: Setup, ws: seq<World>) {
    forall i :: 0 <= i < |ws| ==> ProgressInv(u, ws[i])
  }

  // ----- groups and positions -----

  lemma GroupAt(u: Setup, g: nat) returns (q: nat)
    requires ValidSetup(u) && g < |u.groups|
    ensures IntervalAt(u.pack, u.groups[g].ids, q) && Distinct(u.groups[g].ids)
    ensures u.groups[g].ids != [] && u.groups[g].configured == u.groups[g].ids
  {
    hide Flatten, ItemFrom;
    var ids := u.groups[g].ids;
    assert Interval(u.pack, ids);
    q :| IntervalAt(u.pack, ids, q);
    forall i, j | 0 <= i < j < |ids| ensures ids[i] != ids[j] {
      ItemOf(u.pack, q + i, ids[i]);
      ItemOf(u.pack, q + j, ids[j]);
    }
  }

  lemma RestOfGroup(u: Setup, g: nat, j: nat)
    requires ValidSetup(u) && g < |u.groups| && j < |u.groups[g].ids|
    ensures Select(u.groups, u.groups[g].ids[j]) ==
      Some(Group(u.groups[g].ids[j..], u.groups[g].subject, u.groups[g].ids))
  {
    hide Flatten, ItemFrom, Interval;
    var q := GroupAt(u, g);
    IndexOfDistinct(u.groups[g].ids, j);
    SelectFinds(u.groups, u.groups[g].ids[j], g);
  }

  /** A prompt lies in at most one group. */
  lemma SameGroup(u: Setup, g: nat, h: nat, id: PromptId)
    requires ValidSetup(u) && g < |u.groups| && h < |u.groups| && id in u.groups[g].ids && id in u.groups[h].ids
    ensures g == h
  {
    hide Interval, ValidPack;
    assert id in Elems(u.groups[g].ids) && id in Elems(u.groups[h].ids);
  }

  lemma InsideGroup(u: Setup, s: State, g: nat, k: nat, j: nat)
    requires ValidSetup(u) && LiveAt(u, s, g, k, j)
    ensures Expected(u, s.last) == [s.next] && !IsReviewer(u.pack, s.next)
  {
    hide Flatten, ItemFrom, Interval, Follows;
    var ids := u.groups[g].ids;
    var q := GroupAt(u, g);
    PrefixRun(u, ids, q, j);
    assert u.pack.order[q + j] == One(ids[j]);
    ItemOf(u.pack, q + j, ids[j]);
    if IsReviewer(u.pack, ids[j]) {
      var r: nat :| r < |u.pack.order| && u.pack.order[r].Reviewers? && ids[j] in u.pack.order[r].ids;
      ItemOf(u.pack, r, ids[j]);
    }
  }

  /** Neither partly committed groups nor leftovers coincide with a running reviewer pair. */
  lemma NoProgressInReview(u: Setup, w: World)
    requires ValidSetup(u) && Inv(u, w) && ProgressInv(u, w) && w.state.status.Reviewing?
    ensures w.state.progress.None?
  {
    hide Accounted, ValidSetup, Follows;
    if w.state.progress.Some? {
      var g: nat, k: nat, j: nat :| LiveAt(u, w.state, g, k, j);
      InsideGroup(u, w.state, g, k, j);
    }
  }

  // ----- single steps -----

  lemma ProgressKept(u: Setup, w: World, w': World)
    requires w.state.commit < |w.git.commits| && ProgressInv(u, w) && SamePosition(w, w')
    requires w'.state.progress == w.state.progress && w'.state.next == w.state.next
    requires Settled(w'.state) || (w'.state.status == w.state.status && w'.state.active == w.state.active)
    ensures ProgressInv(u, w')
  {
    hide Accounted, Select, Follows, NextOk, ReviewOk, RunOk;
    if w.state.progress.Some? {
      if Live(u, w.state) && RunsRest(u, w.state) {
        var g: nat, k: nat, j: nat :| LiveAt(u, w.state, g, k, j);
        assert LiveAt(u, w'.state, g, k, j);
      } else {
        var g: nat, k: nat :| StaleAt(u, w, g, k);
        assert StaleAt(u, w', g, k);
      }
    }
  }

  lemma {:induction false} HandoffWritesProgress(u: Setup, w: World, hs: seq<Handoff>)
    requires ValidRepo(w.git) && w.state.commit < |w.git.commits| && ProgressInv(u, w)
    ensures AllProgress(u, HandoffWrites(w, hs))
    decreases hs
  {
    hide ProgressInv, WellFormed;
    if hs != [] {
      var w' := w.(handoffs := w.handoffs[hs[0].prompt := hs[0]]);
      ProgressKept(u, w, w');
      HandoffWritesProgress(u, w', hs[1..]);
    }
  }

  lemma SlicesJoin<T>(s: seq<T>, k: nat, j: nat, n: nat)
    requires k <= j && j + n <= |s|
    ensures s[k..j] + s[j..j + n] == s[k..j + n] && s[j..][..n] == s[j..j + n]
  {}

  /** Where next is: position m of group h. */
  lemma AtPosition(u: Setup, s: State, g: Group) returns (h: nat, m: nat)
    requires ValidSetup(u) && Select(u.groups, s.next) == Some(g)
    ensures h < |u.groups| && m < |u.groups[h].ids| && u.groups[h].ids[m] == s.next && Distinct(u.groups[h].ids)
    ensures g.ids == u.groups[h].ids[m..] && g.configured == u.groups[h].ids
  {
    hide Flatten, ItemFrom, Interval, IntervalAt;
    h := SelectSound(u.groups, s.next);
    m := IndexOf(u.groups[h].ids, s.next);
    var q := GroupAt(u, h);
  }

  lemma PrefixPlace(u: Setup, c: Ctx, s: State, g: Group, pre: Sha, head: Sha, h: nat, m: nat, n: nat)
    requires ValidSetup(u) && c.pack == u.pack && h < |u.groups| && 0 < n && m + n < |u.groups[h].ids|
    requires g.ids == u.groups[h].ids[m..]
    ensures var s' := PrefixState(c, s, g, pre, head, n);
      s'.last == u.groups[h].ids[m + n - 1] && s'.next == u.groups[h].ids[m + n]
      && g.ids[..n] == u.groups[h].ids[m..m + n]
  {
    hide ItemFrom, Flatten, IntervalAt;
    var q := GroupAt(u, h);
    PrefixRun(u, u.groups[h].ids, q, m + n);
  }

  lemma ProgressStarts(u: Setup, s: State, s': State, h: nat, m: nat, n: nat, pre: Sha)
    requires h < |u.groups| && 0 < n && m + n < |u.groups[h].ids| && Follows(u, s.last, u.groups[h].ids[m])
    requires s'.last == u.groups[h].ids[m + n - 1] && s'.next == u.groups[h].ids[m + n]
    requires s'.progress == Some(Progress(u.groups[h].ids, [] + u.groups[h].ids[m..m + n], s.last, pre))
    ensures Live(u, s')
  {
    hide Follows;
    assert LiveAt(u, s', h, m, m + n);
  }

  lemma ProgressGrows(u: Setup, s: State, s': State, h: nat, m: nat, n: nat)
    requires ValidSetup(u) && Live(u, s) && h < |u.groups| && 0 < n && m + n < |u.groups[h].ids|
      && s.next == u.groups[h].ids[m]
    requires s'.last == u.groups[h].ids[m + n - 1] && s'.next == u.groups[h].ids[m + n]
    requires var p := s.progress.value;
      s'.progress == Some(Progress(u.groups[h].ids, p.completed + u.groups[h].ids[m..m + n], p.guidance, p.startCommit))
    ensures Live(u, s')
  {
    hide Follows, ItemFrom, Flatten, Interval, IntervalAt;
    var g: nat, k: nat, j: nat :| LiveAt(u, s, g, k, j);
    SameGroup(u, g, h, s.next);
    var q := GroupAt(u, h);
    assert j == m;
    SlicesJoin(u.groups[h].ids, k, j, n);
    assert LiveAt(u, s', h, k, j + n);
  }

  /** An accepted prefix of n prompts extends what was already recorded. */
  lemma PrefixProgress(u: Setup, c: Ctx, w: World, g: Group, n: nat)
    requires Fits(u, c) && InFlight(u, w) && ProgressInv(u, w) && w.state.status.Running?
    requires Select(u.groups, w.state.next) == Some(g) && 0 < n < |g.ids|
    ensures Live(u, PrefixState(c, w.state, g, w.state.commit, w.git.head, n))
  {
    hide Inv, Select, Follows, Live, Stale, ValidSetup, ExpectedNext;
    var s, s' := w.state, PrefixState(c, w.state, g, w.state.commit, w.git.head, n);
    var h, m := AtPosition(u, s, g);
    PrefixPlace(u, c, s, g, s.commit, w.git.head, h, m, n);
    if s.progress.None? {
      ProgressStarts(u, s, s', h, m, n, s.commit);
    } else {
      ProgressGrows(u, s, s', h, m, n);
    }
  }

  lemma ReconcileOrBlockProgress(u: Setup, c: Ctx, w: World, g: Group, messages: seq<Response>)
    requires Fits(u, c) && InFlight(u, w) && ProgressInv(u, w) && w.state.status.Running?
    requires g.ids != [] && g.ids[0] == w.state.next && Select(u.groups, w.state.next) == Some(g)
    ensures AllProgress(u, ReconcileOrBlock(c, w, w.state, g, w.state.commit, messages).writes)
  {
    hide Accounted, Select, Follows, NextOk, ReviewOk, RunOk, RecoverablePrefix, ValidGroup, LiveAt, StaleAt;
    var hs := RecoverablePrefix(c, w.git, g, w.state.commit, messages);
    if hs == [] {
      var b := if w.git.head == w.state.commit then ChildFailed else ManualReconciliation;
      ProgressKept(u, w, Final(w, Block(w, w.state, b)));
    } else {
      HandoffWritesProgress(u, w, hs);
      PrefixProgress(u, c, w, g, |hs|);
    }
  }

  lemma RecordGroupProgress(u: Setup, c: Ctx, w: World, g: Group, hs: seq<Handoff>)
    requires Inv(u, w) && ProgressInv(u, w) && g.ids != []
    ensures AllProgress(u, RecordGroup(c, w, w.state, g, hs).writes)
  {
    hide Accounted, NextOk, ReviewOk, RunOk, ExpectedNext, Live, Stale;
    HandoffWritesProgress(u, w, hs);
  }

  /** The leftover: the last prompt of a group accepted as a single prompt. */
  lemma SoloLeavesStale(u: Setup, c: Ctx, w: World, a: Active)
    requires Fits(u, c) && Inv(u, w) && ProgressInv(u, w) && w.state.status.Running? && w.state.active == Some(a)
    requires ReconcileSolo(c, w, a).ok && w.state.progress.Some?
    requires |a.ids| == 1
    ensures Stale(u, Final(w, ReconcileSolo(c, w, a)))
  {
    hide Accounted, Select, Follows, NextOk, ReviewOk, Interval, ValidPack, GroupsOk, LoadReports, ItemFrom;
    var g: nat, k: nat, j: nat :| LiveAt(u, w.state, g, k, j);
    var ids := u.groups[g].ids;
    RestOfGroup(u, g, j);
    assert |ids[j..]| == 1;
    assert ids[k..j] == ids[k..|ids| - 1];
    var w' := Final(w, ReconcileSolo(c, w, a));
    assert GuidanceOk(w.git, a.ids[0], ExpectedNext(c.pack, a.ids[0]).value);
    assert StaleAt(u, w', g, k);
  }

  lemma ReconcileSoloProgress(u: Setup, c: Ctx, w: World, a: Active)
    requires Fits(u, c) && Inv(u, w) && ProgressInv(u, w) && w.state.status.Running? && w.state.active == Some(a)
    requires a.efficient ==> |a.ids| <= 1
    ensures AllProgress(u, ReconcileSolo(c, w, a).writes)
  {
    hide Accounted, Select, Follows, NextOk, ReviewOk, ValidChild, LoadReports, ExpectedNext, ValidSetup, LiveAt,
      StaleAt;
    var e := ReconcileSolo(c, w, a);
    if e.writes != [] {
      ProgressKept(u, w, e.writes[0]);
      if w.state.progress.Some? {
        SoloLeavesStale(u, c, w, a);
      }
    }
  }

  lemma ReconcileProgress(u: Setup, c: Ctx, w: World)
    requires Fits(u, c) && Inv(u, w) && ProgressInv(u, w)
    ensures AllProgress(u, Reconcile(c, w).writes)
  {
    hide Accounted, ReconcileSolo, ReconcileGroup, Follows, Select, ProgressInv, NextOk, ReviewOk, RunOk;
    if w.state.status.Reviewing? {
      PairProgress(u, c, w);
    } else if w.state.status.Running? && w.state.active.Some? {
      var a := w.state.active.value;
      ProgressKept(u, w, w.(state := w.state.(status := Blocked, blocker := Some(InterruptedBeforeCommit),
        active := None)));
      if a.efficient && |a.ids| > 1 {
        ReconcileGroupProgress(u, c, w, a);
      } else {
        ReconcileSoloProgress(u, c, w, a);
      }
    }
  }

  lemma PairProgress(u: Setup, c: Ctx, w: World)
    requires Fits(u, c) && Inv(u, w) && ProgressInv(u, w) && w.state.status.Reviewing?
    ensures AllProgress(u, ReconcilePair(c, w).writes)
  {
    hide Inv, Live, Stale;
    NoProgressInReview(u, w);
  }

  lemma ReconcileGroupProgress(u: Setup, c: Ctx, w: World, a: Active)
    requires Fits(u, c) && Inv(u, w) && ProgressInv(u, w)
    requires w.state.status.Running? && w.state.active == Some(a) && a.efficient && |a.ids| > 1
    ensures AllProgress(u, ReconcileGroup(c, w, a).writes)
  {
    hide ProgressInv, ReconcileOrBlock, RecordGroup, ValidGroup, Accounted, NextOk, ReviewOk, Select, Follows;
    if w.files.log.Some? {
      ReconcileOrBlockProgress(u, c, w, ActiveGroup(a), c.pol.messages(w.files.log.value));
    }
    var final := if w.files.final.Some? then w.files.final.value else None;
    ParsedGroup(c, w.git, ActiveGroup(a), a.preHead, final, true);
    if ValidGroup(c, w.git, ActiveGroup(a), a.preHead, final, true) {
      RecordGroupProgress(u, c, w, ActiveGroup(a), final.value);
    }
  }

  // ----- step -----

  /** What is announced before a group and after it never agree. */
  lemma GuidanceMoved(u: Setup, guidance: PromptId, g: nat, k: nat)
    requires ValidSetup(u) && g < |u.groups| && k < |u.groups[g].ids| && Follows(u, guidance, u.groups[g].ids[k])
    ensures Elems(Expected(u, guidance)) != Elems(Expected(u, u.groups[g].ids[|u.groups[g].ids| - 1]))
  {
    hide Flatten, ItemFrom, Interval;
    var ids, b := u.groups[g].ids, Item(u.pack, guidance).value;
    var q := GroupAt(u, g);
    LastOfRun(u.pack, ids, q);
    var r: nat :| AfterItem(u.pack, b, r) && u.pack.order[r] == One(ids[k]);
    assert u.pack.order[q + k] == One(ids[k]);
    ItemOf(u.pack, q + k, ids[k]);
    ItemOf(u.pack, r, ids[k]);
    var x := Ids(u.pack.order[b + 1])[0];
    ItemOf(u.pack, b + 1, x);
    assert x in Elems(Expected(u, guidance));
    if x in Expected(u, ids[|ids| - 1]) {
      ItemOf(u.pack, q + |ids|, x);
    }
  }

  /** Guidance at HEAD announces what follows the group, so the check against the old place fails. */
  lemma StaleIsRejected(u: Setup, c: Ctx, w: World)
    requires Fits(u, c) && ValidRepo(w.git) && Stale(u, w)
    ensures !ValidStored(c, w)
  {
    hide Flatten, ItemFrom, WellFormed, Interval, Resolved, GoodRevList, Follows, ValidSetup;
    var g: nat, k: nat :| StaleAt(u, w, g, k);
    GuidanceMoved(u, w.state.progress.value.guidance, g, k);
  }

  lemma StepProgress(u: Setup, c: Ctx, w: World, env: StepEnv)
    requires Fits(u, c) && Startable(u, w) && ProgressInv(u, w) && ValidStored(c, w) && EnvOk(w.git, env)
    ensures AllProgress(u, Dispatch(c, w, env).writes)
  {
    hide Accounted, RunSolo, RunGroup, RunPair, IsReviewer, Resolved, Select, NextOk, ReviewOk, RunOk, ProgressInv,
      GuidanceCurrent, Follows;
    var id := w.state.next;
    ProgressKept(u, w, Final(w, StopWrite(w)));
    AtGroup(u, c, w);
    if IsReviewer(c.pack, id) {
      RunPairProgress(u, c, w, env);
    } else if c.cfg.profile.Efficient? && Resolved(c.pack, c.cfg.specs, c.cfg.maxIds).Ok?
        && Select(u.groups, id).Some? {
      RunGroupProgress(u, c, w, Select(u.groups, id).value, env);
    } else {
      if w.state.progress.None? { RunSoloProgress(u, c, w, env); }
    }
  }

  /** A validated state with progress is inside a group, under the efficient profile. */
  lemma AtGroup(u: Setup, c: Ctx, w: World)
    requires Fits(u, c) && Startable(u, w) && ProgressInv(u, w) && ValidStored(c, w)
    ensures w.state.progress.Some? ==>
      Live(u, w.state) && Select(u.groups, w.state.next).Some? && !IsReviewer(u.pack, w.state.next)
        && c.cfg.profile.Efficient?
  {
    hide Inv, GuidanceCurrent, Resolved, Select, Flatten, ItemFrom, ValidPack, Interval, Follows, GoodRevList;
    if w.state.progress.Some? {
      assert ValidRepo(w.git) by { AccountedRepo(u, w); }
      if Stale(u, w) {
        StaleIsRejected(u, c, w);
      }
      var g: nat, k: nat, j: nat :| LiveAt(u, w.state, g, k, j);
      InsideGroup(u, w.state, g, k, j);
      RestOfGroup(u, g, j);
    }
  }

  lemma AccountedRepo(u: Setup, w: World)
    requires Inv(u, w)
    ensures ValidRepo(w.git)
  {}

  lemma RunPairProgress(u: Setup, c: Ctx, w: World, env: StepEnv)
    requires w.state.progress.None?
    ensures AllProgress(u, RunPair(c, w, env).writes)
  {
    hide Live, Stale, ExpectedNext, ReviewFailure;
  }

  lemma RunSoloProgress(u: Setup, c: Ctx, w: World, env: StepEnv)
    requires w.state.progress.None?
    ensures AllProgress(u, RunSolo(c, w, env).writes)
  {
    hide Live, Stale, ExpectedNext, ValidChild, LoadReports;
  }

  lemma RunGroupProgress(u: Setup, c: Ctx, w: World, g: Group, env: StepEnv)
    requires Fits(u, c) && Startable(u, w) && ProgressInv(u, w) && !IsReviewer(u.pack, w.state.next)
      && Extends(w.git, env.child.git)
    requires w.state.progress.Some? ==> Live(u, w.state)
    requires g.ids != [] && g.ids[0] == w.state.next && Select(u.groups, w.state.next) == Some(g)
    ensures AllProgress(u, RunGroup(c, w, g, env).writes)
  {
    hide Accounted, NextOk, ReviewOk, RunOk, Follows, Select, FinishGroup, Stale, LiveAt;
    if RunGroup(c, w, g, env).writes != [] {
      StartableFollows(u, w);
      var a := Active(g.ids, g.configured, g.subject, w.git.head, true);
      assert ActiveGroup(a) == g;
      ClearedKeeps(u, w.state, a);
      var w1 := w.(state := Cleared(w.state).(status := Running, active := Some(a)), files := NO_FILES);
      var w2 := w1.(git := env.child.git, files := env.child.files);
      RunningInv(u, w, w1);
      LaunchedLive(u, w, w1, a);
      RunningInv(u, w1, w2);
      ProgressKept(u, w1, w2);
      FinishGroupProgress(u, c, w2, env.child, g);
    }
  }

  lemma LaunchedLive(u: Setup, w: World, w1: World, a: Active)
    requires w.state.progress.Some? ==> Live(u, w.state)
    requires w1.state.progress == w.state.progress && w1.state.last == w.state.last && w1.state.next == w.state.next
    requires w1.state.active == Some(a) && a.efficient && Select(u.groups, w.state.next) == Some(ActiveGroup(a))
    ensures ProgressInv(u, w1)
  {
    hide Select, Follows;
    if w.state.progress.Some? {
      var g: nat, k: nat, j: nat :| LiveAt(u, w.state, g, k, j);
      assert LiveAt(u, w1.state, g, k, j);
    }
  }

  lemma FinishGroupProgress(u: Setup, c: Ctx, w: World, r: ChildRun, g: Group)
    requires Fits(u, c) && InFlight(u, w) && ProgressInv(u, w) && w.state.status.Running?
    requires g.ids != [] && g.ids[0] == w.state.next && Select(u.groups, w.state.next) == Some(g)
    ensures AllProgress(u, FinishGroup(c, w, r, g, w.state.commit).writes)
  {
    hide Inv, ProgressInv, Follows, ValidGroup, Select, RecordGroup, ReconcileOrBlock;
    ParsedGroup(c, w.git, g, w.state.commit, r.final, true);
    if ValidGroup(c, w.git, g, w.state.commit, r.final, true) {
      RecordGroupProgress(u, c, w, g, r.final.value);
    }
    ReconcileOrBlockProgress(u, c, w, g, r.messages);
  }

  // ----- runs -----

  lemma FinalProgress(u: Setup, w: World, e: Eff)
    requires ProgressInv(u, w) && AllProgress(u, e.writes)
    ensures ProgressInv(u, Final(w, e))
  {
    hide ProgressInv;
  }

  lemma EffectProgress(u: Setup, c: Ctx, w: World, command: Command)
    requires Fits(u, c) && Inv(u, w) && ProgressInv(u, w) && CommandOk(w, command)
    ensures AllProgress(u, Effect(c, w, command).writes)
  {
    hide Inv, ProgressInv, Reconcile, Dispatch, ValidStored, Startable, Fits, StaticOk;
    ReconcileProgress(u, c, w);
    var checks := match command case DoValidate(ok) => ok case DoStep(env) => env.checks case DoStop(ok) => ok;
    var e := Validate(c, w, checks);
    FinalProgress(u, w, e);
    if e.ok {
      ValidateInv(u, c, w, checks);
      StoppedProgress(u, Final(w, e));
      if command.DoStep? { StepProgress(u, c, Final(w, e), command.env); }
    }
  }

  lemma StoppedProgress(u: Setup, w: World)
    requires Startable(u, w) && ProgressInv(u, w)
    ensures ProgressInv(u, StopWrite(w).writes[0])
  {
    hide Accounted, ProgressInv, NextOk, ReviewOk, RunOk;
    ProgressKept(u, w, StopWrite(w).writes[0]);
  }

  lemma ApplyProgress(u: Setup, pol: Policy, w: World, e: Event)
    requires ValidSetup(u) && GoodRevList(pol.revList) && Inv(u, w) && ProgressInv(u, w)
    requires e.Cmd? ==> ConfigOk(u, e.cfg)
    ensures ProgressInv(u, Apply(u, pol, w, e))
  {
    hide Accounted, Effect, NextOk, ReviewOk, RunOk, ValidSetup, ProgressInv;
    match e
    case Outside(git, files, review1, review2) =>
      if Extends(w.git, git) {
        ProgressKept(u, w, w.(git := git, files := files, review1 := review1, review2 := review2));
      }
    case Cmd(cfg, command, cut) =>
      if CommandOk(w, command) {
        EffectProgress(u, Ctx(u.pack, pol, cfg), w, command);
      }
    case Interrupt =>
      ProgressKept(u, w, w.(state := w.state.(blocker := Some(Signal))));
  }

  lemma {:induction false} RunProgress(u: Setup, pol: Policy, w: World, events: seq<Event>)
    requires ValidSetup(u) && GoodRevList(pol.revList) && Inv(u, w) && ProgressInv(u, w) && SameGroups(u, events)
    ensures Inv(u, Run(u, pol, w, events)) && ProgressInv(u, Run(u, pol, w, events))
  {
    hide Inv, ProgressInv, Apply, ConfigOk, ValidSetup, GoodRevList;
    RunInv(u, pol, w, events);
    if events != [] {
      var front, e := events[..|events| - 1], events[|events| - 1];
      RunProgress(u, pol, w, front);
      assert e.Cmd? ==> ConfigOk(u, e.cfg);
      ApplyProgress(u, pol, Run(u, pol, w, front), e);
    }
  }

  // ----- completed and selected prompts -----

  /** What would be selected to run next. */
  function Rest(u: Setup, next: PromptId): seq<PromptId> {
    if Select(u.groups, next).Some? then Select(u.groups, next).value.ids else []
  }

  /** The recorded prompts, continued by what would be selected, are the configured group from its k-th prompt on. */
  predicate SuffixAt(u: Setup, s: State, k: nat) {
    && s.progress.Some?
    && var p := s.progress.value;
    k < |p.configured| && p.completed + Rest(u, s.next) == p.configured[k..]
  }

  ghost predicate IsSuffix(u: Setup, s: State) {
    exists k: nat :: SuffixAt(u, s, k)
  }

  /** The position is at the configured group's last prompt. */
  predicate AtGroupEnd(s: State) {
    && s.progress.Some? && s.progress.value.configured != []
    && s.last == s.progress.value.configured[|s.progress.value.configured| - 1]
  }

  lemma LiveSuffix(u: Setup, s: State, g: nat, k: nat, j: nat)
    requires ValidSetup(u) && LiveAt(u, s, g, k, j)
    ensures SuffixAt(u, s, k) && Select(u.groups, s.next).Some? && !AtGroupEnd(s)
  {
    hide Follows, Flatten, Interval, Select, IntervalAt;
    RestOfGroup(u, g, j);
    var ids := u.groups[g].ids;
    var q := GroupAt(u, g);
    assert ids[k..j] + ids[j..] == ids[k..];
  }

  /** A prompt of a task that is due after item k comes later. */
  lemma DueLater(u: Setup, s: State, k: nat)
    requires ValidPack(u.pack) && NextOk(u, s) && Item(u.pack, s.last) == Some(k) && TaskOf(s.next).Some?
    ensures Item(u.pack, s.next).Some? && Item(u.pack, s.next).value > k
  {
    hide Flatten, ItemFrom, ValidPack;
    var e := Expected(u, s.last);
    if s.next == R3 && e == [R1, R2] {
      PairThenR3(u.pack, k + 1);
      ItemOf(u.pack, k + 2, R3);
    } else if e != [] {
      ItemOf(u.pack, k + 1, s.next);
    }
  }

  lemma PairThenR3(p: Pack, k: nat)
    requires ValidPack(p) && k < |p.order| && Ids(p.order[k]) == [R1, R2]
    ensures k + 1 < |p.order| && p.order[k + 1] == One(R3)
  {
    hide Flatten;
    assert p.order[k] == Reviewers([R1, R2]);
  }

  /** What follows a group is not in it. */
  lemma NextOutside(u: Setup, s: State, g: nat)
    requires ValidSetup(u) && NextOk(u, s) && g < |u.groups|
    requires s.last == u.groups[g].ids[|u.groups[g].ids| - 1]
    ensures s.next !in u.groups[g].ids
  {
    hide Flatten, ItemFrom, NextOk, ValidPack;
    var ids := u.groups[g].ids;
    var q := GroupAt(u, g);
    LastOfRun(u.pack, ids, q);
    if s.next in ids {
      var m: nat :| m < |ids| && ids[m] == s.next;
      InRun(u, g, m);
      assert u.pack.order[q + m] == One(ids[m]);
      ItemOf(u.pack, q + m, s.next);
      DueLater(u, s, q + |ids| - 1);
    }
  }

  lemma InRun(u: Setup, g: nat, m: nat)
    requires ValidSetup(u) && g < |u.groups| && m < |u.groups[g].ids|
    ensures TaskOf(u.groups[g].ids[m]).Some?
  {
    hide Flatten, ItemFrom, ValidPack, TaskOf;
    assert Interval(u.pack, u.groups[g].ids);
  }

  lemma StaleNoSuffix(u: Setup, w: World, g: nat, k: nat)
    requires ValidSetup(u) && Inv(u, w) && StaleAt(u, w, g, k)
    ensures !IsSuffix(u, w.state) && AtGroupEnd(w.state)
  {
    hide Accounted, Follows, Flatten, Interval, IntervalAt, ItemFrom, Select, ReviewOk, RunOk, AnnouncesNext;
    var s, ids := w.state, u.groups[g].ids;
    var q := GroupAt(u, g);
    NextOutside(u, s, g);
    var done, rest := s.progress.value.completed, Rest(u, s.next);
    forall m: nat | m < |ids| ensures done + rest != ids[m..] {
      if rest != [] {
        assert (done + rest)[|done|] == s.next;
        assert s.next in done + rest && s.next !in ids[m..];
      } else {
        assert ids[m..][|ids| - m - 1] == ids[|ids| - 1];
        assert done + rest == done && forall i :: 0 <= i < |done| ==> done[i] == ids[k + i];
      }
    }
  }

  /** However often an efficient group is interrupted, what is recorded as completed followed by
      what would be selected next is a suffix of the configured group if and only if the position
      is short of the group's last prompt. It is all of the group exactly when that was entered
      at its first prompt. */
  lemma GroupProgressIsSuffix(u: Setup, pol: Policy, w: World, events: seq<Event>)
    requires ValidSetup(u) && GoodRevList(pol.revList) && Adopted(u, w) && SameGroups(u, events)
    requires Run(u, pol, w, events).state.progress.Some?
    ensures var s := Run(u, pol, w, events).state;
      var p := s.progress.value;
      && p.configured != [] && (exists g: nat :: g < |u.groups| && p.configured == u.groups[g].ids)
      && (IsSuffix(u, s) <==> s.last != p.configured[|p.configured| - 1])
      && (forall k: nat :: SuffixAt(u, s, k) ==>
            && Follows(u, p.guidance, p.configured[k])
            && (p.completed + Rest(u, s.next) == p.configured <==> k == 0))
  {
    hide Inv, Select, Run, Follows, ValidPack, Interval, GoodRevList, SameGroups, StaleAt, SuffixAt;
    AdoptInv(u, w);
    RunProgress(u, pol, w, events);
    SuffixExactly(u, Run(u, pol, w, events));
  }

  lemma SuffixExactly(u: Setup, w: World)
    requires ValidSetup(u) && Inv(u, w) && ProgressInv(u, w) && w.state.progress.Some?
    ensures var s := w.state;
      var p := s.progress.value;
      && p.configured != [] && (exists g: nat :: g < |u.groups| && p.configured == u.groups[g].ids)
      && (IsSuffix(u, s) <==> !AtGroupEnd(s))
      && (forall k: nat :: SuffixAt(u, s, k) ==>
            && Follows(u, p.guidance, p.configured[k])
            && (p.completed + Rest(u, s.next) == p.configured <==> k == 0))
  {
    hide Inv, Follows, Select, Flatten, Interval, IntervalAt;
    var s, p := w.state, w.state.progress.value;
    if Live(u, s) {
      var g: nat, k: nat, j: nat :| LiveAt(u, s, g, k, j);
      var q := GroupAt(u, g);
      LiveSuffix(u, s, g, k, j);
      forall m: nat | SuffixAt(u, s, m) ensures m == k {
        assert |p.configured[m..]| == |p.configured[k..]|;
      }
    } else {
      var g: nat, k: nat :| StaleAt(u, w, g, k);
      var q := GroupAt(u, g);
      StaleNoSuffix(u, w, g, k);
    }
  }
}
