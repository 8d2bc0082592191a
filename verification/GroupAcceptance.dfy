/** What acceptance of a group, or of a committed prefix of one, means: which reports and
    repositories it takes, and exactly what is stored then. */
module GroupAcceptance {
  import opened Prelude
  import opened GitModel
  import opened PromptPack
  import opened Protocol
  import opened Ledger
  import opened History
  import opened Runs
  import opened Recovery
  import opened Refused
  import opened Commands
  import opened Acceptance

  // ----- the reports -----

  /** Handoff i is that of prompt i, complete, and announces the next prompt of the group; the last
      one announces what the order index lists. */
  ghost predicate Announces(c: Ctx, g: Group, h: Handoff, i: nat)
    requires i < |g.ids|
  {
    && h.prompt == g.ids[i] && h.complete
    && (i + 1 < |g.ids| ==> h.next == [g.ids[i + 1]])
    && (i + 1 == |g.ids| ==> FollowedBy(c.pack, g.ids[i], h.next))
  }

  /** One commit per prompt: handoff i reports commit i under the prompt's exact subject, and that
      commit continues the one before. */
  ghost predicate OwnCommit(c: Ctx, git: Repo, pre: Sha, l: seq<Sha>, id: PromptId, h: Handoff, i: nat)
    requires i < |l|
  {
    && l[i] < |git.commits| && id in c.pack.prompts && c.pack.prompts[id].subject == Some(git.commits[l[i]].subject)
    && h.commit == Some(Reported(l[i], git.commits[l[i]].subject))
    && git.commits[l[i]].parents != [] && git.commits[l[i]].parents[0] == (if i == 0 then pre else l[i - 1])
  }

  /** One commit for the whole group, reported by the last handoff only, under the group's subject. */
  predicate SharedCommit(git: Repo, subject: string, l: seq<Sha>, h: Handoff, last: bool)
    requires |l| == 1
  {
    && (!last ==> h.commit == None)
    && (last ==>
          && l[0] < |git.commits| && git.commits[l[0]].subject == subject
          && h.commit == Some(Reported(l[0], subject)))
  }

  ghost predicate ItemDelivered(c: Ctx, git: Repo, g: Group, pre: Sha, l: seq<Sha>, h: Handoff, i: nat)
    requires i < |g.ids| && |l| == (if g.subject.Some? then 1 else |g.ids|)
  {
    && Announces(c, g, h, i)
    && (match g.subject
        case None => OwnCommit(c, git, pre, l, g.ids[i], h, i)
        case Some(subject) => SharedCommit(git, subject, l, h, i + 1 == |g.ids|))
    && c.pol.groupItemOk(git, g, i, if g.subject.None? && i > 0 then l[i - 1] else pre, h)
  }

  ghost predicate ShownAfter(c: Ctx, git: Repo, id: PromptId, e: seq<PromptId>) {
    FollowedBy(c.pack, id, e) && GuidanceShows(git, id, e)
  }

  ghost predicate EndShown(c: Ctx, git: Repo, id: PromptId) {
    exists e :: ShownAfter(c, git, id, e)
  }

  /** The whole response; whole says whether the group ends here, where guidance must follow. */
  ghost predicate GroupDelivered(c: Ctx, git: Repo, g: Group, pre: Sha, hs: seq<Handoff>, whole: bool) {
    var l := c.pol.revList(git.commits, pre, git.head);
    && |hs| == |g.ids| && |l| == (if g.subject.Some? then 1 else |g.ids|)
    && (forall i :: 0 <= i < |g.ids| ==> ItemDelivered(c, git, g, pre, l, hs[i], i))
    && (g.subject.None? ==> git.head == if l == [] then pre else l[|l| - 1])
    && (whole || g.subject == None)
    && AtMostFindings(git) && c.pol.groupEndOk(git, g, pre, hs, whole)
    && (whole && g.ids != [] ==> EndShown(c, git, g.ids[|g.ids| - 1]))
  }

  lemma ItemExactly(c: Ctx, git: Repo, g: Group, pre: Sha, l: seq<Sha>, hs: seq<Handoff>, i: nat)
    requires i < |g.ids| == |hs| && |l| == (if g.subject.Some? then 1 else |g.ids|)
    ensures hs[i].prompt == g.ids[i] && GroupItemValid(c, git, g, pre, l, hs, i)
      <==> ItemDelivered(c, git, g, pre, l, hs[i], i)
  {
    hide ExpectedNext, FollowedBy;
    FollowedExactly(c.pack, g.ids[i], hs[i].next);
  }

  lemma GroupExactly(c: Ctx, git: Repo, g: Group, pre: Sha, final: Response, whole: bool)
    ensures ValidGroup(c, git, g, pre, final, whole) <==>
      final.Some? && GroupDelivered(c, git, g, pre, final.value, whole)
  {
    hide ExpectedNext, FollowedBy, GroupItemValid, ItemDelivered;
    var l := c.pol.revList(git.commits, pre, git.head);
    if final.Some? && |final.value| == |g.ids| && |l| == (if g.subject.Some? then 1 else |g.ids|) {
      forall i | 0 <= i < |g.ids|
        ensures final.value[i].prompt == g.ids[i] && GroupItemValid(c, git, g, pre, l, final.value, i)
          <==> ItemDelivered(c, git, g, pre, l, final.value[i], i)
      {
        ItemExactly(c, git, g, pre, l, final.value, i);
      }
      if g.ids != [] { EndGuidance(c, git, g.ids[|g.ids| - 1]); }
    }
  }

  lemma EndGuidance(c: Ctx, git: Repo, id: PromptId)
    ensures ExpectedNext(c.pack, id).Some? && GuidanceOk(git, id, ExpectedNext(c.pack, id).value)
      <==> EndShown(c, git, id)
  {
    hide ExpectedNext, FollowedBy;
    if ExpectedNext(c.pack, id).Some? {
      var e := ExpectedNext(c.pack, id).value;
      FollowedExactly(c.pack, id, e);
      assert GuidanceOk(git, id, e) <==> GuidanceShows(git, id, e);
      if GuidanceOk(git, id, e) { assert ShownAfter(c, git, id, e); }
    }
    if e :| ShownAfter(c, git, id, e) { FollowedExactly(c.pack, id, e); }
  }

  // ----- what is stored -----

  /** Each handoff is stored under its own prompt, and nothing else is touched. */
  ghost predicate Stored(m: map<PromptId, Handoff>, m': map<PromptId, Handoff>, ids: seq<PromptId>, hs: seq<Handoff>)
    requires |ids| == |hs|
  {
    && (forall i :: 0 <= i < |ids| ==> ids[i] in m' && m'[ids[i]] == hs[i])
    && (forall id :: id !in ids ==> (id in m' <==> id in m) && (id in m ==> m'[id] == m[id]))
  }

  lemma {:induction false} AddedExactly(m: map<PromptId, Handoff>, ids: seq<PromptId>, hs: seq<Handoff>)
    requires Distinct(ids) && |ids| == |hs| && forall i :: 0 <= i < |ids| ==> hs[i].prompt == ids[i]
    ensures Stored(m, AddHandoffs(m, hs), ids, hs)
    decreases hs
  {
    if hs != [] {
      var m1 := m[hs[0].prompt := hs[0]];
      AddedExactly(m1, ids[1..], hs[1..]);
      assert ids == [ids[0]] + ids[1..] && ids[0] !in ids[1..];
      assert forall i :: 0 < i < |ids| ==> ids[1..][i - 1] == ids[i] && hs[1..][i - 1] == hs[i];
    }
  }

  /** A group: what it takes to be accepted, and everything that is stored then. */
  lemma GroupAccepted(c: Ctx, w: World, g: Group, env: StepEnv)
    requires g.ids != [] && Distinct(g.ids)
    ensures var git, final, e, id := env.child.git, env.child.final, RunGroup(c, w, g, env), g.ids[|g.ids| - 1];
      && (e.ok <==>
            && w.state.last in w.handoffs && env.promptOk && EndedWell(env.child)
            && final.Some? && GroupDelivered(c, git, g, w.git.head, final.value, true))
      && (e.ok ==>
            && |final.value| == |g.ids| && Stored(w.handoffs, Final(w, e).handoffs, g.ids, final.value)
            && Final(w, e).reports == w.reports && Final(w, e).git == git && Final(w, e).files == env.child.files
            && exists follow :: FollowedBy(c.pack, id, follow)
                 && StandsAt(w.state, Final(w, e).state, id, git.head, follow, None))
  {
    hide ValidGroup, GroupDelivered, FollowedBy, StandsAt, FinishGroup, RunGroup, Stored, Distinct;
    GroupStarts(c, w, g, env);
    GroupExactly(c, env.child.git, g, w.git.head, env.child.final, true);
    if RunGroup(c, w, g, env).launches != [] { GroupRan(c, w, g, env); }
    if RunGroup(c, w, g, env).ok {
      GroupEnds(c, w, g, env);
      AddedExactly(w.handoffs, g.ids, env.child.final.value);
      var id := g.ids[|g.ids| - 1];
      var follow := GroupFollow(c, env.child.git, g, w.git.head, env.child.final.value);
      var s := RunGroup(c, w, g, env).writes[1].state;
      Completes(c.pack, s, id, env.child.git.head, follow, true);
      SameStand(s, w.state, Final(w, RunGroup(c, w, g, env)).state, id, env.child.git.head, follow, None);
    }
  }

  lemma GroupStarts(c: Ctx, w: World, g: Group, env: StepEnv)
    requires g.ids != []
    ensures RunGroup(c, w, g, env).launches != [] <==> w.state.last in w.handoffs && env.promptOk
    ensures RunGroup(c, w, g, env).launches == [] ==> !RunGroup(c, w, g, env).ok
  {
    hide FinishGroup;
  }

  lemma GroupFollow(c: Ctx, git: Repo, g: Group, pre: Sha, hs: seq<Handoff>) returns (e: seq<PromptId>)
    requires g.ids != [] && GroupDelivered(c, git, g, pre, hs, true)
    ensures FollowedBy(c.pack, g.ids[|g.ids| - 1], e)
  {
    hide FollowedBy, ItemDelivered;
    e :| ShownAfter(c, git, g.ids[|g.ids| - 1], e);
  }

  lemma GroupEnds(c: Ctx, w: World, g: Group, env: StepEnv)
    requires g.ids != [] && RunGroup(c, w, g, env).ok
    ensures var e, hs, s := RunGroup(c, w, g, env), env.child.final, RunGroup(c, w, g, env).writes[1].state;
      && hs.Some? && |hs.value| == |g.ids| && (forall i :: 0 <= i < |g.ids| ==> hs.value[i].prompt == g.ids[i])
      && s.failed == w.state.failed && s.finished == w.state.finished && s.review == w.state.review
      && Final(w, e).handoffs == AddHandoffs(w.handoffs, hs.value)
      && Final(w, e).state == CompleteState(c.pack, s, g.ids[|g.ids| - 1], env.child.git.head, true)
      && Final(w, e).reports == w.reports && Final(w, e).git == env.child.git && Final(w, e).files == env.child.files
  {
    hide ExpectedNext, ValidGroup, CompleteState, RecoverablePrefix, PrefixState, HandoffWrites, AddHandoffs;
    var w2 := RunGroup(c, w, g, env).writes[1];
    ParsedGroup(c, w2.git, g, w.git.head, env.child.final, true);
  }

  /** Recovery of a group of several prompts accepts the same deliveries, read from the files. */
  lemma RecoveredGroupAccepted(c: Ctx, w: World, a: Active)
    requires |a.ids| > 1 && Distinct(a.ids)
    ensures var f, e, g, id := w.files, ReconcileGroup(c, w, a), ActiveGroup(a), a.ids[|a.ids| - 1];
      && (e.ok <==>
            && f.log.Some? && c.pol.logOk(f.log.value, GroupAudit(a.ids))
            && f.receipt.Receipt? && !f.receipt.active && f.receipt.exit == Some(0)
            && f.final.Some? && f.final.value.Some?
            && GroupDelivered(c, w.git, g, a.preHead, f.final.value.value, true))
      && (e.ok ==>
            && |f.final.value.value| == |a.ids| && Stored(w.handoffs, Final(w, e).handoffs, a.ids, f.final.value.value)
            && Final(w, e).reports == w.reports && Final(w, e).git == w.git
            && exists follow :: FollowedBy(c.pack, id, follow)
                 && StandsAt(w.state, Final(w, e).state, id, w.git.head, follow, None))
  {
    hide ValidGroup, GroupDelivered, FollowedBy, StandsAt, Stored, Distinct, CompleteState, RecoverablePrefix,
      HandoffWrites, AddHandoffs, ExpectedNext;
    var f, g := w.files, ActiveGroup(a);
    var final := if f.final.Some? then f.final.value else None;
    GroupExactly(c, w.git, g, a.preHead, final, true);
    ParsedGroup(c, w.git, g, a.preHead, final, true);
    if ReconcileGroup(c, w, a).ok {
      AddedExactly(w.handoffs, g.ids, final.value);
      var follow := GroupFollow(c, w.git, g, a.preHead, final.value);
      Completes(c.pack, w.state, a.ids[|a.ids| - 1], w.git.head, follow, true);
    }
  }

  // ----- committed prefixes -----

  /** The last message that is exactly one handoff of id. */
  ghost predicate LastMessage(messages: seq<Response>, id: PromptId, h: Handoff) {
    exists m :: 0 <= m < |messages| && IsLastMessage(messages, id, h, m)
  }

  ghost predicate IsLastMessage(messages: seq<Response>, id: PromptId, h: Handoff, m: nat)
    requires m < |messages|
  {
    messages[m] == Some([h]) && h.prompt == id && forall n :: m < n < |messages| ==> !Speaks(messages[n], id)
  }

  predicate Speaks(message: Response, id: PromptId) {
    message.Some? && |message.value| == 1 && message.value[0].prompt == id
  }

  lemma {:induction false} CheckpointExactly(messages: seq<Response>, id: PromptId, h: Handoff)
    ensures Checkpoint(messages, id) == Some(h) <==> LastMessage(messages, id, h)
  {
    if messages != [] {
      var n := |messages| - 1;
      var front, last := messages[..n], messages[n];
      CheckpointExactly(front, id, h);
      if Speaks(last, id) {
        assert last.value == [last.value[0]];
        if Checkpoint(messages, id) == Some(h) { assert IsLastMessage(messages, id, h, n); }
      } else {
        if LastMessage(front, id, h) {
          var m :| 0 <= m < n && IsLastMessage(front, id, h, m);
          assert IsLastMessage(messages, id, h, m);
        }
        if LastMessage(messages, id, h) {
          var m :| 0 <= m <= n && IsLastMessage(messages, id, h, m);
          assert IsLastMessage(front, id, h, m);
        }
      }
    }
  }

  /** hs is the longest run of completed last messages for the first of ids. */
  ghost predicate LongestRun(messages: seq<Response>, ids: seq<PromptId>, hs: seq<Handoff>) {
    && |hs| <= |ids|
    && (forall i :: 0 <= i < |hs| ==> LastMessage(messages, ids[i], hs[i]) && hs[i].complete)
    && (|hs| < |ids| ==> forall h :: LastMessage(messages, ids[|hs|], h) ==> !h.complete)
  }

  lemma {:induction false} PrefixExactly(messages: seq<Response>, ids: seq<PromptId>)
    ensures LongestRun(messages, ids, Prefix(messages, ids))
    decreases ids
  {
    hide Checkpoint, LastMessage;
    if ids != [] {
      forall h: Handoff ensures Checkpoint(messages, ids[0]) == Some(h) <==> LastMessage(messages, ids[0], h) {
        CheckpointExactly(messages, ids[0], h);
      }
      PrefixExactly(messages, ids[1..]);
    }
  }

  lemma LongestIsOne(messages: seq<Response>, ids: seq<PromptId>, hs: seq<Handoff>)
    requires LongestRun(messages, ids, hs)
    ensures hs == Prefix(messages, ids)
    decreases ids
  {
    hide Checkpoint, LastMessage;
    if ids != [] {
      forall h: Handoff ensures Checkpoint(messages, ids[0]) == Some(h) <==> LastMessage(messages, ids[0], h) {
        CheckpointExactly(messages, ids[0], h);
      }
      if hs != [] {
        assert forall i :: 0 < i < |hs| ==> hs[1..][i - 1] == hs[i] && ids[1..][i - 1] == ids[i];
        LongestIsOne(messages, ids[1..], hs[1..]);
        assert hs == [hs[0]] + hs[1..];
      }
    }
  }

  /** What it takes to keep the committed prefix hs of an unfinished group: HEAD moved, no shared
      commit, hs the longest run of completed last messages short of the last prompt, one commit
      each and in order, and the prefix is delivered as such. */
  ghost predicate PrefixKept(c: Ctx, git: Repo, g: Group, pre: Sha, messages: seq<Response>, hs: seq<Handoff>) {
    var l := c.pol.revList(git.commits, pre, git.head);
    && git.head != pre && g.subject == None && g.ids != [] && hs != []
    && LongestRun(messages, g.ids[..|g.ids| - 1], hs)
    && |l| == |hs| && (forall i :: 0 <= i < |hs| ==> hs[i].commit.Some? && hs[i].commit.value.sha == l[i])
    && GroupDelivered(c, git, Group(g.ids[..|hs|], None, g.configured), pre, hs, false)
  }

  lemma PrefixKeptExactly(c: Ctx, git: Repo, g: Group, pre: Sha, messages: seq<Response>, hs: seq<Handoff>)
    ensures hs != [] ==>
      (RecoverablePrefix(c, git, g, pre, messages) == hs <==> PrefixKept(c, git, g, pre, messages, hs))
  {
    hide ValidGroup, GroupDelivered, LongestRun, Prefix;
    if g.ids != [] {
      var ids := g.ids[..|g.ids| - 1];
      PrefixExactly(messages, ids);
      var p := Prefix(messages, ids);
      GroupExactly(c, git, Group(g.ids[..|p|], None, g.configured), pre, Some(p), false);
      if LongestRun(messages, ids, hs) { LongestIsOne(messages, ids, hs); }
    }
  }

  /** Where a kept prefix leaves the state. */
  predicate StandsInside(s: State, s': State, g: Group, pre: Sha, head: Sha, hs: seq<Handoff>)
    requires 0 < |hs| < |g.ids|
  {
    var n := |hs|;
    && s'.last == g.ids[n - 1] && s'.commit == head && s'.status == Blocked && s'.blocker == Some(GroupPrefix)
    && s'.next == (if hs[n - 1].next == [] then "STOP" else hs[n - 1].next[0])
    && s'.failed == s.active && s'.active == None && s'.review == s.review && s'.finished == s.finished
    && s'.progress.Some?
    && var p := s'.progress.value;
    && p.configured == g.configured
    && (s.progress.None? ==> p.completed == g.ids[..n] && p.guidance == s.last && p.startCommit == pre)
    && (s.progress.Some? ==>
          && p.completed == s.progress.value.completed + g.ids[..n]
          && p.guidance == s.progress.value.guidance && p.startCommit == s.progress.value.startCommit)
  }

  /** An unfinished group whose prefix hs is kept: that is stored prompt by prompt. */
  lemma KeptPrefix(c: Ctx, w: World, g: Group, pre: Sha, messages: seq<Response>, hs: seq<Handoff>)
    requires Distinct(g.ids) && PrefixKept(c, w.git, g, pre, messages, hs)
    ensures var e := ReconcileOrBlock(c, w, w.state, g, pre, messages);
      var v := Final(w, e);
      && !e.ok && v.git == w.git && v.reports == w.reports && v.files == w.files
      && 0 < |hs| < |g.ids| && StandsInside(w.state, v.state, g, pre, w.git.head, hs)
      && Stored(w.handoffs, v.handoffs, g.ids[..|hs|], hs)
  {
    hide PrefixKept, Stored, ExpectedNext, HandoffWrites, RecoverablePrefix, AddHandoffs, Distinct;
    NeverEmpty(c, w.git, g, pre, messages, hs);
    PrefixKeptExactly(c, w.git, g, pre, messages, hs);
    PrefixParsed(c, w.git, g, pre, messages, hs);
    PrefixDistinct(g.ids, |hs|);
    AddedExactly(w.handoffs, g.ids[..|hs|], hs);
  }

  /** Otherwise the run is blocked as it stands. Either way the command fails. */
  lemma NothingKept(c: Ctx, w: World, g: Group, pre: Sha, messages: seq<Response>)
    requires forall hs :: !PrefixKept(c, w.git, g, pre, messages, hs)
    ensures var e := ReconcileOrBlock(c, w, w.state, g, pre, messages);
      var v := Final(w, e);
      && !e.ok && v == w.(state := v.state)
      && v.state == w.state.(status := Blocked, failed := w.state.active, active := None,
           blocker := Some(if w.git.head == pre then ChildFailed else ManualReconciliation))
  {
    hide PrefixKept, RecoverablePrefix, ExpectedNext, HandoffWrites;
    PrefixKeptExactly(c, w.git, g, pre, messages, RecoverablePrefix(c, w.git, g, pre, messages));
  }

  lemma NeverEmpty(c: Ctx, git: Repo, g: Group, pre: Sha, messages: seq<Response>, hs: seq<Handoff>)
    requires PrefixKept(c, git, g, pre, messages, hs)
    ensures hs != []
  {
    hide GroupDelivered, LongestRun;
  }

  lemma PrefixDistinct(ids: seq<PromptId>, n: nat)
    requires Distinct(ids) && n <= |ids|
    ensures Distinct(ids[..n])
  {}

  lemma PrefixParsed(c: Ctx, git: Repo, g: Group, pre: Sha, messages: seq<Response>, hs: seq<Handoff>)
    requires PrefixKept(c, git, g, pre, messages, hs)
    ensures 0 < |hs| < |g.ids| && forall i :: 0 <= i < |hs| ==> hs[i].prompt == g.ids[i]
    ensures ExpectedNext(c.pack, g.ids[|hs| - 1]) == Some(hs[|hs| - 1].next)
  {
    hide FollowedBy, ExpectedNext;
    var n, l := |hs|, c.pol.revList(git.commits, pre, git.head);
    var part := Group(g.ids[..n], None, g.configured);
    forall i | 0 <= i < n ensures hs[i].prompt == g.ids[i] {
      assert ItemDelivered(c, git, part, pre, l, hs[i], i);
    }
    assert ItemDelivered(c, git, part, pre, l, hs[n - 1], n - 1);
    FollowedExactly(c.pack, g.ids[n - 1], hs[n - 1].next);
  }
}
