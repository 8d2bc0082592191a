/** Every durable world the supervisor can pass through keeps its position accounted for:
    the invariant of the run and recovery protocol. */
module History {
  import opened Prelude
  import opened GitModel
  import opened PromptPack
  import opened Protocol
  import opened Ledger

  // ----- accepted boundaries are ledger entries -----

  lemma {:induction false} AncestorsTransitive(cs: seq<Commit>, a: Sha, b: Sha)
    requires WellFormed(cs) && b < |cs| && a in Ancestors(cs, b)
    ensures a < |cs| && Ancestors(cs, a) <= Ancestors(cs, b)
    decreases b
  {
    AncestorsBelow(cs, b);
    if a != b {
      var p :| p in cs[b].parents && a in Ancestors(cs, p);
      AncestorsTransitive(cs, a, p);
    }
  }

  /** A single listed commit is HEAD itself. */
  lemma SingleNewCommit(cs: seq<Commit>, pre: Sha, head: Sha, l: seq<Sha>)
    requires WellFormed(cs) && pre < |cs| && head < |cs|
    requires Distinct(l) && Elems(l) == Between(cs, pre, head) && |l| == 1
    ensures l[0] == head && Between(cs, pre, head) == {head}
  {
    hide Ancestors, WellFormed;
    SelfAncestor(cs, head);
    assert l[0] in Elems(l);
    if head in Ancestors(cs, pre) {
      AncestorsTransitive(cs, head, pre);
      assert false;
    }
    assert head in Elems(l);
  }

  /** _validate_completed_child accepts exactly one direct child commit of the old HEAD,
      with the prompt's subject. */
  lemma ChildEntry(u: Setup, c: Ctx, git: Repo, id: PromptId, pre: Sha, final: Response, scope: string)
    returns (e: Entry)
    requires c.pack == u.pack && GoodRevList(c.pol.revList) && ValidRepo(git) && pre < |git.commits|
    requires ValidChild(c, git, id, pre, final, scope)
    ensures e.ids == [id] && e.commit == git.head && !e.consolidated
    ensures EntryOk(u, git.commits, pre, e)
  {
    var l := c.pol.revList(git.commits, pre, git.head);
    SingleNewCommit(git.commits, pre, git.head, l);
    e := Entry([id], git.commits[git.head].subject, git.head, false);
  }

  ghost predicate Chain(cs: seq<Commit>, pre: Sha, l: seq<Sha>)
    requires WellFormed(cs)
  {
    pre < |cs| && forall i :: 0 <= i < |l| ==> LinkAt(cs, pre, l, i)
  }

  ghost predicate LinkAt(cs: seq<Commit>, pre: Sha, l: seq<Sha>, i: nat)
    requires i < |l|
  {
    l[i] < |cs| && FirstParent(cs, l[i]) == Some(Prior(l, pre, i))
  }

  lemma {:induction false} ChainGrows(cs: seq<Commit>, pre: Sha, l: seq<Sha>, i: nat, j: nat)
    requires WellFormed(cs) && Chain(cs, pre, l) && i <= j <= |l|
    ensures Prior(l, pre, i) < |cs| && Prior(l, pre, j) < |cs|
    ensures Prior(l, pre, i) <= Prior(l, pre, j) && (i < j ==> Prior(l, pre, i) < Prior(l, pre, j))
    ensures Ancestors(cs, Prior(l, pre, i)) <= Ancestors(cs, Prior(l, pre, j))
    decreases j - i
  {
    hide Ancestors, WellFormed;
    if i == j {
      assert i > 0 ==> LinkAt(cs, pre, l, i - 1);
    } else {
      ChainGrows(cs, pre, l, i, j - 1);
      assert LinkAt(cs, pre, l, j - 1);
      ParentAncestors(cs, Prior(l, pre, j - 1), l[j - 1]);
    }
  }

  lemma ChainOther(cs: seq<Commit>, pre: Sha, l: seq<Sha>, i: nat, j: nat)
    requires WellFormed(cs) && Chain(cs, pre, l) && i < |l| && j < |l| && i != j
    requires l[i] < |cs| && Prior(l, pre, i) < |cs| && l[j] in Ancestors(cs, l[i])
    ensures l[j] in Ancestors(cs, Prior(l, pre, i))
  {
    hide Ancestors, WellFormed;
    assert LinkAt(cs, pre, l, i) && LinkAt(cs, pre, l, j);
    AncestorsBelow(cs, l[i]);
    if j < i {
      ChainGrows(cs, pre, l, j + 1, i);
      SelfAncestor(cs, l[j]);
    } else {
      ChainGrows(cs, pre, l, i + 1, j + 1);
    }
  }

  /** In a chain that lists everything new, each commit adds only itself, even when it is a merge. */
  lemma ChainLink(cs: seq<Commit>, pre: Sha, l: seq<Sha>, i: nat)
    requires WellFormed(cs) && Chain(cs, pre, l) && i < |l| && l[|l| - 1] < |cs|
    requires Elems(l) == Between(cs, pre, l[|l| - 1])
    ensures l[i] < |cs| && Prior(l, pre, i) < |cs|
    ensures Between(cs, Prior(l, pre, i), l[i]) == {l[i]}
  {
    hide Ancestors, WellFormed;
    ChainGrows(cs, pre, l, i, i + 1);
    SelfAncestor(cs, l[i]);
    AncestorsBelow(cs, Prior(l, pre, i));
    ChainGrows(cs, pre, l, i + 1, |l|);
    ChainGrows(cs, pre, l, 0, i);
    forall x | x in Ancestors(cs, l[i]) && x !in Ancestors(cs, Prior(l, pre, i)) ensures x == l[i] {
      assert x in Elems(l);
      var j :| 0 <= j < |l| && l[j] == x;
      if j != i {
        ChainOther(cs, pre, l, i, j);
      }
    }
  }

  ghost function SoloEntries(cs: seq<Commit>, ids: seq<PromptId>, l: seq<Sha>): (es: seq<Entry>)
    requires |ids| == |l| && forall i :: 0 <= i < |l| ==> l[i] < |cs|
    ensures |es| == |l| && FlatIds(es) == ids
    ensures forall i :: 0 <= i < |l| ==> es[i] == Entry([ids[i]], cs[l[i]].subject, l[i], false)
  {
    if l == [] then [] else
    [Entry([ids[0]], cs[l[0]].subject, l[0], false)] + SoloEntries(cs, ids[1..], l[1..])
  }

  /** _validate_completed_group without a consolidated subject accepts one commit per prompt,
      each a direct child of the previous one. */
  lemma GroupEntries(u: Setup, c: Ctx, git: Repo, g: Group, pre: Sha, final: Response, whole: bool)
    returns (es: seq<Entry>)
    requires c.pack == u.pack && GoodRevList(c.pol.revList) && ValidRepo(git) && pre < |git.commits|
    requires ValidGroup(c, git, g, pre, final, whole) && g.subject.None? && g.ids != []
    ensures FlatIds(es) == g.ids && |es| == |g.ids| && NoneConsolidated(es)
    ensures LedgerOk(u, git.commits, pre, es, git.head)
  {
    var cs, l := git.commits, c.pol.revList(git.commits, pre, git.head);
    GroupChain(c, git, g, pre, final, whole);
    es := SoloEntries(cs, g.ids, l);
    forall i | 0 <= i < |es| ensures EntryAt(u, cs, pre, es, i) {
      ChainLink(cs, pre, l, i);
      assert LinkAt(cs, pre, l, i);
    }
  }

  lemma GroupChain(c: Ctx, git: Repo, g: Group, pre: Sha, final: Response, whole: bool)
    requires GoodRevList(c.pol.revList) && ValidRepo(git) && pre < |git.commits|
    requires ValidGroup(c, git, g, pre, final, whole) && g.subject.None? && g.ids != []
    ensures var l := c.pol.revList(git.commits, pre, git.head);
      && Chain(git.commits, pre, l) && |l| == |g.ids| && l[|l| - 1] == git.head
      && Elems(l) == Between(git.commits, pre, git.head)
      && (forall i :: 0 <= i < |l| ==>
            l[i] < |git.commits| && Subject(c.pack, g.ids[i]) == Some(git.commits[l[i]].subject))
  {
    hide Ancestors, WellFormed, GroupItemValid, ExpectedNext, GuidanceOk, OnlyFindings;
    var l := c.pol.revList(git.commits, pre, git.head);
    forall i | 0 <= i < |l|
      ensures LinkAt(git.commits, pre, l, i)
      ensures l[i] < |git.commits| && Subject(c.pack, g.ids[i]) == Some(git.commits[l[i]].subject)
    {
      assert GroupItemValid(c, git, g, pre, l, final.value, i);
      ItemLink(c, git, g, pre, l, final.value, i);
    }
  }

  lemma ItemLink(c: Ctx, git: Repo, g: Group, pre: Sha, l: seq<Sha>, hs: seq<Handoff>, i: nat)
    requires i < |hs| == |g.ids| == |l| && g.subject.None? && GroupItemValid(c, git, g, pre, l, hs, i)
    ensures LinkAt(git.commits, pre, l, i)
    ensures l[i] < |git.commits| && Subject(c.pack, g.ids[i]) == Some(git.commits[l[i]].subject)
  {
    hide ExpectedNext;
  }

  /** A consolidated group is accepted with one commit that adds only itself; nothing is
      checked about its parents. */
  lemma ConsolidatedEntry(u: Setup, c: Ctx, git: Repo, g: Group, pre: Sha, final: Response)
    returns (e: Entry)
    requires GoodRevList(c.pol.revList) && ValidRepo(git) && pre < |git.commits|
    requires ValidGroup(c, git, g, pre, final, true) && g.subject.Some? && g.ids != []
    requires GroupTail(u.groups, g.ids, g.subject.value)
    ensures e.ids == g.ids && e.commit == git.head && e.consolidated
    ensures EntryOk(u, git.commits, pre, e)
  {
    hide Ancestors, WellFormed, GroupTail;
    var l := c.pol.revList(git.commits, pre, git.head);
    assert GroupItemValid(c, git, g, pre, l, final.value, |g.ids| - 1);
    SingleNewCommit(git.commits, pre, git.head, l);
    e := Entry(g.ids, g.subject.value, git.head, true);
  }

  lemma OneEntryLedger(u: Setup, cs: seq<Commit>, pre: Sha, e: Entry)
    requires WellFormed(cs) && EntryOk(u, cs, pre, e)
    ensures LedgerOk(u, cs, pre, [e], e.commit) && FlatIds([e]) == e.ids
  {
    assert FlatIds([e]) == e.ids + FlatIds([]);
    assert EntryAt(u, cs, pre, [e], 0);
  }

  // ----- the invariant -----

  /** The stored handoff of the last completed prompt is that prompt's, complete, and reports the
      stored commit under the subject it has. */
  ghost predicate LastReported(w: World) {
    && w.state.last in w.handoffs && w.state.commit < |w.git.commits|
    && var h := w.handoffs[w.state.last];
    && h.prompt == w.state.last && h.complete
    && h.commit == Some(Reported(w.state.commit, w.git.commits[w.state.commit].subject))
  }

  /** The position is accounted for, and reported by its handoff. */
  ghost predicate Grounded(u: Setup, w: World) {
    && ValidRepo(w.git)
    && w.state.commit < |w.git.commits|
    && Accounted(u, w.git.commits, w.state.last, w.state.commit)
    && LastReported(w)
  }

  function Expected(u: Setup, last: PromptId): seq<PromptId> {
    if ExpectedNext(u.pack, last).Some? then ExpectedNext(u.pack, last).value else []
  }

  /** next_prompt is the first expected prompt, or T04-R3 once both reports are in. */
  ghost predicate NextOk(u: Setup, s: State) {
    var e := Expected(u, s.last);
    s.next == (if e == [] then STOP else e[0]) || (s.review.status.ReportsComplete? && s.next == R3 && e == [R1, R2])
  }

  ghost predicate HasReviewPair(p: Pack) {
    exists k :: 0 <= k < |p.order| && p.order[k] == Reviewers([R1, R2])
  }

  /** Only a pack with the pair ever has it due. */
  lemma PairIsInPack(u: Setup, last: PromptId)
    ensures Expected(u, last) == [R1, R2] ==> HasReviewPair(u.pack)
  {
    if Expected(u, last) == [R1, R2] {
      assert u.pack.order[Item(u.pack, last).value + 1] == Reviewers([R1, R2]);
    }
  }

  /** The reviewer boundary is bound to the stored commit; reports_complete either still
      waits for T04-R3 or is the leftover that no later state gets past. */
  ghost predicate ReviewOk(u: Setup, s: State) {
    var e := Expected(u, s.last);
    match s.review.status
    case NotReached => |e| <= 1
    case Pending => s.review.sha == s.commit && s.review.reviewers == e && |e| > 1
    case InReview => s.review.sha == s.commit && e == [R1, R2] && s.next == R1
    case ReportsComplete => HasReviewPair(u.pack) && (s.next == R3 ==> s.review.sha == s.commit && e == [R1, R2])
  }

  /** next is the writable prompt right after last, or right after the reviewers that follow last. */
  ghost predicate Follows(u: Setup, last: PromptId, next: PromptId) {
    && Item(u.pack, last).Some?
    && exists q: nat :: AfterItem(u.pack, Item(u.pack, last).value, q) && u.pack.order[q] == One(next)
  }

  /** A running child was started at the stored commit, for the next prompt or what is left of its group. */
  ghost predicate ActiveOk(u: Setup, s: State, a: Active) {
    && a.preHead == s.commit && a.ids != [] && a.ids[0] == s.next && Follows(u, s.last, s.next)
    && (s.review.status.ReportsComplete? ==> s.next == R3)
    && (a.ids == [s.next] || (a.efficient && Select(u.groups, s.next) == Some(ActiveGroup(a))))
  }

  ghost predicate RunOk(u: Setup, s: State) {
    && (s.status.Running? ==> s.active.Some? && ActiveOk(u, s, s.active.value))
    && (s.status.Reviewing? ==> s.review.status.InReview?)
  }

  ghost predicate Inv(u: Setup, w: World) {
    Grounded(u, w) && NextOk(u, w.state) && ReviewOk(u, w.state) && RunOk(u, w.state)
  }

  ghost predicate AllInv(u: Setup, ws: seq<World>) {
    forall i :: 0 <= i < |ws| ==> Inv(u, ws[i])
  }

  /** A command's context agrees with the fixed setup: same pack, same resolved groups. */
  ghost predicate Fits(u: Setup, c: Ctx) {
    && ValidSetup(u) && c.pack == u.pack && GoodRevList(c.pol.revList)
    && (Resolved(c.pack, c.cfg.specs, c.cfg.maxIds).Ok? ==>
      Resolved(c.pack, c.cfg.specs, c.cfg.maxIds).value == u.groups)
  }

  // ----- steps that keep the position -----

  /** Only status fields, files or the outside of the boundary change. */
  ghost predicate SamePosition(w: World, w': World) {
    Extends(w.git, w'.git) && w'.state.last == w.state.last && w'.state.commit == w.state.commit
  }

  ghost predicate SamePlace(w: World, w': World) {
    && SamePosition(w, w')
    && (w.state.last in w.handoffs ==>
          w.state.last in w'.handoffs && w'.handoffs[w.state.last] == w.handoffs[w.state.last])
  }

  lemma StillGrounded(u: Setup, w: World, w': World)
    requires Grounded(u, w) && SamePlace(w, w')
    ensures Grounded(u, w')
  {
    hide Accounted;
    AccountedStable(u, w.git.commits, w'.git.commits, w.state.last, w.state.commit);
  }

  /** The prompt after last, when it is writable, directly follows. */
  lemma NextFollows(u: Setup, s: State)
    requires ValidSetup(u) && NextOk(u, s) && ReviewOk(u, s) && ExpectedNext(u.pack, s.last).Some?
    requires s.next in Expected(u, s.last) || (s.review.status.ReportsComplete? && s.next == R3)
    requires !IsReviewer(u.pack, s.next)
    ensures Follows(u, s.last, s.next)
  {
    var k := Item(u.pack, s.last).value;
    var e := Expected(u, s.last);
    if s.next in e {
      assert u.pack.order[k + 1] == One(s.next) by {
        assert u.pack.order[k + 1].Reviewers? ==> IsReviewer(u.pack, s.next);
      }
      assert AfterItem(u.pack, k, k + 1);
    } else {
      assert u.pack.order[k + 1] == Reviewers([R1, R2]);
      assert AfterItem(u.pack, k, k + 2);
    }
  }

  lemma SuffixRun(p: Pack, all: seq<PromptId>, k: nat, m: nat, q: nat)
    requires ValidPack(p) && IntervalAt(p, all, k) && m < |all|
    requires q < |p.order| && p.order[q] == One(all[m])
    ensures IntervalAt(p, all[m..], q)
  {
    assert p.order[k + m] == One(all[m]);
    ItemOf(p, k + m, all[m]);
    ItemOf(p, q, all[m]);
    forall i | 0 <= i < |all[m..]| ensures p.order[q + i] == One(all[m..][i]) {
      assert p.order[k + (m + i)] == One(all[m + i]);
    }
  }

  /** The rest of a group is the run of prompts that starts at its first one. */
  lemma GroupRun(u: Setup, last: PromptId, g: Group) returns (q: nat)
    requires ValidSetup(u) && g.ids != [] && Follows(u, last, g.ids[0]) && Select(u.groups, g.ids[0]) == Some(g)
    ensures Item(u.pack, last).Some? && AfterItem(u.pack, Item(u.pack, last).value, q) && IntervalAt(u.pack, g.ids, q)
    ensures g.subject.Some? ==> GroupTail(u.groups, g.ids, g.subject.value)
  {
    hide IntervalAt, ValidPack, Select;
    var h := SelectSound(u.groups, g.ids[0]);
    assert Interval(u.pack, u.groups[h].ids);
    var k: nat :| IntervalAt(u.pack, u.groups[h].ids, k);
    q :| AfterItem(u.pack, Item(u.pack, last).value, q) && u.pack.order[q] == One(g.ids[0]);
    SuffixRun(u.pack, u.groups[h].ids, k, IndexOf(u.groups[h].ids, g.ids[0]), q);
  }

  // ----- steps that advance the position -----

  /** The new state stands at the last of the run ids, which began at the old next prompt. */
  ghost predicate Moved(u: Setup, s: State, s': State, ids: seq<PromptId>, head: Sha) {
    && ids != [] && s'.last == ids[|ids| - 1] && s'.commit == head
    && var e := Expected(u, s'.last);
    && s'.next == (if e == [] then STOP else e[0])
    && s'.review == (if |e| > 1 then Review(Pending, e, head, {}) else s.review)
    && !s'.status.Running? && !s'.status.Reviewing?
  }

  /** Before a writable prompt runs, the reviewers are either not due yet or done. */
  lemma NotInReview(u: Setup, s: State)
    requires ValidSetup(u) && NextOk(u, s) && ReviewOk(u, s) && Follows(u, s.last, s.next)
    ensures s.review.status.NotReached? || s.review.status.ReportsComplete?
  {
    var k := Item(u.pack, s.last).value;
    var q: nat :| AfterItem(u.pack, k, q) && u.pack.order[q] == One(s.next);
    if s.review.status.Pending? || s.review.status.InReview? {
      assert s.next in Ids(u.pack.order[k + 1]) && u.pack.order[k + 1].Reviewers?;
      ItemOf(u.pack, k + 1, s.next);
      ItemOf(u.pack, q, s.next);
    }
  }

  /** Past T04-R3, no later position has T04-R3 as its next prompt. */
  lemma NeverR3Again(u: Setup, ids: seq<PromptId>, q: nat)
    requires ValidSetup(u) && ids != [] && ids[0] == R3 && IntervalAt(u.pack, ids, q)
    ensures R3 !in Expected(u, ids[|ids| - 1])
  {
    var id := ids[|ids| - 1];
    assert u.pack.order[q + 0] == One(ids[0]);
    LastOfRun(u.pack, ids, q);
    ItemOf(u.pack, q, R3);
    if R3 in Expected(u, id) {
      ItemOf(u.pack, q + |ids|, R3);
    }
  }

  lemma MovedOk(u: Setup, s: State, s': State, ids: seq<PromptId>, q: nat, head: Sha)
    requires ValidSetup(u) && NextOk(u, s) && ReviewOk(u, s) && Follows(u, s.last, s.next)
    requires s.review.status.ReportsComplete? ==> s.next == R3
    requires ids != [] && ids[0] == s.next && IntervalAt(u.pack, ids, q)
    requires Moved(u, s, s', ids, head)
    ensures NextOk(u, s') && ReviewOk(u, s') && RunOk(u, s')
  {
    hide ValidSetup, IntervalAt, Follows;
    NotInReview(u, s);
    if s.next == R3 {
      NeverR3Again(u, ids, q);
    }
  }

  /** Accepting one prompt. */
  lemma SoloAdvance(u: Setup, c: Ctx, w: World, id: PromptId, final: Response, scope: string)
    requires Fits(u, c) && Grounded(u, w) && Follows(u, w.state.last, id)
    requires ValidChild(c, w.git, id, w.state.commit, final, scope)
    ensures Accounted(u, w.git.commits, id, w.git.head)
    ensures exists q: nat :: IntervalAt(u.pack, [id], q)
  {
    hide EntryOk, Accounted, LedgerOk, WellFormed, ValidChild;
    var e := ChildEntry(u, c, w.git, id, w.state.commit, final, scope);
    OneEntryLedger(u, w.git.commits, w.state.commit, e);
    var q: nat :| AfterItem(u.pack, Item(u.pack, w.state.last).value, q) && u.pack.order[q] == One(id);
    assert IntervalAt(u.pack, [id], q);
    Extend(u, w.git.commits, w.state.last, w.state.commit, [e], [id], q, w.git.head);
  }

  /** Accepting the first prompts of what is left of a group: with a consolidated subject all of
      them in one commit, otherwise one commit each. */
  lemma GroupAdvance(u: Setup, c: Ctx, w: World, g: Group, q: nat, final: Response, whole: bool)
    requires Fits(u, c) && Grounded(u, w) && g.ids != []
    requires Item(u.pack, w.state.last).Some? && AfterItem(u.pack, Item(u.pack, w.state.last).value, q)
      && IntervalAt(u.pack, g.ids, q)
    requires g.subject.Some? ==> whole && GroupTail(u.groups, g.ids, g.subject.value)
    requires ValidGroup(c, w.git, g, w.state.commit, final, whole)
    ensures Accounted(u, w.git.commits, g.ids[|g.ids| - 1], w.git.head)
  {
    hide EntryOk, Accounted, LedgerOk, WellFormed, ValidGroup, GroupTail, AfterItem, IntervalAt;
    if g.subject.None? {
      var es := GroupEntries(u, c, w.git, g, w.state.commit, final, whole);
      Extend(u, w.git.commits, w.state.last, w.state.commit, es, g.ids, q, w.git.head);
    } else {
      var e := ConsolidatedEntry(u, c, w.git, g, w.state.commit, final);
      OneEntryLedger(u, w.git.commits, w.state.commit, e);
      Extend(u, w.git.commits, w.state.last, w.state.commit, [e], g.ids, q, w.git.head);
    }
  }

  // ----- every command preserves the invariant -----

  lemma {:induction false} AddedHandoffs(m: map<PromptId, Handoff>, hs: seq<Handoff>)
    ensures m.Keys <= AddHandoffs(m, hs).Keys
    ensures hs != [] ==>
      hs[|hs| - 1].prompt in AddHandoffs(m, hs) && AddHandoffs(m, hs)[hs[|hs| - 1].prompt] == hs[|hs| - 1]
    decreases hs
  {
    if hs != [] {
      AddedHandoffs(m[hs[0].prompt := hs[0]], hs[1..]);
      if |hs| > 1 { assert hs[1..][|hs| - 2] == hs[|hs| - 1]; }
    }
  }

  /** Writing handoff files changes nothing else. */
  lemma {:induction false} HandoffWritesInv(u: Setup, w: World, hs: seq<Handoff>)
    requires Inv(u, w) && forall i :: 0 <= i < |hs| ==> hs[i].prompt != w.state.last
    ensures AllInv(u, HandoffWrites(w, hs))
    decreases hs
  {
    hide Accounted, NextOk, ReviewOk, RunOk;
    if hs != [] {
      var w' := w.(handoffs := w.handoffs[hs[0].prompt := hs[0]]);
      StillGrounded(u, w, w');
      HandoffWritesInv(u, w', hs[1..]);
    }
  }

  lemma BlockInv(u: Setup, w: World, b: Blocker)
    requires Inv(u, w)
    ensures AllInv(u, Block(w, w.state, b).writes)
  {
    hide Accounted;
  }

  lemma PlaceInv(u: Setup, w: World, w': World, ids: seq<PromptId>, q: nat)
    requires ValidSetup(u) && Inv(u, w) && Follows(u, w.state.last, w.state.next)
    requires w.state.review.status.ReportsComplete? ==> w.state.next == R3
    requires ids != [] && ids[0] == w.state.next && IntervalAt(u.pack, ids, q)
    requires w'.git == w.git && Accounted(u, w.git.commits, ids[|ids| - 1], w.git.head)
    requires Moved(u, w.state, w'.state, ids, w.git.head) && LastReported(w')
    ensures Inv(u, w')
  {
    hide Accounted, NextOk, ReviewOk, RunOk, Follows, IntervalAt, ValidSetup;
    MovedOk(u, w.state, w'.state, ids, q, w.git.head);
  }

  /** A world where the next prompt may be running. */
  ghost predicate InFlight(u: Setup, w: World) {
    Inv(u, w) && Follows(u, w.state.last, w.state.next)
      && (w.state.review.status.ReportsComplete? ==> w.state.next == R3)
  }

  lemma AcceptSoloInv(u: Setup, c: Ctx, w: World, final: Response, scope: string, drop: bool)
    requires Fits(u, c) && InFlight(u, w)
    requires ValidChild(c, w.git, w.state.next, w.state.commit, final, scope)
    ensures var w1 := w.(handoffs := w.handoffs[w.state.next := final.value[0]]);
      Inv(u, w1) && Inv(u, w1.(state := CompleteState(c.pack, w.state, w.state.next, w.git.head, drop)))
  {
    hide Accounted, IntervalAt, Follows;
    var id := w.state.next;
    NextApart(u, w.state.last, id);
    var w1 := w.(handoffs := w.handoffs[id := final.value[0]]);
    StillGrounded(u, w, w1);
    SoloAdvance(u, c, w, id, final, scope);
    var q: nat :| IntervalAt(u.pack, [id], q);
    PlaceInv(u, w1, w1.(state := CompleteState(c.pack, w.state, id, w.git.head, drop)), [id], q);
  }

  lemma RecordGroupInv(u: Setup, c: Ctx, w: World, g: Group, hs: seq<Handoff>)
    requires Fits(u, c) && InFlight(u, w)
    requires g.ids != [] && g.ids[0] == w.state.next && Select(u.groups, w.state.next) == Some(g)
    requires ValidGroup(c, w.git, g, w.state.commit, Some(hs), true)
    ensures AllInv(u, RecordGroup(c, w, w.state, g, hs).writes)
  {
    hide Accounted, IntervalAt, Follows, AfterItem, GroupTail, Select, NextOk, ReviewOk, RunOk;
    var q := GroupRun(u, w.state.last, g);
    RunApart(u, w.state.last, g.ids, q);
    ParsedGroup(c, w.git, g, w.state.commit, Some(hs), true);
    GroupReported(c, w.git, g, w.state.commit, hs, true);
    GroupAdvance(u, c, w, g, q, Some(hs), true);
    HandoffWritesInv(u, w, hs);
    AddedHandoffs(w.handoffs, hs);
    var last := g.ids[|g.ids| - 1];
    assert hs[|hs| - 1].prompt == last;
    PlaceInv(u, w, w.(handoffs := AddHandoffs(w.handoffs, hs),
      state := CompleteState(c.pack, w.state, last, w.git.head, true)), g.ids, q);
  }

  lemma NextApart(u: Setup, last: PromptId, next: PromptId)
    requires ValidSetup(u) && Follows(u, last, next)
    ensures next != last
  {
    hide Flatten, ItemFrom;
    var q: nat :| AfterItem(u.pack, Item(u.pack, last).value, q) && u.pack.order[q] == One(next);
    ItemOf(u.pack, q, next);
  }

  /** A run of prompts after last does not contain it. */
  lemma RunApart(u: Setup, last: PromptId, ids: seq<PromptId>, q: nat)
    requires ValidSetup(u) && IntervalAt(u.pack, ids, q)
    requires Item(u.pack, last).Some? && AfterItem(u.pack, Item(u.pack, last).value, q)
    ensures forall i :: 0 <= i < |ids| ==> ids[i] != last
  {
    hide Flatten, ItemFrom;
    forall i | 0 <= i < |ids| ensures ids[i] != last {
      assert u.pack.order[q + i] == One(ids[i]);
      ItemOf(u.pack, q + i, ids[i]);
    }
  }

  /** The last handoff of an accepted group or prefix reports HEAD. */
  lemma GroupReported(c: Ctx, git: Repo, g: Group, pre: Sha, hs: seq<Handoff>, whole: bool)
    requires GoodRevList(c.pol.revList) && ValidRepo(git) && pre < |git.commits|
    requires ValidGroup(c, git, g, pre, Some(hs), whole) && g.ids != []
    ensures |hs| == |g.ids|
    ensures var h := hs[|hs| - 1];
      h.prompt == g.ids[|g.ids| - 1] && h.complete
      && h.commit == Some(Reported(git.head, git.commits[git.head].subject))
  {
    hide Ancestors, WellFormed, ExpectedNext, Subject, GuidanceOk;
    var l := c.pol.revList(git.commits, pre, git.head);
    assert GroupItemValid(c, git, g, pre, l, hs, |g.ids| - 1);
    if g.subject.Some? { SingleNewCommit(git.commits, pre, git.head, l); }
  }

  lemma PrefixRun(u: Setup, ids: seq<PromptId>, q: nat, n: nat)
    requires ValidSetup(u) && IntervalAt(u.pack, ids, q) && 0 < n < |ids|
    ensures IntervalAt(u.pack, ids[..n], q) && Expected(u, ids[n - 1]) == [ids[n]]
  {
    forall i | 0 <= i < |ids[..n]| ensures u.pack.order[q + i] == One(ids[..n][i]) {
      assert u.pack.order[q + i] == One(ids[i]);
    }
    assert u.pack.order[q + (n - 1)] == One(ids[n - 1]) && u.pack.order[q + n] == One(ids[n]);
    ItemOf(u.pack, q + n - 1, ids[n - 1]);
  }

  lemma ReconcileOrBlockInv(u: Setup, c: Ctx, w: World, g: Group, messages: seq<Response>)
    requires Fits(u, c) && InFlight(u, w)
    requires g.ids != [] && g.ids[0] == w.state.next && Select(u.groups, w.state.next) == Some(g)
    ensures AllInv(u, ReconcileOrBlock(c, w, w.state, g, w.state.commit, messages).writes)
  {
    hide Inv, Accounted, IntervalAt, Follows, AfterItem, GroupTail, Select, RecoverablePrefix, ValidGroup;
    var hs := RecoverablePrefix(c, w.git, g, w.state.commit, messages);
    if hs == [] {
      BlockInv(u, w, if w.git.head == w.state.commit then ChildFailed else ManualReconciliation);
    } else {
      PrefixApart(u, c, w, g, messages);
      HandoffWritesInv(u, w, hs);
      PrefixInv(u, c, w, g, messages);
    }
  }

  lemma PrefixApart(u: Setup, c: Ctx, w: World, g: Group, messages: seq<Response>)
    requires ValidSetup(u) && Follows(u, w.state.last, w.state.next)
    requires g.ids != [] && g.ids[0] == w.state.next && Select(u.groups, w.state.next) == Some(g)
    ensures var hs := RecoverablePrefix(c, w.git, g, w.state.commit, messages);
      forall i :: 0 <= i < |hs| ==> hs[i].prompt != w.state.last
  {
    hide ValidGroup, PrefixCommits, Select, Follows, IntervalAt, AfterItem;
    var q := GroupRun(u, w.state.last, g);
    RunApart(u, w.state.last, g.ids, q);
  }

  lemma PrefixInv(u: Setup, c: Ctx, w: World, g: Group, messages: seq<Response>)
    requires Fits(u, c) && InFlight(u, w)
    requires g.ids != [] && g.ids[0] == w.state.next && Select(u.groups, w.state.next) == Some(g)
    requires RecoverablePrefix(c, w.git, g, w.state.commit, messages) != []
    ensures var hs := RecoverablePrefix(c, w.git, g, w.state.commit, messages);
      Inv(u, w.(handoffs := AddHandoffs(w.handoffs, hs),
        state := PrefixState(c, w.state, g, w.state.commit, w.git.head, |hs|)))
  {
    hide Accounted, IntervalAt, Follows, AfterItem, GroupTail, Select, NextOk, ReviewOk, RunOk, RecoverablePrefix,
      ValidGroup;
    var hs := RecoverablePrefix(c, w.git, g, w.state.commit, messages);
    var n := |hs|;
    var q := GroupRun(u, w.state.last, g);
    PrefixRun(u, g.ids, q, n);
    GroupAdvance(u, c, w, Group(g.ids[..n], None, g.configured), q, Some(hs), false);
    AddedHandoffs(w.handoffs, hs);
    GroupReported(c, w.git, Group(g.ids[..n], None, g.configured), w.state.commit, hs, false);
    PlaceInv(u, w, w.(handoffs := AddHandoffs(w.handoffs, hs),
      state := PrefixState(c, w.state, g, w.state.commit, w.git.head, n)), g.ids[..n], q);
  }

  lemma ReconcileSoloInv(u: Setup, c: Ctx, w: World, a: Active)
    requires Fits(u, c) && Inv(u, w) && w.state.status.Running? && w.state.active == Some(a)
    ensures AllInv(u, ReconcileSolo(c, w, a).writes)
  {
    hide Accounted, ValidChild, Follows, NextOk, ReviewOk;
    if ReconcileSolo(c, w, a).writes != [] {
      var scope := if a.ids[0] == R3 then LoadReports(w).value else "";
      AcceptSoloInv(u, c, w, w.files.final.value, scope, false);
    }
  }

  lemma ReconcileGroupInv(u: Setup, c: Ctx, w: World, a: Active)
    requires Fits(u, c) && Inv(u, w) && w.state.status.Running? && w.state.active == Some(a) && a.efficient
      && |a.ids| > 1
    ensures AllInv(u, ReconcileGroup(c, w, a).writes)
  {
    hide Accounted, ValidGroup, Follows, NextOk, ReviewOk, RecordGroup, ReconcileOrBlock, Select;
    if w.files.log.Some? {
      ReconcileOrBlockInv(u, c, w, ActiveGroup(a), c.pol.messages(w.files.log.value));
    }
    var final := if w.files.final.Some? then w.files.final.value else None;
    ParsedGroup(c, w.git, ActiveGroup(a), a.preHead, final, true);
    if ValidGroup(c, w.git, ActiveGroup(a), a.preHead, final, true) {
      RecordGroupInv(u, c, w, ActiveGroup(a), final.value);
    }
  }

  lemma ParsedGroup(c: Ctx, git: Repo, g: Group, pre: Sha, final: Response, whole: bool)
    ensures ValidGroup(c, git, g, pre, final, whole) ==> final.Some? && HandoffsMatch(g.ids, final.value)
  {}

  lemma RecordReportsInv(u: Setup, w: World, report1: string, report2: string)
    requires Inv(u, w) && w.state.review.status.InReview?
    ensures AllInv(u, RecordReports(w, w.state, report1, report2).writes)
  {
    hide Accounted, HasReviewPair;
    PairIsInPack(u, w.state.last);
  }

  lemma ReconcilePairInv(u: Setup, c: Ctx, w: World)
    requires Inv(u, w) && w.state.status.Reviewing?
    ensures AllInv(u, ReconcilePair(c, w).writes)
  {
    hide Accounted, RecordReports;
    if w.state.review.status.InReview? && w.review1.report.Some? && w.review2.report.Some? {
      RecordReportsInv(u, w, w.review1.report.value, w.review2.report.value);
    }
  }

  lemma ReconcileInv(u: Setup, c: Ctx, w: World)
    requires Fits(u, c) && Inv(u, w)
    ensures AllInv(u, Reconcile(c, w).writes)
  {
    hide Accounted, ReconcileSolo, ReconcileGroup, ReconcilePair, Follows, Select;
    if w.state.status.Reviewing? {
      ReconcilePairInv(u, c, w);
    } else if w.state.status.Running? {
      var a := w.state.active.value;
      ReconcileSoloInv(u, c, w, a);
      if a.efficient && |a.ids| > 1 { ReconcileGroupInv(u, c, w, a); }
    }
  }

  // ----- step -----

  /** Between launch and exit the child changes Git and its files, nothing the position rests on. */
  lemma RunningInv(u: Setup, w: World, w': World)
    requires Inv(u, w) && SamePlace(w, w') && NextOk(u, w'.state) && ReviewOk(u, w'.state) && RunOk(u, w'.state)
    ensures Inv(u, w')
  {
    hide Accounted, NextOk, ReviewOk, RunOk;
    StillGrounded(u, w, w');
  }

  /** What _validate_stored_state adds to the invariant. */
  ghost predicate Startable(u: Setup, w: World) {
    && Inv(u, w) && w.git.head == w.state.commit
    && !w.state.status.Running? && !w.state.status.Reviewing?
    && ExpectedNext(u.pack, w.state.last).Some?
    && (if w.state.review.status.ReportsComplete? then w.state.next == R3
      else w.state.next in Expected(u, w.state.last))
  }

  lemma ClearedKeeps(u: Setup, s: State, a: Active)
    requires NextOk(u, s) && ReviewOk(u, s) && ActiveOk(u, s, a)
    ensures var s' := Cleared(s).(status := Running, active := Some(a));
      NextOk(u, s') && ReviewOk(u, s') && RunOk(u, s') && s'.last == s.last && s'.commit == s.commit
        && s'.next == s.next
      && s'.review == s.review
  {
    hide Follows, Select;
  }

  lemma StartableFollows(u: Setup, w: World)
    requires ValidSetup(u) && Startable(u, w) && !IsReviewer(u.pack, w.state.next)
    ensures InFlight(u, w)
  {
    hide ValidPack, GroupsOk, Accounted;
    NextFollows(u, w.state);
  }

  lemma RunSoloInv(u: Setup, c: Ctx, w: World, env: StepEnv)
    requires Fits(u, c) && Startable(u, w) && !IsReviewer(u.pack, w.state.next) && Extends(w.git, env.child.git)
    ensures AllInv(u, RunSolo(c, w, env).writes)
  {
    hide Accounted, NextOk, ReviewOk, RunOk, Follows, ValidChild, Select, FinishSolo;
    if RunSolo(c, w, env).writes != [] {
      StartableFollows(u, w);
      var a := Active([w.state.next], [], None, w.git.head, c.cfg.profile.Efficient?);
      ClearedKeeps(u, w.state, a);
      var w1 := w.(state := Cleared(w.state).(status := Running, active := Some(a)), files := NO_FILES);
      var w2 := w1.(git := env.child.git, files := env.child.files);
      RunningInv(u, w, w1);
      RunningInv(u, w1, w2);
      FinishSoloInv(u, c, w2, env.child, if w.state.next == R3 then LoadReports(w).value else "");
    }
  }

  lemma FinishSoloInv(u: Setup, c: Ctx, w: World, r: ChildRun, scope: string)
    requires Fits(u, c) && InFlight(u, w)
    ensures AllInv(u, FinishSolo(c, w, r, w.state.next, w.state.commit, scope).writes)
  {
    hide Inv, Follows, ValidChild;
    BlockInv(u, w, ChildFailed);
    BlockInv(u, w, InvalidBoundary);
    if ValidChild(c, w.git, w.state.next, w.state.commit, r.final, scope) {
      AcceptSoloInv(u, c, w, r.final, scope, c.cfg.profile.Efficient?);
    }
  }

  lemma RunGroupInv(u: Setup, c: Ctx, w: World, g: Group, env: StepEnv)
    requires Fits(u, c) && Startable(u, w) && !IsReviewer(u.pack, w.state.next) && Extends(w.git, env.child.git)
    requires g.ids != [] && g.ids[0] == w.state.next && Select(u.groups, w.state.next) == Some(g)
    ensures AllInv(u, RunGroup(c, w, g, env).writes)
  {
    hide Accounted, NextOk, ReviewOk, RunOk, Follows, ValidGroup, Select, FinishGroup;
    if RunGroup(c, w, g, env).writes != [] {
      StartableFollows(u, w);
      var a := Active(g.ids, g.configured, g.subject, w.git.head, true);
      assert ActiveGroup(a) == g;
      ClearedKeeps(u, w.state, a);
      var w1 := w.(state := Cleared(w.state).(status := Running, active := Some(a)), files := NO_FILES);
      var w2 := w1.(git := env.child.git, files := env.child.files);
      RunningInv(u, w, w1);
      RunningInv(u, w1, w2);
      FinishGroupInv(u, c, w2, env.child, g);
    }
  }

  lemma FinishGroupInv(u: Setup, c: Ctx, w: World, r: ChildRun, g: Group)
    requires Fits(u, c) && InFlight(u, w)
    requires g.ids != [] && g.ids[0] == w.state.next && Select(u.groups, w.state.next) == Some(g)
    ensures AllInv(u, FinishGroup(c, w, r, g, w.state.commit).writes)
  {
    hide InFlight, ValidGroup, Select, RecordGroup, ReconcileOrBlock;
    ParsedGroup(c, w.git, g, w.state.commit, r.final, true);
    if ValidGroup(c, w.git, g, w.state.commit, r.final, true) {
      RecordGroupInv(u, c, w, g, r.final.value);
    }
    ReconcileOrBlockInv(u, c, w, g, r.messages);
  }

  lemma RunPairInv(u: Setup, c: Ctx, w: World, env: StepEnv)
    requires Fits(u, c) && Startable(u, w) && Extends(w.git, env.reviewGit)
    ensures AllInv(u, RunPair(c, w, env).writes)
  {
    hide Accounted, FinishPair, Select, Follows;
    if RunPair(c, w, env).writes != [] {
      var a := Active([R1, R2], [], None, w.state.review.sha, false);
      var s1 := w.state.(status := Reviewing, active := Some(a),
        review := w.state.review.(status := InReview, reports := {}));
      var none := ReviewFiles(NoReceipt, None, None);
      var w1 := w.(state := s1, review1 := none, review2 := none);
      var w2 := w1.(git := env.reviewGit, review1 := env.r1.files, review2 := env.r2.files);
      RunningInv(u, w, w1);
      RunningInv(u, w1, w2);
      FinishPairInv(u, c, w2, env);
    }
  }

  lemma FinishPairInv(u: Setup, c: Ctx, w: World, env: StepEnv)
    requires Inv(u, w) && w.state.review.status.InReview?
    ensures AllInv(u, FinishPair(c, w, env).writes)
  {
    hide RecordReports, Accounted, ReviewFailure;
    BlockInv(u, w, ReviewerFailed);
    BlockInv(u, w, ManualReconciliation);
    RecordReportsInv(u, w, env.r1.report, env.r2.report);
  }

  ghost predicate EnvOk(git: Repo, env: StepEnv) {
    Extends(git, env.child.git) && Extends(git, env.reviewGit)
  }

  lemma DispatchInv(u: Setup, c: Ctx, w: World, env: StepEnv)
    requires Fits(u, c) && Startable(u, w) && EnvOk(w.git, env)
    ensures AllInv(u, Dispatch(c, w, env).writes)
  {
    hide Accounted, RunSolo, RunGroup, RunPair, IsReviewer, Resolved, Select, NextOk, ReviewOk;
    if IsReviewer(c.pack, w.state.next) {
      RunPairInv(u, c, w, env);
    } else {
      RunSoloInv(u, c, w, env);
      if c.cfg.profile.Efficient? && Resolved(c.pack, c.cfg.specs, c.cfg.maxIds).Ok?
          && Select(u.groups, w.state.next).Some? {
        RunGroupInv(u, c, w, Select(u.groups, w.state.next).value, env);
      }
    }
    StopInv(u, w);
  }

  lemma StopInv(u: Setup, w: World)
    requires Inv(u, w)
    ensures AllInv(u, StopWrite(w).writes)
  {
    hide Accounted;
  }
}
