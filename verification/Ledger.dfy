/** What Git history looks like from the adopted commit to the stored one: a list of
    accepted boundaries, in prompt order. */
module Ledger {
  import opened Prelude
  import opened GitModel
  import opened PromptPack

  /** Fixed over a supervisor's life: the pack, the resolved groups, and the adopted boundary. */
  datatype Setup = Setup(pack: Pack, groups: seq<Group>, basePrompt: PromptId, base: Sha)

  ghost predicate ValidSetup(u: Setup) {
    ValidPack(u.pack) && GroupsOk(u.pack, u.groups)
  }

  /** One accepted boundary: the prompts it completes, and its commit. */
  datatype Entry = Entry(ids: seq<PromptId>, subject: string, commit: Sha, consolidated: bool)

  /** What is left of a configured group with a consolidated subject. */
  ghost predicate GroupTail(groups: seq<Group>, ids: seq<PromptId>, subject: string) {
    exists g, k :: 0 <= g < |groups| && 0 <= k < |groups[g].ids| && ids == groups[g].ids[k..]
      && groups[g].subject == Some(subject)
  }

  /** A boundary accepted on top of commit prev: it adds its own commit and nothing else. A
      single prompt's commit has the prompt's subject and prev as first parent. */
  ghost predicate EntryOk(u: Setup, cs: seq<Commit>, prev: Sha, e: Entry)
    requires WellFormed(cs)
  {
    && prev < |cs| && e.commit < |cs|
    && cs[e.commit].subject == e.subject
    && Between(cs, prev, e.commit) == {e.commit}
    && (if e.consolidated then GroupTail(u.groups, e.ids, e.subject)
        else |e.ids| == 1 && Subject(u.pack, e.ids[0]) == Some(e.subject) && FirstParent(cs, e.commit) == Some(prev))
  }

  function Before(from: Sha, es: seq<Entry>, i: nat): Sha
    requires i <= |es|
  {
    if i == 0 then from else es[i - 1].commit
  }

  ghost predicate LedgerOk(u: Setup, cs: seq<Commit>, from: Sha, es: seq<Entry>, to: Sha)
    requires WellFormed(cs)
  {
    && from < |cs| && to < |cs| && to == Before(from, es, |es|)
    && forall i :: 0 <= i < |es| ==> EntryAt(u, cs, from, es, i)
  }

  ghost predicate EntryAt(u: Setup, cs: seq<Commit>, from: Sha, es: seq<Entry>, i: nat)
    requires WellFormed(cs) && i < |es|
  {
    EntryOk(u, cs, Before(from, es, i), es[i])
  }

  function FlatIds(es: seq<Entry>): seq<PromptId> {
    if es == [] then [] else es[0].ids + FlatIds(es[1..])
  }

  /** The writable prompts of order items a..b, in order. */
  function Singles(order: seq<OrderItem>, a: nat, b: nat): seq<PromptId>
    requires a <= b <= |order|
    decreases b - a
  {
    if a == b then [] else (if order[a].One? then [order[a].id] else []) + Singles(order, a + 1, b)
  }

  /** The stored position (last, commit) is accounted for by a ledger from the adopted
      boundary that completes exactly the writable prompts in between, in order. */
  ghost predicate Accounted(u: Setup, cs: seq<Commit>, last: PromptId, commit: Sha)
    requires WellFormed(cs)
  {
    exists es :: AccountedBy(u, cs, es, last, commit)
  }

  ghost predicate AccountedBy(u: Setup, cs: seq<Commit>, es: seq<Entry>, last: PromptId, commit: Sha)
    requires WellFormed(cs)
  {
    && LedgerOk(u, cs, u.base, es, commit)
    && Item(u.pack, u.basePrompt).Some? && Item(u.pack, last).Some?
    && var b, k := Item(u.pack, u.basePrompt).value, Item(u.pack, last).value;
    && b <= k && u.pack.order[k] == One(last)
    && FlatIds(es) == Singles(u.pack.order, b + 1, k + 1)
  }

  // ----- stability and concatenation -----

  lemma EntryStable(u: Setup, cs: seq<Commit>, cs': seq<Commit>, prev: Sha, e: Entry)
    requires WellFormed(cs) && WellFormed(cs') && cs <= cs' && EntryOk(u, cs, prev, e)
    ensures EntryOk(u, cs', prev, e)
  {
    AncestorsStable(cs, cs', prev);
    AncestorsStable(cs, cs', e.commit);
    assert cs'[e.commit] == cs[e.commit];
  }

  lemma LedgerStable(u: Setup, cs: seq<Commit>, cs': seq<Commit>, from: Sha, es: seq<Entry>, to: Sha)
    requires WellFormed(cs) && WellFormed(cs') && cs <= cs' && LedgerOk(u, cs, from, es, to)
    ensures LedgerOk(u, cs', from, es, to)
  {
    forall i | 0 <= i < |es| ensures EntryAt(u, cs', from, es, i) {
      assert EntryAt(u, cs, from, es, i);
      EntryStable(u, cs, cs', Before(from, es, i), es[i]);
    }
  }

  /** Whatever is later added to the object store, a recorded history stays recorded. */
  lemma AccountedStable(u: Setup, cs: seq<Commit>, cs': seq<Commit>, last: PromptId, commit: Sha)
    requires WellFormed(cs) && WellFormed(cs') && cs <= cs' && Accounted(u, cs, last, commit)
    ensures Accounted(u, cs', last, commit)
  {
    var es :| AccountedBy(u, cs, es, last, commit);
    LedgerStable(u, cs, cs', u.base, es, commit);
    assert AccountedBy(u, cs', es, last, commit);
  }

  lemma BeforeConcat(from: Sha, es: seq<Entry>, fs: seq<Entry>, i: nat)
    requires i <= |es + fs|
    ensures i <= |es| ==> Before(from, es + fs, i) == Before(from, es, i)
    ensures i >= |es| ==> Before(from, es + fs, i) == Before(Before(from, es, |es|), fs, i - |es|)
  {}

  lemma LedgerConcat(u: Setup, cs: seq<Commit>, from: Sha, es: seq<Entry>, mid: Sha, fs: seq<Entry>, to: Sha)
    requires WellFormed(cs) && LedgerOk(u, cs, from, es, mid) && LedgerOk(u, cs, mid, fs, to)
    ensures LedgerOk(u, cs, from, es + fs, to)
  {
    hide EntryOk;
    BeforeConcat(from, es, fs, |es + fs|);
    forall i | 0 <= i < |es + fs| ensures EntryAt(u, cs, from, es + fs, i) {
      BeforeConcat(from, es, fs, i);
      assert if i >= |es| then EntryAt(u, cs, mid, fs, i - |es|) else EntryAt(u, cs, from, es, i);
    }
  }

  lemma {:induction false} FlatConcat(es: seq<Entry>, fs: seq<Entry>)
    ensures FlatIds(es + fs) == FlatIds(es) + FlatIds(fs)
  {
    if es == [] {
      assert es + fs == fs;
    } else {
      assert (es + fs)[1..] == es[1..] + fs;
      FlatConcat(es[1..], fs);
      Assoc(es[0].ids, FlatIds(es[1..]), FlatIds(fs));
    }
  }

  lemma {:induction false} SinglesSplit(order: seq<OrderItem>, a: nat, b: nat, c: nat)
    requires a <= b <= c <= |order|
    ensures Singles(order, a, c) == Singles(order, a, b) + Singles(order, b, c)
    decreases b - a
  {
    if a < b {
      SinglesSplit(order, a + 1, b, c);
    }
  }

  lemma {:induction false} SinglesRun(p: Pack, ids: seq<PromptId>, k: nat)
    requires IntervalAt(p, ids, k)
    ensures Singles(p.order, k, k + |ids|) == ids
    decreases |ids|
  {
    if ids != [] {
      assert p.order[k + 0] == One(ids[0]);
      assert IntervalAt(p, ids[1..], k + 1) by {
        forall i | 0 <= i < |ids[1..]| ensures p.order[k + 1 + i] == One(ids[1..][i]) {
          assert p.order[k + (i + 1)] == One(ids[i + 1]);
        }
      }
      SinglesRun(p, ids[1..], k + 1);
    }
  }

  lemma IdsExtend(p: Pack, b: nat, k: nat, q: nat, ids: seq<PromptId>)
    requires b <= k < |p.order| && AfterItem(p, k, q) && IntervalAt(p, ids, q)
    ensures Singles(p.order, b + 1, q + |ids|) == Singles(p.order, b + 1, k + 1) + ids
  {
    SinglesRun(p, ids, q);
    SinglesSplit(p.order, b + 1, k + 1, q + |ids|);
    SinglesSplit(p.order, k + 1, q, q + |ids|);
    assert Singles(p.order, k + 1, q) == [];
  }

  lemma LastOfRun(p: Pack, ids: seq<PromptId>, q: nat)
    requires ValidPack(p) && IntervalAt(p, ids, q) && ids != []
    ensures Item(p, ids[|ids| - 1]) == Some(q + |ids| - 1) && p.order[q + |ids| - 1] == One(ids[|ids| - 1])
  {
    assert p.order[q + (|ids| - 1)] == One(ids[|ids| - 1]);
    ItemOf(p, q + |ids| - 1, ids[|ids| - 1]);
  }

  /** Accepting a ledger segment fs that completes the run of prompts ids, at item q, right
      after last (or after the reviewers that follow last). */
  lemma Extend(u: Setup, cs: seq<Commit>, last: PromptId, commit: Sha, fs: seq<Entry>, ids: seq<PromptId>, q: nat,
    to: Sha)
    requires ValidPack(u.pack) && WellFormed(cs) && Accounted(u, cs, last, commit)
    requires LedgerOk(u, cs, commit, fs, to) && FlatIds(fs) == ids && ids != []
    requires IntervalAt(u.pack, ids, q)
    requires Item(u.pack, last).Some? && AfterItem(u.pack, Item(u.pack, last).value, q)
    ensures Accounted(u, cs, ids[|ids| - 1], to)
  {
    hide LedgerOk, WellFormed, Singles, FlatIds, IntervalAt, ValidPack, ItemFrom;
    var es :| AccountedBy(u, cs, es, last, commit);
    LedgerConcat(u, cs, u.base, es, commit, fs, to);
    FlatConcat(es, fs);
    IdsExtend(u.pack, Item(u.pack, u.basePrompt).value, Item(u.pack, last).value, q, ids);
    LastOfRun(u.pack, ids, q);
    Accept(u, cs, es + fs, ids[|ids| - 1], to);
  }

  lemma Accept(u: Setup, cs: seq<Commit>, es: seq<Entry>, last: PromptId, commit: Sha)
    requires WellFormed(cs) && AccountedBy(u, cs, es, last, commit)
    ensures Accounted(u, cs, last, commit)
  {}

  /** q is the item after k, or the one after the reviewers that follow k. */
  ghost predicate AfterItem(p: Pack, k: nat, q: nat) {
    q < |p.order| && (q == k + 1 || (q == k + 2 && p.order[k + 1].Reviewers?))
  }

  // ----- what a ledger says about history -----

  ghost predicate NoneConsolidated(es: seq<Entry>) {
    forall i :: 0 <= i < |es| ==> !es[i].consolidated
  }

  function Commits(es: seq<Entry>): set<Sha> {
    set i | 0 <= i < |es| :: es[i].commit
  }

  /** The boundary's commit has the previous boundary as a parent. The validation checks this for
      a single prompt, and not for a consolidated group. */
  ghost predicate KeptAt(cs: seq<Commit>, from: Sha, es: seq<Entry>, i: nat)
    requires i < |es|
  {
    es[i].commit < |cs| && (es[i].consolidated ==> Before(from, es, i) in cs[es[i].commit].parents)
  }

  ghost predicate AllKept(cs: seq<Commit>, from: Sha, es: seq<Entry>) {
    forall i :: 0 <= i < |es| ==> KeptAt(cs, from, es, i)
  }

  /** An accepted commit still has the previous boundary in its history exactly when that is one of its parents. */
  lemma KeptExactly(u: Setup, cs: seq<Commit>, from: Sha, es: seq<Entry>, i: nat)
    requires WellFormed(cs) && i < |es| && EntryAt(u, cs, from, es, i)
    ensures Before(from, es, i) in Ancestors(cs, es[i].commit) <==> Before(from, es, i) in cs[es[i].commit].parents
    ensures KeptAt(cs, from, es, i) <==> Before(from, es, i) in Ancestors(cs, es[i].commit)
  {
    var prev, c := Before(from, es, i), es[i].commit;
    SelfAncestor(cs, prev);
    AncestorsBelow(cs, prev);
    SelfAncestor(cs, c);
    assert c in Between(cs, prev, c);
    if prev in Ancestors(cs, c) {
      var p :| p in cs[c].parents && prev in Ancestors(cs, p);
      SelfAncestor(cs, p);
      AncestorsBelow(cs, p);
      assert p in Ancestors(cs, c) && p !in Between(cs, prev, c);
    }
  }

  lemma {:induction false} ChainAncestors(u: Setup, cs: seq<Commit>, from: Sha, es: seq<Entry>, i: nat)
    requires WellFormed(cs) && i <= |es| && from < |cs| && AllKept(cs, from, es)
    requires forall j :: 0 <= j < |es| ==> EntryAt(u, cs, from, es, j)
    ensures Before(from, es, i) < |cs| && from <= Before(from, es, i)
    ensures Ancestors(cs, Before(from, es, i)) == Ancestors(cs, from) + Commits(es[..i])
    ensures i > 0 ==> from < Before(from, es, i)
  {
    hide EntryOk, Ancestors;
    if i == 0 {
      assert Commits(es[..0]) == {};
    } else {
      ChainAncestors(u, cs, from, es, i - 1);
      assert EntryAt(u, cs, from, es, i - 1) && KeptAt(cs, from, es, i - 1);
      ParentOf(u, cs, Before(from, es, i - 1), es[i - 1]);
      assert es[..i] == es[..i - 1] + [es[i - 1]];
      CommitsSnoc(es[..i - 1], es[i - 1]);
    }
  }

  lemma CommitsSnoc(es: seq<Entry>, e: Entry)
    ensures Commits(es + [e]) == Commits(es) + {e.commit}
  {
    var all := es + [e];
    assert all[|es|] == e;
    forall c | c in Commits(es) ensures c in Commits(all) {
      var i :| 0 <= i < |es| && es[i].commit == c;
      assert all[i] == es[i];
    }
    forall c | c in Commits(all) ensures c in Commits(es) + {e.commit} {
      var i :| 0 <= i < |all| && all[i].commit == c;
      assert i < |es| ==> all[i] == es[i];
    }
  }

  /** History past the adopted commit is exactly the accepted commits, all different: nothing lost,
      nothing slipped in. */
  ghost predicate ExactHistory(cs: seq<Commit>, from: Sha, es: seq<Entry>, to: Sha)
    requires WellFormed(cs) && from < |cs| && to < |cs|
  {
    from in Ancestors(cs, to) && Between(cs, from, to) == Commits(es) && |Commits(es)| == |es|
  }

  lemma KeptIsExact(u: Setup, cs: seq<Commit>, es: seq<Entry>, to: Sha)
    requires WellFormed(cs) && LedgerOk(u, cs, u.base, es, to) && AllKept(cs, u.base, es)
    ensures ExactHistory(cs, u.base, es, to)
  {
    hide EntryOk, Ancestors;
    ChainAncestors(u, cs, u.base, es, |es|);
    assert es[..|es|] == es;
    AncestorsBelow(cs, u.base);
    SelfAncestor(cs, u.base);
    forall i | 0 <= i < |es| ensures es[i].commit > u.base {
      ChainAncestors(u, cs, u.base, es, i + 1);
    }
    assert Commits(es) !! Ancestors(cs, u.base);
    CountCommits(u, cs, u.base, es, |es|);
  }

  /** Each boundary adds only itself to what came before. */
  lemma {:induction false} AncestorsWithin(u: Setup, cs: seq<Commit>, from: Sha, es: seq<Entry>, i: nat, n: nat)
    requires WellFormed(cs) && i <= n <= |es| && from < |cs|
    requires forall j :: 0 <= j < |es| ==> EntryAt(u, cs, from, es, j)
    ensures Before(from, es, i) < |cs| && Before(from, es, n) < |cs|
    ensures Ancestors(cs, Before(from, es, n)) <= Ancestors(cs, Before(from, es, i)) + Commits(es[i..n])
    decreases n
  {
    hide Ancestors;
    assert i > 0 ==> EntryAt(u, cs, from, es, i - 1);
    if i < n {
      AncestorsWithin(u, cs, from, es, i, n - 1);
      assert EntryAt(u, cs, from, es, n - 1);
      assert es[i..n] == es[i..n - 1] + [es[n - 1]];
      CommitsSnoc(es[i..n - 1], es[n - 1]);
    }
  }

  function CommitList(es: seq<Entry>): (l: seq<Sha>)
    ensures |l| == |es| && forall i :: 0 <= i < |l| ==> l[i] == es[i].commit
  {
    seq(|es|, i requires 0 <= i < |es| => es[i].commit)
  }

  lemma CommitsDiffer(es: seq<Entry>)
    requires |Commits(es)| == |es|
    ensures Distinct(CommitList(es))
  {
    var l := CommitList(es);
    forall c | c in Commits(es) ensures c in Elems(l) {
      var i :| 0 <= i < |es| && es[i].commit == c;
      assert l[i] == c;
    }
    assert Elems(l) == Commits(es);
    CardDistinct(l);
  }

  /** In an exact history no accepted commit can have dropped the boundary before it. */
  lemma ExactIsKept(u: Setup, cs: seq<Commit>, es: seq<Entry>, to: Sha, i: nat)
    requires WellFormed(cs) && LedgerOk(u, cs, u.base, es, to) && ExactHistory(cs, u.base, es, to) && i < |es|
    ensures KeptAt(cs, u.base, es, i)
  {
    hide EntryOk, Ancestors;
    var prev, l := Before(u.base, es, i), CommitList(es);
    AncestorsWithin(u, cs, u.base, es, i + 1, |es|);
    KeptExactly(u, cs, u.base, es, i);
    CommitsDiffer(es);
    SelfAncestor(cs, u.base);
    assert i > 0 ==> prev in Commits(es);
    assert prev in Ancestors(cs, to);
    var rest := es[i + 1..|es|];
    forall j | 0 <= j < |rest| ensures rest[j].commit != prev {
      assert l[i + 1 + j] == rest[j].commit && es[i + 1 + j].commit in Commits(es);
      assert i > 0 ==> l[i - 1] == prev;
    }
  }

  /** History past the adopted commit is exactly the accepted commits if and only if every
      consolidated commit kept the boundary before it as a parent. */
  lemma HistoryIsLedger(u: Setup, cs: seq<Commit>, es: seq<Entry>, to: Sha)
    requires WellFormed(cs) && LedgerOk(u, cs, u.base, es, to)
    ensures AllKept(cs, u.base, es) <==> ExactHistory(cs, u.base, es, to)
    ensures NoneConsolidated(es) ==> |FlatIds(es)| == |es|
  {
    hide ExactHistory, EntryOk, KeptAt;
    if AllKept(cs, u.base, es) { KeptIsExact(u, cs, es, to); }
    if ExactHistory(cs, u.base, es, to) {
      forall i | 0 <= i < |es| ensures KeptAt(cs, u.base, es, i) { ExactIsKept(u, cs, es, to, i); }
    }
    assert es[..|es|] == es;
    if NoneConsolidated(es) { CountIds(u, cs, u.base, es, |es|); }
  }

  /** The last n + 1 commits on the first-parent line that ends in c, oldest first; fewer if it starts later. */
  function Line(cs: seq<Commit>, c: Sha, n: nat): (l: seq<Sha>)
    ensures l != [] && l[|l| - 1] == c
    decreases n
  {
    if n == 0 || FirstParent(cs, c).None? then [c] else Line(cs, FirstParent(cs, c).value, n - 1) + [c]
  }

  ghost predicate FirstKeptAt(cs: seq<Commit>, from: Sha, es: seq<Entry>, i: nat)
    requires i < |es|
  {
    FirstParent(cs, es[i].commit) == Some(Before(from, es, i))
  }

  lemma LineStep(cs: seq<Commit>, from: Sha, es: seq<Entry>, n: nat)
    requires 0 < n <= |es|
    ensures Line(cs, Before(from, es, n), n) == [from] + CommitList(es[..n]) <==>
      FirstKeptAt(cs, from, es, n - 1) && Line(cs, Before(from, es, n - 1), n - 1) == [from] + CommitList(es[..n - 1])
  {
    var c, front := es[n - 1].commit, [from] + CommitList(es[..n - 1]);
    assert [from] + CommitList(es[..n]) == front + [c] && front[n - 1] == Before(from, es, n - 1);
    if FirstParent(cs, c).Some? {
      Snoc(Line(cs, FirstParent(cs, c).value, n - 1), front, c);
    }
  }

  lemma {:induction false} LineExactly(cs: seq<Commit>, from: Sha, es: seq<Entry>, n: nat)
    requires n <= |es|
    ensures Line(cs, Before(from, es, n), n) == [from] + CommitList(es[..n])
      <==> forall i :: 0 <= i < n ==> FirstKeptAt(cs, from, es, i)
  {
    if n > 0 {
      hide Line, FirstKeptAt;
      LineStep(cs, from, es, n);
      LineExactly(cs, from, es, n - 1);
    } else {
      assert es[..0] == [];
    }
  }

  lemma Snoc<T>(a: seq<T>, b: seq<T>, x: T)
    ensures a + [x] == b + [x] <==> a == b
  {
    if a + [x] == b + [x] {
      assert (a + [x])[..|a|] == a && (b + [x])[..|b|] == b;
    }
  }

  /** The first-parent line back from the last accepted commit is the accepted commits in order,
      down to the adopted one, if and only if every consolidated commit has the boundary before
      it as its first parent. */
  lemma FirstParentLine(u: Setup, cs: seq<Commit>, es: seq<Entry>, to: Sha)
    requires WellFormed(cs) && LedgerOk(u, cs, u.base, es, to)
    ensures Line(cs, to, |es|) == [u.base] + CommitList(es)
      <==> forall i :: 0 <= i < |es| && es[i].consolidated ==> FirstKeptAt(cs, u.base, es, i)
  {
    hide Ancestors;
    LineExactly(cs, u.base, es, |es|);
    assert es[..|es|] == es;
    forall i | 0 <= i < |es| && !es[i].consolidated ensures FirstKeptAt(cs, u.base, es, i) {
      assert EntryAt(u, cs, u.base, es, i);
    }
  }

  lemma SelfAncestor(cs: seq<Commit>, c: Sha)
    requires WellFormed(cs) && c < |cs|
    ensures c in Ancestors(cs, c)
  {}

  lemma ParentOf(u: Setup, cs: seq<Commit>, prev: Sha, e: Entry)
    requires WellFormed(cs) && EntryOk(u, cs, prev, e) && (e.consolidated ==> prev in cs[e.commit].parents)
    ensures !e.consolidated ==> FirstParent(cs, e.commit) == Some(prev)
    ensures Ancestors(cs, e.commit) == Ancestors(cs, prev) + {e.commit} && prev < e.commit < |cs|
  {
    assert prev in cs[e.commit].parents;
    forall a | a in Ancestors(cs, prev) ensures a in Ancestors(cs, e.commit) {}
    SelfAncestor(cs, e.commit);
    assert Ancestors(cs, e.commit) - Ancestors(cs, prev) == {e.commit};
  }

  lemma {:induction false} CountCommits(u: Setup, cs: seq<Commit>, from: Sha, es: seq<Entry>, n: nat)
    requires WellFormed(cs) && from < |cs| && AllKept(cs, from, es) && n <= |es|
    requires forall j :: 0 <= j < |es| ==> EntryAt(u, cs, from, es, j)
    ensures |Commits(es[..n])| == n
  {
    hide EntryOk;
    if n > 0 {
      CountCommits(u, cs, from, es, n - 1);
      assert es[..n] == es[..n - 1] + [es[n - 1]];
      CommitsSnoc(es[..n - 1], es[n - 1]);
      ChainAncestors(u, cs, from, es, n - 1);
      assert EntryAt(u, cs, from, es, n - 1);
      FreshCommit(u, cs, Before(from, es, n - 1), es[n - 1]);
    }
  }

  lemma FreshCommit(u: Setup, cs: seq<Commit>, prev: Sha, e: Entry)
    requires WellFormed(cs) && EntryOk(u, cs, prev, e)
    ensures e.commit !in Ancestors(cs, prev)
  {
    assert e.commit in Between(cs, prev, e.commit);
  }

  lemma {:induction false} CountIds(u: Setup, cs: seq<Commit>, from: Sha, es: seq<Entry>, n: nat)
    requires WellFormed(cs) && NoneConsolidated(es) && n <= |es|
    requires forall j :: 0 <= j < |es| ==> EntryAt(u, cs, from, es, j)
    ensures |FlatIds(es[..n])| == n
  {
    hide Ancestors;
    if n > 0 {
      var e := es[n - 1];
      CountIds(u, cs, from, es, n - 1);
      assert es[..n] == es[..n - 1] + [e];
      FlatConcat(es[..n - 1], [e]);
      assert EntryAt(u, cs, from, es, n - 1) && FlatIds([e]) == e.ids + FlatIds([]);
    }
  }
}
