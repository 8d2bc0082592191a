/** The part of Git the supervisor observes. A commit's name is its index in an
    append-only object store, so parents always come earlier. */
module GitModel {
  import opened Prelude

  type Sha = nat

  /** The one "Current v2 implementation checkpoint" section of a guidance file:
      the prompt ids its text mentions, and those it announces as next. */
  datatype Guide = Unreadable | Section(recorded: set<string>, next: set<string>)

  datatype Commit = Commit(parents: seq<Sha>, subject: string, claude: Guide, agents: Guide)

  /** One `git status` entry: the two-letter code and the path. */
  datatype StatusEntry = StatusEntry(status: string, path: string)

  datatype Repo = Repo(commits: seq<Commit>, head: Sha, dirty: seq<StatusEntry>, claude: Guide, agents: Guide)

  /** scripts/codex-v2-supervisor.py:1431-1440: an untracked FINDINGS.md is the only dirt allowed. */
  predicate OnlyFindings(entries: seq<StatusEntry>) {
    forall i :: 0 <= i < |entries| ==> entries[i] == StatusEntry("??", "FINDINGS.md")
  }

  ghost predicate WellFormed(cs: seq<Commit>) {
    forall c, p :: 0 <= c < |cs| && p in cs[c].parents ==> p < c
  }

  /** HEAD exists, and a clean worktree shows the guidance files of HEAD. */
  ghost predicate ValidRepo(r: Repo) {
    && WellFormed(r.commits)
    && r.head < |r.commits|
    && (OnlyFindings(r.dirty) ==> r.claude == r.commits[r.head].claude && r.agents == r.commits[r.head].agents)
  }

  /** Whatever a child, a crash or an operator does to the repository, objects stay. */
  ghost predicate Extends(r: Repo, r': Repo) {
    ValidRepo(r') && r.commits <= r'.commits
  }

  function FirstParent(cs: seq<Commit>, c: Sha): Option<Sha> {
    if c < |cs| && cs[c].parents != [] then Some(cs[c].parents[0]) else None
  }

  ghost function Ancestors(cs: seq<Commit>, c: Sha): set<Sha>
    requires WellFormed(cs) && c < |cs|
    decreases c
  {
    {c} + (set p, a | p in cs[c].parents && a in Ancestors(cs, p) :: a)
  }

  /** `git rev-list a..b`, as a set. */
  ghost function Between(cs: seq<Commit>, a: Sha, b: Sha): set<Sha>
    requires WellFormed(cs) && a < |cs| && b < |cs|
  {
    Ancestors(cs, b) - Ancestors(cs, a)
  }

  /** What `rev-list` is trusted for: it lists that set once each, in whatever order. */
  ghost predicate GoodRevList(revList: (seq<Commit>, Sha, Sha) -> seq<Sha>) {
    forall cs: seq<Commit>, a: Sha, b: Sha :: WellFormed(cs) && a < |cs| && b < |cs| ==>
      Distinct(revList(cs, a, b)) && Elems(revList(cs, a, b)) == Between(cs, a, b)
  }

  ghost function Listing(s: set<Sha>): (l: seq<Sha>)
    ensures Distinct(l) && Elems(l) == s
    decreases |s|
  {
    if s == {} then []
    else
      var x :| x in s;
      var rest := Listing(s - {x});
      assert x !in Elems(rest) && Elems([x] + rest) == {x} + Elems(rest);
      [x] + rest
  }

  /** There is such a listing, so nothing below rests on an empty assumption. */
  lemma RevListExists()
    ensures exists revList :: GoodRevList(revList)
  {
    ghost var revList := (cs: seq<Commit>, a: Sha, b: Sha) =>
      if WellFormed(cs) && a < |cs| && b < |cs| then Listing(Between(cs, a, b)) else [];
    assert GoodRevList(revList);
  }

  lemma {:induction false} AncestorsBelow(cs: seq<Commit>, c: Sha)
    requires WellFormed(cs) && c < |cs|
    ensures forall a :: a in Ancestors(cs, c) ==> a <= c
    decreases c
  {
    forall a | a in Ancestors(cs, c) ensures a <= c {
      if a != c {
        var p :| p in cs[c].parents && a in Ancestors(cs, p);
        AncestorsBelow(cs, p);
      }
    }
  }

  /** History is immutable: later objects never change a commit's ancestry. */
  lemma {:induction false} AncestorsStable(cs: seq<Commit>, cs': seq<Commit>, c: Sha)
    requires WellFormed(cs) && WellFormed(cs') && cs <= cs' && c < |cs|
    ensures Ancestors(cs, c) == Ancestors(cs', c)
    decreases c
  {
    assert cs[c] == cs'[c];
    forall p | p in cs[c].parents ensures Ancestors(cs, p) == Ancestors(cs', p) {
      AncestorsStable(cs, cs', p);
    }
  }

  lemma ParentAncestors(cs: seq<Commit>, p: Sha, c: Sha)
    requires WellFormed(cs) && FirstParent(cs, c) == Some(p)
    ensures p < c < |cs| && Ancestors(cs, p) <= Ancestors(cs, c)
  {
    assert p in cs[c].parents;
    forall a | a in Ancestors(cs, p) ensures a in Ancestors(cs, c) {}
  }

  /** scripts/codex-v2-supervisor.py:4179-4219: both guidance files record the
      completed prompt and announce exactly the expected next prompts. */
  predicate GuidanceOk(r: Repo, completed: string, next: seq<string>) {
    GuideOk(r.claude, completed, next) && GuideOk(r.agents, completed, next)
  }

  predicate GuideOk(g: Guide, completed: string, next: seq<string>) {
    g.Section? && completed in g.recorded && g.next == Elems(next)
  }
}
