/** Group resolution said of the pack and the configured ranges alone: when it succeeds, and which
    groups it gives. */
module Resolution {
  import opened Prelude
  import opened PromptPack

  /** The configured range is positions a to b of the prompt order. */
  predicate RangeAt(p: Pack, spec: GroupSpec, a: nat, b: nat) {
    a <= b < |Flatten(p.order)| && Flatten(p.order)[a] == spec.start && Flatten(p.order)[b] == spec.end
  }

  predicate IsDigit(ch: char) {
    ch in "0123456789"
  }

  /** id belongs to the task of two digits. */
  predicate OfTask(id: PromptId, task: string) {
    |id| >= 4 && id[0] == 'T' && IsDigit(id[1]) && IsDigit(id[2]) && id[3] == '-' && task == [id[1], id[2]]
  }

  ghost predicate OneTask(p: Pack, a: nat, b: nat, task: string)
    requires a <= b < |Flatten(p.order)|
  {
    forall k :: a <= k <= b ==> OfTask(Flatten(p.order)[k], task)
  }

  /** Single prompts of one task, none behind a gate, and if several none of the highest effort. */
  ghost predicate RangeOk(p: Pack, maxIds: set<PromptId>, a: nat, b: nat)
    requires a <= b < |Flatten(p.order)|
  {
    && (exists task :: OneTask(p, a, b, task))
    && (forall k :: a <= k <= b ==>
          var id := Flatten(p.order)[k];
          && !(id in p.prompts && p.prompts[id].gated)
          && (forall r :: 0 <= r < |p.order| && p.order[r].Reviewers? ==> id !in p.order[r].ids)
          && (a < b ==> id !in maxIds))
  }

  ghost predicate GroupAt(p: Pack, spec: GroupSpec, maxIds: set<PromptId>, g: Group, a: nat, b: nat) {
    && RangeAt(p, spec, a, b) && RangeOk(p, maxIds, a, b)
    && g == Group(Flatten(p.order)[a..b + 1], spec.subject, Flatten(p.order)[a..b + 1])
  }

  /** g is what spec configures: the whole run from its start to its end, under its subject. */
  ghost predicate GroupFor(p: Pack, spec: GroupSpec, maxIds: set<PromptId>, g: Group) {
    exists a: nat, b: nat :: GroupAt(p, spec, maxIds, g, a, b)
  }

  ghost predicate Configured(p: Pack, specs: seq<GroupSpec>, maxIds: set<PromptId>, groups: seq<Group>) {
    && |groups| == |specs|
    && (forall i :: 0 <= i < |specs| ==> GroupFor(p, specs[i], maxIds, groups[i]))
    && (forall i, j :: 0 <= i < j < |groups| ==> Elems(groups[i].ids) !! Elems(groups[j].ids))
  }

  lemma DigitExactly(ch: char)
    ensures IsDigit(ch) <==> Digit(ch)
  {
    var digits := "0123456789";
    assert ch in digits <==> exists i :: 0 <= i < 10 && digits[i] == ch;
    assert forall i :: 0 <= i < 10 ==> digits[i] == ('0' as int + i) as char;
    if Digit(ch) { assert digits[ch as int - '0' as int] == ch; }
  }

  lemma TaskExactly(id: PromptId, task: string)
    ensures TaskOf(id) == Some(task) <==> OfTask(id, task)
  {
    hide IsDigit, Digit;
    if |id| >= 4 {
      DigitExactly(id[1]);
      DigitExactly(id[2]);
      assert id[1..3] == [id[1], id[2]];
    }
  }

  lemma IndexIs(s: seq<PromptId>, i: nat)
    requires Distinct(s) && i < |s|
    ensures IndexOf(s, s[i]) == i
  {
    IndexOfDistinct(s, i);
  }

  lemma RangeUnique(p: Pack, spec: GroupSpec, a: nat, b: nat)
    requires ValidPack(p) && RangeAt(p, spec, a, b)
    ensures a == IndexOf(Flatten(p.order), spec.start) && b == IndexOf(Flatten(p.order), spec.end)
  {
    IndexIs(Flatten(p.order), a);
    IndexIs(Flatten(p.order), b);
  }

  /** One range: accepted exactly when it is one, is allowed, and meets no prompt claimed before. */
  lemma CheckExactly(p: Pack, spec: GroupSpec, maxIds: set<PromptId>, claimed: set<PromptId>, ids: seq<PromptId>)
    requires ValidPack(p)
    ensures CheckSpec(p, spec, maxIds, claimed) == Ok(ids) <==>
      GroupFor(p, spec, maxIds, Group(ids, spec.subject, ids)) && Elems(ids) !! claimed
  {
    hide ValidPack, RangeOk, Allowed, CheckSpec, Flatten;
    var flat, g := Flatten(p.order), Group(ids, spec.subject, ids);
    CheckAllowed(p, spec, maxIds, claimed, ids);
    if CheckSpec(p, spec, maxIds, claimed) == Ok(ids) {
      var a, b := IndexOf(flat, spec.start), IndexOf(flat, spec.end);
      AllowedExactly(p, maxIds, a, b);
      assert GroupAt(p, spec, maxIds, g, a, b);
    }
    if a: nat, b: nat :| GroupAt(p, spec, maxIds, g, a, b) {
      RangeUnique(p, spec, a, b);
      AllowedExactly(p, maxIds, a, b);
    }
  }

  lemma CheckAllowed(p: Pack, spec: GroupSpec, maxIds: set<PromptId>, claimed: set<PromptId>, ids: seq<PromptId>)
    ensures CheckSpec(p, spec, maxIds, claimed) == Ok(ids) <==>
      var flat := Flatten(p.order);
      && spec.start in flat && spec.end in flat
      && var a, b := IndexOf(flat, spec.start), IndexOf(flat, spec.end);
      a <= b && ids == flat[a..b + 1] && Allowed(p, maxIds, ids) && Elems(ids) !! claimed
  {
    hide Flatten, IsReviewer, Gated, TaskOf;
    assert Elems(ids) !! claimed <==> forall i :: 0 <= i < |ids| ==> ids[i] !in claimed by {
      forall i | 0 <= i < |ids| ensures ids[i] in Elems(ids) {}
    }
  }

  ghost predicate Allowed(p: Pack, maxIds: set<PromptId>, ids: seq<PromptId>) {
    && (forall i :: 0 <= i < |ids| ==> !Gated(p, ids[i]) && !IsReviewer(p, ids[i]) && TaskOf(ids[i]).Some?)
    && (forall i :: 0 <= i < |ids| ==> TaskOf(ids[i]) == TaskOf(ids[0]))
    && (|ids| > 1 ==> forall i :: 0 <= i < |ids| ==> ids[i] !in maxIds)
  }

  lemma AllowedExactly(p: Pack, maxIds: set<PromptId>, a: nat, b: nat)
    requires a <= b < |Flatten(p.order)|
    ensures RangeOk(p, maxIds, a, b) <==> Allowed(p, maxIds, Flatten(p.order)[a..b + 1])
  {
    hide TaskOf, OfTask, Flatten;
    var flat, ids := Flatten(p.order), Flatten(p.order)[a..b + 1];
    assert forall k :: a <= k <= b ==> flat[k] == ids[k - a];
    assert forall i :: 0 <= i < |ids| ==> ids[i] == flat[a + i];
    forall id: PromptId, task: string ensures TaskOf(id) == Some(task) <==> OfTask(id, task) {
      TaskExactly(id, task);
    }
    if Allowed(p, maxIds, ids) {
      var task := TaskOf(ids[0]).value;
      forall k | a <= k <= b ensures OfTask(flat[k], task) {
        assert TaskOf(ids[k - a]) == TaskOf(ids[0]);
      }
      assert OneTask(p, a, b, task);
    }
    if RangeOk(p, maxIds, a, b) {
      var task :| OneTask(p, a, b, task);
      forall i | 0 <= i < |ids| ensures TaskOf(ids[i]) == Some(task) {
        assert OfTask(flat[a + i], task);
      }
    }
  }

  ghost predicate Apart(groups: seq<Group>) {
    forall i, j :: 0 <= i < j < |groups| ==> Elems(groups[i].ids) !! Elems(groups[j].ids)
  }

  lemma ApartCons(g: Group, rest: seq<Group>, claimed: set<PromptId>)
    ensures Apart([g] + rest) && Avoids([g] + rest, claimed) <==>
      Elems(g.ids) !! claimed && Apart(rest) && Avoids(rest, claimed + Elems(g.ids))
  {
    var all := [g] + rest;
    assert all[0] == g && forall i :: 0 <= i < |rest| ==> all[i + 1] == rest[i];
    if Apart(all) && Avoids(all, claimed) {
      forall i | 0 <= i < |rest| ensures Elems(rest[i].ids) !! claimed + Elems(g.ids) {
        assert Elems(all[0].ids) !! Elems(all[i + 1].ids) && Elems(all[i + 1].ids) !! claimed;
      }
      forall i, j | 0 <= i < j < |rest| ensures Elems(rest[i].ids) !! Elems(rest[j].ids) {
        assert Elems(all[i + 1].ids) !! Elems(all[j + 1].ids);
      }
    }
    if Elems(g.ids) !! claimed && Apart(rest) && Avoids(rest, claimed + Elems(g.ids)) {
      forall i, j | 0 <= i < j < |all| ensures Elems(all[i].ids) !! Elems(all[j].ids) {
        assert all[j] == rest[j - 1] && (i > 0 ==> all[i] == rest[i - 1]);
      }
      forall i | 0 <= i < |all| ensures Elems(all[i].ids) !! claimed {
        assert i > 0 ==> all[i] == rest[i - 1];
      }
    }
  }

  ghost predicate EachFor(p: Pack, specs: seq<GroupSpec>, maxIds: set<PromptId>, groups: seq<Group>) {
    |groups| == |specs| && forall i :: 0 <= i < |specs| ==> GroupFor(p, specs[i], maxIds, groups[i])
  }

  lemma EachCons(p: Pack, specs: seq<GroupSpec>, maxIds: set<PromptId>, groups: seq<Group>)
    requires specs != [] && groups != []
    ensures EachFor(p, specs, maxIds, groups) <==>
      GroupFor(p, specs[0], maxIds, groups[0]) && EachFor(p, specs[1..], maxIds, groups[1..])
  {
    hide GroupFor;
    assert forall i :: 0 < i < |specs| ==> specs[1..][i - 1] == specs[i];
    assert forall i :: 0 < i < |groups| ==> groups[1..][i - 1] == groups[i];
    if GroupFor(p, specs[0], maxIds, groups[0]) && EachFor(p, specs[1..], maxIds, groups[1..]) {
      forall i | 0 <= i < |specs| ensures GroupFor(p, specs[i], maxIds, groups[i]) {
        if i > 0 { assert GroupFor(p, specs[1..][i - 1], maxIds, groups[1..][i - 1]); }
      }
    }
    if EachFor(p, specs, maxIds, groups) {
      forall i | 0 <= i < |specs[1..]| ensures GroupFor(p, specs[1..][i], maxIds, groups[1..][i]) {
        assert GroupFor(p, specs[i + 1], maxIds, groups[i + 1]);
      }
    }
  }

  lemma {:induction false} ResolvesFrom(p: Pack, specs: seq<GroupSpec>, maxIds: set<PromptId>, claimed: set<PromptId>,
    groups: seq<Group>)
    requires ValidPack(p)
    ensures Resolve(p, specs, maxIds, claimed) == Ok(groups) <==>
      EachFor(p, specs, maxIds, groups) && Apart(groups) && Avoids(groups, claimed)
    decreases specs
  {
    hide ValidPack, CheckSpec, GroupFor, Elems, Apart, Avoids, EachFor;
    if specs == [] {
      NoGroups(p, maxIds, claimed, groups);
    } else if groups == [] {
      TooFew(p, specs, maxIds);
    } else {
      var g, rest := groups[0], groups[1..];
      assert groups == [g] + rest;
      CheckExactly(p, specs[0], maxIds, claimed, g.ids);
      ResolvesFrom(p, specs[1..], maxIds, claimed + Elems(g.ids), rest);
      FirstIs(p, specs[0], maxIds, g);
      ApartCons(g, rest, claimed);
      EachCons(p, specs, maxIds, groups);
    }
  }

  lemma NoGroups(p: Pack, maxIds: set<PromptId>, claimed: set<PromptId>, groups: seq<Group>)
    ensures EachFor(p, [], maxIds, groups) && Apart(groups) && Avoids(groups, claimed) <==> groups == []
  {}

  lemma TooFew(p: Pack, specs: seq<GroupSpec>, maxIds: set<PromptId>)
    requires specs != []
    ensures !EachFor(p, specs, maxIds, [])
  {}

  lemma FirstIs(p: Pack, spec: GroupSpec, maxIds: set<PromptId>, g: Group)
    ensures GroupFor(p, spec, maxIds, g) ==> g == Group(g.ids, spec.subject, g.ids)
  {}

  /** Resolution gives groups exactly when there is one for every configured range, in order, each
      the whole run under the configured subject, and no prompt is in two of them. */
  lemma ResolvedExactly(p: Pack, specs: seq<GroupSpec>, maxIds: set<PromptId>, groups: seq<Group>)
    requires ValidPack(p)
    ensures Resolved(p, specs, maxIds) == Ok(groups) <==> Configured(p, specs, maxIds, groups)
  {
    hide ValidPack, Resolve, GroupFor, Elems;
    ResolvesFrom(p, specs, maxIds, {}, groups);
  }

  /** What the groups look like from outside. */
  lemma ConfiguredEnds(p: Pack, specs: seq<GroupSpec>, maxIds: set<PromptId>, groups: seq<Group>, i: nat)
    requires Configured(p, specs, maxIds, groups) && i < |groups|
    ensures var ids := groups[i].ids;
      && groups[i].subject == specs[i].subject && groups[i].configured == ids
      && ids != [] && ids[0] == specs[i].start && ids[|ids| - 1] == specs[i].end
  {
    hide RangeOk, Flatten;
    var a: nat, b: nat :| GroupAt(p, specs[i], maxIds, groups[i], a, b);
  }

  ghost predicate SpecAt(p: Pack, spec: GroupSpec, maxIds: set<PromptId>, a: nat, b: nat) {
    RangeAt(p, spec, a, b) && RangeOk(p, maxIds, a, b)
  }

  ghost predicate SpecOk(p: Pack, spec: GroupSpec, maxIds: set<PromptId>) {
    exists a: nat, b: nat :: SpecAt(p, spec, maxIds, a, b)
  }

  ghost predicate NoOverlap(p: Pack, s: GroupSpec, t: GroupSpec) {
    forall a: nat, b: nat, x: nat, y: nat :: RangeAt(p, s, a, b) && RangeAt(p, t, x, y) ==> b < x || y < a
  }

  /** Every range is one of the order and allowed, and no two share a position. */
  ghost predicate Resolvable(p: Pack, specs: seq<GroupSpec>, maxIds: set<PromptId>) {
    && (forall i :: 0 <= i < |specs| ==> SpecOk(p, specs[i], maxIds))
    && (forall i, j :: 0 <= i < j < |specs| ==> NoOverlap(p, specs[i], specs[j]))
  }

  /** Resolution succeeds exactly for resolvable configurations. */
  lemma ResolvesExactly(p: Pack, specs: seq<GroupSpec>, maxIds: set<PromptId>)
    requires ValidPack(p)
    ensures Resolved(p, specs, maxIds).Ok? <==> Resolvable(p, specs, maxIds)
  {
    hide ValidPack, Resolved, Configured, Resolvable;
    if Resolved(p, specs, maxIds).Ok? {
      var groups := Resolved(p, specs, maxIds).value;
      ResolvedExactly(p, specs, maxIds, groups);
      ConfiguredIsResolvable(p, specs, maxIds, groups);
    }
    if Resolvable(p, specs, maxIds) {
      var groups := TheGroups(p, specs, maxIds);
      ResolvedExactly(p, specs, maxIds, groups);
    }
  }

  lemma ConfiguredIsResolvable(p: Pack, specs: seq<GroupSpec>, maxIds: set<PromptId>, groups: seq<Group>)
    requires ValidPack(p) && Configured(p, specs, maxIds, groups)
    ensures Resolvable(p, specs, maxIds)
  {
    hide ValidPack, RangeOk, RangeAt, Elems;
    forall i | 0 <= i < |specs| ensures SpecOk(p, specs[i], maxIds) {
      var a: nat, b: nat :| GroupAt(p, specs[i], maxIds, groups[i], a, b);
      assert SpecAt(p, specs[i], maxIds, a, b);
    }
    forall i, j | 0 <= i < j < |specs| ensures NoOverlap(p, specs[i], specs[j]) {
      GroupsMeet(p, specs[i], specs[j], maxIds, groups[i], groups[j]);
    }
  }

  lemma InSlice(s: seq<PromptId>, a: nat, b: nat, m: nat)
    requires Distinct(s) && a <= b < |s| && m < |s|
    ensures s[m] in Elems(s[a..b + 1]) <==> a <= m <= b
  {
    if a <= m <= b {
      assert s[a..b + 1][m - a] == s[m];
    }
    if s[m] in s[a..b + 1] {
      var k :| 0 <= k < |s[a..b + 1]| && s[a..b + 1][k] == s[m];
      IndexIs(s, a + k);
      IndexIs(s, m);
    }
  }

  lemma GroupsMeet(p: Pack, s: GroupSpec, t: GroupSpec, maxIds: set<PromptId>, g: Group, h: Group)
    requires ValidPack(p) && GroupFor(p, s, maxIds, g) && GroupFor(p, t, maxIds, h)
    ensures Elems(g.ids) !! Elems(h.ids) <==> NoOverlap(p, s, t)
  {
    hide RangeOk, Flatten, ValidPack, Elems;
    var flat := Flatten(p.order);
    var a: nat, b: nat :| GroupAt(p, s, maxIds, g, a, b);
    var x: nat, y: nat :| GroupAt(p, t, maxIds, h, x, y);
    assert Distinct(flat) by { PackDistinct(p); }
    forall m: nat | m < |flat|
      ensures flat[m] in Elems(g.ids) <==> a <= m <= b
      ensures flat[m] in Elems(h.ids) <==> x <= m <= y
    {
      InSlice(flat, a, b, m);
      InSlice(flat, x, y, m);
    }
    OnlyRange(p, s, a, b);
    OnlyRange(p, t, x, y);
    if Elems(g.ids) !! Elems(h.ids) {
      var m := if a <= x then x else a;
      assert !(m <= b && m <= y) by { assert flat[m] in Elems(g.ids) ==> flat[m] !in Elems(h.ids); }
    }
    if NoOverlap(p, s, t) {
      forall id | id in Elems(g.ids) ensures id !in Elems(h.ids) {
        var m := Found(flat, a, b, id);
      }
    }
  }

  lemma PackDistinct(p: Pack)
    requires ValidPack(p)
    ensures Distinct(Flatten(p.order))
  {}

  lemma Found(s: seq<PromptId>, a: nat, b: nat, id: PromptId) returns (m: nat)
    requires a <= b < |s| && id in Elems(s[a..b + 1])
    ensures a <= m <= b && s[m] == id
  {
    var k :| 0 <= k < |s[a..b + 1]| && s[a..b + 1][k] == id;
    m := a + k;
  }

  lemma OnlyRange(p: Pack, spec: GroupSpec, a: nat, b: nat)
    requires ValidPack(p) && RangeAt(p, spec, a, b)
    ensures forall x: nat, y: nat :: RangeAt(p, spec, x, y) ==> x == a && y == b
  {
    hide RangeAt;
    forall x: nat, y: nat | RangeAt(p, spec, x, y) ensures x == a && y == b {
      RangeUnique(p, spec, a, b);
      RangeUnique(p, spec, x, y);
    }
  }

  lemma TheGroups(p: Pack, specs: seq<GroupSpec>, maxIds: set<PromptId>) returns (groups: seq<Group>)
    requires ValidPack(p) && Resolvable(p, specs, maxIds)
    ensures Configured(p, specs, maxIds, groups)
  {
    hide RangeOk, Flatten, ValidPack, Elems, NoOverlap;
    groups := [];
    var flat := Flatten(p.order);
    while |groups| < |specs|
      invariant |groups| <= |specs|
      invariant forall i :: 0 <= i < |groups| ==> GroupFor(p, specs[i], maxIds, groups[i])
    {
      var a: nat, b: nat :| SpecAt(p, specs[|groups|], maxIds, a, b);
      var g := Group(flat[a..b + 1], specs[|groups|].subject, flat[a..b + 1]);
      assert GroupAt(p, specs[|groups|], maxIds, g, a, b);
      groups := groups + [g];
    }
    forall i, j | 0 <= i < j < |groups| ensures Elems(groups[i].ids) !! Elems(groups[j].ids) {
      GroupsMeet(p, specs[i], specs[j], maxIds, groups[i], groups[j]);
    }
  }

  ghost predicate Within(p: Pack, spec: GroupSpec, id: PromptId) {
    exists a: nat, b: nat, k: nat :: WithinAt(p, spec, id, a, b, k)
  }

  predicate WithinAt(p: Pack, spec: GroupSpec, id: PromptId, a: nat, b: nat, k: nat) {
    RangeAt(p, spec, a, b) && a <= k <= b && Flatten(p.order)[k] == id
  }

  predicate Backwards(p: Pack, spec: GroupSpec, a: nat, b: nat) {
    b < a < |Flatten(p.order)| && Flatten(p.order)[a] == spec.start && Flatten(p.order)[b] == spec.end
  }

  predicate InReviewers(p: Pack, id: PromptId, r: nat) {
    r < |p.order| && p.order[r].Reviewers? && id in p.order[r].ids
  }

  /** What an error says about a range is so. */
  lemma CheckTruly(p: Pack, spec: GroupSpec, maxIds: set<PromptId>, claimed: set<PromptId>)
    requires ValidPack(p) && CheckSpec(p, spec, maxIds, claimed).Err?
    ensures match CheckSpec(p, spec, maxIds, claimed).error
      case UnknownPrompt => spec.start !in Flatten(p.order) || spec.end !in Flatten(p.order)
      case NotOrdered => exists a: nat, b: nat :: Backwards(p, spec, a, b)
      case CrossesGate => exists id :: Within(p, spec, id) && id in p.prompts && p.prompts[id].gated
      case CrossesReviewer => exists id, r: nat :: Within(p, spec, id) && InReviewers(p, id, r)
      case CrossesMax => exists id :: Within(p, spec, id) && id in maxIds && spec.start != spec.end
      case NoTask => exists id :: Within(p, spec, id) && forall task :: !OfTask(id, task)
      case CrossesTask =>
        exists id, s, t :: Within(p, spec, id) && OfTask(id, s) && OfTask(spec.start, t) && s != t
      case Overlaps => exists id :: Within(p, spec, id) && id in claimed
  {
    hide ValidPack, Flatten, OfTask, TaskOf, Within;
    var flat := Flatten(p.order);
    if spec.start in flat && spec.end in flat {
      var a, b := IndexOf(flat, spec.start), IndexOf(flat, spec.end);
      if b < a {
        assert Backwards(p, spec, a, b);
      } else {
        var ids := flat[a..b + 1];
        forall i | 0 <= i < |ids| ensures Within(p, spec, ids[i]) {
          IsWithin(p, spec, a, b, a + i);
        }
        forall id: PromptId, task: string ensures TaskOf(id) == Some(task) <==> OfTask(id, task) {
          TaskExactly(id, task);
        }
        assert ids[0] == spec.start;
        if a < b { SameEnds(p, a, b); }
        if i :| 0 <= i < |ids| && IsReviewer(p, ids[i]) {
          var r: nat :| r < |p.order| && p.order[r].Reviewers? && ids[i] in p.order[r].ids;
          assert InReviewers(p, ids[i], r);
        }
        if i :| 0 <= i < |ids| && TaskOf(ids[i]).None? {
          assert forall task :: OfTask(ids[i], task) ==> TaskOf(ids[i]) == Some(task);
        }
      }
    }
  }

  lemma SameEnds(p: Pack, a: nat, b: nat)
    requires ValidPack(p) && a < b < |Flatten(p.order)|
    ensures Flatten(p.order)[a] != Flatten(p.order)[b]
  {}

  lemma IsWithin(p: Pack, spec: GroupSpec, a: nat, b: nat, k: nat)
    requires RangeAt(p, spec, a, b) && a <= k <= b
    ensures Within(p, spec, Flatten(p.order)[k])
  {
    assert WithinAt(p, spec, Flatten(p.order)[k], a, b, k);
  }
}
