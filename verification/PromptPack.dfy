/** Prompt order and efficient groups (scripts/codex-v2-supervisor.py:163-501). */
module PromptPack {
  import opened Prelude

  type PromptId = string

  /** A line of the order index: one writable prompt, or a set of parallel reviewers. */
  datatype OrderItem = One(id: PromptId) | Reviewers(ids: seq<PromptId>)

  datatype Prompt = Prompt(subject: Option<string>, gated: bool)

  datatype Pack = Pack(order: seq<OrderItem>, prompts: map<PromptId, Prompt>)

  /** The exact commit subject a writable prompt requires. */
  function Subject(p: Pack, id: PromptId): Option<string> {
    if id in p.prompts then p.prompts[id].subject else None
  }

  function Ids(item: OrderItem): seq<PromptId> {
    match item
    case One(id) => [id]
    case Reviewers(ids) => ids
  }

  /** `ordered_prompt_ids`. */
  function Flatten(order: seq<OrderItem>): seq<PromptId> {
    if order == [] then [] else Ids(order[0]) + Flatten(order[1..])
  }

  /** What parsing a pack establishes, plus the one fact the supervisor hard-codes:
      the reviewers T04-R1 and T04-R2 are followed by T04-R3. */
  ghost predicate ValidPack(p: Pack) {
    && (forall k :: 0 <= k < |p.order| && p.order[k].Reviewers? ==> |p.order[k].ids| >= 2)
    && Distinct(Flatten(p.order))
    && (forall id :: id in Flatten(p.order) ==> id in p.prompts)
    && (forall k :: 0 <= k < |p.order| && p.order[k] == Reviewers(["T04-R1", "T04-R2"]) ==>
          k + 1 < |p.order| && p.order[k + 1] == One("T04-R3"))
  }

  /** The index of the order item holding id, scanning from k. */
  function ItemFrom(order: seq<OrderItem>, id: PromptId, k: nat): (r: Option<nat>)
    requires k <= |order|
    ensures r.Some? ==> k <= r.value < |order| && id in Ids(order[r.value])
    decreases |order| - k
  {
    if k == |order| then None
    else if id in Ids(order[k]) then Some(k)
    else ItemFrom(order, id, k + 1)
  }

  function Item(p: Pack, id: PromptId): Option<nat> {
    ItemFrom(p.order, id, 0)
  }

  /** PromptPack.expected_next: the ids of the following order item; None where the source raises. */
  function ExpectedNext(p: Pack, id: PromptId): Option<seq<PromptId>> {
    match Item(p, id)
    case None => None
    case Some(k) => Some(if k + 1 < |p.order| then Ids(p.order[k + 1]) else [])
  }

  predicate IsReviewer(p: Pack, id: PromptId) {
    exists k :: 0 <= k < |p.order| && p.order[k].Reviewers? && id in p.order[k].ids
  }

  // ----- distinctness, item by item -----

  lemma {:induction false} ItemInFlat(order: seq<OrderItem>, k: nat, id: PromptId)
    requires k < |order| && id in Ids(order[k])
    ensures id in Flatten(order)
  {
    if k > 0 {
      ItemInFlat(order[1..], k - 1, id);
    }
  }

  lemma {:induction false} FlatInItem(order: seq<OrderItem>, id: PromptId) returns (k: nat)
    requires id in Flatten(order)
    ensures k < |order| && id in Ids(order[k])
  {
    if id in Ids(order[0]) {
      k := 0;
    } else {
      var j := FlatInItem(order[1..], id);
      k := j + 1;
    }
  }

  lemma {:induction false} ItemsDisjoint(order: seq<OrderItem>, j: nat, k: nat, id: PromptId)
    requires Distinct(Flatten(order))
    requires j < |order| && k < |order| && id in Ids(order[j]) && id in Ids(order[k])
    ensures j == k
  {
    var a, b := Ids(order[0]), Flatten(order[1..]);
    DistinctTail(a, b);
    if j > 0 && k > 0 {
      ItemsDisjoint(order[1..], j - 1, k - 1, id);
    } else if j + k > 0 {
      ItemInFlat(order[1..], j + k - 1, id);
      DistinctApart(a, b, id);
    }
  }

  lemma DistinctApart<T>(a: seq<T>, b: seq<T>, x: T)
    requires Distinct(a + b) && x in a
    ensures x !in b
  {
    var i :| 0 <= i < |a| && a[i] == x;
    forall j | 0 <= j < |b| ensures b[j] != x {
      assert (a + b)[i] == x && (a + b)[|a| + j] == b[j];
    }
  }

  lemma DistinctTail<T>(a: seq<T>, b: seq<T>)
    requires Distinct(a + b)
    ensures Distinct(b)
  {
    forall i, j | 0 <= i < j < |b| ensures b[i] != b[j] {
      assert (a + b)[|a| + i] == b[i] && (a + b)[|a| + j] == b[j];
    }
  }

  lemma ItemOf(p: Pack, k: nat, id: PromptId)
    requires ValidPack(p) && k < |p.order| && id in Ids(p.order[k])
    ensures Item(p, id) == Some(k)
  {
    ItemFound(p.order, id, k, 0);
    ItemsDisjoint(p.order, k, Item(p, id).value, id);
  }

  lemma {:induction false} ItemFound(order: seq<OrderItem>, id: PromptId, k: nat, from: nat)
    requires from <= k < |order| && id in Ids(order[k])
    ensures ItemFrom(order, id, from).Some?
    decreases k - from
  {
    if id !in Ids(order[from]) {
      ItemFound(order, id, k, from + 1);
    }
  }

  // ----- efficient groups -----

  datatype GroupSpec = GroupSpec(start: PromptId, end: PromptId, subject: Option<string>)

  /** A resolved group: the prompts still to run, its consolidated commit subject, and
      all the prompts the configured group had. */
  datatype Group = Group(ids: seq<PromptId>, subject: Option<string>, configured: seq<PromptId>)

  datatype GroupError =
    UnknownPrompt | NotOrdered | CrossesGate | CrossesReviewer | CrossesMax | NoTask | CrossesTask | Overlaps

  predicate Digit(c: char) { '0' <= c <= '9' }

  /** `_prompt_task_number`: the two digits of T04-... ; None where the source raises. */
  function TaskOf(id: PromptId): Option<string> {
    if |id| >= 4 && id[0] == 'T' && Digit(id[1]) && Digit(id[2]) && id[3] == '-' then Some(id[1..3]) else None
  }

  predicate Gated(p: Pack, id: PromptId) {
    id in p.prompts && p.prompts[id].gated
  }

  /** The checks on one configured range, in the order the source makes them. */
  function CheckSpec(p: Pack, spec: GroupSpec, maxIds: set<PromptId>, claimed: set<PromptId>)
    : (r: Result<seq<PromptId>, GroupError>)
    ensures r.Ok? ==> r.value != []
  {
    var ordered := Flatten(p.order);
    if spec.start !in ordered || spec.end !in ordered then Err(UnknownPrompt) else
    var a, b := IndexOf(ordered, spec.start), IndexOf(ordered, spec.end);
    if b < a then Err(NotOrdered) else
    var ids := ordered[a..b + 1];
    if exists i :: 0 <= i < |ids| && Gated(p, ids[i]) then Err(CrossesGate)
    else if exists i :: 0 <= i < |ids| && IsReviewer(p, ids[i]) then Err(CrossesReviewer)
    else if |ids| > 1 && exists i :: 0 <= i < |ids| && ids[i] in maxIds then Err(CrossesMax)
    else if exists i :: 0 <= i < |ids| && TaskOf(ids[i]).None? then Err(NoTask)
    else if exists i :: 0 <= i < |ids| && TaskOf(ids[i]) != TaskOf(ids[0]) then Err(CrossesTask)
    else if exists i :: 0 <= i < |ids| && ids[i] in claimed then Err(Overlaps)
    else Ok(ids)
  }

  /** resolve_prompt_groups over the remaining specs, given the prompts already claimed. */
  function Resolve(p: Pack, specs: seq<GroupSpec>, maxIds: set<PromptId>, claimed: set<PromptId>)
    : Result<seq<Group>, GroupError>
  {
    if specs == [] then Ok([]) else
    match CheckSpec(p, specs[0], maxIds, claimed)
    case Err(e) => Err(e)
    case Ok(ids) =>
      Prepend([Group(ids, specs[0].subject, ids)], Resolve(p, specs[1..], maxIds, claimed + Elems(ids)))
  }

  function Resolved(p: Pack, specs: seq<GroupSpec>, maxIds: set<PromptId>): Result<seq<Group>, GroupError> {
    Resolve(p, specs, maxIds, {})
  }

  /** select_prompt_group: what is left of the first group holding the next prompt. */
  function Select(groups: seq<Group>, next: PromptId): (r: Option<Group>)
    ensures r.Some? ==> r.value.ids != [] && r.value.ids[0] == next
  {
    if groups == [] then None
    else if next in groups[0].ids then
      var g := groups[0];
      Some(Group(g.ids[IndexOf(g.ids, next)..], g.subject, if g.configured != [] then g.configured else g.ids))
    else Select(groups[1..], next)
  }

  function Prepend(done: seq<Group>, r: Result<seq<Group>, GroupError>): Result<seq<Group>, GroupError> {
    match r
    case Err(e) => Err(e)
    case Ok(rest) => Ok(done + rest)
  }

  lemma PrependAssoc(done: seq<Group>, g: Group, r: Result<seq<Group>, GroupError>)
    ensures Prepend(done, Prepend([g], r)) == Prepend(done + [g], r)
  {
    if r.Ok? {
      assert done + ([g] + r.value) == (done + [g]) + r.value;
    }
  }

  /** The loop of resolve_prompt_groups, with its growing set of claimed prompts. */
  method ResolvePromptGroups(p: Pack, specs: seq<GroupSpec>, maxIds: set<PromptId>)
    returns (r: Result<seq<Group>, GroupError>)
    ensures r == Resolved(p, specs, maxIds)
  {
    var claimed: set<PromptId> := {};
    var resolved: seq<Group> := [];
    var i := 0;
    assert specs[0..] == specs;
    assert Resolved(p, specs, maxIds) == Prepend([], Resolve(p, specs, maxIds, {})) by {
      if Resolve(p, specs, maxIds, {}).Ok? {
        assert [] + Resolve(p, specs, maxIds, {}).value == Resolve(p, specs, maxIds, {}).value;
      }
    }
    while i < |specs|
      invariant 0 <= i <= |specs|
      invariant Resolved(p, specs, maxIds) == Prepend(resolved, Resolve(p, specs[i..], maxIds, claimed))
    {
      assert specs[i..][1..] == specs[i + 1..];
      var checked := CheckSpec(p, specs[i], maxIds, claimed);
      if checked.Err? {
        return Err(checked.error);
      }
      var g := Group(checked.value, specs[i].subject, checked.value);
      claimed := claimed + Elems(checked.value);
      PrependAssoc(resolved, g, Resolve(p, specs[i + 1..], maxIds, claimed));
      resolved := resolved + [g];
      i := i + 1;
    }
    assert resolved + [] == resolved;
    return Ok(resolved);
  }

  // ----- what resolution guarantees -----

  /** A run of consecutive single prompts of the order index, all of one numbered task and ungated. */
  ghost predicate Interval(p: Pack, ids: seq<PromptId>) {
    && ids != [] && TaskOf(ids[0]).Some?
    && (exists k :: IntervalAt(p, ids, k))
    && (forall i :: 0 <= i < |ids| ==> TaskOf(ids[i]) == TaskOf(ids[0]) && !Gated(p, ids[i]))
  }

  ghost predicate IntervalAt(p: Pack, ids: seq<PromptId>, k: nat) {
    k + |ids| <= |p.order| && forall i :: 0 <= i < |ids| ==> p.order[k + i] == One(ids[i])
  }

  ghost predicate GroupsOk(p: Pack, groups: seq<Group>) {
    && (forall g :: 0 <= g < |groups| ==> Interval(p, groups[g].ids) && groups[g].configured == groups[g].ids)
    && (forall g, h :: 0 <= g < h < |groups| ==> Elems(groups[g].ids) !! Elems(groups[h].ids))
  }

  /** The item that contributed position i of the flattened order. */
  function ItemAt(order: seq<OrderItem>, i: nat): (k: nat)
    requires i < |Flatten(order)|
    ensures k < |order| && Flatten(order)[i] in Ids(order[k])
  {
    var n := |Ids(order[0])|;
    if i < n then
      assert Flatten(order)[i] == Ids(order[0])[i];
      0
    else
      assert Flatten(order)[i] == Flatten(order[1..])[i - n];
      1 + ItemAt(order[1..], i - n)
  }

  lemma {:induction false} NextItem(order: seq<OrderItem>, i: nat)
    requires i + 1 < |Flatten(order)| && order[ItemAt(order, i)].One?
    requires forall k :: 0 <= k < |order| ==> Ids(order[k]) != []
    ensures ItemAt(order, i + 1) == ItemAt(order, i) + 1
  {
    var n := |Ids(order[0])|;
    if i >= n {
      assert forall k :: 0 <= k < |order[1..]| ==> order[1..][k] == order[k + 1];
      NextItem(order[1..], i - n);
    } else {
      assert order[1..] != [];
      assert order[1..][0] == order[1];
    }
  }

  lemma SinglesAt(p: Pack, i: nat)
    requires ValidPack(p) && i < |Flatten(p.order)| && !IsReviewer(p, Flatten(p.order)[i])
    ensures p.order[ItemAt(p.order, i)] == One(Flatten(p.order)[i])
  {}

  lemma {:induction false} Consecutive(p: Pack, a: nat, n: nat)
    requires ValidPack(p) && a + n < |Flatten(p.order)|
    requires forall i :: a <= i < a + n ==> !IsReviewer(p, Flatten(p.order)[i])
    ensures ItemAt(p.order, a + n) == ItemAt(p.order, a) + n
  {
    if n > 0 {
      Consecutive(p, a, n - 1);
      SinglesAt(p, a + n - 1);
      NextItem(p.order, a + n - 1);
    }
  }

  lemma SliceIsRun(p: Pack, a: nat, ids: seq<PromptId>)
    requires ValidPack(p) && 0 < |ids| && a + |ids| <= |Flatten(p.order)|
    requires ids == Flatten(p.order)[a..a + |ids|]
    requires forall i :: 0 <= i < |ids| ==> !IsReviewer(p, ids[i])
    ensures IntervalAt(p, ids, ItemAt(p.order, a))
  {
    hide Flatten, ItemAt, ValidPack;
    var flat, k := Flatten(p.order), ItemAt(p.order, a);
    assert forall i :: a <= i < a + |ids| ==> flat[i] == ids[i - a];
    Consecutive(p, a, |ids| - 1);
    forall i | 0 <= i < |ids| ensures k + i < |p.order| && p.order[k + i] == One(ids[i]) {
      Consecutive(p, a, i);
      SinglesAt(p, a + i);
    }
  }

  lemma CheckedFacts(p: Pack, spec: GroupSpec, maxIds: set<PromptId>, claimed: set<PromptId>, ids: seq<PromptId>)
    returns (a: nat)
    requires CheckSpec(p, spec, maxIds, claimed) == Ok(ids)
    ensures 0 < |ids| && a + |ids| <= |Flatten(p.order)| && ids == Flatten(p.order)[a..a + |ids|]
    ensures forall i :: 0 <= i < |ids| ==> !IsReviewer(p, ids[i])
    ensures forall i :: 0 <= i < |ids| ==> !Gated(p, ids[i])
    ensures forall i :: 0 <= i < |ids| ==> TaskOf(ids[i]).Some? && TaskOf(ids[i]) == TaskOf(ids[0])
    ensures forall i :: 0 <= i < |ids| ==> ids[i] !in claimed
  {
    hide Flatten, IsReviewer, Gated, TaskOf;
    a := IndexOf(Flatten(p.order), spec.start);
    var b := IndexOf(Flatten(p.order), spec.end);
    assert ids == Flatten(p.order)[a..b + 1];
  }

  lemma CheckedIsInterval(p: Pack, spec: GroupSpec, maxIds: set<PromptId>, claimed: set<PromptId>, ids: seq<PromptId>)
    requires ValidPack(p) && CheckSpec(p, spec, maxIds, claimed) == Ok(ids)
    ensures Interval(p, ids)
    ensures Elems(ids) !! claimed
  {
    var a := CheckedFacts(p, spec, maxIds, claimed, ids);
    SliceIsRun(p, a, ids);
  }

  ghost predicate Avoids(groups: seq<Group>, claimed: set<PromptId>) {
    forall g :: 0 <= g < |groups| ==> Elems(groups[g].ids) !! claimed
  }

  lemma GroupsCons(p: Pack, first: Group, rest: seq<Group>, claimed: set<PromptId>)
    requires GroupsOk(p, rest) && Avoids(rest, claimed + Elems(first.ids))
    requires Interval(p, first.ids) && first.configured == first.ids && Elems(first.ids) !! claimed
    ensures GroupsOk(p, [first] + rest) && Avoids([first] + rest, claimed)
  {
    var all := [first] + rest;
    forall g, h | 0 <= g < h < |all| ensures Elems(all[g].ids) !! Elems(all[h].ids) {
      assert all[h] == rest[h - 1];
      assert g > 0 ==> all[g] == rest[g - 1];
    }
  }

  /** resolve_prompt_groups (402-468) yields disjoint intervals, each inside one numbered
      task, free of gates and reviewers, whatever the configured ranges are. */
  lemma {:induction false} ResolveSound(p: Pack, specs: seq<GroupSpec>, maxIds: set<PromptId>, claimed: set<PromptId>,
    groups: seq<Group>)
    requires ValidPack(p) && Resolve(p, specs, maxIds, claimed) == Ok(groups)
    ensures GroupsOk(p, groups) && Avoids(groups, claimed)
  {
    if specs != [] {
      var ids := CheckSpec(p, specs[0], maxIds, claimed).value;
      CheckedIsInterval(p, specs[0], maxIds, claimed, ids);
      var rest := Resolve(p, specs[1..], maxIds, claimed + Elems(ids)).value;
      ResolveSound(p, specs[1..], maxIds, claimed + Elems(ids), rest);
      GroupsCons(p, Group(ids, specs[0].subject, ids), rest, claimed);
    }
  }

  lemma {:induction false} SelectFinds(groups: seq<Group>, next: PromptId, g: nat)
    requires g < |groups| && next in groups[g].ids
    requires forall h, k :: 0 <= h < k < |groups| ==> Elems(groups[h].ids) !! Elems(groups[k].ids)
    ensures Select(groups, next) == Some(Group(
      groups[g].ids[IndexOf(groups[g].ids, next)..], groups[g].subject,
      if groups[g].configured != [] then groups[g].configured else groups[g].ids))
  {
    if g > 0 {
      assert next in Elems(groups[g].ids) && next !in Elems(groups[0].ids);
      assert forall h :: 0 <= h < |groups[1..]| ==> groups[1..][h] == groups[h + 1];
      SelectFinds(groups[1..], next, g - 1);
    }
  }

  lemma {:induction false} SelectSound(groups: seq<Group>, next: PromptId) returns (g: nat)
    requires Select(groups, next).Some?
    ensures g < |groups| && next in groups[g].ids
    ensures Select(groups, next) == Some(Group(
      groups[g].ids[IndexOf(groups[g].ids, next)..], groups[g].subject,
      if groups[g].configured != [] then groups[g].configured else groups[g].ids))
  {
    if next in groups[0].ids {
      g := 0;
    } else {
      var h := SelectSound(groups[1..], next);
      g := h + 1;
    }
  }

  /** select_prompt_group (471-483) does not depend on the order of the configured groups. */
  lemma SelectIgnoresOrder(p: Pack, groups: seq<Group>, groups': seq<Group>, next: PromptId)
    requires GroupsOk(p, groups) && GroupsOk(p, groups') && multiset(groups) == multiset(groups')
    ensures Select(groups, next) == Select(groups', next)
  {
    if Select(groups, next).Some? {
      SelectAgrees(p, groups, groups', next);
    } else if Select(groups', next).Some? {
      SelectAgrees(p, groups', groups, next);
    }
  }

  lemma SelectAgrees(p: Pack, groups: seq<Group>, groups': seq<Group>, next: PromptId)
    requires GroupsOk(p, groups') && multiset(groups) == multiset(groups')
    requires Select(groups, next).Some?
    ensures Select(groups', next) == Select(groups, next)
  {
    var g := SelectSound(groups, next);
    assert groups[g] in multiset(groups');
    var h :| 0 <= h < |groups'| && groups'[h] == groups[g];
    SelectFinds(groups', next, h);
  }
}
