/** The release policy of the API-discovery evaluation (scripts/eval-v2/api-discovery-policy.ts):
    an exact case x cohort x repeat grid, with a floor for every cell. */
module DiscoveryPolicy {
  import opened Prelude
  import opened Attempts

  const REPEATS := 3
  const EXPECTED_CASE_COUNT := 120
  const COHORTS: seq<string> := ["canonical", "paraphrase", "typo"]

  function RequiredPasses(k: nat): nat
    requires k < 3
  {
    if k == 0 then 3 else 2
  }

  predicate ZeroTolerance(code: string) {
    "unrelated_destructive_loaded:" <= code || "too_many_loaded_tools:" <= code
  }

  // ----- the policy, independently of how it is checked -----

  /** Passing and a nonempty failure code exclude each other, one of them holds, and no
      zero-tolerance code occurs. */
  predicate CodeOk(a: Attempt) {
    match a.failureCode
    case None => a.passed
    case Some(code) => !a.passed && code != [] && !ZeroTolerance(code)
  }

  function CaseGrid(caseId: string): seq<Slot> {
    [(caseId, COHORTS[0], 0), (caseId, COHORTS[0], 1), (caseId, COHORTS[0], 2),
     (caseId, COHORTS[1], 0), (caseId, COHORTS[1], 1), (caseId, COHORTS[1], 2),
     (caseId, COHORTS[2], 0), (caseId, COHORTS[2], 1), (caseId, COHORTS[2], 2)]
  }

  function Grid(caseIds: seq<string>): (g: seq<Slot>)
    ensures |g| == 9 * |caseIds|
  {
    if caseIds == [] then [] else Grid(caseIds[..|caseIds| - 1]) + CaseGrid(caseIds[|caseIds| - 1])
  }

  ghost predicate FloorsMet(caseIds: seq<string>, attempts: seq<Attempt>) {
    forall i, k :: 0 <= i < |caseIds| && 0 <= k < 3 ==>
      Count(attempts, Cell(caseIds[i], COHORTS[k])) >= RequiredPasses(k)
  }

  ghost predicate Accepts(caseIds: seq<string>, attempts: seq<Attempt>) {
    && Distinct(caseIds) && |caseIds| == EXPECTED_CASE_COUNT
    && multiset(Slots(attempts)) == multiset(Grid(caseIds))
    && (forall i :: 0 <= i < |attempts| ==> CodeOk(attempts[i]))
    && FloorsMet(caseIds, attempts)
  }

  // ----- the check -----

  datatype Violation =
    | DuplicateCase(caseId: string) | NoCases | CaseCount(count: nat)
    | UnexpectedCase(caseId: string) | UnexpectedCohort(caseId: string, cohort: string) | UnexpectedRepeat(slot: Slot)
    | DuplicateRepeat(slot: Slot) | PassedWithCode(slot: Slot, code: string) | FailedWithoutCode(slot: Slot)
    | ZeroToleranceCode(slot: Slot, code: string) | MissingRepeat(slot: Slot)
    | BelowFloor(caseId: string, cohort: string, required: nat)

  predicate Known(caseIds: seq<string>, s: Slot) {
    s.0 in caseIds && s.1 in COHORTS && 0 <= s.2 < REPEATS
  }

  function Digit(r: int): char
    requires 0 <= r < REPEATS
  {
    if r == 0 then '0' else if r == 1 then '1' else '2'
  }

  /** The map key the program builds from a slot. */
  function SlotKey(s: Slot): string
    requires s.1 in COHORTS && 0 <= s.2 < REPEATS
  {
    s.0 + "|" + s.1 + "|" + [Digit(s.2)]
  }

  /** Case ids may contain the separator; the keys still tell slots apart. */
  lemma SlotKeyInjective(s: Slot, t: Slot)
    requires s.1 in COHORTS && 0 <= s.2 < REPEATS && t.1 in COHORTS && 0 <= t.2 < REPEATS
    requires SlotKey(s) == SlotKey(t)
    ensures s == t
  {
    var a, b := SlotKey(s), SlotKey(t);
    var n := |a|;
    assert a[n - 1] == Digit(s.2) && b[n - 1] == Digit(t.2);
    assert a[n - 3] == s.1[|s.1| - 1] && b[n - 3] == t.1[|t.1| - 1];
    assert s.1 == t.1;
    assert a[..|s.0|] == s.0 && b[..|t.0|] == t.0;
  }

  ghost predicate Good(caseIds: seq<string>, attempts: seq<Attempt>) {
    && (forall i :: 0 <= i < |attempts| ==> Known(caseIds, SlotOf(attempts[i])) && CodeOk(attempts[i]))
    && Distinct(Slots(attempts))
  }

  /** slots holds one attempt of every known slot seen so far. */
  ghost predicate Filled(caseIds: seq<string>, attempts: seq<Attempt>, slots: map<string, Attempt>) {
    && (forall key :: key in slots ==>
          slots[key] in attempts && Known(caseIds, SlotOf(slots[key])) && key == SlotKey(SlotOf(slots[key])))
    && (forall i :: 0 <= i < |attempts| && Known(caseIds, SlotOf(attempts[i])) ==>
      SlotKey(SlotOf(attempts[i])) in slots)
  }

  predicate Present(slots: map<string, Attempt>, caseId: string, k: nat, r: nat)
    requires k < 3 && r < REPEATS
  {
    SlotKey((caseId, COHORTS[k], r)) in slots
  }

  function Passes(slots: map<string, Attempt>, caseId: string, k: nat, r: nat): nat
    requires k < 3 && r < REPEATS
  {
    if Present(slots, caseId, k, r) && slots[SlotKey((caseId, COHORTS[k], r))].passed then 1 else 0
  }

  function PassesBelow(slots: map<string, Attempt>, caseId: string, k: nat, n: nat): nat
    requires k < 3 && n <= REPEATS
  {
    if n == 0 then 0 else PassesBelow(slots, caseId, k, n - 1) + Passes(slots, caseId, k, n - 1)
  }

  predicate CellOk(slots: map<string, Attempt>, caseId: string, k: nat)
    requires k < 3
  {
    && Present(slots, caseId, k, 0) && Present(slots, caseId, k, 1) && Present(slots, caseId, k, 2)
    && PassesBelow(slots, caseId, k, REPEATS) >= RequiredPasses(k)
  }

  // ----- what each violation means -----

  ghost predicate TwiceIn(s: seq<string>, c: string) {
    exists i, j :: 0 <= i < j < |s| && s[i] == c && s[j] == c
  }

  /** A case listed twice, no case, or not as many different ones as expected. */
  ghost predicate CaseFault(caseIds: seq<string>, v: Violation) {
    match v
    case DuplicateCase(c) => TwiceIn(caseIds, c)
    case NoCases => caseIds == []
    case CaseCount(n) => n == |Elems(caseIds)| && n != 120
    case _ => false
  }

  /** A passed attempt with a code, a failed one without, or a code of zero tolerance. */
  predicate CodeFault(a: Attempt, v: Violation) {
    match v
    case PassedWithCode(s, code) => s == SlotOf(a) && a.passed && a.failureCode == Some(code)
    case FailedWithoutCode(s) => s == SlotOf(a) && !a.passed && (a.failureCode == None || a.failureCode == Some(""))
    case ZeroToleranceCode(s, code) => s == SlotOf(a) && a.failureCode == Some(code) && ZeroTolerance(code)
    case _ => false
  }

  /** What attempt i is blamed for: the first of case, cohort and repeat that is not expected, or else
      having a slot that was taken before, and its code. */
  ghost predicate Blamed(caseIds: seq<string>, attempts: seq<Attempt>, i: nat, v: Violation)
    requires i < |attempts|
  {
    var a := attempts[i];
    if a.caseId !in caseIds then v == UnexpectedCase(a.caseId)
    else if a.cohort !in COHORTS then v == UnexpectedCohort(a.caseId, a.cohort)
    else if a.repeat < 0 || a.repeat > 2 then v == UnexpectedRepeat((a.caseId, a.cohort, a.repeat))
    else
      || (v == DuplicateRepeat((a.caseId, a.cohort, a.repeat)) && SlotOf(a) in Slots(attempts[..i]))
      || CodeFault(a, v)
  }

  ghost predicate AttemptFault(caseIds: seq<string>, attempts: seq<Attempt>, v: Violation) {
    exists i :: 0 <= i < |attempts| && Blamed(caseIds, attempts, i, v)
  }

  /** Attempt i is the first of its slot. */
  ghost predicate FirstAt(attempts: seq<Attempt>, i: nat)
    requires i < |attempts|
  {
    forall j :: 0 <= j < i ==> SlotOf(attempts[j]) != SlotOf(attempts[i])
  }

  ghost predicate FirstPassed(attempts: seq<Attempt>, s: Slot) {
    exists i :: 0 <= i < |attempts| && SlotOf(attempts[i]) == s && FirstAt(attempts, i) && attempts[i].passed
  }

  ghost function PassedOnce(attempts: seq<Attempt>, s: Slot): nat {
    if FirstPassed(attempts, s) then 1 else 0
  }

  /** A slot nobody attempted, or a complete cell whose first attempts pass too seldom. */
  ghost predicate GridFault(caseIds: seq<string>, attempts: seq<Attempt>, v: Violation) {
    match v
    case MissingRepeat(s) => Known(caseIds, s) && s !in Slots(attempts)
    case BelowFloor(c, k, required) =>
      && c in caseIds && k in COHORTS && required == (if k == "canonical" then 3 else 2)
      && (c, k, 0) in Slots(attempts) && (c, k, 1) in Slots(attempts) && (c, k, 2) in Slots(attempts)
      && PassedOnce(attempts, (c, k, 0)) + PassedOnce(attempts, (c, k, 1)) + PassedOnce(attempts, (c, k, 2)) < required
    case _ => false
  }

  lemma TwiceSnoc(s: seq<string>, x: string)
    ensures forall c :: TwiceIn(s + [x], c) <==> TwiceIn(s, c) || (c == x && x in s)
  {
    var all := s + [x];
    assert all[|s|] == x && forall i :: 0 <= i < |s| ==> all[i] == s[i];
    forall c ensures TwiceIn(all, c) <==> TwiceIn(s, c) || (c == x && x in s) {
      if TwiceIn(all, c) {
        var i, j :| 0 <= i < j < |all| && all[i] == c && all[j] == c;
        if j < |s| { assert s[i] == c && s[j] == c; } else { assert s[i] == c; }
      }
      if TwiceIn(s, c) {
        var i, j :| 0 <= i < j < |s| && s[i] == c && s[j] == c;
        assert all[i] == c && all[j] == c;
      }
      if c == x && x in s {
        var i :| 0 <= i < |s| && s[i] == x;
        assert all[i] == c && all[|s|] == c;
      }
    }
  }

  lemma NoneTwice(s: seq<string>)
    ensures Distinct(s) <==> forall c :: !TwiceIn(s, c)
  {
    if forall c :: !TwiceIn(s, c) {
      forall i, j | 0 <= i < j < |s| ensures s[i] != s[j] {
        assert !TwiceIn(s, s[i]);
      }
    }
  }

  /** The set of case ids, in order, and the repeated ones (60-63). */
  method ListCases(caseIds: seq<string>) returns (expected: seq<string>, violations: set<Violation>)
    ensures Distinct(expected) && Elems(expected) == Elems(caseIds)
    ensures violations == {} ==> expected == caseIds
    ensures forall v :: v in violations <==> v.DuplicateCase? && TwiceIn(caseIds, v.caseId)
  {
    hide TwiceIn;
    violations, expected := {}, [];
    var i := 0;
    NotTwice();
    while i < |caseIds|
      invariant 0 <= i <= |caseIds| && Distinct(expected) && Elems(expected) == Elems(caseIds[..i])
      invariant violations == {} ==> expected == caseIds[..i]
      invariant forall v :: v in violations <==> v.DuplicateCase? && TwiceIn(caseIds[..i], v.caseId)
    {
      assert caseIds[..i + 1] == caseIds[..i] + [caseIds[i]];
      assert Elems(caseIds[..i + 1]) == Elems(caseIds[..i]) + {caseIds[i]};
      TwiceSnoc(caseIds[..i], caseIds[i]);
      assert caseIds[i] in caseIds[..i] <==> caseIds[i] in Elems(caseIds[..i]);
      if caseIds[i] in expected {
        assert caseIds[i] in Elems(expected);
        violations := violations + {DuplicateCase(caseIds[i])};
        assert DuplicateCase(caseIds[i]) in violations;
      } else {
        assert caseIds[i] !in Elems(expected);
        expected := expected + [caseIds[i]];
      }
      i := i + 1;
    }
    assert caseIds[..i] == caseIds;
  }

  /** 59-68: the case ids, without repetitions. */
  method CheckCases(caseIds: seq<string>) returns (expected: seq<string>, violations: set<Violation>)
    ensures Distinct(expected) && Elems(expected) == Elems(caseIds)
    ensures violations == {} <==> Distinct(caseIds) && |caseIds| == EXPECTED_CASE_COUNT
    ensures violations == {} ==> expected == caseIds
    ensures forall v :: v in violations <==> CaseFault(caseIds, v)
  {
    hide TwiceIn, Distinct;
    expected, violations := ListCases(caseIds);
    DistinctCard(expected);
    NoneTwice(caseIds);
    assert caseIds != [] ==> caseIds[0] in Elems(caseIds);
    assert violations == {} <==> forall c :: !TwiceIn(caseIds, c) by {
      if violations == {} {
        forall c ensures !TwiceIn(caseIds, c) { assert DuplicateCase(c) !in violations; }
      }
    }
    if |expected| == 0 {
      violations := violations + {NoCases};
    }
    if |expected| != EXPECTED_CASE_COUNT {
      violations := violations + {CaseCount(|expected|)};
      assert CaseCount(|expected|) in violations;
    }
  }

  lemma NotTwice()
    ensures forall c :: !TwiceIn([], c)
  {}

  /** What one attempt is blamed for on its own (90-106). */
  function CodeViolations(a: Attempt): (vs: set<Violation>)
    ensures vs == {} <==> CodeOk(a)
    ensures forall v :: v in vs <==> CodeFault(a, v)
  {
    var s := SlotOf(a);
    (if a.passed && a.failureCode.Some? then {PassedWithCode(s, a.failureCode.value)} else {})
    + (if !a.passed && (a.failureCode.None? || a.failureCode.value == []) then {FailedWithoutCode(s)} else {})
    + (if a.failureCode.Some? && ZeroTolerance(a.failureCode.value) then
        {ZeroToleranceCode(s, a.failureCode.value)} else {})
  }

  lemma DistinctSnoc(s: seq<Slot>, x: Slot)
    ensures Distinct(s + [x]) <==> Distinct(s) && x !in s
  {
    var all := s + [x];
    assert all[|s|] == x && forall i :: 0 <= i < |s| ==> all[i] == s[i];
    if Distinct(all) {
      forall i, j | 0 <= i < j < |s| ensures s[i] != s[j] {
        assert all[i] != all[j];
      }
    }
  }

  /** A known slot is filled exactly when it has been attempted. */
  lemma FilledSlot(caseIds: seq<string>, attempts: seq<Attempt>, slots: map<string, Attempt>, s: Slot)
    requires Filled(caseIds, attempts, slots) && Known(caseIds, s)
    ensures SlotKey(s) in slots <==> s in Slots(attempts)
  {
    hide SlotKey;
    if SlotKey(s) in slots {
      var b := slots[SlotKey(s)];
      var i :| 0 <= i < |attempts| && attempts[i] == b;
      SlotKeyInjective(s, SlotOf(b));
      assert Slots(attempts)[i] == s;
    }
    if s in Slots(attempts) {
      var i :| 0 <= i < |attempts| && Slots(attempts)[i] == s;
    }
  }

  lemma GoodSnoc(caseIds: seq<string>, attempts: seq<Attempt>, slots: map<string, Attempt>, a: Attempt)
    requires Filled(caseIds, attempts, slots)
    ensures Good(caseIds, attempts + [a]) <==>
      Good(caseIds, attempts) && Known(caseIds, SlotOf(a)) && CodeOk(a) && SlotKey(SlotOf(a)) !in slots
  {
    hide SlotKey, CodeOk, Filled, Distinct;
    var all := attempts + [a];
    assert Slots(all) == Slots(attempts) + [SlotOf(a)];
    assert all[|attempts|] == a && forall i :: 0 <= i < |attempts| ==> all[i] == attempts[i];
    DistinctSnoc(Slots(attempts), SlotOf(a));
    if Known(caseIds, SlotOf(a)) { FilledSlot(caseIds, attempts, slots, SlotOf(a)); }
  }

  lemma FilledSnoc(caseIds: seq<string>, attempts: seq<Attempt>, slots: map<string, Attempt>, a: Attempt)
    requires Filled(caseIds, attempts, slots)
    ensures !Known(caseIds, SlotOf(a)) ==> Filled(caseIds, attempts + [a], slots)
    ensures Known(caseIds, SlotOf(a)) && SlotKey(SlotOf(a)) in slots ==> Filled(caseIds, attempts + [a], slots)
    ensures Known(caseIds, SlotOf(a)) ==> Filled(caseIds, attempts + [a], slots[SlotKey(SlotOf(a)) := a])
  {
    hide SlotKey, Known;
    assert forall i :: 0 <= i < |attempts| ==> (attempts + [a])[i] == attempts[i];
  }

  /** slots holds the first attempt of every known slot. */
  ghost predicate FirstsIn(caseIds: seq<string>, attempts: seq<Attempt>, slots: map<string, Attempt>) {
    forall i :: 0 <= i < |attempts| && Known(caseIds, SlotOf(attempts[i])) && FirstAt(attempts, i) ==>
      SlotKey(SlotOf(attempts[i])) in slots && slots[SlotKey(SlotOf(attempts[i]))] == attempts[i]
  }

  lemma FirstsSnoc(caseIds: seq<string>, attempts: seq<Attempt>, slots: map<string, Attempt>, a: Attempt)
    requires Filled(caseIds, attempts, slots) && FirstsIn(caseIds, attempts, slots)
    ensures !Known(caseIds, SlotOf(a)) ==> FirstsIn(caseIds, attempts + [a], slots)
    ensures Known(caseIds, SlotOf(a)) ==>
      FirstsIn(caseIds, attempts + [a], if SlotKey(SlotOf(a)) in slots then slots else slots[SlotKey(SlotOf(a)) := a])
  {
    hide SlotKey, Filled;
    var all := attempts + [a];
    assert forall i :: 0 <= i < |attempts| ==> all[i] == attempts[i] && (FirstAt(all, i) <==> FirstAt(attempts, i));
    if Known(caseIds, SlotOf(a)) {
      FilledSlot(caseIds, attempts, slots, SlotOf(a));
      if SlotOf(a) in Slots(attempts) {
        var j :| 0 <= j < |attempts| && Slots(attempts)[j] == SlotOf(a);
        assert SlotOf(all[j]) == SlotOf(a) && !FirstAt(all, |attempts|);
      }
    }
  }

  lemma BlamedSnoc(caseIds: seq<string>, attempts: seq<Attempt>, i: nat, v: Violation)
    requires i < |attempts|
    ensures AttemptFault(caseIds, attempts[..i + 1], v) <==>
      AttemptFault(caseIds, attempts[..i], v) || Blamed(caseIds, attempts, i, v)
  {
    hide CodeFault;
    var front, next := attempts[..i], attempts[..i + 1];
    assert next[i] == attempts[i] && next[..i] == front;
    forall j | 0 <= j < i ensures Blamed(caseIds, next, j, v) <==> Blamed(caseIds, front, j, v) {
      assert next[j] == front[j] && next[..j] == front[..j];
    }
    assert Blamed(caseIds, next, i, v) <==> Blamed(caseIds, attempts, i, v);
    hide Blamed;
    if AttemptFault(caseIds, next, v) {
      var j :| 0 <= j < |next| && Blamed(caseIds, next, j, v);
      if j < i { assert Blamed(caseIds, front, j, v); }
    }
    if AttemptFault(caseIds, front, v) {
      var j :| 0 <= j < |front| && Blamed(caseIds, front, j, v);
      assert Blamed(caseIds, next, j, v);
    }
  }

  /** 70-107, one attempt: its slot, unless taken before, and what it is blamed for. */
  method FillSlot(caseIds: seq<string>, attempts: seq<Attempt>, i: nat, slots: map<string, Attempt>)
    returns (slots': map<string, Attempt>, violations: set<Violation>)
    requires i < |attempts| && Filled(caseIds, attempts[..i], slots) && FirstsIn(caseIds, attempts[..i], slots)
    ensures Filled(caseIds, attempts[..i + 1], slots') && FirstsIn(caseIds, attempts[..i + 1], slots')
    ensures violations == {} <==>
      Known(caseIds, SlotOf(attempts[i])) && CodeOk(attempts[i]) && SlotKey(SlotOf(attempts[i])) !in slots
    ensures forall v :: v in violations <==> Blamed(caseIds, attempts, i, v)
  {
    hide Filled, FirstsIn, SlotKey, CodeOk, CodeViolations, CodeFault;
    var a := attempts[i];
    assert attempts[..i + 1] == attempts[..i] + [a];
    FilledSnoc(caseIds, attempts[..i], slots, a);
    FirstsSnoc(caseIds, attempts[..i], slots, a);
    slots', violations := slots, {};
    if a.caseId !in caseIds {
      violations := {UnexpectedCase(a.caseId)};
      assert violations != {};
      return;
    }
    if a.cohort !in COHORTS {
      violations := {UnexpectedCohort(a.caseId, a.cohort)};
      assert violations != {};
      return;
    }
    if a.repeat < 0 || a.repeat >= REPEATS {
      violations := {UnexpectedRepeat(SlotOf(a))};
      assert violations != {};
      return;
    }
    FilledSlot(caseIds, attempts[..i], slots, SlotOf(a));
    var key := SlotKey(SlotOf(a));
    if key in slots {
      violations := {DuplicateRepeat(SlotOf(a))};
      assert violations != {};
    } else {
      slots' := slots[key := a];
    }
    violations := violations + CodeViolations(a);
  }

  /** 70-107: fill the slots, first attempt wins. */
  method FillSlots(caseIds: seq<string>, attempts: seq<Attempt>)
    returns (slots: map<string, Attempt>, violations: set<Violation>)
    ensures Filled(caseIds, attempts, slots) && FirstsIn(caseIds, attempts, slots)
    ensures violations == {} <==> Good(caseIds, attempts)
    ensures forall v :: v in violations <==> AttemptFault(caseIds, attempts, v)
  {
    hide Good, Filled, FirstsIn, SlotKey, CodeOk, CodeViolations, AttemptFault, Blamed, Known;
    violations, slots := {}, map[];
    var i := 0;
    NothingYet(caseIds);
    while i < |attempts|
      invariant 0 <= i <= |attempts|
      invariant Filled(caseIds, attempts[..i], slots) && FirstsIn(caseIds, attempts[..i], slots)
      invariant violations == {} <==> Good(caseIds, attempts[..i])
      invariant forall v :: v in violations <==> AttemptFault(caseIds, attempts[..i], v)
    {
      assert attempts[..i + 1] == attempts[..i] + [attempts[i]];
      GoodSnoc(caseIds, attempts[..i], slots, attempts[i]);
      forall v ensures AttemptFault(caseIds, attempts[..i + 1], v) <==>
        AttemptFault(caseIds, attempts[..i], v) || Blamed(caseIds, attempts, i, v)
      {
        BlamedSnoc(caseIds, attempts, i, v);
      }
      var slots', blamed := FillSlot(caseIds, attempts, i, slots);
      slots, violations := slots', violations + blamed;
      i := i + 1;
    }
    assert attempts[..i] == attempts;
  }

  lemma NothingYet(caseIds: seq<string>)
    ensures Filled(caseIds, [], map[]) && Good(caseIds, []) && FirstsIn(caseIds, [], map[])
    ensures forall v :: !AttemptFault(caseIds, [], v)
  {}

  ghost predicate MissingBelow(slots: map<string, Attempt>, caseId: string, k: nat, n: nat, s: Slot)
    requires k < 3 && n <= REPEATS
  {
    exists r: nat :: r < n && s == (caseId, COHORTS[k], r) && !Present(slots, caseId, k, r)
  }

  /** What a cell of the filled slots is blamed for. */
  ghost predicate CellFault(slots: map<string, Attempt>, caseId: string, k: nat, v: Violation)
    requires k < 3
  {
    match v
    case MissingRepeat(s) => MissingBelow(slots, caseId, k, REPEATS, s)
    case BelowFloor(c, cohort, required) =>
      && c == caseId && cohort == COHORTS[k] && required == RequiredPasses(k)
      && Present(slots, caseId, k, 0) && Present(slots, caseId, k, 1) && Present(slots, caseId, k, 2)
      && PassesBelow(slots, caseId, k, REPEATS) < required
    case _ => false
  }

  /** 111-129: one cell. */
  method CheckCell(slots: map<string, Attempt>, caseId: string, k: nat) returns (violations: set<Violation>)
    requires k < 3
    ensures violations == {} <==> CellOk(slots, caseId, k)
    ensures forall v :: v in violations <==> CellFault(slots, caseId, k, v)
  {
    hide SlotKey;
    violations := {};
    var complete, failures, repeat := true, 0, 0;
    while repeat < REPEATS
      invariant 0 <= repeat <= REPEATS && 0 <= failures <= repeat
      invariant complete <==> forall r :: 0 <= r < repeat ==> Present(slots, caseId, k, r)
      invariant violations == {} <==> complete
      invariant complete ==> (repeat - failures == PassesBelow(slots, caseId, k, repeat))
      invariant forall v :: v in violations <==> v.MissingRepeat? && MissingBelow(slots, caseId, k, repeat, v.slot)
    {
      var s := (caseId, COHORTS[k], repeat);
      if SlotKey(s) !in slots {
        complete := false;
        violations := violations + {MissingRepeat(s)};
        assert !Present(slots, caseId, k, repeat);
      } else if !slots[SlotKey(s)].passed {
        failures := failures + 1;
      }
      repeat := repeat + 1;
    }
    assert complete <==> Present(slots, caseId, k, 0) && Present(slots, caseId, k, 1) && Present(slots, caseId, k, 2);
    if complete {
      var passed, required := REPEATS - failures, RequiredPasses(k);
      if passed < required {
        violations := violations + {BelowFloor(caseId, COHORTS[k], required)};
      }
    }
  }

  ghost predicate CellsOk(caseIds: seq<string>, slots: map<string, Attempt>) {
    forall i, k :: 0 <= i < |caseIds| && 0 <= k < 3 ==> CellOk(slots, caseIds[i], k)
  }

  ghost predicate CellsFault(caseIds: seq<string>, slots: map<string, Attempt>, v: Violation) {
    exists i, k :: 0 <= i < |caseIds| && 0 <= k < 3 && CellFault(slots, caseIds[i], k, v)
  }

  ghost predicate RowFault(slots: map<string, Attempt>, caseId: string, v: Violation) {
    exists k :: 0 <= k < 3 && CellFault(slots, caseId, k, v)
  }

  lemma CellsSnoc(caseIds: seq<string>, slots: map<string, Attempt>, i: nat)
    requires i < |caseIds|
    ensures CellsOk(caseIds[..i + 1], slots) <==>
      CellsOk(caseIds[..i], slots) && forall k :: 0 <= k < 3 ==> CellOk(slots, caseIds[i], k)
    ensures forall v :: CellsFault(caseIds[..i + 1], slots, v) <==>
      CellsFault(caseIds[..i], slots, v) || RowFault(slots, caseIds[i], v)
  {
    hide CellOk, CellFault;
    var front, all := caseIds[..i], caseIds[..i + 1];
    assert all[i] == caseIds[i] && forall j :: 0 <= j < i ==> all[j] == front[j];
    forall v ensures CellsFault(all, slots, v) <==>
      CellsFault(front, slots, v) || RowFault(slots, caseIds[i], v)
    {
      if CellsFault(front, slots, v) {
        var j, k :| 0 <= j < |front| && 0 <= k < 3 && CellFault(slots, front[j], k, v);
        assert CellFault(slots, all[j], k, v);
      }
      if k :| 0 <= k < 3 && CellFault(slots, caseIds[i], k, v) {
        assert CellFault(slots, all[i], k, v);
      }
    }
  }

  /** 109-131: every cell of every case. */
  method CheckCells(caseIds: seq<string>, slots: map<string, Attempt>) returns (violations: set<Violation>)
    ensures violations == {} <==> CellsOk(caseIds, slots)
    ensures forall v :: v in violations <==> CellsFault(caseIds, slots, v)
  {
    hide CellOk, CellFault, CellsFault, CellsOk, RowFault;
    violations := {};
    var i := 0;
    NoCells(slots);
    while i < |caseIds|
      invariant 0 <= i <= |caseIds|
      invariant violations == {} <==> CellsOk(caseIds[..i], slots)
      invariant forall v :: v in violations <==> CellsFault(caseIds[..i], slots, v)
    {
      CellsSnoc(caseIds, slots, i);
      var row := CheckRow(slots, caseIds[i]);
      violations := violations + row;
      i := i + 1;
    }
    assert caseIds[..i] == caseIds;
  }

  lemma NoCells(slots: map<string, Attempt>)
    ensures CellsOk([], slots) && forall v :: !CellsFault([], slots, v)
  {}

  /** The three cells of a case. */
  method CheckRow(slots: map<string, Attempt>, caseId: string) returns (violations: set<Violation>)
    ensures violations == {} <==> forall k :: 0 <= k < 3 ==> CellOk(slots, caseId, k)
    ensures forall v :: v in violations <==> RowFault(slots, caseId, v)
  {
    hide CellOk, CellFault;
    violations := {};
    var k := 0;
    while k < 3
      invariant 0 <= k <= 3
      invariant violations == {} <==> forall j :: 0 <= j < k ==> CellOk(slots, caseId, j)
      invariant forall v :: v in violations <==> exists j :: 0 <= j < k && CellFault(slots, caseId, j, v)
    {
      var cell := CheckCell(slots, caseId, k);
      violations := violations + cell;
      k := k + 1;
    }
  }

  /** discoveryPolicyViolations (55-134). Exactly the faults of cases, attempts and grid are reported,
      and nothing exactly when the policy accepts. */
  method DiscoveryPolicyViolations(caseIds: seq<string>, attempts: seq<Attempt>) returns (violations: set<Violation>)
    ensures violations == {} <==> Accepts(caseIds, attempts)
    ensures forall v :: v in violations <==>
      CaseFault(caseIds, v) || AttemptFault(caseIds, attempts, v) || GridFault(caseIds, attempts, v)
  {
    hide Good, Filled, FirstsIn, CellsOk, Accepts, CaseFault, AttemptFault, GridFault, CellsFault, Distinct;
    var expected, caseViolations := CheckCases(caseIds);
    var slots, attemptViolations := FillSlots(expected, attempts);
    var cellViolations := CheckCells(expected, slots);
    violations := caseViolations + attemptViolations + cellViolations;
    forall v ensures (AttemptFault(expected, attempts, v) <==> AttemptFault(caseIds, attempts, v))
      && (CellsFault(expected, slots, v) <==> GridFault(caseIds, attempts, v))
    {
      SameBlame(expected, caseIds, attempts, v);
      CellsAreGrid(expected, caseIds, attempts, slots, v);
    }
    if Distinct(caseIds) && |caseIds| == EXPECTED_CASE_COUNT {
      CheckIsPolicy(caseIds, attempts, slots);
    } else {
      NeedsCases(caseIds, attempts);
    }
  }

  lemma SameBlame(expected: seq<string>, caseIds: seq<string>, attempts: seq<Attempt>, v: Violation)
    requires Elems(expected) == Elems(caseIds)
    ensures AttemptFault(expected, attempts, v) <==> AttemptFault(caseIds, attempts, v)
  {
    hide CodeFault;
    forall i | 0 <= i < |attempts| ensures Blamed(expected, attempts, i, v) <==> Blamed(caseIds, attempts, i, v) {
      assert attempts[i].caseId in Elems(expected) <==> attempts[i].caseId in Elems(caseIds);
    }
  }

  lemma {:induction false} FirstIndex(attempts: seq<Attempt>, s: Slot) returns (i: nat)
    requires s in Slots(attempts)
    ensures i < |attempts| && SlotOf(attempts[i]) == s && FirstAt(attempts, i)
  {
    var n := |attempts| - 1;
    if s in Slots(attempts[..n]) {
      i := FirstIndex(attempts[..n], s);
    } else {
      i := n;
      assert Slots(attempts)[n] == SlotOf(attempts[n]);
      forall j | 0 <= j < n ensures SlotOf(attempts[j]) != s {
        assert Slots(attempts[..n])[j] == SlotOf(attempts[j]);
      }
    }
  }

  /** The filled slots say who attempted what first. */
  lemma SlotSays(expected: seq<string>, attempts: seq<Attempt>, slots: map<string, Attempt>, c: string, k: nat, r: nat)
    requires Filled(expected, attempts, slots) && FirstsIn(expected, attempts, slots)
    requires c in expected && k < 3 && r < REPEATS
    ensures Present(slots, c, k, r) <==> (c, COHORTS[k], r) in Slots(attempts)
    ensures Passes(slots, c, k, r) == PassedOnce(attempts, (c, COHORTS[k], r))
  {
    hide Filled, SlotKey;
    var s: Slot := (c, COHORTS[k], r);
    FilledSlot(expected, attempts, slots, s);
    if s in Slots(attempts) {
      var i := FirstIndex(attempts, s);
      assert Known(expected, SlotOf(attempts[i]));
    } else {
      forall i | 0 <= i < |attempts| ensures SlotOf(attempts[i]) != s {
        assert Slots(attempts)[i] == SlotOf(attempts[i]);
      }
    }
  }

  /** The same cell, said of the slots and of the attempts. */
  lemma CellIsGrid(expected: seq<string>, attempts: seq<Attempt>, slots: map<string, Attempt>, i: nat, k: nat,
    v: Violation)
    requires Filled(expected, attempts, slots) && FirstsIn(expected, attempts, slots) && i < |expected| && k < 3
    ensures CellFault(slots, expected[i], k, v) <==>
      GridFault(expected, attempts, v) && match v
        case MissingRepeat(s) => s.0 == expected[i] && s.1 == COHORTS[k]
        case BelowFloor(c, cohort, _) => c == expected[i] && cohort == COHORTS[k]
        case _ => false
  {
    hide Filled, FirstsIn, Present, Passes, PassedOnce;
    var c := expected[i];
    SlotSays(expected, attempts, slots, c, k, 0);
    SlotSays(expected, attempts, slots, c, k, 1);
    SlotSays(expected, attempts, slots, c, k, 2);
    assert PassesBelow(slots, c, k, 1) == Passes(slots, c, k, 0);
    assert PassesBelow(slots, c, k, 3) == PassesBelow(slots, c, k, 1) + Passes(slots, c, k, 1) + Passes(slots, c, k, 2);
    match v
    case MissingRepeat(s) =>
      if GridFault(expected, attempts, v) && s.0 == c && s.1 == COHORTS[k] {
        var r: nat := s.2;
        assert s == (c, COHORTS[k], r) && !Present(slots, c, k, r);
      }
    case BelowFloor(_, cohort, _) => CanonicalFirst(k);
    case _ =>
  }

  lemma CanonicalFirst(k: nat)
    requires k < 3
    ensures COHORTS[k] == "canonical" <==> k == 0
  {
    assert |COHORTS[0]| == 9 && |COHORTS[1]| == 10 && |COHORTS[2]| == 4;
  }

  lemma CellsAreGrid(expected: seq<string>, caseIds: seq<string>, attempts: seq<Attempt>, slots: map<string, Attempt>,
    v: Violation)
    requires Elems(expected) == Elems(caseIds)
    requires Filled(expected, attempts, slots) && FirstsIn(expected, attempts, slots)
    ensures CellsFault(expected, slots, v) <==> GridFault(caseIds, attempts, v)
  {
    hide Filled, FirstsIn, CellFault, PassedOnce;
    forall x ensures x in expected <==> x in caseIds {
      assert x in Elems(expected) <==> x in Elems(caseIds);
    }
    assert GridFault(expected, attempts, v) <==> GridFault(caseIds, attempts, v);
    if CellsFault(expected, slots, v) {
      var i, k :| 0 <= i < |expected| && 0 <= k < 3 && CellFault(slots, expected[i], k, v);
      CellIsGrid(expected, attempts, slots, i, k, v);
    }
    if GridFault(expected, attempts, v) {
      var s: Slot := if v.MissingRepeat? then v.slot else (v.caseId, v.cohort, 0);
      var i :| 0 <= i < |expected| && expected[i] == s.0;
      var k :| 0 <= k < 3 && COHORTS[k] == s.1;
      CellIsGrid(expected, attempts, slots, i, k, v);
      assert CellFault(slots, expected[i], k, v);
    }
  }

  lemma NeedsCases(caseIds: seq<string>, attempts: seq<Attempt>)
    ensures Accepts(caseIds, attempts) ==> Distinct(caseIds) && |caseIds| == EXPECTED_CASE_COUNT
  {}

  // ----- the check decides the policy -----

  lemma {:induction false} InGrid(caseIds: seq<string>, s: Slot)
    ensures s in Grid(caseIds) <==> Known(caseIds, s)
  {
    if caseIds != [] {
      var n := |caseIds| - 1;
      InGrid(caseIds[..n], s);
      assert caseIds == caseIds[..n] + [caseIds[n]];
      InCaseGrid(caseIds[n], s);
    }
  }

  lemma InCaseGrid(caseId: string, s: Slot)
    ensures s in CaseGrid(caseId) <==> s.0 == caseId && s.1 in COHORTS && 0 <= s.2 < REPEATS
    ensures Distinct(CaseGrid(caseId))
  {
    var g := CaseGrid(caseId);
    assert |COHORTS[0]| == 9 && |COHORTS[1]| == 10 && |COHORTS[2]| == 4;
    if s.0 == caseId && s.1 in COHORTS && 0 <= s.2 < REPEATS {
      var k :| 0 <= k < 3 && COHORTS[k] == s.1;
      assert g[3 * k + s.2] == s;
    }
  }

  lemma {:induction false} GridDistinct(caseIds: seq<string>)
    requires Distinct(caseIds)
    ensures Distinct(Grid(caseIds))
  {
    if caseIds != [] {
      var n := |caseIds| - 1;
      var front, last := Grid(caseIds[..n]), CaseGrid(caseIds[n]);
      GridDistinct(caseIds[..n]);
      InCaseGrid(caseIds[n], ("", "", 0));
      forall i, j | 0 <= i < j < |front + last| ensures (front + last)[i] != (front + last)[j] {
        if i < |front| && j >= |front| {
          InGrid(caseIds[..n], front[i]);
          InCaseGrid(caseIds[n], last[j - |front|]);
          assert front[i].0 in caseIds[..n] && last[j - |front|] in last;
        }
      }
    }
  }

  /** The attempt in a filled slot. */
  lemma InSlot(caseIds: seq<string>, attempts: seq<Attempt>, slots: map<string, Attempt>, s: Slot) returns (i: nat)
    requires Filled(caseIds, attempts, slots) && Known(caseIds, s) && SlotKey(s) in slots
    ensures i < |attempts| && SlotOf(attempts[i]) == s && slots[SlotKey(s)] == attempts[i]
  {
    SlotKeyInjective(SlotOf(slots[SlotKey(s)]), s);
    i :| 0 <= i < |attempts| && attempts[i] == slots[SlotKey(s)];
  }

  lemma {:induction false} CountByRepeat(attempts: seq<Attempt>, q: Query)
    requires forall i :: 0 <= i < |attempts| ==> 0 <= attempts[i].repeat < 3
    requires q.repeat.None?
    ensures Count(attempts, q) == Count(attempts, q.(repeat := Some(0))) + Count(attempts, q.(repeat := Some(1)))
      + Count(attempts, q.(repeat := Some(2)))
  {
    if attempts != [] {
      CountByRepeat(attempts[..|attempts| - 1], q);
    }
  }

  lemma SlotCount(caseIds: seq<string>, attempts: seq<Attempt>, slots: map<string, Attempt>, i: nat, k: nat, r: nat)
    requires Good(caseIds, attempts) && Filled(caseIds, attempts, slots) && i < |caseIds| && k < 3 && r < 3
    ensures Present(slots, caseIds[i], k, r) <==> (caseIds[i], COHORTS[k], r) in Slots(attempts)
    ensures Count(attempts, Cell(caseIds[i], COHORTS[k]).(repeat := Some(r))) == Passes(slots, caseIds[i], k, r)
  {
    var s: Slot := (caseIds[i], COHORTS[k], r);
    var q := Cell(caseIds[i], COHORTS[k]).(repeat := Some(r));
    assert Known(caseIds, s);
    if Present(slots, caseIds[i], k, r) {
      var j := InSlot(caseIds, attempts, slots, s);
      assert Slots(attempts)[j] == s;
      CountOne(attempts, j, q);
    } else {
      CountNone(attempts, q);
      forall j | 0 <= j < |attempts| ensures SlotOf(attempts[j]) != s {}
    }
  }

  lemma CellExact(caseIds: seq<string>, attempts: seq<Attempt>, slots: map<string, Attempt>, i: nat, k: nat)
    requires Good(caseIds, attempts) && Filled(caseIds, attempts, slots) && i < |caseIds| && k < 3
    ensures CellOk(slots, caseIds[i], k) <==>
      && (caseIds[i], COHORTS[k], 0) in Slots(attempts) && (caseIds[i], COHORTS[k], 1) in Slots(attempts)
      && (caseIds[i], COHORTS[k], 2) in Slots(attempts)
      && Count(attempts, Cell(caseIds[i], COHORTS[k])) >= RequiredPasses(k)
  {
    hide Filled, Present, Passes, Count;
    SlotCount(caseIds, attempts, slots, i, k, 0);
    SlotCount(caseIds, attempts, slots, i, k, 1);
    SlotCount(caseIds, attempts, slots, i, k, 2);
    CountByRepeat(attempts, Cell(caseIds[i], COHORTS[k]));
    assert PassesBelow(slots, caseIds[i], k, 1) == Passes(slots, caseIds[i], k, 0);
    assert PassesBelow(slots, caseIds[i], k, 3) == PassesBelow(slots, caseIds[i], k, 1)
      + Passes(slots, caseIds[i], k, 1) + Passes(slots, caseIds[i], k, 2);
  }

  lemma CheckIsPolicy(caseIds: seq<string>, attempts: seq<Attempt>, slots: map<string, Attempt>)
    requires Distinct(caseIds) && |caseIds| == EXPECTED_CASE_COUNT && Filled(caseIds, attempts, slots)
    ensures Accepts(caseIds, attempts) <==> Good(caseIds, attempts) && CellsOk(caseIds, slots)
  {
    hide Accepts, Good, CellsOk, Filled;
    if Accepts(caseIds, attempts) { PolicyPasses(caseIds, attempts, slots); }
    if Good(caseIds, attempts) && CellsOk(caseIds, slots) { PassesPolicy(caseIds, attempts, slots); }
  }

  /** Being a permutation of the grid means: no slot twice, and exactly the known ones. */
  lemma GridExactly(caseIds: seq<string>, slots: seq<Slot>)
    requires Distinct(caseIds)
    ensures multiset(slots) == multiset(Grid(caseIds)) <==>
      Distinct(slots) && forall s: Slot :: s in slots <==> Known(caseIds, s)
  {
    hide Known, Grid, Distinct;
    var grid := Grid(caseIds);
    GridDistinct(caseIds);
    SameBag(slots, grid);
    assert (forall i :: 0 <= i < |slots| ==> slots[i] in grid) && (forall i :: 0 <= i < |grid| ==> grid[i] in slots)
      <==> forall s: Slot :: s in slots <==> s in grid;
    forall s: Slot ensures s in Grid(caseIds) <==> Known(caseIds, s) {
      InGrid(caseIds, s);
    }
  }

  lemma AcceptedKnown(caseIds: seq<string>, attempts: seq<Attempt>)
    requires Accepts(caseIds, attempts)
    ensures forall s: Slot :: s in Slots(attempts) <==> Known(caseIds, s)
    ensures Distinct(Slots(attempts)) && |attempts| == 9 * |caseIds|
    ensures forall i :: 0 <= i < |attempts| ==> Known(caseIds, SlotOf(attempts[i]))
  {
    hide Known, FloorsMet, Grid, Distinct, CodeOk;
    GridExactly(caseIds, Slots(attempts));
    assert |multiset(Slots(attempts))| == |multiset(Grid(caseIds))|;
    forall i | 0 <= i < |attempts| ensures Known(caseIds, SlotOf(attempts[i])) {
      assert Slots(attempts)[i] in Slots(attempts);
    }
  }

  lemma PolicyPasses(caseIds: seq<string>, attempts: seq<Attempt>, slots: map<string, Attempt>)
    requires Accepts(caseIds, attempts) && Filled(caseIds, attempts, slots)
    ensures Good(caseIds, attempts) && CellsOk(caseIds, slots)
  {
    hide Count, CellOk, Filled, SlotKey;
    AcceptedKnown(caseIds, attempts);
    forall i, k | 0 <= i < |caseIds| && 0 <= k < 3 ensures CellOk(slots, caseIds[i], k) {
      CellExact(caseIds, attempts, slots, i, k);
      assert Known(caseIds, (caseIds[i], COHORTS[k], 0)) && Known(caseIds, (caseIds[i], COHORTS[k], 1))
        && Known(caseIds, (caseIds[i], COHORTS[k], 2));
    }
  }

  lemma AllPresent(caseIds: seq<string>, attempts: seq<Attempt>, slots: map<string, Attempt>, s: Slot)
    requires Good(caseIds, attempts) && CellsOk(caseIds, slots) && Filled(caseIds, attempts, slots)
    ensures s in Slots(attempts) <==> Known(caseIds, s)
  {
    hide Count, CellOk, Filled, Known, CodeOk, Distinct;
    if Known(caseIds, s) {
      var i, k := KnownAt(caseIds, s);
      assert CellOk(slots, caseIds[i], k);
      CellExact(caseIds, attempts, slots, i, k);
    }
    if s in Slots(attempts) {
      var j :| 0 <= j < |attempts| && SlotOf(attempts[j]) == s;
    }
  }

  lemma PassesPolicy(caseIds: seq<string>, attempts: seq<Attempt>, slots: map<string, Attempt>)
    requires Distinct(caseIds) && |caseIds| == EXPECTED_CASE_COUNT
    requires Good(caseIds, attempts) && CellsOk(caseIds, slots) && Filled(caseIds, attempts, slots)
    ensures Accepts(caseIds, attempts)
  {
    hide Count, CellOk, Filled, SlotKey, Known, CodeOk, Distinct, Grid;
    forall i, k | 0 <= i < |caseIds| && 0 <= k < 3
        ensures Count(attempts, Cell(caseIds[i], COHORTS[k])) >= RequiredPasses(k) {
      assert CellOk(slots, caseIds[i], k);
      CellExact(caseIds, attempts, slots, i, k);
    }
    forall s: Slot ensures s in Slots(attempts) <==> Known(caseIds, s) {
      AllPresent(caseIds, attempts, slots, s);
    }
    GridExactly(caseIds, Slots(attempts));
  }

  lemma KnownAt(caseIds: seq<string>, s: Slot) returns (i: nat, k: nat)
    requires Known(caseIds, s)
    ensures i < |caseIds| && k < 3 && s == (caseIds[i], COHORTS[k], s.2) && 0 <= s.2 < 3
  {
    i :| 0 <= i < |caseIds| && caseIds[i] == s.0;
    k :| 0 <= k < 3 && COHORTS[k] == s.1;
  }

  // ----- consequences -----

  /** The order of the attempts does not matter. */
  lemma AcceptsPermuted(caseIds: seq<string>, attempts: seq<Attempt>, others: seq<Attempt>)
    requires multiset(attempts) == multiset(others) && Accepts(caseIds, attempts)
    ensures Accepts(caseIds, others)
  {
    hide Count;
    SlotsPermuted(attempts, others);
    forall i | 0 <= i < |others| ensures CodeOk(others[i]) {
      assert others[i] in multiset(attempts);
    }
    forall i, k | 0 <= i < |caseIds| && 0 <= k < 3
        ensures Count(others, Cell(caseIds[i], COHORTS[k])) >= RequiredPasses(k) {
      CountPermuted(attempts, others, Cell(caseIds[i], COHORTS[k]));
    }
  }

  lemma {:induction false} SlotMultiplicity(attempts: seq<Attempt>, s: Slot)
    ensures multiset(Slots(attempts))[s] == Count(attempts, Query(Some(s.0), Some(s.1), Some(s.2), None))
  {
    if attempts != [] {
      var n := |attempts| - 1;
      SlotMultiplicity(attempts[..n], s);
      assert Slots(attempts) == Slots(attempts[..n]) + [SlotOf(attempts[n])];
    }
  }

  lemma SlotsPermuted(a: seq<Attempt>, b: seq<Attempt>)
    requires multiset(a) == multiset(b)
    ensures multiset(Slots(a)) == multiset(Slots(b))
  {
    forall s: Slot ensures multiset(Slots(a))[s] == multiset(Slots(b))[s] {
      SlotMultiplicity(a, s);
      SlotMultiplicity(b, s);
      CountPermuted(a, b, Query(Some(s.0), Some(s.1), Some(s.2), None));
    }
  }

  /** The passes of the cells of these cases. */
  function CellSum(attempts: seq<Attempt>, caseIds: seq<string>): nat {
    if caseIds == [] then 0
    else
      var c := caseIds[|caseIds| - 1];
      CellSum(attempts, caseIds[..|caseIds| - 1])
      + Count(attempts, Cell(c, COHORTS[0])) + Count(attempts, Cell(c, COHORTS[1]))
        + Count(attempts, Cell(c, COHORTS[2]))
  }

  lemma {:induction false} CellSumSnoc(attempts: seq<Attempt>, a: Attempt, caseIds: seq<string>)
    requires Distinct(caseIds) && a.cohort in COHORTS
    ensures CellSum(attempts + [a], caseIds)
      == CellSum(attempts, caseIds) + if a.passed && a.caseId in caseIds then 1 else 0
  {
    if caseIds != [] {
      var n := |caseIds| - 1;
      CellSumSnoc(attempts, a, caseIds[..n]);
      assert (attempts + [a])[..|attempts|] == attempts;
      assert caseIds == caseIds[..n] + [caseIds[n]];
      assert caseIds[n] !in caseIds[..n];
      assert |COHORTS[0]| == 9 && |COHORTS[1]| == 10 && |COHORTS[2]| == 4;
    }
  }

  lemma {:induction false} PassesAreCells(attempts: seq<Attempt>, caseIds: seq<string>)
    requires Distinct(caseIds) && forall i :: 0 <= i < |attempts| ==>
      attempts[i].caseId in caseIds && attempts[i].cohort in COHORTS
    ensures Count(attempts, PASSED) == CellSum(attempts, caseIds)
  {
    if attempts == [] {
      NoPasses(caseIds);
    } else {
      var n := |attempts| - 1;
      PassesAreCells(attempts[..n], caseIds);
      assert attempts == attempts[..n] + [attempts[n]];
      CellSumSnoc(attempts[..n], attempts[n], caseIds);
    }
  }

  lemma {:induction false} NoPasses(caseIds: seq<string>)
    ensures CellSum([], caseIds) == 0
  {
    if caseIds != [] {
      NoPasses(caseIds[..|caseIds| - 1]);
    }
  }

  lemma {:induction false} FloorSum(attempts: seq<Attempt>, caseIds: seq<string>)
    requires FloorsMet(caseIds, attempts)
    ensures CellSum(attempts, caseIds) >= 7 * |caseIds|
  {
    hide Count;
    if caseIds != [] {
      var n := |caseIds| - 1;
      forall i, k | 0 <= i < n && 0 <= k < 3
          ensures Count(attempts, Cell(caseIds[..n][i], COHORTS[k])) >= RequiredPasses(k) {
        assert Count(attempts, Cell(caseIds[i], COHORTS[k])) >= RequiredPasses(k);
      }
      FloorSum(attempts, caseIds[..n]);
      assert Count(attempts, Cell(caseIds[n], COHORTS[0])) >= RequiredPasses(0);
      assert Count(attempts, Cell(caseIds[n], COHORTS[1])) >= RequiredPasses(1);
      assert Count(attempts, Cell(caseIds[n], COHORTS[2])) >= RequiredPasses(2);
    }
  }

  /** An accepted evaluation has nine attempts for every case and passes at least seven of nine. */
  lemma {:induction false} AcceptedTotals(caseIds: seq<string>, attempts: seq<Attempt>)
    requires Accepts(caseIds, attempts)
    ensures |attempts| == 9 * |caseIds| && Count(attempts, PASSED) >= 7 * |caseIds|
  {
    hide Count, FloorsMet, Grid, CodeOk, CellSum;
    AcceptedKnown(caseIds, attempts);
    PassesAreCells(attempts, caseIds);
    FloorSum(attempts, caseIds);
  }

  /** The attempts are for exactly the cases asked for. */
  lemma AcceptedCases(caseIds: seq<string>, attempts: seq<Attempt>)
    requires Accepts(caseIds, attempts)
    ensures forall c :: c in caseIds <==> exists i :: 0 <= i < |attempts| && attempts[i].caseId == c
    ensures forall i :: 0 <= i < |attempts| ==> 0 <= attempts[i].repeat < REPEATS
  {
    hide Count, FloorsMet, Grid, CodeOk, Distinct, Accepts;
    AcceptedKnown(caseIds, attempts);
    forall c | c in caseIds ensures exists i :: 0 <= i < |attempts| && attempts[i].caseId == c {
      var s: Slot := (c, COHORTS[0], 0);
      assert Known(caseIds, s) && s in Slots(attempts);
      var i :| 0 <= i < |attempts| && Slots(attempts)[i] == s;
      assert attempts[i].caseId == c;
    }
  }
}
