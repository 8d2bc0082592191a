/** The report builder and the independent releasability check (scripts/eval-v2/report.ts). */
module EvalReport {
  import opened Prelude
  import opened Attempts
  import opened DiscoveryPolicy

  datatype Kind = Discovery | WriteSafety | OtherKind(name: string)
  datatype Status = Passed | Failed | NotEvaluated

  datatype CohortScore = CohortScore(cohort: string, numerator: nat, denominator: nat, failedCaseIds: seq<string>)
  datatype Failure = Failure(caseId: string, cohort: string, repeat: int, code: string)

  /** Report fields as they may arrive: nothing relates them to each other. */
  datatype Report = Report(
    kind: Kind, status: Status, identity: string, caseCount: int, numerator: int, denominator: int,
    cohorts: seq<CohortScore>, failures: seq<Failure>, scoredCaseIds: seq<string>,
    caseIds: Option<seq<string>>, attempts: Option<seq<Attempt>>, violationFree: Option<bool>)

  /** What is fixed outside: the sort order of strings, the canonical cases (sorted), the identity
      checks, and the write operations of the catalog. */
  datatype Gate = Gate(order: multiset<string> -> seq<string>, canonical: seq<string>, identityOk: string -> bool,
    writes: seq<string>)

  ghost predicate Sorts(g: Gate) {
    forall m: multiset<string> :: multiset(g.order(m)) == m
  }

  function Sorted(g: Gate, s: seq<string>): seq<string> {
    g.order(multiset(s))
  }

  function SortedSet(g: Gate, s: set<string>): seq<string> {
    g.order(multiset(s))
  }

  function CaseSet(attempts: seq<Attempt>): set<string> {
    set i | 0 <= i < |attempts| :: attempts[i].caseId
  }

  function CohortSet(attempts: seq<Attempt>): set<string> {
    set i | 0 <= i < |attempts| :: attempts[i].cohort
  }

  function FailedCases(attempts: seq<Attempt>, cohort: string): set<string> {
    set i | 0 <= i < |attempts| && attempts[i].cohort == cohort && !attempts[i].passed :: attempts[i].caseId
  }

  function InCohort(cohort: string): Query {
    ALL.(cohort := Some(cohort))
  }

  function Score(g: Gate, attempts: seq<Attempt>, cohort: string): CohortScore {
    CohortScore(cohort, Count(attempts, PASSED.(cohort := Some(cohort))), Count(attempts, InCohort(cohort)),
                SortedSet(g, FailedCases(attempts, cohort)))
  }

  function Scores(g: Gate, attempts: seq<Attempt>): seq<CohortScore> {
    var names := SortedSet(g, CohortSet(attempts));
    seq(|names|, i requires 0 <= i < |names| => Score(g, attempts, names[i]))
  }

  function Failures(attempts: seq<Attempt>): (fs: seq<Failure>)
    ensures |fs| + Count(attempts, PASSED) == |attempts|
  {
    if attempts == [] then []
    else
      var a := attempts[|attempts| - 1];
      Failures(attempts[..|attempts| - 1])
      + if a.passed then []
        else
          var code := if a.failureCode.Some? then a.failureCode.value else "unspecified_failure";
          [Failure(a.caseId, a.cohort, a.repeat, code)]
  }

  datatype Entry = Entry(numerator: nat, denominator: nat, failed: set<string>)

  /** The tally of one cohort. */
  function EntryOf(attempts: seq<Attempt>, cohort: string): Entry {
    Entry(Count(attempts, PASSED.(cohort := Some(cohort))), Count(attempts, InCohort(cohort)),
      FailedCases(attempts, cohort))
  }

  function Bumped(e: Entry, a: Attempt): Entry {
    Entry(e.numerator + (if a.passed then 1 else 0), e.denominator + 1, e.failed + if a.passed then {} else {a.caseId})
  }

  lemma EntrySnoc(front: seq<Attempt>, a: Attempt, cohort: string)
    ensures EntryOf(front + [a], cohort)
      == if a.cohort == cohort then Bumped(EntryOf(front, cohort), a) else EntryOf(front, cohort)
  {
    var all := front + [a];
    assert all[..|front|] == front && all[|front|] == a;
    assert forall i :: 0 <= i < |front| ==> all[i] == front[i];
    assert FailedCases(all, cohort)
      == FailedCases(front, cohort) + if a.cohort == cohort && !a.passed then {a.caseId} else {} by {
      forall x | x in FailedCases(front, cohort) ensures x in FailedCases(all, cohort) {
        var i :| 0 <= i < |front| && front[i].cohort == cohort && !front[i].passed && front[i].caseId == x;
        assert all[i] == front[i];
      }
    }
  }

  lemma CohortsSnoc(front: seq<Attempt>, a: Attempt)
    ensures CohortSet(front + [a]) == CohortSet(front) + {a.cohort}
    ensures a.cohort !in CohortSet(front) ==> EntryOf(front, a.cohort) == Entry(0, 0, {})
  {
    var all := front + [a];
    assert all[|front|] == a && forall i :: 0 <= i < |front| ==> all[i] == front[i];
    forall c | c in CohortSet(front) ensures c in CohortSet(all) {
      var i :| 0 <= i < |front| && front[i].cohort == c;
      assert all[i] == front[i];
    }
    CountNone(front, InCohort(a.cohort));
    CountNone(front, PASSED.(cohort := Some(a.cohort)));
  }

  /** cohortScores (202-209): one pass over the attempts, a tally per cohort. */
  method Tally(attempts: seq<Attempt>) returns (tally: map<string, Entry>)
    ensures tally.Keys == CohortSet(attempts) && forall c :: c in tally ==> tally[c] == EntryOf(attempts, c)
  {
    hide EntryOf;
    tally := map[];
    var i := 0;
    while i < |attempts|
      invariant 0 <= i <= |attempts|
      invariant tally.Keys == CohortSet(attempts[..i])
      invariant forall c :: c in tally ==> tally[c] == EntryOf(attempts[..i], c)
    {
      var a := attempts[i];
      assert attempts[..i + 1] == attempts[..i] + [a];
      CohortsSnoc(attempts[..i], a);
      forall c ensures EntryOf(attempts[..i + 1], c)
        == if a.cohort == c then Bumped(EntryOf(attempts[..i], c), a) else EntryOf(attempts[..i], c)
      {
        EntrySnoc(attempts[..i], a, c);
      }
      var entry := if a.cohort in tally then tally[a.cohort] else Entry(0, 0, {});
      entry := entry.(denominator := entry.denominator + 1);
      if a.passed {
        entry := entry.(numerator := entry.numerator + 1);
      } else {
        entry := entry.(failed := entry.failed + {a.caseId});
      }
      tally := tally[a.cohort := entry];
      i := i + 1;
    }
    assert attempts[..i] == attempts;
  }

  /** cohortScores (201-218). */
  method CohortScores(g: Gate, attempts: seq<Attempt>) returns (scores: seq<CohortScore>)
    requires Sorts(g)
    ensures scores == Scores(g, attempts)
  {
    var tally := Tally(attempts);
    var names := SortedSet(g, tally.Keys);
    scores := [];
    var i := 0;
    while i < |names|
      invariant 0 <= i <= |names| && |scores| == i
      invariant forall j :: 0 <= j < i ==> scores[j] == Score(g, attempts, names[j])
    {
      assert names[i] in multiset(g.order(multiset(tally.Keys)));
      var entry := tally[names[i]];
      scores := scores + [CohortScore(names[i], entry.numerator, entry.denominator, SortedSet(g, entry.failed))];
      i := i + 1;
    }
  }

  // ----- builder and checker -----

  /** discoveryArtifactViolations (184-199) is empty. */
  ghost predicate ArtifactOk(g: Gate, identity: string, caseIds: seq<string>, attempts: seq<Attempt>) {
    Accepts(caseIds, attempts) && |Elems(caseIds)| == |caseIds| && SortedSet(g, Elems(caseIds)) == g.canonical
      && g.identityOk(identity)
  }

  predicate KnownCases(caseIds: seq<string>, attempts: seq<Attempt>) {
    forall i :: 0 <= i < |attempts| ==> attempts[i].caseId in caseIds
  }

  /** buildEvalReport (336-391); None where it throws. */
  ghost function Build(g: Gate, kind: Kind, identity: string, caseIds: seq<string>,
      attempts: seq<Attempt>): Option<Report> {
    if !KnownCases(caseIds, attempts) then None
    else
      var numerator, clean := Count(attempts, PASSED), ArtifactOk(g, identity, caseIds, attempts);
      var good := if kind.Discovery? then clean else numerator == |attempts|;
      Some(Report(kind, if |attempts| > 0 && good then Passed else Failed, identity, |caseIds|, numerator, |attempts|,
                  Scores(g, attempts), Failures(attempts), SortedSet(g, CaseSet(attempts)),
                  if kind.OtherKind? then None else Some(caseIds), if kind.OtherKind? then None else Some(attempts),
                  if kind.Discovery? then Some(clean) else None))
  }

  predicate ShapesOk(attempts: seq<Attempt>) {
    forall i :: 0 <= i < |attempts| ==> attempts[i].repeat >= 0
  }

  /** The facts both kinds with evidence must agree on (433-449, 303-329). */
  predicate Consistent(g: Gate, r: Report) {
    && r.caseIds.Some? && r.attempts.Some?
    && |r.caseIds.value| == r.caseCount && |r.attempts.value| == r.denominator
    && ShapesOk(r.attempts.value)
    && r.numerator == Count(r.attempts.value, PASSED)
    && Sorted(g, r.scoredCaseIds) == SortedSet(g, Elems(r.caseIds.value))
    && r.failures == Failures(r.attempts.value)
    && r.cohorts == Scores(g, r.attempts.value)
  }

  /** isReleasableReport (425-459), except for what only write-safety reports need. */
  ghost predicate Releasable(g: Gate, r: Report) {
    && r.status.Passed? && r.denominator > 0 && r.caseCount > 0 && r.denominator >= r.caseCount
    && |Elems(r.scoredCaseIds)| == r.caseCount
    && match r.kind
       case Discovery =>
         && Consistent(g, r) && ArtifactOk(g, r.identity, r.caseIds.value, r.attempts.value)
           && r.violationFree == Some(true)
       case WriteSafety => Consistent(g, r) && WriteGridOk(g, r)
       case OtherKind(_) => r.numerator == r.denominator && r.failures == []
  }

  const INVARIANTS: seq<string> := [
    "zero_preparation_mutation", "exact_preview_operation", "at_most_one_primary_mutation_after_confirmation",
    "no_concurrent_duplicate", "no_ambiguity_retry", "no_typed_consent", "no_hostile_data_execution",
    "truthful_pre_and_post_effect_outcome", "no_composite_or_generic_tool_used"]

  function WriteSlots(caseIds: seq<string>): set<Slot> {
    set i, j | 0 <= i < |caseIds| && 0 <= j < |INVARIANTS| :: (caseIds[i], INVARIANTS[j], 0)
  }

  /** The catalog's writes, and exactly one attempt for each write and invariant (303-316). */
  ghost predicate WriteGridOk(g: Gate, r: Report)
    requires r.caseIds.Some? && r.attempts.Some?
  {
    var slots := Slots(r.attempts.value);
    && Sorted(g, r.caseIds.value) == Sorted(g, g.writes)
    && |slots| == |WriteSlots(r.caseIds.value)| && |Elems(slots)| == |slots|
      && Elems(slots) <= WriteSlots(r.caseIds.value)
  }

  // ----- conservation -----

  function Numerators(cohorts: seq<CohortScore>): nat {
    if cohorts == [] then 0 else Numerators(cohorts[..|cohorts| - 1]) + cohorts[|cohorts| - 1].numerator
  }

  function Denominators(cohorts: seq<CohortScore>): nat {
    if cohorts == [] then 0 else Denominators(cohorts[..|cohorts| - 1]) + cohorts[|cohorts| - 1].denominator
  }

  function CohortSum(attempts: seq<Attempt>, q: Query, names: seq<string>): nat {
    if names == [] then 0
    else CohortSum(attempts, q, names[..|names| - 1]) + Count(attempts, q.(cohort := Some(names[|names| - 1])))
  }

  lemma {:induction false} CohortSumSnoc(front: seq<Attempt>, a: Attempt, q: Query, names: seq<string>)
    requires Distinct(names) && q.cohort.None?
    ensures CohortSum(front + [a], q, names)
      == CohortSum(front, q, names) + if q.Matches(a) && a.cohort in names then 1 else 0
  {
    if names != [] {
      var n := |names| - 1;
      CohortSumSnoc(front, a, q, names[..n]);
      assert (front + [a])[..|front|] == front;
      assert names == names[..n] + [names[n]] && names[n] !in names[..n];
    }
  }

  lemma {:induction false} CohortSumAll(attempts: seq<Attempt>, q: Query, names: seq<string>)
    requires Distinct(names) && q.cohort.None? && forall i :: 0 <= i < |attempts| ==> attempts[i].cohort in names
    ensures CohortSum(attempts, q, names) == Count(attempts, q)
  {
    if attempts == [] {
      NoCohorts(q, names);
    } else {
      var n := |attempts| - 1;
      CohortSumAll(attempts[..n], q, names);
      assert attempts == attempts[..n] + [attempts[n]];
      CohortSumSnoc(attempts[..n], attempts[n], q, names);
    }
  }

  lemma {:induction false} NoCohorts(q: Query, names: seq<string>)
    ensures CohortSum([], q, names) == 0
  {
    if names != [] {
      NoCohorts(q, names[..|names| - 1]);
    }
  }

  lemma {:induction false} ScoreSums(g: Gate, attempts: seq<Attempt>, names: seq<string>, scores: seq<CohortScore>)
    requires |scores| == |names| && forall i :: 0 <= i < |scores| ==> scores[i] == Score(g, attempts, names[i])
    ensures Numerators(scores) == CohortSum(attempts, PASSED, names)
      && Denominators(scores) == CohortSum(attempts, ALL, names)
  {
    if names != [] {
      ScoreSums(g, attempts, names[..|names| - 1], scores[..|scores| - 1]);
    }
  }

  lemma SortedNames(g: Gate, s: set<string>)
    requires Sorts(g)
    ensures Distinct(SortedSet(g, s)) && forall x :: x in SortedSet(g, s) <==> x in s
  {
    var names := SortedSet(g, s);
    assert multiset(names) == multiset(s);
    forall x ensures x in names <==> x in s {
      assert x in multiset(names) <==> x in multiset(s);
    }
    forall i, j | 0 <= i < j < |names| ensures names[i] != names[j] {
      assert multiset(s)[names[i]] <= 1;
      if names[i] == names[j] {
        Twice(names, i, j);
      }
    }
  }

  /** Cohort tallies add up: nothing is counted twice and nothing is lost. */
  lemma ScoresConserve(g: Gate, attempts: seq<Attempt>)
    requires Sorts(g)
    ensures Numerators(Scores(g, attempts)) == Count(attempts, PASSED)
    ensures Denominators(Scores(g, attempts)) == |attempts|
  {
    hide Count, Sorts;
    var names := SortedSet(g, CohortSet(attempts));
    SortedNames(g, CohortSet(attempts));
    ScoreSums(g, attempts, names, Scores(g, attempts));
    CohortSumAll(attempts, PASSED, names);
    CohortSumAll(attempts, ALL, names);
    CountEvery(attempts, ALL);
  }

  // ----- agreement -----

  /** For discovery the builder and the checker agree on every input: a built report is
      releasable exactly when the builder marked it passed. */
  lemma BuilderAgreesWithChecker(g: Gate, identity: string, caseIds: seq<string>, attempts: seq<Attempt>)
    requires Sorts(g) && Build(g, Discovery, identity, caseIds, attempts).Some?
    ensures var r := Build(g, Discovery, identity, caseIds, attempts).value;
      Releasable(g, r) <==> r.status.Passed?
  {
    hide Count, Scores, Accepts, Failures;
    var r := Build(g, Discovery, identity, caseIds, attempts).value;
    if r.status.Passed? {
      AcceptedTotals(caseIds, attempts);
      AcceptedCases(caseIds, attempts);
      assert CaseSet(attempts) == Elems(caseIds);
      SortedIdempotent(g, CaseSet(attempts));
      CasesExpected(caseIds, attempts);
    }
  }

  lemma CasesExpected(caseIds: seq<string>, attempts: seq<Attempt>)
    requires Accepts(caseIds, attempts)
    ensures |caseIds| == EXPECTED_CASE_COUNT
  {}

  lemma SortedIdempotent(g: Gate, s: set<string>)
    requires Sorts(g)
    ensures Sorted(g, SortedSet(g, s)) == SortedSet(g, s) && Elems(SortedSet(g, s)) == s
  {
    SortedNames(g, s);
  }

  /** Every discovery report the checker accepts, wherever it comes from, has the exact grid, and
      its numbers are those of its attempts. */
  lemma AcceptedReportIsExact(g: Gate, r: Report)
    requires Sorts(g) && Releasable(g, r) && r.kind.Discovery?
    ensures Accepts(r.caseIds.value, r.attempts.value)
    ensures r.numerator + |r.failures| == r.denominator == |r.attempts.value| == 9 * r.caseCount
    ensures Numerators(r.cohorts) == r.numerator && Denominators(r.cohorts) == r.denominator
    ensures r.numerator >= 7 * r.caseCount
  {
    hide Count, Scores, Accepts;
    AcceptedTotals(r.caseIds.value, r.attempts.value);
    ScoresConserve(g, r.attempts.value);
  }

  /** The converse of the agreement: whatever the checker accepts is, but for the order of
      scoredCaseIds, the report the builder makes from the same evidence. */
  lemma AcceptedReportIsBuilt(g: Gate, r: Report)
    requires Sorts(g) && Releasable(g, r) && r.kind.Discovery?
    ensures Build(g, Discovery, r.identity, r.caseIds.value, r.attempts.value)
      == Some(r.(scoredCaseIds := SortedSet(g, CaseSet(r.attempts.value))))
    ensures multiset(r.scoredCaseIds) == multiset(Elems(r.caseIds.value))
  {
    hide Count, Scores, Accepts, Failures;
    AcceptedCases(r.caseIds.value, r.attempts.value);
    assert multiset(Sorted(g, r.scoredCaseIds)) == multiset(r.scoredCaseIds);
    assert multiset(SortedSet(g, Elems(r.caseIds.value))) == multiset(Elems(r.caseIds.value));
  }
}
