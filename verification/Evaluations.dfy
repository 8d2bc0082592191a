/** The discovery policy and the evaluation reports, said of the cases and the attempts themselves. */
module Evaluations {
  import opened Prelude
  import opened Attempts
  import opened DiscoveryPolicy
  import opened EvalReport

  // ----- the policy -----

  /** A pass without a failure code, or a failure with one that is not of zero tolerance. */
  predicate Tolerable(a: Attempt) {
    match a.failureCode
    case None => a.passed
    case Some(code) =>
      && !a.passed && |code| > 0
      && !Opens(code, "unrelated_destructive_loaded:") && !Opens(code, "too_many_loaded_tools:")
  }

  predicate Opens(s: string, p: string) {
    |p| <= |s| && s[..|p|] == p
  }

  predicate Fills(a: Attempt, caseId: string, cohort: string, repeat: int) {
    a.caseId == caseId && a.cohort == cohort && a.repeat == repeat
  }

  predicate SameCell(a: Attempt, b: Attempt) {
    a.caseId == b.caseId && a.cohort == b.cohort
  }

  /** 120 cases, each attempted three times in each of three cohorts and no other attempt; every
      canonical attempt passes, and of three paraphrases or typos at most one fails. */
  ghost predicate PolicyMet(caseIds: seq<string>, attempts: seq<Attempt>) {
    && |caseIds| == 120 && (forall i, j :: 0 <= i < j < |caseIds| ==> caseIds[i] != caseIds[j])
    && (forall i :: 0 <= i < |attempts| ==>
          var a := attempts[i];
          && a.caseId in caseIds && a.cohort in ["canonical", "paraphrase", "typo"] && 0 <= a.repeat < 3
          && Tolerable(a))
    && (forall i, j :: 0 <= i < j < |attempts| ==>
          !Fills(attempts[i], attempts[j].caseId, attempts[j].cohort, attempts[j].repeat))
    && (forall c, k, r: int :: c in caseIds && k in ["canonical", "paraphrase", "typo"] && 0 <= r < 3 ==>
          Attempted(attempts, c, k, r))
    && (forall i :: 0 <= i < |attempts| && attempts[i].cohort == "canonical" ==> attempts[i].passed)
    && (forall i, j :: 0 <= i < j < |attempts| && SameCell(attempts[i], attempts[j]) ==>
          attempts[i].cohort in ["paraphrase", "typo"] ==> attempts[i].passed || attempts[j].passed)
  }

  ghost predicate Attempted(attempts: seq<Attempt>, caseId: string, cohort: string, repeat: int) {
    exists i :: 0 <= i < |attempts| && Fills(attempts[i], caseId, cohort, repeat)
  }

  /** All attempts of this cell pass. */
  ghost predicate NoneFails(attempts: seq<Attempt>, c: string, k: string) {
    forall i :: 0 <= i < |attempts| && InCell(attempts[i], c, k) ==> attempts[i].passed
  }

  /** All but at most one pass. */
  ghost predicate OneFails(attempts: seq<Attempt>, c: string, k: string) {
    forall i, j :: 0 <= i < j < |attempts| && InCell(attempts[i], c, k) && InCell(attempts[j], c, k) ==>
      attempts[i].passed || attempts[j].passed
  }

  predicate InCell(a: Attempt, c: string, k: string) {
    a.caseId == c && a.cohort == k
  }

  ghost predicate Filling(attempts: seq<Attempt>, c: string, k: string) {
    && Distinct(Slots(attempts)) && (forall i :: 0 <= i < |attempts| ==> 0 <= attempts[i].repeat < 3)
    && Attempted(attempts, c, k, 0) && Attempted(attempts, c, k, 1) && Attempted(attempts, c, k, 2)
  }

  /** With three attempts in a cell, a floor of three passes lets none fail, and one of two lets one. */
  lemma FloorExactly(attempts: seq<Attempt>, c: string, k: string)
    requires Filling(attempts, c, k)
    ensures Count(attempts, Cell(c, k)) >= 3 <==> NoneFails(attempts, c, k)
    ensures Count(attempts, Cell(c, k)) >= 2 <==> OneFails(attempts, c, k)
  {
    hide Count;
    var x :| 0 <= x < |attempts| && Fills(attempts[x], c, k, 0);
    var y :| 0 <= y < |attempts| && Fills(attempts[y], c, k, 1);
    var z :| 0 <= z < |attempts| && Fills(attempts[z], c, k, 2);
    OfThree(attempts, c, k, x, y, z);
    ThreeCounted(attempts, c, k, x, y, z);
    hide Filling, Attempted, Distinct;
  }

  lemma ThreeCounted(attempts: seq<Attempt>, c: string, k: string, x: nat, y: nat, z: nat)
    requires Filling(attempts, c, k) && x < |attempts| && y < |attempts| && z < |attempts|
    requires Fills(attempts[x], c, k, 0) && Fills(attempts[y], c, k, 1) && Fills(attempts[z], c, k, 2)
    ensures Count(attempts, Cell(c, k)) ==
      (if attempts[x].passed then 1 else 0) + (if attempts[y].passed then 1 else 0)
        + (if attempts[z].passed then 1 else 0)
  {
    hide Count, Distinct, Attempted;
    CountByRepeat(attempts, Cell(c, k));
    CountOne(attempts, x, Cell(c, k).(repeat := Some(0)));
    CountOne(attempts, y, Cell(c, k).(repeat := Some(1)));
    CountOne(attempts, z, Cell(c, k).(repeat := Some(2)));
  }

  /** The attempts of a cell are the three of its repeats. */
  lemma OfThree(attempts: seq<Attempt>, c: string, k: string, x: nat, y: nat, z: nat)
    requires Filling(attempts, c, k) && x < |attempts| && y < |attempts| && z < |attempts|
    requires Fills(attempts[x], c, k, 0) && Fills(attempts[y], c, k, 1) && Fills(attempts[z], c, k, 2)
    ensures forall i :: 0 <= i < |attempts| && InCell(attempts[i], c, k) ==> i == x || i == y || i == z
  {
    forall i | 0 <= i < |attempts| && InCell(attempts[i], c, k) ensures i == x || i == y || i == z {
      var s := Slots(attempts);
      assert s[i] == s[x] || s[i] == s[y] || s[i] == s[z];
    }
  }

  lemma SlotsApart(attempts: seq<Attempt>)
    ensures Distinct(Slots(attempts)) <==> forall i, j :: 0 <= i < j < |attempts| ==>
      !Fills(attempts[i], attempts[j].caseId, attempts[j].cohort, attempts[j].repeat)
  {
    var s := Slots(attempts);
    assert forall i, j :: 0 <= i < j < |attempts| ==>
      (s[i] != s[j] <==> !Fills(attempts[i], attempts[j].caseId, attempts[j].cohort, attempts[j].repeat));
    if Distinct(s) {
      forall i, j | 0 <= i < j < |attempts|
        ensures !Fills(attempts[i], attempts[j].caseId, attempts[j].cohort, attempts[j].repeat)
      {
        assert s[i] != s[j];
      }
    }
  }

  lemma SlotAttempted(attempts: seq<Attempt>, s: Slot)
    ensures s in Slots(attempts) <==> Attempted(attempts, s.0, s.1, s.2)
  {
    if s in Slots(attempts) {
      var i :| 0 <= i < |attempts| && Slots(attempts)[i] == s;
      assert Fills(attempts[i], s.0, s.1, s.2);
    }
    if Attempted(attempts, s.0, s.1, s.2) {
      var i :| 0 <= i < |attempts| && Fills(attempts[i], s.0, s.1, s.2);
      assert Slots(attempts)[i] == s;
    }
  }

  predicate Cohort(k: string) {
    k in ["canonical", "paraphrase", "typo"]
  }

  predicate Wanted(caseIds: seq<string>, s: Slot) {
    s.0 in caseIds && Cohort(s.1) && 0 <= s.2 < 3
  }

  ghost predicate GridFilled(caseIds: seq<string>, attempts: seq<Attempt>) {
    && (forall i, j :: 0 <= i < j < |attempts| ==>
          !Fills(attempts[i], attempts[j].caseId, attempts[j].cohort, attempts[j].repeat))
    && (forall i :: 0 <= i < |attempts| ==> Wanted(caseIds, SlotOf(attempts[i])))
    && (forall s: Slot :: Wanted(caseIds, s) ==> Attempted(attempts, s.0, s.1, s.2))
  }

  lemma GridIsFilled(caseIds: seq<string>, attempts: seq<Attempt>)
    requires Distinct(caseIds)
    ensures multiset(Slots(attempts)) == multiset(Grid(caseIds)) <==> GridFilled(caseIds, attempts)
  {
    hide Attempted, Grid, Distinct, Fills, Wanted, Slots;
    GridExactly(caseIds, Slots(attempts));
    SlotsApart(attempts);
    forall s: Slot ensures (s in Slots(attempts) <==> Attempted(attempts, s.0, s.1, s.2)) &&
      (Known(caseIds, s) <==> Wanted(caseIds, s))
    {
      SlotAttempted(attempts, s);
      SameKnown(caseIds, s);
    }
    forall i | 0 <= i < |attempts| ensures SlotOf(attempts[i]) in Slots(attempts) {
      assert Slots(attempts)[i] == SlotOf(attempts[i]);
    }
    if GridFilled(caseIds, attempts) {
      forall s | s in Slots(attempts) ensures Wanted(caseIds, s) {
        var i :| 0 <= i < |attempts| && Slots(attempts)[i] == s;
      }
    }
  }

  lemma SameKnown(caseIds: seq<string>, s: Slot)
    ensures Known(caseIds, s) <==> Wanted(caseIds, s)
  {}

  ghost predicate EveryFloor(caseIds: seq<string>, attempts: seq<Attempt>) {
    forall i :: 0 <= i < |caseIds| ==> FloorsOf(attempts, caseIds[i])
  }

  ghost predicate FloorsOf(attempts: seq<Attempt>, c: string) {
    NoneFails(attempts, c, "canonical") && OneFails(attempts, c, "paraphrase") && OneFails(attempts, c, "typo")
  }

  lemma FloorsExactly(caseIds: seq<string>, attempts: seq<Attempt>)
    requires GridFilled(caseIds, attempts)
    ensures FloorsMet(caseIds, attempts) <==> EveryFloor(caseIds, attempts)
  {
    hide Count, NoneFails, OneFails, Attempted, Fills, Distinct;
    SlotsApart(attempts);
    forall i | 0 <= i < |caseIds|
      ensures FloorsOf(attempts, caseIds[i]) <==>
        forall k :: 0 <= k < 3 ==> Count(attempts, Cell(caseIds[i], COHORTS[k])) >= RequiredPasses(k)
    {
      var c := caseIds[i];
      forall k | 0 <= k < 3 ensures Filling(attempts, c, COHORTS[k]) {
        forall r | 0 <= r < 3 ensures Attempted(attempts, c, COHORTS[k], r) {
          assert Wanted(caseIds, (c, COHORTS[k], r));
        }
      }
      FloorExactly(attempts, c, COHORTS[0]);
      FloorExactly(attempts, c, COHORTS[1]);
      FloorExactly(attempts, c, COHORTS[2]);
    }
  }

  /** Of one case at a time or of all attempts at once, the floors are the same. */
  lemma FloorsSpread(caseIds: seq<string>, attempts: seq<Attempt>)
    requires forall i :: 0 <= i < |attempts| ==> attempts[i].caseId in caseIds
    ensures EveryFloor(caseIds, attempts) <==>
      && (forall i :: 0 <= i < |attempts| && attempts[i].cohort == "canonical" ==> attempts[i].passed)
      && (forall i, j :: 0 <= i < j < |attempts| && SameCell(attempts[i], attempts[j]) ==>
            attempts[i].cohort in ["paraphrase", "typo"] ==> attempts[i].passed || attempts[j].passed)
  {
    if EveryFloor(caseIds, attempts) {
      forall i | 0 <= i < |attempts| && attempts[i].cohort == "canonical" ensures attempts[i].passed {
        var c :| 0 <= c < |caseIds| && caseIds[c] == attempts[i].caseId;
        assert FloorsOf(attempts, caseIds[c]) && InCell(attempts[i], caseIds[c], "canonical");
      }
      forall i, j | 0 <= i < j < |attempts| && SameCell(attempts[i], attempts[j])
        && attempts[i].cohort in ["paraphrase", "typo"]
        ensures attempts[i].passed || attempts[j].passed
      {
        var c :| 0 <= c < |caseIds| && caseIds[c] == attempts[i].caseId;
        assert FloorsOf(attempts, caseIds[c]);
        assert InCell(attempts[i], caseIds[c], attempts[i].cohort);
        assert InCell(attempts[j], caseIds[c], attempts[i].cohort);
      }
    }
  }

  /** The release policy accepts exactly these evaluations. */
  lemma AcceptsExactly(caseIds: seq<string>, attempts: seq<Attempt>)
    ensures Accepts(caseIds, attempts) <==> PolicyMet(caseIds, attempts)
  {
    hide Grid, FloorsMet, EveryFloor, Count, Fills, Attempted;
    if |caseIds| == 120 && Distinct(caseIds) && forall i :: 0 <= i < |attempts| ==> attempts[i].caseId in caseIds {
      GridIsFilled(caseIds, attempts);
      FloorsSpread(caseIds, attempts);
      CodesExactly(attempts);
      GridSpread(caseIds, attempts);
      if GridFilled(caseIds, attempts) { FloorsExactly(caseIds, attempts); }
    } else if Accepts(caseIds, attempts) {
      AcceptedKnown(caseIds, attempts);
    }
  }

  lemma GridSpread(caseIds: seq<string>, attempts: seq<Attempt>)
    ensures GridFilled(caseIds, attempts) <==>
      && (forall i :: 0 <= i < |attempts| ==>
            && attempts[i].caseId in caseIds && attempts[i].cohort in ["canonical", "paraphrase", "typo"]
            && 0 <= attempts[i].repeat < 3)
      && (forall i, j :: 0 <= i < j < |attempts| ==>
            !Fills(attempts[i], attempts[j].caseId, attempts[j].cohort, attempts[j].repeat))
      && (forall c, k, r: int :: c in caseIds && k in ["canonical", "paraphrase", "typo"] && 0 <= r < 3 ==>
            Attempted(attempts, c, k, r))
  {
    hide Attempted, Fills;
    if GridFilled(caseIds, attempts) {
      forall c, k, r: int | c in caseIds && k in ["canonical", "paraphrase", "typo"] && 0 <= r < 3
        ensures Attempted(attempts, c, k, r)
      {
        assert Wanted(caseIds, (c, k, r));
      }
    }
  }

  lemma CodesExactly(attempts: seq<Attempt>)
    ensures forall i :: 0 <= i < |attempts| ==> (CodeOk(attempts[i]) <==> Tolerable(attempts[i]))
  {}

  // ----- the report -----

  /** at lists where attempts failed, in order. */
  ghost predicate FailedAt(attempts: seq<Attempt>, at: seq<nat>) {
    && (forall k :: 0 <= k < |at| ==> at[k] < |attempts| && !attempts[at[k]].passed)
    && (forall k, l :: 0 <= k < l < |at| ==> at[k] < at[l])
    && (forall i :: 0 <= i < |attempts| && !attempts[i].passed ==> i in at)
  }

  predicate Describes(f: Failure, a: Attempt) {
    && f.caseId == a.caseId && f.cohort == a.cohort && f.repeat == a.repeat
    && f.code == match a.failureCode case Some(code) => code case None => "unspecified_failure"
  }

  /** fs describes the failed attempts in their order, each under its own names. */
  ghost predicate Lists(attempts: seq<Attempt>, fs: seq<Failure>, at: seq<nat>) {
    FailedAt(attempts, at) && |fs| == |at| && forall k :: 0 <= k < |at| ==> Describes(fs[k], attempts[at[k]])
  }

  lemma ListsSnoc(front: seq<Attempt>, a: Attempt, fs: seq<Failure>, before: seq<nat>)
    requires Lists(front, fs, before)
    ensures a.passed ==> Lists(front + [a], fs, before)
    ensures forall f :: !a.passed && Describes(f, a) ==> Lists(front + [a], fs + [f], before + [|front|])
  {
    var all := front + [a];
    forall i | 0 <= i < |all| && !all[i].passed ensures i in before + [|front|] {
      if i < |front| { assert !front[i].passed && i in before; } else { assert (before + [|front|])[|before|] == i; }
    }
    assert forall i :: 0 <= i < |front| ==> all[i] == front[i];
  }

  lemma {:induction false} FailuresExactly(attempts: seq<Attempt>) returns (at: seq<nat>)
    ensures Lists(attempts, Failures(attempts), at)
  {
    hide Count, FailedAt, Failures, Lists;
    if attempts == [] {
      at := [];
      NothingListed();
    } else {
      var n := |attempts| - 1;
      var front, a := attempts[..n], attempts[n];
      var before := FailuresExactly(front);
      ListsSnoc(front, a, Failures(front), before);
      FailuresSnoc(attempts);
      assert front + [a] == attempts;
      at := if a.passed then before else before + [n];
      var code := if a.failureCode.Some? then a.failureCode.value else "unspecified_failure";
      assert Describes(Failure(a.caseId, a.cohort, a.repeat, code), a);
    }
  }

  lemma NothingListed()
    ensures Lists([], Failures([]), [])
  {}

  function Where(attempts: seq<Attempt>, q: Query): set<nat> {
    set i: nat | i < |attempts| && q.Matches(attempts[i])
  }

  lemma {:induction false} CountIsCard(attempts: seq<Attempt>, q: Query)
    ensures Count(attempts, q) == |Where(attempts, q)|
  {
    if attempts == [] {
      assert Where(attempts, q) == {};
    } else {
      var n := |attempts| - 1;
      CountIsCard(attempts[..n], q);
      assert Where(attempts, q) == Where(attempts[..n], q) + if q.Matches(attempts[n]) then {n} else {};
    }
  }

  function PassedAt(attempts: seq<Attempt>): set<nat> {
    set i: nat | i < |attempts| && attempts[i].passed
  }

  function MembersAt(attempts: seq<Attempt>, cohort: string): set<nat> {
    set i: nat | i < |attempts| && attempts[i].cohort == cohort
  }

  function FailingCases(attempts: seq<Attempt>, cohort: string): set<string> {
    set i: nat | i < |attempts| && attempts[i].cohort == cohort && !attempts[i].passed :: attempts[i].caseId
  }

  function CohortNames(attempts: seq<Attempt>): set<string> {
    set i: nat | i < |attempts| :: attempts[i].cohort
  }

  function CaseNames(attempts: seq<Attempt>): set<string> {
    set i: nat | i < |attempts| :: attempts[i].caseId
  }

  predicate ScoreOf(g: Gate, attempts: seq<Attempt>, s: CohortScore) {
    && s.numerator == |MembersAt(attempts, s.cohort) * PassedAt(attempts)|
    && s.denominator == |MembersAt(attempts, s.cohort)|
    && s.failedCaseIds == g.order(multiset(FailingCases(attempts, s.cohort)))
  }

  /** The cohorts in order; each score counts the attempts and the passes of its own cohort and
      names the cases that failed there. */
  lemma ScoresExactly(g: Gate, attempts: seq<Attempt>)
    ensures var scores, names := Scores(g, attempts), g.order(multiset(CohortNames(attempts)));
      && |scores| == |names|
      && forall k :: 0 <= k < |scores| ==> scores[k].cohort == names[k] && ScoreOf(g, attempts, scores[k])
  {
    hide Count;
    var scores, names := Scores(g, attempts), g.order(multiset(CohortNames(attempts)));
    assert CohortNames(attempts) == CohortSet(attempts);
    forall k | 0 <= k < |scores| ensures ScoreOf(g, attempts, Score(g, attempts, names[k])) {
      var c := names[k];
      CountIsCard(attempts, PASSED.(cohort := Some(c)));
      CountIsCard(attempts, InCohort(c));
      assert Where(attempts, PASSED.(cohort := Some(c))) == MembersAt(attempts, c) * PassedAt(attempts);
      assert Where(attempts, InCohort(c)) == MembersAt(attempts, c);
      assert FailedCases(attempts, c) == FailingCases(attempts, c);
    }
  }

  /** The identity and the canonical cases match, and the policy is met. */
  ghost predicate Evidenced(g: Gate, identity: string, caseIds: seq<string>, attempts: seq<Attempt>) {
    PolicyMet(caseIds, attempts) && g.order(multiset(set c | c in caseIds)) == g.canonical && g.identityOk(identity)
  }

  lemma EvidencedExactly(g: Gate, identity: string, caseIds: seq<string>, attempts: seq<Attempt>)
    ensures ArtifactOk(g, identity, caseIds, attempts) <==> Evidenced(g, identity, caseIds, attempts)
  {
    hide Accepts, PolicyMet;
    AcceptsExactly(caseIds, attempts);
    if Accepts(caseIds, attempts) {
      NeedsCases(caseIds, attempts);
      DistinctCard(caseIds);
    }
  }

  /** What buildEvalReport makes of cases and attempts, field by field. */
  lemma BuiltExactly(g: Gate, kind: Kind, identity: string, caseIds: seq<string>, attempts: seq<Attempt>)
    ensures match Build(g, kind, identity, caseIds, attempts)
      case None => exists i :: 0 <= i < |attempts| && attempts[i].caseId !in caseIds
      case Some(r) =>
        && (forall i :: 0 <= i < |attempts| ==> attempts[i].caseId in caseIds)
        && r.kind == kind && r.identity == identity && r.caseCount == |caseIds|
        && r.numerator == |PassedAt(attempts)| && r.denominator == |attempts|
        && r.cohorts == Scores(g, attempts) && r.failures == Failures(attempts)
        && r.scoredCaseIds == g.order(multiset(CaseNames(attempts)))
        && (match kind case OtherKind(_) => r.caseIds == None && r.attempts == None
                       case _ => r.caseIds == Some(caseIds) && r.attempts == Some(attempts))
        && r.violationFree == (if kind == Discovery then Some(Evidenced(g, identity, caseIds, attempts)) else None)
        && r.status == (if attempts != [] && (if kind == Discovery then Evidenced(g, identity, caseIds, attempts)
                                              else forall i :: 0 <= i < |attempts| ==> attempts[i].passed)
                        then Passed else Failed)
  {
    hide Count, ArtifactOk, Evidenced, Scores, Failures;
    EvidencedExactly(g, identity, caseIds, attempts);
    CountIsCard(attempts, PASSED);
    assert Where(attempts, PASSED) == PassedAt(attempts);
    CountEvery(attempts, PASSED);
    assert CaseNames(attempts) == CaseSet(attempts);
  }

  // ----- the checker -----

  ghost predicate ScoresOf(g: Gate, attempts: seq<Attempt>, scores: seq<CohortScore>) {
    var names := g.order(multiset(CohortNames(attempts)));
    |scores| == |names|
    && forall k :: 0 <= k < |scores| ==> scores[k].cohort == names[k] && ScoreOf(g, attempts, scores[k])
  }

  ghost predicate FailuresOf(attempts: seq<Attempt>, fs: seq<Failure>) {
    exists at :: Lists(attempts, fs, at)
  }

  lemma OneScores(g: Gate, attempts: seq<Attempt>, scores: seq<CohortScore>)
    ensures ScoresOf(g, attempts, scores) <==> scores == Scores(g, attempts)
  {
    hide Scores, MembersAt, PassedAt, FailingCases, CohortNames;
    ScoresExactly(g, attempts);
    var all := Scores(g, attempts);
    if ScoresOf(g, attempts, scores) {
      forall k | 0 <= k < |scores| ensures scores[k] == all[k] {
        assert scores[k].cohort == all[k].cohort && ScoreOf(g, attempts, scores[k]) && ScoreOf(g, attempts, all[k]);
      }
    }
  }

  /** The list of a failed last attempt ends with it. */
  lemma EndsFailed(attempts: seq<Attempt>, at: seq<nat>)
    requires attempts != [] && FailedAt(attempts, at) && !attempts[|attempts| - 1].passed
    ensures at != [] && at[|at| - 1] == |attempts| - 1 && FailedAt(attempts[..|attempts| - 1], at[..|at| - 1])
  {
    var n := |attempts| - 1;
    assert n in at;
    var k :| 0 <= k < |at| && at[k] == n;
    var last := |at| - 1;
    assert at[k] <= at[last] < |attempts|;
    var before := at[..last];
    assert forall i :: 0 <= i < last ==> at[i] < at[last];
    forall i | 0 <= i < n && !attempts[..n][i].passed ensures i in before {
      assert i in at;
      var j :| 0 <= j < |at| && at[j] == i;
      assert before[j] == i;
    }
  }

  lemma ListsFailed(attempts: seq<Attempt>, fs: seq<Failure>, at: seq<nat>)
    requires attempts != [] && Lists(attempts, fs, at) && !attempts[|attempts| - 1].passed
    ensures var n := |attempts| - 1;
      && fs != [] && at != [] && Describes(fs[|fs| - 1], attempts[n])
      && Lists(attempts[..n], fs[..|fs| - 1], at[..|at| - 1])
  {
    EndsFailed(attempts, at);
    hide Describes;
    var n, front := |attempts| - 1, at[..|at| - 1];
    forall k | 0 <= k < |front| ensures front[k] < n && Describes(fs[..|fs| - 1][k], attempts[..n][front[k]]) {
      assert attempts[..n][at[k]] == attempts[at[k]];
    }
    hide FailedAt;
  }

  lemma ListsPassed(attempts: seq<Attempt>, fs: seq<Failure>, at: seq<nat>)
    requires attempts != [] && Lists(attempts, fs, at) && attempts[|attempts| - 1].passed
    ensures Lists(attempts[..|attempts| - 1], fs, at)
  {
    hide Describes;
    var n := |attempts| - 1;
    assert forall k :: 0 <= k < |at| ==> at[k] != n && attempts[..n][at[k]] == attempts[at[k]];
    assert forall i :: 0 <= i < n ==> attempts[..n][i] == attempts[i];
  }

  lemma {:induction false} OneFailures(attempts: seq<Attempt>, fs: seq<Failure>, at: seq<nat>)
    requires Lists(attempts, fs, at)
    ensures fs == Failures(attempts)
  {
    hide Count, Failures, FailedAt;
    if attempts == [] {
      NoFailures(fs, at);
    } else {
      var n := |attempts| - 1;
      FailuresSnoc(attempts);
      hide Lists;
      if attempts[n].passed {
        ListsPassed(attempts, fs, at);
        OneFailures(attempts[..n], fs, at);
      } else {
        ListsFailed(attempts, fs, at);
        OneFailures(attempts[..n], fs[..|fs| - 1], at[..|at| - 1]);
        assert fs == fs[..|fs| - 1] + [fs[|fs| - 1]];
      }
    }
  }

  lemma NoFailures(fs: seq<Failure>, at: seq<nat>)
    requires Lists([], fs, at)
    ensures fs == Failures([])
  {
    var first := First(at);
  }

  function First(at: seq<nat>): nat {
    if at == [] then 0 else at[0]
  }

  lemma FailuresSnoc(attempts: seq<Attempt>)
    requires attempts != []
    ensures var front, a := attempts[..|attempts| - 1], attempts[|attempts| - 1];
      && (a.passed ==> Failures(attempts) == Failures(front))
      && forall f :: !a.passed && Describes(f, a) ==> Failures(attempts) == Failures(front) + [f]
  {
    hide Count;
    var a := attempts[|attempts| - 1];
    forall f | !a.passed && Describes(f, a)
      ensures Failures(attempts) == Failures(attempts[..|attempts| - 1]) + [f]
    {
      assert f == Failure(a.caseId, a.cohort, a.repeat,
        if a.failureCode.Some? then a.failureCode.value else "unspecified_failure");
    }
  }

  lemma FailuresAre(attempts: seq<Attempt>, fs: seq<Failure>)
    ensures FailuresOf(attempts, fs) <==> fs == Failures(attempts)
  {
    hide Lists, Failures;
    var at := FailuresExactly(attempts);
    if other :| Lists(attempts, fs, other) { OneFailures(attempts, fs, other); }
  }

  /** Counts, cases, failures and scores of the report are those of its own cases and attempts. */
  ghost predicate Truthful(g: Gate, r: Report, caseIds: seq<string>, attempts: seq<Attempt>) {
    && r.caseIds == Some(caseIds) && r.attempts == Some(attempts)
    && |caseIds| == r.caseCount && |attempts| == r.denominator && r.numerator == |PassedAt(attempts)|
    && (forall i :: 0 <= i < |attempts| ==> attempts[i].repeat >= 0)
    && g.order(multiset(r.scoredCaseIds)) == g.order(multiset(set c | c in caseIds))
    && FailuresOf(attempts, r.failures) && ScoresOf(g, attempts, r.cohorts)
  }

  lemma TruthfulExactly(g: Gate, r: Report)
    ensures Consistent(g, r) <==>
      r.caseIds.Some? && r.attempts.Some? && Truthful(g, r, r.caseIds.value, r.attempts.value)
  {
    hide Count, Scores, Failures, FailuresOf, ScoresOf, PassedAt;
    if r.caseIds.Some? && r.attempts.Some? {
      var attempts := r.attempts.value;
      CountIsCard(attempts, PASSED);
      assert Where(attempts, PASSED) == PassedAt(attempts) by { PassedWhere(attempts); }
      FailuresAre(attempts, r.failures);
      OneScores(g, attempts, r.cohorts);
    }
  }

  lemma PassedWhere(attempts: seq<Attempt>)
    ensures Where(attempts, PASSED) == PassedAt(attempts)
  {}

  /** The cases are the catalog's writes, each attempted exactly once for each invariant and nothing else. */
  ghost predicate MatrixMet(g: Gate, caseIds: seq<string>, attempts: seq<Attempt>) {
    && g.order(multiset(caseIds)) == g.order(multiset(g.writes))
    && (forall i :: 0 <= i < |attempts| ==>
          attempts[i].caseId in caseIds && attempts[i].cohort in INVARIANTS && attempts[i].repeat == 0)
    && (forall i, j :: 0 <= i < j < |attempts| ==>
          !Fills(attempts[i], attempts[j].caseId, attempts[j].cohort, attempts[j].repeat))
    && (forall c, k :: c in caseIds && k in INVARIANTS ==> Attempted(attempts, c, k, 0))
  }

  lemma InWriteSlots(caseIds: seq<string>, s: Slot)
    ensures s in WriteSlots(caseIds) <==> s.0 in caseIds && s.1 in INVARIANTS && s.2 == 0
  {
    hide INVARIANTS;
    if s.0 in caseIds && s.1 in INVARIANTS && s.2 == 0 {
      var i :| 0 <= i < |caseIds| && caseIds[i] == s.0;
      var j :| 0 <= j < |INVARIANTS| && INVARIANTS[j] == s.1;
      assert (caseIds[i], INVARIANTS[j], 0) in WriteSlots(caseIds);
    }
  }

  /** As many distinct slots as the matrix has, all of them in it: the matrix itself. */
  lemma SlotsAreMatrix(caseIds: seq<string>, attempts: seq<Attempt>)
    ensures var slots := Slots(attempts);
      (|slots| == |WriteSlots(caseIds)| && |Elems(slots)| == |slots| && Elems(slots) <= WriteSlots(caseIds))
        <==> Distinct(slots) && Elems(slots) == WriteSlots(caseIds)
  {
    hide WriteSlots;
    var slots, all := Slots(attempts), WriteSlots(caseIds);
    if |slots| == |all| && |Elems(slots)| == |slots| && Elems(slots) <= all {
      CardDistinct(slots);
      assert |all - Elems(slots)| == 0;
    }
    if Distinct(slots) { DistinctCard(slots); }
  }

  lemma MatrixExactly(g: Gate, r: Report)
    requires r.caseIds.Some? && r.attempts.Some?
    ensures WriteGridOk(g, r) <==> MatrixMet(g, r.caseIds.value, r.attempts.value)
  {
    hide INVARIANTS, WriteSlots, Distinct, Fills, Attempted;
    var caseIds, attempts := r.caseIds.value, r.attempts.value;
    var slots := Slots(attempts);
    SlotsAreMatrix(caseIds, attempts);
    SlotsApart(attempts);
    forall s: Slot ensures (s in WriteSlots(caseIds) <==> s.0 in caseIds && s.1 in INVARIANTS && s.2 == 0)
      && (s in slots <==> Attempted(attempts, s.0, s.1, s.2))
    {
      InWriteSlots(caseIds, s);
      SlotAttempted(attempts, s);
    }
    if MatrixMet(g, caseIds, attempts) {
      forall s ensures s in Elems(slots) <==> s in WriteSlots(caseIds) {
        if s in slots { var i :| 0 <= i < |attempts| && slots[i] == s; }
      }
    }
    if Elems(slots) == WriteSlots(caseIds) {
      forall i | 0 <= i < |attempts|
        ensures attempts[i].caseId in caseIds && attempts[i].cohort in INVARIANTS && attempts[i].repeat == 0
      {
        assert slots[i] in Elems(slots);
      }
      forall c, k | c in caseIds && k in INVARIANTS ensures Attempted(attempts, c, k, 0) {
        assert (c, k, 0) in WriteSlots(caseIds) && (c, k, 0) in Elems(slots);
      }
    }
  }

  /** What isReleasableReport asks of any report, however made. */
  ghost predicate Passes(g: Gate, r: Report) {
    && r.status == Passed && r.denominator > 0 && r.caseCount > 0 && r.denominator >= r.caseCount
    && |set c | c in r.scoredCaseIds| == r.caseCount
    && match r.kind
       case Discovery =>
         && r.caseIds.Some? && r.attempts.Some? && Truthful(g, r, r.caseIds.value, r.attempts.value)
         && Evidenced(g, r.identity, r.caseIds.value, r.attempts.value) && r.violationFree == Some(true)
       case WriteSafety =>
         && r.caseIds.Some? && r.attempts.Some? && Truthful(g, r, r.caseIds.value, r.attempts.value)
         && MatrixMet(g, r.caseIds.value, r.attempts.value)
       case OtherKind(_) => r.numerator == r.denominator && |r.failures| == 0
  }

  /** The checker accepts exactly these reports. */
  lemma ReleasableExactly(g: Gate, r: Report)
    ensures Releasable(g, r) <==> Passes(g, r)
  {
    hide Consistent, Truthful, ArtifactOk, Evidenced, WriteGridOk, MatrixMet;
    TruthfulExactly(g, r);
    assert (set c | c in r.scoredCaseIds) == Elems(r.scoredCaseIds);
    if r.caseIds.Some? && r.attempts.Some? {
      EvidencedExactly(g, r.identity, r.caseIds.value, r.attempts.value);
      MatrixExactly(g, r);
    }
  }
}
