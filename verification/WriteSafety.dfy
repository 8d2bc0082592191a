/** The write-safety matrix: observations, attempts, the report made from them, and the authority
    counts (scripts/eval-write-safety.ts). */
module WriteSafety {
  import opened Prelude
  import opened Attempts
  import opened EvalReport

  /** action and check as named by the tests; code only where the invariant was violated. */
  datatype Observation = Observation(action: string, check: string, satisfied: bool, code: Option<string>)

  type Pair = (string, string)

  function KeyOf(o: Observation): Pair {
    (o.action, o.check)
  }

  function Keys(observations: seq<Observation>): (ks: seq<Pair>)
    ensures |ks| == |observations| && forall i :: 0 <= i < |ks| ==> ks[i] == KeyOf(observations[i])
  {
    seq(|observations|, i requires 0 <= i < |observations| => KeyOf(observations[i]))
  }

  function Row(write: string): (row: seq<Pair>)
    ensures |row| == |INVARIANTS| && forall j :: 0 <= j < |row| ==> row[j] == (write, INVARIANTS[j])
  {
    seq(|INVARIANTS|, j requires 0 <= j < |INVARIANTS| => (write, INVARIANTS[j]))
  }

  /** Every write with every invariant. */
  function Matrix(writes: seq<string>): (m: seq<Pair>)
    ensures |m| == |writes| * |INVARIANTS|
  {
    if writes == [] then [] else Matrix(writes[..|writes| - 1]) + Row(writes[|writes| - 1])
  }

  datatype GridError = Unknown(unknown: seq<Pair>) | Duplicate(repeated: seq<Pair>) | MissingKeys(missing: set<Pair>)

  /** validateObservationGrid (66-90): accepts exactly the permutations of the matrix. Otherwise the
      unknown pairs are named; if there are none, the repeated ones; and if there are none, the
      missing ones. */
  method ValidateObservationGrid(observations: seq<Observation>, writes: seq<string>) returns (error: Option<GridError>)
    requires Distinct(writes)
    ensures error.None? <==> multiset(Keys(observations)) == multiset(Matrix(writes))
    ensures match error
      case None => true
      case Some(Unknown(unknown)) =>
        unknown != [] && forall p :: p in unknown <==> p in Keys(observations) && p !in Matrix(writes)
      case Some(Duplicate(repeated)) =>
        && (forall p :: p in Keys(observations) ==> p in Matrix(writes))
        && repeated != [] && forall p :: p in repeated <==> Repeats(Keys(observations), p)
      case Some(MissingKeys(missing)) =>
        && (forall p :: p in Keys(observations) ==> p in Matrix(writes)) && Distinct(Keys(observations))
        && missing != {} && forall p :: p in missing <==> p in Matrix(writes) && p !in Keys(observations)
  {
    hide Matrix, Repeats, Distinct;
    var expected := set p | p in Matrix(writes);
    var seen: set<Pair>, unknown: seq<Pair>, duplicates: seq<Pair> := {}, [], [];
    var i := 0;
    NothingRepeats();
    while i < |observations|
      invariant 0 <= i <= |observations| && seen == Elems(Keys(observations)[..i])
      invariant forall p :: p in unknown <==> p in Keys(observations)[..i] && p !in expected
      invariant forall p :: p in duplicates <==> Repeats(Keys(observations)[..i], p)
    {
      var key := KeyOf(observations[i]);
      KeysSnoc(observations, i);
      if key !in expected {
        unknown := unknown + [key];
      }
      if key in seen {
        duplicates := duplicates + [key];
      }
      seen := seen + {key};
      i := i + 1;
    }
    assert Keys(observations)[..i] == Keys(observations);
    GridExactly(Keys(observations), writes);
    NoneRepeats(Keys(observations));
    if unknown != [] {
      assert unknown[0] in unknown;
      return Some(Unknown(unknown));
    }
    forall p | p in Keys(observations) ensures p in Matrix(writes) {
      assert p !in unknown && p in expected;
    }
    if duplicates != [] {
      assert duplicates[0] in duplicates;
      return Some(Duplicate(duplicates));
    }
    forall p ensures !Repeats(Keys(observations), p) {
      assert p !in duplicates;
    }
    var missing := expected - seen;
    if missing != {} {
      var p :| p in missing;
      return Some(MissingKeys(missing));
    }
    forall p: Pair | p in Matrix(writes) ensures p in seen {
      assert p in expected && p !in missing;
    }
    return None;
  }

  /** p occurs at two positions. */
  ghost predicate Repeats(keys: seq<Pair>, p: Pair) {
    exists i, j :: 0 <= i < j < |keys| && keys[i] == p && keys[j] == p
  }

  lemma NothingRepeats()
    ensures forall p :: !Repeats([], p)
  {}

  lemma NoneRepeats(keys: seq<Pair>)
    ensures Distinct(keys) <==> forall p :: !Repeats(keys, p)
  {
    if forall p :: !Repeats(keys, p) {
      forall i, j | 0 <= i < j < |keys| ensures keys[i] != keys[j] {
        assert !Repeats(keys, keys[i]);
      }
    }
  }

  lemma KeysSnoc(observations: seq<Observation>, i: nat)
    requires i < |observations|
    ensures var ks := Keys(observations);
      && ks[..i + 1] == ks[..i] + [KeyOf(observations[i])]
      && Elems(ks[..i + 1]) == Elems(ks[..i]) + {KeyOf(observations[i])}
      && (forall p :: Repeats(ks[..i + 1], p) <==>
            Repeats(ks[..i], p) || (p == KeyOf(observations[i]) && p in Elems(ks[..i])))
  {
    var a, x := Keys(observations)[..i], KeyOf(observations[i]);
    var all := a + [x];
    assert Keys(observations)[..i + 1] == all;
    assert forall j :: 0 <= j < |a| ==> all[j] == a[j];
    forall p ensures Repeats(all, p) <==> Repeats(a, p) || (p == x && p in Elems(a)) {
      if Repeats(all, p) {
        var j, k :| 0 <= j < k < |all| && all[j] == p && all[k] == p;
        if k < |a| { assert a[j] == p && a[k] == p; } else { assert a[j] == p && p in Elems(a); }
      }
      if Repeats(a, p) {
        var j, k :| 0 <= j < k < |a| && a[j] == p && a[k] == p;
        assert all[j] == p && all[k] == p;
      }
      if p == x && p in Elems(a) {
        var j :| 0 <= j < |a| && a[j] == p;
        assert all[j] == p && all[|a|] == p;
      }
    }
  }

  // ----- permutations of the matrix -----

  lemma InvariantsDistinct()
    ensures Distinct(INVARIANTS) && |INVARIANTS| == 9
  {
    var s := INVARIANTS;
    assert |s[0]| == 25 && |s[1]| == 23 && |s[2]| == 47 && |s[3]| == 23 && |s[4]| == 18;
    assert |s[5]| == 16 && |s[6]| == 25 && |s[7]| == 36 && |s[8]| == 33;
    assert s[0][0] == 'z' && s[6][0] == 'n' && s[1][0] == 'e' && s[3][0] == 'n';
  }

  lemma {:induction false} InMatrix(writes: seq<string>, p: Pair)
    ensures p in Matrix(writes) <==> p.0 in writes && p.1 in INVARIANTS
  {
    hide INVARIANTS;
    if writes != [] {
      var n := |writes| - 1;
      InMatrix(writes[..n], p);
      assert writes == writes[..n] + [writes[n]];
      if p.0 == writes[n] && p.1 in INVARIANTS {
        var j :| 0 <= j < |INVARIANTS| && INVARIANTS[j] == p.1;
        assert Row(writes[n])[j] == p;
      }
    }
  }

  lemma {:induction false} MatrixDistinct(writes: seq<string>)
    requires Distinct(writes)
    ensures Distinct(Matrix(writes))
  {
    if writes != [] {
      var n := |writes| - 1;
      var front, row := Matrix(writes[..n]), Row(writes[n]);
      MatrixDistinct(writes[..n]);
      InvariantsDistinct();
      forall i, j | 0 <= i < j < |front + row| ensures (front + row)[i] != (front + row)[j] {
        if i < |front| && j >= |front| {
          InMatrix(writes[..n], front[i]);
          assert front[i].0 in writes[..n] && row[j - |front|].0 == writes[n];
        }
      }
    }
  }

  lemma GridExactly(keys: seq<Pair>, writes: seq<string>)
    requires Distinct(writes)
    ensures multiset(keys) == multiset(Matrix(writes)) <==>
      && Distinct(keys)
      && (forall i :: 0 <= i < |keys| ==> keys[i] in Matrix(writes))
      && (forall p: Pair :: p in Matrix(writes) ==> p in keys)
  {
    hide Matrix, Distinct;
    var m := Matrix(writes);
    MatrixDistinct(writes);
    SameBag(keys, m);
    assert (forall i :: 0 <= i < |m| ==> m[i] in keys) <==> forall p: Pair :: p in m ==> p in keys;
  }

  // ----- attempts -----

  /** What was observed for a pair, if anything. */
  function Observed(observations: seq<Observation>, p: Pair): Option<Observation> {
    if observations == [] then None
    else if KeyOf(observations[|observations| - 1]) == p then Some(observations[|observations| - 1])
    else Observed(observations[..|observations| - 1], p)
  }

  function AttemptFor(o: Option<Observation>, p: Pair): Attempt {
    match o
    case None => Attempt(p.0, p.1, 0, false, Some("invariant_not_observed"))
    case Some(obs) =>
      Attempt(p.0, p.1, 0, obs.satisfied,
              if obs.satisfied then None else Some(if obs.code.Some? then obs.code.value else "invariant_violated"))
  }

  /** Write by write, and for each the invariants in order. */
  lemma {:induction false} MatrixAt(writes: seq<string>, i: nat, j: nat)
    requires i < |writes| && j < |INVARIANTS|
    ensures i * |INVARIANTS| + j < |Matrix(writes)|
    ensures Matrix(writes)[i * |INVARIANTS| + j] == (writes[i], INVARIANTS[j])
  {
    hide INVARIANTS;
    var n := |writes| - 1;
    if i < n {
      MatrixAt(writes[..n], i, j);
    } else {
      assert |Matrix(writes[..n])| == i * |INVARIANTS|;
      assert |Matrix(writes)| == |Matrix(writes[..n])| + |INVARIANTS|;
    }
  }

  /** One attempt per pair of the matrix, in matrix order. */
  function AttemptsOf(observations: seq<Observation>, writes: seq<string>): (a: seq<Attempt>)
    ensures |a| == |writes| * |INVARIANTS|
  {
    var m := Matrix(writes);
    seq(|m|, i requires 0 <= i < |m| => AttemptFor(Observed(observations, m[i]), m[i]))
  }

  function RowAttempts(observations: seq<Observation>, write: string): (a: seq<Attempt>)
    ensures |a| == |INVARIANTS|
  {
    var row := Row(write);
    seq(|row|, j requires 0 <= j < |row| => AttemptFor(Observed(observations, row[j]), row[j]))
  }

  lemma AttemptsSnoc(observations: seq<Observation>, writes: seq<string>, i: nat)
    requires i < |writes|
    ensures AttemptsOf(observations, writes[..i + 1]) == AttemptsOf(observations, writes[..i])
      + RowAttempts(observations, writes[i])
  {
    hide INVARIANTS;
    assert writes[..i + 1][..i] == writes[..i];
  }

  /** The lookup map of the observations; a later one for the same pair wins. */
  method Lookup(observations: seq<Observation>) returns (byKey: map<Pair, Observation>)
    ensures forall p: Pair :: Observed(observations, p) == if p in byKey then Some(byKey[p]) else None
  {
    byKey := map[];
    var i := 0;
    while i < |observations|
      invariant 0 <= i <= |observations|
      invariant forall p: Pair :: Observed(observations[..i], p) == if p in byKey then Some(byKey[p]) else None
    {
      assert observations[..i + 1][..i] == observations[..i];
      byKey := byKey[KeyOf(observations[i]) := observations[i]];
      i := i + 1;
    }
    assert observations[..i] == observations;
  }

  method FillRow(observations: seq<Observation>, byKey: map<Pair, Observation>, write: string)
    returns (attempts: seq<Attempt>)
    requires forall p: Pair :: Observed(observations, p) == if p in byKey then Some(byKey[p]) else None
    ensures attempts == RowAttempts(observations, write)
  {
    hide INVARIANTS, Observed, AttemptFor;
    attempts := [];
    var j := 0;
    while j < |INVARIANTS|
      invariant 0 <= j <= |INVARIANTS| && attempts == RowAttempts(observations, write)[..j]
    {
      var p := (write, INVARIANTS[j]);
      attempts := attempts + [AttemptFor(if p in byKey then Some(byKey[p]) else None, p)];
      j := j + 1;
    }
  }

  /** attemptsFromObservations (93-115): the lookup map and the two loops. */
  method AttemptsFromObservations(observations: seq<Observation>, writes: seq<string>)
    returns (r: Result<seq<Attempt>, GridError>)
    requires Distinct(writes)
    ensures r.Ok? <==> multiset(Keys(observations)) == multiset(Matrix(writes))
    ensures r.Ok? ==> r.value == AttemptsOf(observations, writes)
  {
    hide INVARIANTS, Matrix, Observed, AttemptsOf, RowAttempts;
    var error := ValidateObservationGrid(observations, writes);
    if error.Some? {
      return Err(error.value);
    }
    var byKey := Lookup(observations);
    var attempts := [];
    var i := 0;
    while i < |writes|
      invariant 0 <= i <= |writes| && attempts == AttemptsOf(observations, writes[..i])
    {
      var row := FillRow(observations, byKey, writes[i]);
      AttemptsSnoc(observations, writes, i);
      attempts := attempts + row;
      i := i + 1;
    }
    assert writes[..i] == writes;
    return Ok(attempts);
  }

  // ----- what the attempts say -----

  /** The order of the observations does not matter. */
  lemma AttemptsIgnoreOrder(observations: seq<Observation>, others: seq<Observation>, writes: seq<string>)
    requires Distinct(writes) && multiset(observations) == multiset(others)
    requires multiset(Keys(observations)) == multiset(Matrix(writes))
    ensures AttemptsOf(observations, writes) == AttemptsOf(others, writes)
  {
    hide Observed, Matrix;
    GridExactly(Keys(observations), writes);
    KeysPermuted(observations, others);
    forall o: Observation ensures o in observations <==> o in others {
      assert o in multiset(observations) <==> o in multiset(others);
    }
    forall p: Pair ensures Observed(observations, p) == Observed(others, p) {
      ObservedIs(observations, p);
      ObservedIs(others, p);
    }
  }

  lemma KeysPermuted(observations: seq<Observation>, others: seq<Observation>)
    requires multiset(observations) == multiset(others) && Distinct(Keys(observations))
    ensures Distinct(Keys(others))
  {
    assert Distinct(observations) by {
      forall i, j | 0 <= i < j < |observations| ensures observations[i] != observations[j] {
        assert Keys(observations)[i] != Keys(observations)[j];
      }
    }
    if !Distinct(Keys(others)) {
      var i, j :| 0 <= i < j < |others| && Keys(others)[i] == Keys(others)[j];
      var x, y := others[i], others[j];
      assert x in multiset(observations) && y in multiset(observations);
      var k :| 0 <= k < |observations| && observations[k] == x;
      var l :| 0 <= l < |observations| && observations[l] == y;
      assert Keys(observations)[k] == Keys(observations)[l];
      Twice(others, i, j);
      Once(observations, x);
    }
  }

  /** With distinct keys, what was observed for a pair is the one observation with that key. */
  lemma {:induction false} ObservedIs(observations: seq<Observation>, p: Pair)
    requires Distinct(Keys(observations))
    ensures Observed(observations, p).None? <==> forall o :: o in observations ==> KeyOf(o) != p
    ensures forall o :: o in observations && KeyOf(o) == p ==> Observed(observations, p) == Some(o)
  {
    if observations != [] {
      var n := |observations| - 1;
      assert Keys(observations)[..n] == Keys(observations[..n]);
      assert forall i, j :: 0 <= i < j < n ==> Keys(observations)[i] != Keys(observations)[j];
      ObservedIs(observations[..n], p);
      assert observations == observations[..n] + [observations[n]];
      forall o | o in observations[..n] ensures KeyOf(o) != KeyOf(observations[n]) {
        var i :| 0 <= i < n && observations[i] == o;
        assert Keys(observations)[i] != Keys(observations)[n];
      }
    }
  }

  // ----- authority counts -----

  function Failing(cohort: string): Query {
    ALL.(cohort := Some(cohort), passed := Some(false))
  }

  function FailedWithCode(attempts: seq<Attempt>, code: string): nat {
    if attempts == [] then 0
    else
      var a := attempts[|attempts| - 1];
      FailedWithCode(attempts[..|attempts| - 1], code) + if !a.passed && a.failureCode == Some(code) then 1 else 0
  }

  datatype AuthorityCounts = AuthorityCounts(
    previewOnly: bool, bindingMismatches: nat, preparationMutations: nat, typedConsents: nat, injections: nat,
    declarations: nat, records: nat, claims: nat, duplicates: nat)

  const CLEAN := AuthorityCounts(true, 0, 0, 0, 0, 0, 0, 0, 0)

  /** observedAuthorityCountsFromAttempts (155-170). */
  function Counts(attempts: seq<Attempt>): AuthorityCounts {
    var binding := Count(attempts, Failing("exact_preview_operation"));
    AuthorityCounts(binding == 0, binding, Count(attempts, Failing("zero_preparation_mutation")),
                    Count(attempts, Failing("no_typed_consent")), Count(attempts, Failing("no_hostile_data_execution")),
                    FailedWithCode(attempts, "intent_declaration_called"),
                    FailedWithCode(attempts, "intent_capability_recorded"),
                    FailedWithCode(attempts, "intent_capability_claimed"),
                    Count(attempts, Failing("no_concurrent_duplicate")))
  }

  lemma {:induction false} NoFailures(attempts: seq<Attempt>, code: string)
    requires forall i :: 0 <= i < |attempts| ==> attempts[i].passed
    ensures FailedWithCode(attempts, code) == 0
  {
    if attempts != [] {
      NoFailures(attempts[..|attempts| - 1], code);
    }
  }

  /** If every attempt passed, every count is zero. */
  lemma AllPassedIsClean(attempts: seq<Attempt>)
    requires Count(attempts, PASSED) == |attempts|
    ensures Counts(attempts) == CLEAN
  {
    CountEvery(attempts, PASSED);
    CountNone(attempts, Failing("exact_preview_operation"));
    CountNone(attempts, Failing("zero_preparation_mutation"));
    CountNone(attempts, Failing("no_typed_consent"));
    CountNone(attempts, Failing("no_hostile_data_execution"));
    CountNone(attempts, Failing("no_concurrent_duplicate"));
    NoFailures(attempts, "intent_declaration_called");
    NoFailures(attempts, "intent_capability_recorded");
    NoFailures(attempts, "intent_capability_claimed");
  }

  // ----- the report -----

  lemma {:induction false} ObservedAll(observations: seq<Observation>, writes: seq<string>)
    requires Distinct(writes) && multiset(Keys(observations)) == multiset(Matrix(writes))
    ensures Count(AttemptsOf(observations, writes), PASSED) == |AttemptsOf(observations, writes)|
      <==> forall i :: 0 <= i < |observations| ==> observations[i].satisfied
  {
    hide Observed, Matrix, INVARIANTS;
    var attempts, m := AttemptsOf(observations, writes), Matrix(writes);
    CountEvery(attempts, PASSED);
    GridExactly(Keys(observations), writes);
    if forall i :: 0 <= i < |observations| ==> observations[i].satisfied {
      forall i | 0 <= i < |attempts| ensures attempts[i].passed {
        ObservedIs(observations, m[i]);
        assert m[i] in Keys(observations);
        var j :| 0 <= j < |observations| && KeyOf(observations[j]) == m[i];
      }
    }
    if Count(attempts, PASSED) == |attempts| {
      forall i | 0 <= i < |observations| ensures observations[i].satisfied {
        assert Keys(observations)[i] in m;
        var j :| 0 <= j < |m| && m[j] == KeyOf(observations[i]);
        ObservedIs(observations, m[j]);
        assert PASSED.Matches(attempts[j]);
      }
    }
  }

  lemma AttemptInMatrix(observations: seq<Observation>, writes: seq<string>, i: nat)
    requires Distinct(writes) && i < |AttemptsOf(observations, writes)|
    ensures var a, m := AttemptsOf(observations, writes)[i], Matrix(writes);
      a.caseId in writes && SlotOf(a) == (m[i].0, m[i].1, 0) && SlotOf(a) in WriteSlots(writes)
  {
    hide Observed, Matrix;
    var m := Matrix(writes);
    InMatrix(writes, m[i]);
    var p :| 0 <= p < |writes| && writes[p] == m[i].0;
    var q :| 0 <= q < |INVARIANTS| && INVARIANTS[q] == m[i].1;
  }

  lemma MatrixInAttempts(observations: seq<Observation>, writes: seq<string>, p: nat, q: nat)
    requires Distinct(writes) && p < |writes| && q < |INVARIANTS|
    ensures var a := AttemptsOf(observations, writes);
      (writes[p], INVARIANTS[q], 0) in Slots(a) && writes[p] in CaseSet(a)
  {
    hide Observed, Matrix, WriteSlots;
    var a, m := AttemptsOf(observations, writes), Matrix(writes);
    InMatrix(writes, (writes[p], INVARIANTS[q]));
    var i :| 0 <= i < |m| && m[i] == (writes[p], INVARIANTS[q]);
    AttemptInMatrix(observations, writes, i);
    assert Slots(a)[i] == (writes[p], INVARIANTS[q], 0) && a[i].caseId == writes[p];
  }

  lemma MatrixCases(observations: seq<Observation>, writes: seq<string>)
    requires Distinct(writes)
    ensures var a := AttemptsOf(observations, writes);
      KnownCases(writes, a) && CaseSet(a) == Elems(writes) && ShapesOk(a)
    ensures var slots := Slots(AttemptsOf(observations, writes));
      Elems(slots) == WriteSlots(writes) && Distinct(slots)
  {
    hide Observed, Matrix;
    var a, m := AttemptsOf(observations, writes), Matrix(writes);
    MatrixDistinct(writes);
    forall i | 0 <= i < |a|
      ensures a[i].caseId in writes && SlotOf(a[i]) == (m[i].0, m[i].1, 0) && SlotOf(a[i]) in WriteSlots(writes)
    {
      AttemptInMatrix(observations, writes, i);
    }
    forall p, q | 0 <= p < |writes| && 0 <= q < |INVARIANTS|
      ensures (writes[p], INVARIANTS[q], 0) in Slots(a)
    {
      MatrixInAttempts(observations, writes, p, q);
    }
    forall w | w in writes ensures w in CaseSet(a) {
      var p :| 0 <= p < |writes| && writes[p] == w;
      MatrixInAttempts(observations, writes, p, 0);
    }
    forall i, j | 0 <= i < j < |a| ensures Slots(a)[i] != Slots(a)[j] {
      assert m[i] != m[j];
    }
  }

  /** buildWriteSafetyReport (117-128), for a valid observation grid. */
  ghost function WriteReport(g: Gate, identity: string, observations: seq<Observation>): Option<Report> {
    Build(g, Kind.WriteSafety, identity, g.writes, AttemptsOf(observations, g.writes))
  }

  lemma EvidenceChecks(g: Gate, identity: string, observations: seq<Observation>)
    requires Sorts(g) && Distinct(g.writes)
    ensures var r := WriteReport(g, identity, observations);
      && r.Some? && Consistent(g, r.value) && WriteGridOk(g, r.value)
      && r.value.denominator == r.value.caseCount * 9
        && |Elems(r.value.scoredCaseIds)| == r.value.caseCount == |g.writes|
  {
    hide Count, Scores, Failures, Observed, Matrix, AttemptsOf, WriteSlots, Sorts;
    MatrixCases(observations, g.writes);
    InvariantsDistinct();
    var a := AttemptsOf(observations, g.writes);
    SortedIdempotent(g, CaseSet(a));
    DistinctCard(g.writes);
    DistinctCard(Slots(a));
  }

  /** For a report built from observations, releasable means: there are writes and every
      observation was satisfied; and then every authority count is zero. */
  lemma WriteReportExactly(g: Gate, identity: string, observations: seq<Observation>)
    requires Sorts(g) && Distinct(g.writes) && multiset(Keys(observations)) == multiset(Matrix(g.writes))
    ensures var r := WriteReport(g, identity, observations);
      && r.Some? && r.value.attempts.Some?
      && (Releasable(g, r.value) <==>
            g.writes != [] && forall i :: 0 <= i < |observations| ==> observations[i].satisfied)
      && (Releasable(g, r.value) ==> Counts(r.value.attempts.value) == CLEAN)
  {
    hide Count, Scores, Failures, Observed, Matrix, AttemptsOf, WriteGridOk, Consistent, Sorts, Counts;
    EvidenceChecks(g, identity, observations);
    ObservedAll(observations, g.writes);
    if Releasable(g, WriteReport(g, identity, observations).value) {
      AllPassedIsClean(AttemptsOf(observations, g.writes));
    }
  }

  /** The checker never recomputes the status of a write-safety report: with the status field
      overwritten, the report of any valid nonempty grid passes, whatever was violated. */
  lemma ForgedStatusPasses(g: Gate, identity: string, observations: seq<Observation>)
    requires Sorts(g) && Distinct(g.writes) && g.writes != []
    ensures WriteReport(g, identity, observations).Some?
    ensures Releasable(g, WriteReport(g, identity, observations).value.(status := Passed))
  {
    hide Count, Scores, Failures, Observed, Matrix, AttemptsOf, Sorts, WriteSlots;
    EvidenceChecks(g, identity, observations);
  }

  /** What acceptance is worth on an arbitrary report: the attempts are the exact matrix and the
      numbers are theirs, so they all passed exactly when numerator and denominator agree, and
      only then are the authority counts known to be zero. */
  lemma AcceptedWriteReport(g: Gate, r: Report)
    requires Sorts(g) && Releasable(g, r) && r.kind.WriteSafety?
    ensures multiset(r.caseIds.value) == multiset(g.writes)
    ensures Elems(Slots(r.attempts.value)) == WriteSlots(r.caseIds.value) && |r.attempts.value| == r.denominator
    ensures r.numerator + |r.failures| == r.denominator
    ensures r.numerator == r.denominator <==> forall i :: 0 <= i < |r.attempts.value| ==> r.attempts.value[i].passed
    ensures r.numerator == r.denominator ==> Counts(r.attempts.value) == CLEAN
  {
    hide Count, Scores, WriteSlots, Counts;
    assert multiset(Sorted(g, r.caseIds.value)) == multiset(r.caseIds.value)
      && multiset(Sorted(g, g.writes)) == multiset(g.writes);
    SubsetOfSameSize(Elems(Slots(r.attempts.value)), WriteSlots(r.caseIds.value));
    CountEvery(r.attempts.value, PASSED);
    if r.numerator == r.denominator { AllPassedIsClean(r.attempts.value); }
  }

  lemma SubsetOfSameSize(a: set<Slot>, b: set<Slot>)
    requires a <= b && |a| == |b|
    ensures a == b
  {
    assert |b - a| == 0;
  }
}
