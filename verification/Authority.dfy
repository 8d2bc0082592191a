/** The authority counts of the write-safety evidence (scripts/eval-write-safety.ts:155-170), for every
    list of attempts and every valid grid of observations. */
module Authority {
  import opened Prelude
  import opened Attempts
  import opened EvalReport
  import opened WriteSafety

  /** Where the attempts of a cohort failed. */
  function FailedIn(attempts: seq<Attempt>, cohort: string): set<nat> {
    set i: nat | i < |attempts| && !attempts[i].passed && attempts[i].cohort == cohort
  }

  function FailedWith(attempts: seq<Attempt>, code: string): set<nat> {
    set i: nat | i < |attempts| && !attempts[i].passed && attempts[i].failureCode == Some(code)
  }

  lemma {:induction false} CountIsCard(attempts: seq<Attempt>, cohort: string)
    ensures Count(attempts, Failing(cohort)) == |FailedIn(attempts, cohort)|
  {
    if attempts == [] {
      assert FailedIn(attempts, cohort) == {};
    } else {
      var n := |attempts| - 1;
      CountIsCard(attempts[..n], cohort);
      assert FailedIn(attempts, cohort) == FailedIn(attempts[..n], cohort)
        + if !attempts[n].passed && attempts[n].cohort == cohort then {n} else {};
    }
  }

  lemma {:induction false} CodeIsCard(attempts: seq<Attempt>, code: string)
    ensures FailedWithCode(attempts, code) == |FailedWith(attempts, code)|
  {
    if attempts == [] {
      assert FailedWith(attempts, code) == {};
    } else {
      var n := |attempts| - 1;
      CodeIsCard(attempts[..n], code);
      assert FailedWith(attempts, code) == FailedWith(attempts[..n], code)
        + if !attempts[n].passed && attempts[n].failureCode == Some(code) then {n} else {};
    }
  }

  /** Each count is the number of attempts that failed in its own cohort or with its own code, and
      writes were previewed only if and only if no exact operation mismatched. */
  lemma CountsExactly(attempts: seq<Attempt>)
    ensures var n := Counts(attempts);
      && (n.previewOnly <==> FailedIn(attempts, "exact_preview_operation") == {})
      && n.bindingMismatches == |FailedIn(attempts, "exact_preview_operation")|
      && n.preparationMutations == |FailedIn(attempts, "zero_preparation_mutation")|
      && n.typedConsents == |FailedIn(attempts, "no_typed_consent")|
      && n.injections == |FailedIn(attempts, "no_hostile_data_execution")|
      && n.declarations == |FailedWith(attempts, "intent_declaration_called")|
      && n.records == |FailedWith(attempts, "intent_capability_recorded")|
      && n.claims == |FailedWith(attempts, "intent_capability_claimed")|
      && n.duplicates == |FailedIn(attempts, "no_concurrent_duplicate")|
  {
    hide FailedIn, FailedWith, Count, FailedWithCode;
    CountIsCard(attempts, "exact_preview_operation");
    CountIsCard(attempts, "zero_preparation_mutation");
    CountIsCard(attempts, "no_typed_consent");
    CountIsCard(attempts, "no_hostile_data_execution");
    CountIsCard(attempts, "no_concurrent_duplicate");
    CodeIsCard(attempts, "intent_declaration_called");
    CodeIsCard(attempts, "intent_capability_recorded");
    CodeIsCard(attempts, "intent_capability_claimed");
  }

  // ----- of observations -----

  /** Where an invariant was seen violated. */
  function Violations(observations: seq<Observation>, check: string): set<nat> {
    set i: nat | i < |observations| && !observations[i].satisfied && observations[i].check == check
  }

  function ViolationsWith(observations: seq<Observation>, code: string): set<nat> {
    set i: nat | i < |observations| && !observations[i].satisfied && observations[i].code == Some(code)
  }

  lemma {:induction false} Injection(a: set<nat>, b: set<nat>, f: nat -> nat)
    requires forall x :: x in a ==> f(x) in b
    requires forall x, y :: x in a && y in a && f(x) == f(y) ==> x == y
    ensures |a| <= |b|
    decreases |a|
  {
    if a != {} {
      var x :| x in a;
      Injection(a - {x}, b - {f(x)}, f);
    }
  }

  /** Positions picked alike from two listings of the same keys are equally many. */
  lemma PickedAlike(m: seq<Pair>, keys: seq<Pair>, a: set<nat>, b: set<nat>)
    requires Distinct(m) && Distinct(keys)
    requires (forall i :: 0 <= i < |m| ==> m[i] in keys) && (forall j :: 0 <= j < |keys| ==> keys[j] in m)
    requires (forall i :: i in a ==> i < |m|) && (forall j :: j in b ==> j < |keys|)
    requires forall i: nat, j: nat :: i < |m| && j < |keys| && m[i] == keys[j] ==> (i in a <==> j in b)
    ensures |a| == |b|
  {
    MapsInto(m, keys, a, b);
    MapsInto(keys, m, b, a);
  }

  lemma MapsInto(m: seq<Pair>, keys: seq<Pair>, a: set<nat>, b: set<nat>)
    requires Distinct(m) && forall i :: 0 <= i < |m| ==> m[i] in keys
    requires forall i :: i in a ==> i < |m|
    requires forall i: nat, j: nat :: i < |m| && j < |keys| && m[i] == keys[j] ==> (i in a ==> j in b)
    ensures |a| <= |b|
  {
    var f := (i: nat) => if i < |m| && m[i] in keys then IndexOf(keys, m[i]) else 0;
    forall i | i in a ensures f(i) < |keys| && keys[f(i)] == m[i] && f(i) in b {}
    forall i, k | i in a && k in a && f(i) == f(k) ensures i == k {
      assert m[i] == m[k];
    }
    Injection(a, b, f);
  }

  /** The attempt is for the observed pair, passed if the invariant held, and otherwise gives the code
      observed, or one that stands for a missing code. */
  predicate Says(a: Attempt, o: Observation) {
    && a.caseId == o.action && a.cohort == o.check && a.repeat == 0 && a.passed == o.satisfied
    && (o.satisfied ==> a.failureCode == None)
    && (!o.satisfied ==> a.failureCode == Some(match o.code case Some(code) => code case None => "invariant_violated"))
  }

  /** In a valid grid attempt i and the one observation of its pair say the same. */
  lemma Paired(observations: seq<Observation>, writes: seq<string>)
    requires Distinct(writes) && multiset(Keys(observations)) == multiset(Matrix(writes))
    ensures var m, keys, attempts := Matrix(writes), Keys(observations), AttemptsOf(observations, writes);
      && |m| == |keys| == |attempts| && Distinct(m) && Distinct(keys)
      && (forall i :: 0 <= i < |m| ==> m[i] in keys) && (forall j :: 0 <= j < |keys| ==> keys[j] in m)
      && (forall i, j :: 0 <= i < |m| && 0 <= j < |keys| && m[i] == keys[j] ==>
            Says(attempts[i], observations[j]))
  {
    hide Observed, Matrix, INVARIANTS;
    var m, keys := Matrix(writes), Keys(observations);
    MatrixDistinct(writes);
    GridExactly(keys, writes);
    DistinctCard(m);
    DistinctCard(keys);
    assert Elems(m) == Elems(keys);
    forall i, j | 0 <= i < |m| && 0 <= j < |keys| && m[i] == keys[j]
      ensures Observed(observations, m[i]) == Some(observations[j])
    {
      ObservedIs(observations, m[i]);
      assert observations[j] in observations;
    }
  }

  /** As many attempts fail in a cohort as observations violate the invariant. */
  lemma SameFailures(observations: seq<Observation>, writes: seq<string>, check: string)
    requires Distinct(writes) && multiset(Keys(observations)) == multiset(Matrix(writes))
    ensures |FailedIn(AttemptsOf(observations, writes), check)| == |Violations(observations, check)|
  {
    hide Matrix, AttemptsOf, Distinct, INVARIANTS;
    Paired(observations, writes);
    PickedAlike(Matrix(writes), Keys(observations), FailedIn(AttemptsOf(observations, writes), check),
      Violations(observations, check));
  }

  /** And as many fail with a code as observations give it, the stand-in for a missing code aside. */
  lemma SameCodes(observations: seq<Observation>, writes: seq<string>, code: string)
    requires Distinct(writes) && multiset(Keys(observations)) == multiset(Matrix(writes))
    requires code != "invariant_violated"
    ensures |FailedWith(AttemptsOf(observations, writes), code)| == |ViolationsWith(observations, code)|
  {
    hide Matrix, AttemptsOf, Distinct, INVARIANTS;
    Paired(observations, writes);
    PickedAlike(Matrix(writes), Keys(observations), FailedWith(AttemptsOf(observations, writes), code),
      ViolationsWith(observations, code));
  }

  /** For a valid grid the counts are those of the observed violations. */
  lemma ObservedCounts(observations: seq<Observation>, writes: seq<string>)
    requires Distinct(writes) && multiset(Keys(observations)) == multiset(Matrix(writes))
    ensures var n := Counts(AttemptsOf(observations, writes));
      && (n.previewOnly <==> n.bindingMismatches == 0)
      && n.bindingMismatches == |Violations(observations, "exact_preview_operation")|
      && n.preparationMutations == |Violations(observations, "zero_preparation_mutation")|
      && n.typedConsents == |Violations(observations, "no_typed_consent")|
      && n.injections == |Violations(observations, "no_hostile_data_execution")|
      && n.declarations == |ViolationsWith(observations, "intent_declaration_called")|
      && n.records == |ViolationsWith(observations, "intent_capability_recorded")|
      && n.claims == |ViolationsWith(observations, "intent_capability_claimed")|
      && n.duplicates == |Violations(observations, "no_concurrent_duplicate")|
  {
    hide FailedIn, FailedWith, Violations, ViolationsWith, Counts, AttemptsOf, Matrix, Distinct;
    CountsExactly(AttemptsOf(observations, writes));
    SameFailures(observations, writes, "exact_preview_operation");
    SameFailures(observations, writes, "zero_preparation_mutation");
    SameFailures(observations, writes, "no_typed_consent");
    SameFailures(observations, writes, "no_hostile_data_execution");
    SameFailures(observations, writes, "no_concurrent_duplicate");
    assert "invariant_violated"[2] == 'v';
    SameCodes(observations, writes, "intent_declaration_called");
    SameCodes(observations, writes, "intent_capability_recorded");
    SameCodes(observations, writes, "intent_capability_claimed");
  }

  /** An observation that some authority count shows. */
  predicate Counted(o: Observation) {
    && !o.satisfied
    && (o.check in {"exact_preview_operation", "zero_preparation_mutation", "no_typed_consent",
                    "no_hostile_data_execution", "no_concurrent_duplicate"}
        || o.code in {Some("intent_declaration_called"), Some("intent_capability_recorded"),
                      Some("intent_capability_claimed")})
  }

  /** The counts are clean exactly when no such violation was observed. */
  lemma CleanExactly(observations: seq<Observation>, writes: seq<string>)
    requires Distinct(writes) && multiset(Keys(observations)) == multiset(Matrix(writes))
    ensures Counts(AttemptsOf(observations, writes)) == AuthorityCounts(true, 0, 0, 0, 0, 0, 0, 0, 0) <==>
      forall i :: 0 <= i < |observations| ==> !Counted(observations[i])
  {
    hide Counts, AttemptsOf, Matrix, Distinct;
    ObservedCounts(observations, writes);
    NoneIn(observations, "exact_preview_operation");
    NoneIn(observations, "zero_preparation_mutation");
    NoneIn(observations, "no_typed_consent");
    NoneIn(observations, "no_hostile_data_execution");
    NoneIn(observations, "no_concurrent_duplicate");
    NoneWith(observations, "intent_declaration_called");
    NoneWith(observations, "intent_capability_recorded");
    NoneWith(observations, "intent_capability_claimed");
    hide Violations, ViolationsWith;
  }

  lemma NoneIn(observations: seq<Observation>, check: string)
    ensures |Violations(observations, check)| == 0 <==>
      forall i :: 0 <= i < |observations| ==> observations[i].satisfied || observations[i].check != check
  {
    if |Violations(observations, check)| == 0 {
      forall i | 0 <= i < |observations| ensures observations[i].satisfied || observations[i].check != check {
        assert i !in Violations(observations, check);
      }
    } else {
      var i :| i in Violations(observations, check);
    }
  }

  lemma NoneWith(observations: seq<Observation>, code: string)
    ensures |ViolationsWith(observations, code)| == 0 <==>
      forall i :: 0 <= i < |observations| ==> observations[i].satisfied || observations[i].code != Some(code)
  {
    if |ViolationsWith(observations, code)| == 0 {
      forall i | 0 <= i < |observations| ensures observations[i].satisfied || observations[i].code != Some(code) {
        assert i !in ViolationsWith(observations, code);
      }
    } else {
      var i :| i in ViolationsWith(observations, code);
    }
  }
}
