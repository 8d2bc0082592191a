/** Evaluation attempts, and counting them. */
module Attempts {
  import opened Prelude

  /** EvalAttempt (scripts/eval-v2/report.ts) without its telemetry. */
  datatype Attempt = Attempt(caseId: string, cohort: string, repeat: int, passed: bool, failureCode: Option<string>)

  type Slot = (string, string, int)

  function SlotOf(a: Attempt): Slot {
    (a.caseId, a.cohort, a.repeat)
  }

  function Slots(attempts: seq<Attempt>): (s: seq<Slot>)
    ensures |s| == |attempts| && forall i :: 0 <= i < |s| ==> s[i] == SlotOf(attempts[i])
  {
    seq(|attempts|, i requires 0 <= i < |attempts| => SlotOf(attempts[i]))
  }

  /** Which attempts to count; None leaves a field open. */
  datatype Query = Query(caseId: Option<string>, cohort: Option<string>, repeat: Option<int>, passed: Option<bool>) {
    predicate Matches(a: Attempt) {
      && (caseId.Some? ==> a.caseId == caseId.value) && (cohort.Some? ==> a.cohort == cohort.value)
      && (repeat.Some? ==> a.repeat == repeat.value) && (passed.Some? ==> a.passed == passed.value)
    }
  }

  const ALL := Query(None, None, None, None)
  const PASSED := ALL.(passed := Some(true))

  function Cell(caseId: string, cohort: string): Query {
    PASSED.(caseId := Some(caseId), cohort := Some(cohort))
  }

  function Count(attempts: seq<Attempt>, q: Query): (n: nat)
    ensures n <= |attempts|
  {
    if attempts == [] then 0 else
      Count(attempts[..|attempts| - 1], q) + if q.Matches(attempts[|attempts| - 1]) then 1 else 0
  }

  lemma {:induction false} CountConcat(a: seq<Attempt>, b: seq<Attempt>, q: Query)
    ensures Count(a + b, q) == Count(a, q) + Count(b, q)
    decreases |b|
  {
    if b == [] {
      assert a + b == a;
    } else {
      assert (a + b)[..|a + b| - 1] == a + b[..|b| - 1];
      CountConcat(a, b[..|b| - 1], q);
    }
  }

  lemma RemoveAt(s: seq<Attempt>, i: nat, q: Query)
    requires i < |s|
    ensures Count(s, q) == Count(s[..i] + s[i + 1..], q) + (if q.Matches(s[i]) then 1 else 0)
    ensures multiset(s[..i] + s[i + 1..]) == multiset(s) - multiset{s[i]}
  {
    assert s == s[..i] + [s[i]] + s[i + 1..];
    CountConcat(s[..i], [s[i]], q);
    CountConcat(s[..i] + [s[i]], s[i + 1..], q);
    CountConcat(s[..i], s[i + 1..], q);
    assert Count([s[i]], q) == Count([], q) + if q.Matches(s[i]) then 1 else 0;
  }

  /** Counting does not depend on the order of the attempts. */
  lemma {:induction false} CountPermuted(a: seq<Attempt>, b: seq<Attempt>, q: Query)
    requires multiset(a) == multiset(b)
    ensures Count(a, q) == Count(b, q)
    decreases |a|
  {
    if a != [] {
      var x := a[|a| - 1];
      assert x in multiset(b);
      var i :| 0 <= i < |b| && b[i] == x;
      RemoveAt(b, i, q);
      assert a == a[..|a| - 1] + [x];
      CountPermuted(a[..|a| - 1], b[..i] + b[i + 1..], q);
    } else {
      assert |multiset(b)| == 0;
    }
  }

  /** Splitting a query in two exclusive ones splits the count. */
  lemma {:induction false} CountSplit(attempts: seq<Attempt>, q: Query, q1: Query, q2: Query)
    requires forall a :: a in attempts && q.Matches(a) ==> q1.Matches(a) != q2.Matches(a)
    requires forall a :: a in attempts && (q1.Matches(a) || q2.Matches(a)) ==> q.Matches(a)
    ensures Count(attempts, q) == Count(attempts, q1) + Count(attempts, q2)
  {
    if attempts != [] {
      var front, last := attempts[..|attempts| - 1], attempts[|attempts| - 1];
      assert last in attempts;
      assert forall a :: a in front ==> a in attempts;
      CountSplit(front, q, q1, q2);
    }
  }

  lemma {:induction false} CountNone(attempts: seq<Attempt>, q: Query)
    ensures Count(attempts, q) == 0 <==> forall i :: 0 <= i < |attempts| ==> !q.Matches(attempts[i])
  {
    if attempts != [] {
      CountNone(attempts[..|attempts| - 1], q);
    }
  }

  lemma {:induction false} CountEvery(attempts: seq<Attempt>, q: Query)
    ensures Count(attempts, q) == |attempts| <==> forall i :: 0 <= i < |attempts| ==> q.Matches(attempts[i])
  {
    if attempts != [] {
      CountEvery(attempts[..|attempts| - 1], q);
    }
  }

  /** With distinct slots a fully specified query counts one attempt or none. */
  lemma {:induction false} CountOne(attempts: seq<Attempt>, k: nat, q: Query)
    requires Distinct(Slots(attempts)) && k < |attempts|
    requires q.caseId == Some(attempts[k].caseId) && q.cohort == Some(attempts[k].cohort)
      && q.repeat == Some(attempts[k].repeat)
    ensures Count(attempts, q) == if q.Matches(attempts[k]) then 1 else 0
  {
    var n := |attempts| - 1;
    var front := attempts[..n];
    assert forall i :: 0 <= i < n ==> Slots(front)[i] == Slots(attempts)[i];
    if k < n {
      CountOne(front, k, q);
      assert Slots(attempts)[k] != Slots(attempts)[n];
    } else {
      forall i | 0 <= i < n ensures !q.Matches(front[i]) {
        assert Slots(attempts)[i] != Slots(attempts)[n];
      }
      CountNone(front, q);
    }
  }
}
