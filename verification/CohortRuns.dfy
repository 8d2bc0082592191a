/** What holds of the cohort runner for every interleaving of settling runs. */
module CohortRuns {
  import opened Prelude
  import opened OrderedCohorts

  /** Worker w has case i in its hands: still running, or lost with its rejection. */
  predicate Holds(ws: seq<Worker>, w: nat, i: nat) {
    w < |ws| && (ws[w] == Running(i) || ws[w] == Threw(i))
  }

  ghost predicate Held(ws: seq<Worker>, i: nat) {
    exists w: nat :: Holds(ws, w, i)
  }

  function Lookup<R>(m: map<(nat, nat), R>, k: (nat, nat)): Option<R> {
    if k in m then Some(m[k]) else None
  }

  /** The results of the first c cohorts, in case order. */
  function ResultsOf<R>(settled: map<(nat, nat), R>, n: nat, c: nat): (s: seq<Option<R>>)
    ensures |s| == c * n
  {
    if c == 0 then [] else ResultsOf(settled, n, c - 1) + seq(n, i requires 0 <= i < n => Lookup(settled, (c, i)))
  }

  function Completed<R>(st: St<R>): nat {
    if st.phase.Done? then st.cohort else if st.cohort > 0 then st.cohort - 1 else 0
  }

  // ----- the invariant -----

  /** A dispatched case is settled, or in a worker's hands; its slot says which. */
  ghost predicate CaseAt<R>(u: Setup, st: St<R>, i: nat)
    requires i < u.n == |st.slots|
  {
    && (i < st.next && st.slots[i].None? <==> Held(st.workers, i))
    && st.slots[i] == Lookup(st.settled, (st.cohort, i)) && (i >= st.next ==> st.slots[i].None?)
  }

  /** No two workers have the same case, and only cases that exist. */
  ghost predicate HandsOk(n: nat, ws: seq<Worker>) {
    && (forall w: nat, v: nat, i: nat :: Holds(ws, w, i) && Holds(ws, v, i) ==> w == v)
    && (forall w: nat, i: nat :: Holds(ws, w, i) ==> i < n)
  }

  ghost predicate CasesOk<R>(u: Setup, st: St<R>) {
    && |st.workers| == u.Width() && |st.slots| == u.n && u.Width() <= st.next <= u.n
    && HandsOk(u.n, st.workers) && forall i: nat :: i < u.n ==> CaseAt(u, st, i)
  }

  ghost predicate PhaseOk<R>(u: Setup, st: St<R>) {
    && 1 <= st.cohort <= u.count
    && (forall w :: 0 <= w < |st.workers| && st.workers[w].Finished? ==> st.next == u.n)
    && (st.phase.Failed? <==> exists w :: 0 <= w < |st.workers| && st.workers[w].Threw?)
    && (st.phase.Done? <==> AllFinished(st.workers)) && (st.phase.Done? ==> st.cohort == u.count)
  }

  /** Everything before this cohort is settled and collected, and dispatched in canonical order. */
  ghost predicate HistoryOk<R>(u: Setup, st: St<R>) {
    && st.cohort >= 1 && st.log == Canonical(u.n, st.cohort - 1) + Cases(st.cohort, 0, st.next)
    && st.results == ResultsOf(st.settled, u.n, Completed(st))
    && (forall c: nat, i: nat :: 1 <= c < st.cohort && i < u.n ==> (c, i) in st.settled)
    && (forall c: nat, i: nat :: (c, i) in st.settled ==> 1 <= c <= st.cohort && i < u.n)
  }

  ghost predicate Inv<R>(u: Setup, st: St<R>) {
    PhaseOk(u, st) && CasesOk(u, st) && HistoryOk(u, st)
  }

  // ----- preservation -----

  lemma {:induction false} ResultsKept<R>(settled: map<(nat, nat), R>, n: nat, c: nat, k: (nat, nat), v: R)
    requires c < k.0
    ensures ResultsOf(settled[k := v], n, c) == ResultsOf(settled, n, c)
  {
    if c > 0 {
      ResultsKept(settled, n, c - 1, k, v);
      assert seq(n, i requires 0 <= i < n => Lookup(settled[k := v], (c, i)))
        == seq(n, i requires 0 <= i < n => Lookup(settled, (c, i)));
    }
  }

  lemma FreshCohort<R>(u: Setup, st: St<R>)
    requires u.n > 0 && u.Valid() && st.cohort < u.count && !st.phase.Failed? && !st.phase.Done?
    requires st.log == Canonical(u.n, st.cohort) && st.results == ResultsOf(st.settled, u.n, st.cohort)
    requires forall c: nat, i: nat :: 1 <= c <= st.cohort && i < u.n ==> (c, i) in st.settled
    requires forall c: nat, i: nat :: (c, i) in st.settled ==> 1 <= c <= st.cohort && i < u.n
    ensures Inv(u, StartCohort(u, st))
  {
    hide Canonical, ResultsOf;
    var st' := StartCohort(u, st);
    forall i: nat | i < u.Width() ensures Held(st'.workers, i) {
      assert Holds(st'.workers, i, i);
    }
    assert st'.workers[0].Running?;
  }

  lemma StartInv<R>(u: Setup)
    requires u.Valid() && u.n > 0
    ensures Inv(u, Start<R>(u))
  {
    var st: St<R> := St(0, 0, [], [], [], Pending, [], map[]);
    FreshCohort(u, st);
  }

  /** After the worker's turn everything holds but the barrier. */
  ghost predicate Mid<R>(u: Setup, st: St<R>) {
    && CasesOk(u, st) && 1 <= st.cohort <= u.count && !st.phase.Done?
    && (forall w :: 0 <= w < |st.workers| && st.workers[w].Finished? ==> st.next == u.n)
    && (st.phase.Failed? <==> exists w :: 0 <= w < |st.workers| && st.workers[w].Threw?)
    && HistoryOk(u, st)
  }

  /** After its turn a worker holds what it lost, the next case, or nothing. */
  lemma HandsAfter<R>(u: Setup, st: St<R>, e: Event<R>, w: nat, j: nat)
    requires Enabled(st, e)
    ensures Holds(Resume(u, st, e).workers, w, j) <==>
      (if w == e.worker then
         (if e.outcome.None? then j == st.workers[e.worker].index else st.next < u.n && j == st.next)
       else Holds(st.workers, w, j))
  {}

  lemma ResumeHands<R>(u: Setup, st: St<R>, e: Event<R>)
    requires CasesOk(u, st) && Enabled(st, e)
    ensures HandsOk(u.n, Resume(u, st, e).workers)
  {
    hide Resume;
    var i, ws := st.workers[e.worker].index, Resume(u, st, e).workers;
    assert Holds(st.workers, e.worker, i);
    assert st.next < u.n ==> CaseAt(u, st, st.next) && !Held(st.workers, st.next);
    forall w: nat, v: nat, j: nat | Holds(ws, w, j) && Holds(ws, v, j) ensures w == v {
      HandsAfter(u, st, e, w, j);
      HandsAfter(u, st, e, v, j);
    }
    forall w: nat, j: nat | Holds(ws, w, j) ensures j < u.n {
      HandsAfter(u, st, e, w, j);
    }
  }

  lemma ResumeCase<R>(u: Setup, st: St<R>, e: Event<R>, j: nat)
    requires CasesOk(u, st) && Enabled(st, e) && j < u.n
    ensures CaseAt(u, Resume(u, st, e), j)
  {
    var i, st' := st.workers[e.worker].index, Resume(u, st, e);
    assert Holds(st.workers, e.worker, i) && Held(st.workers, i) && CaseAt(u, st, i) && CaseAt(u, st, j);
    HandsAfter(u, st, e, e.worker, j);
    if Held(st.workers, j) && j != i {
      var w: nat :| Holds(st.workers, w, j);
      HandsAfter(u, st, e, w, j);
    }
    if Held(st'.workers, j) {
      var w: nat :| Holds(st'.workers, w, j);
      HandsAfter(u, st, e, w, j);
    }
  }

  lemma ResumeCases<R>(u: Setup, st: St<R>, e: Event<R>)
    requires CasesOk(u, st) && Enabled(st, e)
    ensures CasesOk(u, Resume(u, st, e))
  {
    hide CaseAt, HandsOk;
    ResumeHands(u, st, e);
    forall j: nat | j < u.n ensures CaseAt(u, Resume(u, st, e), j) {
      ResumeCase(u, st, e, j);
    }
  }

  lemma ResumeHistory<R>(u: Setup, st: St<R>, e: Event<R>)
    requires HistoryOk(u, st) && Enabled(st, e) && st.workers[e.worker].index < u.n && !st.phase.Done?
    ensures HistoryOk(u, Resume(u, st, e))
  {
    hide Canonical, ResultsOf;
    if e.outcome.Some? {
      ResultsKept(st.settled, u.n, st.cohort - 1, (st.cohort, st.workers[e.worker].index), e.outcome.value);
      if st.next < u.n {
        assert Cases(st.cohort, 0, st.next) + [(st.cohort, st.next)] == Cases(st.cohort, 0, st.next + 1);
        Assoc(Canonical(u.n, st.cohort - 1), Cases(st.cohort, 0, st.next), [(st.cohort, st.next)]);
      }
    }
  }

  lemma ResumePhase<R>(u: Setup, st: St<R>, e: Event<R>)
    requires CasesOk(u, st) && PhaseOk(u, st) && Enabled(st, e)
    ensures var st' := Resume(u, st, e);
      && !st'.phase.Done? && (forall w :: 0 <= w < |st'.workers| && st'.workers[w].Finished? ==> st'.next == u.n)
      && (st'.phase.Failed? <==> exists w :: 0 <= w < |st'.workers| && st'.workers[w].Threw?)
  {
    hide CaseAt, HandsOk;
    var st' := Resume(u, st, e);
    if e.outcome.None? {
      assert st'.workers[e.worker].Threw?;
    } else if w :| 0 <= w < |st.workers| && st.workers[w].Threw? {
      assert st'.workers[w].Threw?;
    }
  }

  lemma ResumeInv<R>(u: Setup, st: St<R>, e: Event<R>)
    requires Inv(u, st) && Enabled(st, e)
    ensures Mid(u, Resume(u, st, e))
  {
    hide CasesOk, HistoryOk;
    CaseBound(u, st, e);
    ResumeCases(u, st, e);
    ResumePhase(u, st, e);
    assert st.workers[e.worker].Running?;
    ResumeHistory(u, st, e);
  }

  lemma AllSettled<R>(u: Setup, st: St<R>)
    requires CasesOk(u, st) && AllFinished(st.workers) && st.next == u.n
    ensures forall i: nat :: i < u.n ==> st.slots[i].Some? && st.slots[i] == Lookup(st.settled, (st.cohort, i))
  {
    forall i: nat | i < u.n ensures st.slots[i].Some? && st.slots[i] == Lookup(st.settled, (st.cohort, i)) {
      assert CaseAt(u, st, i) && !Held(st.workers, i);
    }
  }

  lemma CaseBound<R>(u: Setup, st: St<R>, e: Event<R>)
    requires CasesOk(u, st) && Enabled(st, e)
    ensures st.workers[e.worker].index < u.n
  {
    assert Holds(st.workers, e.worker, st.workers[e.worker].index);
  }

  lemma Workers<R>(u: Setup, st: St<R>)
    requires u.Valid() && u.n > 0 && CasesOk(u, st)
    ensures |st.workers| > 0 && |st.slots| == u.n
  {}

  lemma CasesFrame<R>(u: Setup, st: St<R>, st': St<R>)
    requires CasesOk(u, st) && st' == st.(results := st'.results, phase := st'.phase)
    ensures CasesOk(u, st')
  {
    forall i: nat | i < u.n ensures CaseAt(u, st', i) {
      assert CaseAt(u, st, i);
    }
  }

  lemma CollectInv<R>(u: Setup, st: St<R>)
    requires u.Valid() && u.n > 0 && Mid(u, st)
    ensures Inv(u, Collect(u, st))
  {
    hide ResultsOf, CasesOk;
    Workers(u, st);
    CasesFrame(u, st, st.(results := st.results + st.slots, phase := Done));
    if st.phase.Pending? && AllFinished(st.workers) {
      assert st.workers[0].Finished?;
      assert st.next == u.n;
      AllSettled(u, st);
      CohortResults(u, st);
      assert Canonical(u.n, st.cohort) == Canonical(u.n, st.cohort - 1) + Cases(st.cohort, 0, u.n);
      if st.cohort < u.count {
        FreshCohort(u, st.(results := st.results + st.slots));
      }
    } else {
      assert st.phase.Failed? ==> !AllFinished(st.workers);
    }
  }

  lemma CohortResults<R>(u: Setup, st: St<R>)
    requires st.cohort >= 1 && |st.slots| == u.n
    requires forall i: nat :: i < u.n ==> st.slots[i] == Lookup(st.settled, (st.cohort, i))
    ensures ResultsOf(st.settled, u.n, st.cohort - 1) + st.slots == ResultsOf(st.settled, u.n, st.cohort)
  {
    assert st.slots == seq(u.n, i requires 0 <= i < u.n => Lookup(st.settled, (st.cohort, i)));
  }

  lemma {:induction false} RunInv<R>(u: Setup, events: seq<Event<R>>)
    requires u.Valid() && u.n > 0
    ensures Inv(u, Run(u, events))
  {
    hide Inv, Mid, Collect, Resume;
    if events == [] {
      StartInv<R>(u);
    } else {
      var front, e := events[..|events| - 1], events[|events| - 1];
      RunInv(u, front);
      if Enabled(Run(u, front), e) {
        ResumeInv(u, Run(u, front), e);
        CollectInv(u, Resume(u, Run(u, front), e));
      }
    }
  }

  // ----- the theorems -----

  lemma {:induction false} CanonicalParts(n: nat, c: nat, d: nat)
    requires c <= d
    ensures Canonical(n, c) <= Canonical(n, d)
    ensures Distinct(Canonical(n, d)) && forall k :: k in Canonical(n, d) <==> 1 <= k.0 <= d && k.1 < n
    decreases d
  {
    if d > 0 {
      CanonicalParts(n, if c < d then c else d - 1, d - 1);
      var front, last := Canonical(n, d - 1), Cases(d, 0, n);
      forall k: (nat, nat) | k in front + last ensures 1 <= k.0 <= d && k.1 < n {}
      forall k: (nat, nat) | 1 <= k.0 <= d && k.1 < n ensures k in front + last {
        if k.0 == d { assert last[k.1] == k; }
      }
      forall i, j | 0 <= i < j < |front + last| ensures (front + last)[i] != (front + last)[j] {
        if i < |front| && j >= |front| { assert (front + last)[i] in front; }
      }
    }
  }

  lemma LogPrefix(n: nat, cohort: nat, next: nat, count: nat)
    requires 1 <= cohort <= count && next <= n
    ensures var log := Canonical(n, cohort - 1) + Cases(cohort, 0, next);
      && log <= Canonical(n, count) && Distinct(log) && |log| <= count * n
      && (forall k: (nat, nat) :: k in log ==> 1 <= k.0 <= cohort && k.1 < n)
      && (cohort == count && next == n ==> log == Canonical(n, count))
  {
    var log, whole := Canonical(n, cohort - 1) + Cases(cohort, 0, next), Canonical(n, count);
    CanonicalParts(n, cohort, count);
    CanonicalParts(n, cohort, cohort);
    assert Canonical(n, cohort) == Canonical(n, cohort - 1) + Cases(cohort, 0, n);
    assert Cases(cohort, 0, next) <= Cases(cohort, 0, n);
    assert log <= Canonical(n, cohort) <= whole;
    forall k: (nat, nat) | k in log ensures k in Canonical(n, cohort) {}
  }

  lemma RunLog<R>(u: Setup, events: seq<Event<R>>)
    requires u.Valid() && u.n > 0
    ensures var st := Run(u, events);
      && 1 <= st.cohort <= u.count && st.next <= u.n
      && st.log == Canonical(u.n, st.cohort - 1) + Cases(st.cohort, 0, st.next)
      && (forall c: nat, i: nat :: 1 <= c < st.cohort && i < u.n ==> (c, i) in st.settled)
      && (st.phase.Done? ==> st.cohort == u.count && st.next == u.n)
  {
    hide Canonical, ResultsOf, CaseAt, HandsOk;
    RunInv(u, events);
    var st := Run(u, events);
    if st.phase.Done? { assert st.workers[0].Finished?; }
  }

  /** For every interleaving: dispatches come in canonical order, so each (cohort, case) at most
      once; success means each exactly once. */
  lemma DispatchOrder<R>(u: Setup, events: seq<Event<R>>)
    requires u.Valid() && u.n > 0
    ensures var st := Run(u, events);
      && st.log <= Canonical(u.n, u.count) && Distinct(st.log) && |st.log| <= u.count * u.n
      && (st.phase.Done? ==> st.log == Canonical(u.n, u.count)
                             && forall c: nat, i: nat :: 1 <= c <= u.count && i < u.n ==> (c, i) in st.log)
  {
    hide Canonical, Run;
    RunLog(u, events);
    var st := Run(u, events);
    LogPrefix(u.n, st.cohort, st.next, u.count);
    CanonicalParts(u.n, u.count, u.count);
  }

  /** The barrier: once a case of cohort c is dispatched, every case of every earlier cohort has
      resolved. */
  lemma Barrier<R>(u: Setup, events: seq<Event<R>>, c: nat, i: nat)
    requires u.Valid() && u.n > 0 && (c, i) in Run(u, events).log
    ensures forall b: nat, j: nat :: 1 <= b < c && j < u.n ==> (b, j) in Run(u, events).settled
  {
    hide Canonical, Run;
    RunLog(u, events);
    LogPrefix(u.n, Run(u, events).cohort, Run(u, events).next, u.count);
  }

  /** A rejection ends the dispatching of cohorts for good. */
  lemma {:induction false} FailureIsFinal<R>(u: Setup, events: seq<Event<R>>, more: seq<Event<R>>)
    requires u.Valid() && u.n > 0 && Run(u, events).phase.Failed?
    ensures var st, later := Run(u, events), Run(u, events + more);
      later.phase.Failed? && later.cohort == st.cohort && later.results == st.results
      && forall c: nat, i: nat :: c > st.cohort ==> (c, i) !in later.log
    decreases |more|
  {
    hide Canonical;
    if more == [] {
      assert events + more == events;
    } else {
      var front := more[..|more| - 1];
      assert (events + more)[..|events + more| - 1] == events + front;
      FailureIsFinal(u, events, front);
    }
    RunLog(u, events + more);
    LogPrefix(u.n, Run(u, events + more).cohort, Run(u, events + more).next, u.count);
  }

  lemma {:induction false} ResultAt<R>(settled: map<(nat, nat), R>, n: nat, d: nat, c: nat, i: nat)
    requires 1 <= c <= d && i < n
    ensures 0 <= (c - 1) * n + i < d * n
    ensures ResultsOf(settled, n, d)[(c - 1) * n + i] == Lookup(settled, (c, i))
  {
    if c == d {
      assert d * n == (d - 1) * n + n;
    } else {
      ResultAt(settled, n, d - 1, c, i);
      assert d * n == (d - 1) * n + n;
    }
  }

  /** On success the results are all there, and result (c-1)*n+i is what the run of case i in
      cohort c resolved with. */
  lemma ResultsInOrder<R>(u: Setup, events: seq<Event<R>>, c: nat, i: nat)
    requires u.Valid() && u.n > 0 && Run(u, events).phase.Done? && 1 <= c <= u.count && i < u.n
    ensures var st := Run(u, events);
      && |st.results| == u.count * u.n && 0 <= (c - 1) * u.n + i < |st.results|
      && (c, i) in st.settled && st.results[(c - 1) * u.n + i] == Some(st.settled[(c, i)])
  {
    RunInv(u, events);
    var st := Run(u, events);
    ResultAt(st.settled, u.n, u.count, c, i);
    if c == u.count {
      assert st.workers[0].Finished? && st.next == u.n;
      assert !Held(st.workers, i) && CaseAt(u, st, i);
    }
  }

  // ----- how many run, and for how long -----

  function InFlight(ws: seq<Worker>): (k: nat)
    ensures k <= |ws|
  {
    if ws == [] then 0 else InFlight(ws[..|ws| - 1]) + if ws[|ws| - 1].Running? then 1 else 0
  }

  lemma {:induction false} InFlightUpdate(ws: seq<Worker>, w: nat, x: Worker)
    requires w < |ws|
    ensures InFlight(ws[w := x]) == InFlight(ws) - (if ws[w].Running? then 1 else 0) + (if x.Running? then 1 else 0)
  {
    var n := |ws| - 1;
    if w < n {
      InFlightUpdate(ws[..n], w, x);
      assert ws[w := x][..n] == ws[..n][w := x];
    } else {
      assert ws[w := x][..n] == ws[..n];
    }
  }

  lemma {:induction false} InFlightUniform(ws: seq<Worker>)
    ensures (forall w :: 0 <= w < |ws| ==> ws[w].Running?) ==> InFlight(ws) == |ws|
    ensures (forall w :: 0 <= w < |ws| ==> !ws[w].Running?) <==> InFlight(ws) == 0
  {
    if ws != [] {
      InFlightUniform(ws[..|ws| - 1]);
    }
  }

  /** How many of the events were settling runs. */
  function Settlings<R>(u: Setup, events: seq<Event<R>>): nat {
    if events == [] then 0
    else
      var front, e := events[..|events| - 1], events[|events| - 1];
      Settlings(u, front) + if Enabled(Run(u, front), e) then 1 else 0
  }

  lemma Balance<R>(u: Setup, st: St<R>, e: Event<R>)
    requires Enabled(st, e)
    ensures |Step(u, st, e).log| - InFlight(Step(u, st, e).workers) == |st.log| - InFlight(st.workers) + 1
  {
    hide InFlight;
    var mid := Resume(u, st, e);
    InFlightUpdate(st.workers, e.worker, mid.workers[e.worker]);
    InFlightUniform(mid.workers);
    InFlightUniform(Step(u, st, e).workers);
  }

  /** Conservation: every dispatched case has settled or is in flight, so never more than
      min(limit, n) are, and no run of the program settles more than count * n times. */
  lemma {:induction false} Conservation<R>(u: Setup, events: seq<Event<R>>)
    requires u.Valid() && u.n > 0
    ensures var st := Run(u, events);
      && Settlings(u, events) + InFlight(st.workers) == |st.log| <= u.count * u.n
      && InFlight(st.workers) <= u.limit && InFlight(st.workers) <= u.n
  {
    hide Resume, Collect, InFlight, Canonical, ResultsOf, CaseAt, HandsOk;
    RunInv(u, events);
    var st := Run(u, events);
    DispatchOrder(u, events);
    InFlightUniform(st.workers);
    if events != [] {
      var front, e := events[..|events| - 1], events[|events| - 1];
      Conservation(u, front);
      if Enabled(Run(u, front), e) {
        Balance(u, Run(u, front), e);
      } else {
        assert Step(u, Run(u, front), e) == Run(u, front);
      }
    }
  }

  /** No deadlock: while the outcome is open some run is in flight. After a rejection the other
      workers carry on, so when nothing runs any more either the cohort is exhausted or every
      worker was lost. */
  lemma NoDeadlock<R>(u: Setup, events: seq<Event<R>>)
    requires u.Valid() && u.n > 0
    ensures var st := Run(u, events);
      && (st.phase.Pending? ==> exists w: nat :: CanSettle(st, w))
      && (st.phase.Failed? && InFlight(st.workers) == 0 ==>
            st.next == u.n || forall w :: 0 <= w < |st.workers| ==> st.workers[w].Threw?)
  {
    RunInv(u, events);
    var st := Run(u, events);
    InFlightUniform(st.workers);
    if st.phase.Pending? {
      var w :| 0 <= w < |st.workers| && !st.workers[w].Finished?;
      assert Holds(st.workers, w, st.workers[w].index);
      assert CanSettle(st, w);
    }
  }

  /** No idle worker: while cases of the cohort are left and none failed, as many run as may. */
  lemma NoneIdle<R>(u: Setup, events: seq<Event<R>>)
    requires u.Valid() && u.n > 0
    ensures var st := Run(u, events);
      && |st.workers| == (if u.limit < u.n then u.limit else u.n)
      && (!st.phase.Failed? && st.next < u.n ==> InFlight(st.workers) == |st.workers|)
  {
    hide Run;
    RunInv(u, events);
    InFlightUniform(Run(u, events).workers);
  }

  /** Without cases every cohort is over at once, with no results, whatever happens. */
  lemma {:induction false} NoCases<R>(u: Setup, events: seq<Event<R>>)
    requires u.n == 0
    ensures var st := Run(u, events); st.phase.Done? && st.results == [] && st.log == [] && st.workers == []
  {
    if events != [] {
      NoCases(u, events[..|events| - 1]);
    }
  }
}
