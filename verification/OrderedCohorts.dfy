/** Cooperative workers over a shared index, with a barrier between cohorts
    (scripts/eval/ordered-cohorts.ts). Which run settles next, and how, is up to the environment. */
module OrderedCohorts {
  import opened Prelude

  datatype Worker = Running(index: nat) | Finished | Threw(index: nat)

  datatype Phase = Pending | Done | Failed

  /** log: the dispatches so far, as (cohort, case); settled: what each resolved run gave. */
  datatype St<R> = St(cohort: nat, next: nat, workers: seq<Worker>, slots: seq<Option<R>>,
                      results: seq<Option<R>>, phase: Phase, log: seq<(nat, nat)>, settled: map<(nat, nat), R>)

  /** n cases, count cohorts, at most limit workers. */
  datatype Setup = Setup(n: nat, count: nat, limit: nat) {
    predicate Valid() {
      count >= 1 && limit >= 1
    }

    function Width(): nat {
      if limit <= n then limit else n
    }
  }

  /** Settled runs: worker w's run resolves with a value, or rejects. */
  datatype Event<R> = Event(worker: nat, outcome: Option<R>)

  /** Cases from..to of one cohort. */
  function Cases(cohort: nat, from: nat, to: nat): (s: seq<(nat, nat)>)
    requires from <= to
    ensures |s| == to - from && forall i :: 0 <= i < |s| ==> s[i] == (cohort, from + i)
  {
    seq(to - from, i requires 0 <= i < to - from => (cohort, from + i))
  }

  /** Every case of the first c cohorts, cohort by cohort. */
  function Canonical(n: nat, c: nat): (s: seq<(nat, nat)>)
    ensures |s| == c * n
  {
    if c == 0 then [] else Canonical(n, c - 1) + Cases(c, 0, n)
  }

  /** mapWithConcurrency up to its first await: worker k takes case k (12-21). */
  function StartCohort<R>(u: Setup, st: St<R>): St<R> {
    var m := u.Width();
    st.(cohort := st.cohort + 1, next := m, workers := seq(m, w requires 0 <= w < m => Running(w)),
        slots := seq(u.n, _ => None), log := st.log + Cases(st.cohort + 1, 0, m))
  }

  /** runOrderedCohorts up to its first await; with no cases every cohort is over at once. */
  function Start<R>(u: Setup): St<R> {
    var st := St(0, 0, [], [], [], Pending, [], map[]);
    if u.n == 0 then st.(cohort := u.count, phase := Done) else StartCohort(u, st)
  }

  predicate AllFinished(ws: seq<Worker>) {
    forall w :: 0 <= w < |ws| ==> ws[w].Finished?
  }

  predicate CanSettle<R>(st: St<R>, w: nat) {
    w < |st.workers| && st.workers[w].Running? && st.workers[w].index < |st.slots|
  }

  predicate Enabled<R>(st: St<R>, e: Event<R>) {
    CanSettle(st, e.worker)
  }

  /** The worker's turn after its run settled. */
  function Resume<R>(u: Setup, st: St<R>, e: Event<R>): St<R>
    requires Enabled(st, e)
  {
    var i := st.workers[e.worker].index;
    match e.outcome
    case None => st.(workers := st.workers[e.worker := Threw(i)], phase := Failed)
    case Some(v) =>
      var st' := st.(slots := st.slots[i := Some(v)], settled := st.settled[(st.cohort, i) := v]);
      if st.next < u.n then
        st'.(workers := st.workers[e.worker := Running(st.next)], next := st.next + 1,
          log := st.log + [(st.cohort, st.next)])
      else st'.(workers := st.workers[e.worker := Finished])
  }

  /** Promise.all has resolved: the cohort's results are appended, and the next cohort starts. */
  function Collect<R>(u: Setup, st: St<R>): St<R> {
    if st.phase.Pending? && AllFinished(st.workers) then
      var st' := st.(results := st.results + st.slots);
      if st.cohort < u.count then StartCohort(u, st') else st'.(phase := Done)
    else st
  }

  function Step<R>(u: Setup, st: St<R>, e: Event<R>): St<R> {
    if Enabled(st, e) then Collect(u, Resume(u, st, e)) else st
  }

  function Run<R>(u: Setup, events: seq<Event<R>>): St<R> {
    if events == [] then Start(u) else Step(u, Run(u, events[..|events| - 1]), events[|events| - 1])
  }

  // ----- the program, with its counter, its result slots and its barrier loop -----

  class Runner<R(==)> {
    const u: Setup
    var cohort: nat
    var next: nat
    var workers: seq<Worker>
    var slots: array<Option<R>>
    var results: seq<Option<R>>
    var phase: Phase
    ghost var log: seq<(nat, nat)>
    ghost var settled: map<(nat, nat), R>

    ghost function Now(): St<R>
      reads this, slots
    {
      St(cohort, next, workers, slots[..], results, phase, log, settled)
    }

    constructor (u: Setup)
      requires u.Valid()
      ensures this.u == u && Now() == Start(u) && fresh(slots)
    {
      this.u := u;
      cohort, next, workers, results, phase, log, settled := 0, 0, [], [], Pending, [], map[];
      slots := new Option<R>[0];
      new;
      assert Now() == St(0, 0, [], [], [], Pending, [], map[]);
      if u.n == 0 {
        cohort, phase := u.count, Done;
      } else {
        StartWorkers();
      }
    }

    /** Fresh slots and counter; each worker dispatches its first case. */
    method StartWorkers()
      modifies this
      ensures Now() == StartCohort(u, old(Now())) && fresh(slots)
    {
      cohort := cohort + 1;
      slots := new Option<R>[u.n](_ => None);
      var started: seq<Worker>, m := [], u.Width();
      while |started| < m
        invariant |started| <= m
        invariant forall w :: 0 <= w < |started| ==> started[w] == Running(w)
        invariant log == old(log) + Cases(cohort, 0, |started|)
        invariant cohort == old(cohort) + 1 && fresh(slots) && slots.Length == u.n
        invariant forall i :: 0 <= i < u.n ==> slots[i] == None
        invariant settled == old(settled) && results == old(results) && phase == old(phase)
      {
        log := log + [(cohort, |started|)];
        started := started + [Running(|started|)];
      }
      workers, next := started, m;
      assert slots[..] == seq(u.n, _ => None);
      assert workers == StartCohort(u, old(Now())).workers;
    }

    /** A settled run wakes its worker. */
    method Settle(e: Event<R>)
      requires Enabled(Now(), e)
      modifies this, slots
      ensures Now() == Step(u, old(Now()), e) && (slots == old(slots) || fresh(slots))
    {
      var i := workers[e.worker].index;
      if e.outcome.None? {
        workers, phase := workers[e.worker := Threw(i)], Failed;
      } else {
        slots[i] := e.outcome;
        settled := settled[(cohort, i) := e.outcome.value];
        if next < u.n {
          var index := next;
          next := next + 1;
          workers, log := workers[e.worker := Running(index)], log + [(cohort, index)];
        } else {
          workers := workers[e.worker := Finished];
        }
      }
      assert Now() == Resume(u, old(Now()), e);
      if phase.Pending? && AllFinished(workers) {
        Barrier();
      }
    }

    /** The end of one turn of the cohort loop (36-39). */
    method Barrier()
      requires phase.Pending? && AllFinished(workers)
      modifies this
      ensures Now() == Collect(u, old(Now())) && (slots == old(slots) || fresh(slots))
    {
      results := results + slots[..];
      if cohort < u.count {
        StartWorkers();
      } else {
        phase := Done;
      }
    }
  }

  datatype Refusal = CohortCount | Concurrency

  /** The checks of runOrderedCohorts before anything is dispatched (33-34). */
  method RunOrderedCohorts<R(==)>(n: nat, count: int, limit: int) returns (r: Result<Runner<R>, Refusal>)
    ensures r.Err? <==> count < 1 || limit < 1
    ensures r.Err? ==> r.error == if count < 1 then CohortCount else Concurrency
    ensures r.Ok? ==> fresh(r.value) && fresh(r.value.slots) && r.value.Now() == Start(Setup(n, count, limit))
  {
    if count < 1 {
      return Err(CohortCount);
    }
    if limit < 1 {
      return Err(Concurrency);
    }
    var runner := new Runner<R>(Setup(n, count, limit));
    return Ok(runner);
  }
}
