/** Edge-triggered operator alerts and the retention prune loop (src/retention-alerts.ts,
    src/readiness-alerts.ts, src/server.ts): what is logged is a function of the whole trace. */
module Monitors {
  import opened Prelude

  // ----- retention alerts -----

  datatype Sweep = Swept(backlog: bool, batches: nat) | SweepFailed

  datatype Line = BacklogStarted(batches: nat) | BacklogCleared | FailingRepeatedly(consecutive: nat)

  /** How many of the latest sweeps failed in a row. */
  function Streak(trace: seq<Sweep>): (n: nat)
    ensures n <= |trace|
  {
    if trace == [] || !trace[|trace| - 1].SweepFailed? then 0 else Streak(trace[..|trace| - 1]) + 1
  }

  /** What the latest successful sweep said. */
  function Backlog(trace: seq<Sweep>): bool {
    if trace == [] then false
    else match trace[|trace| - 1]
      case Swept(backlog, _) => backlog
      case SweepFailed => Backlog(trace[..|trace| - 1])
  }

  function LinesFor(threshold: int, before: seq<Sweep>, e: Sweep): seq<Line> {
    match e
    case Swept(backlog, batches) =>
      if backlog == Backlog(before) then [] else if backlog then [BacklogStarted(batches)] else [BacklogCleared]
    case SweepFailed => if Streak(before) + 1 == threshold then [FailingRepeatedly(Streak(before) + 1)] else []
  }

  function Log(threshold: int, trace: seq<Sweep>): seq<Line> {
    if trace == [] then []
    else Log(threshold, trace[..|trace| - 1]) + LinesFor(threshold, trace[..|trace| - 1], trace[|trace| - 1])
  }

  class RetentionMonitor {
    const threshold: int
    var consecutiveFailures: nat
    var backlogged: bool
    var log: seq<Line>
    ghost var trace: seq<Sweep>

    ghost predicate Valid()
      reads this
    {
      consecutiveFailures == Streak(trace) && backlogged == Backlog(trace) && log == Log(threshold, trace)
    }

    constructor (threshold: int)
      ensures Valid() && this.threshold == threshold && trace == [] && log == []
    {
      this.threshold := threshold;
      consecutiveFailures, backlogged, log, trace := 0, false, [], [];
    }

    /** A completed sweep (58-67). */
    method SweepDone(backlog: bool, batches: nat)
      requires Valid()
      modifies this
      ensures Valid() && trace == old(trace) + [Swept(backlog, batches)] && log == Log(threshold, trace)
    {
      trace := trace + [Swept(backlog, batches)];
      assert trace[..|trace| - 1] == old(trace);
      consecutiveFailures := 0;
      if backlog == backlogged {
        return;
      }
      backlogged := backlog;
      log := log + [if backlog then BacklogStarted(batches) else BacklogCleared];
    }

    /** A failed sweep (68-74). */
    method SweepThrew()
      requires Valid()
      modifies this
      ensures Valid() && trace == old(trace) + [SweepFailed] && log == Log(threshold, trace)
    {
      trace := trace + [SweepFailed];
      assert trace[..|trace| - 1] == old(trace);
      consecutiveFailures := consecutiveFailures + 1;
      if consecutiveFailures == threshold {
        log := log + [FailingRepeatedly(consecutiveFailures)];
      }
    }
  }

  /** The lengths of the maximal failure streaks, in order. */
  function Streaks(trace: seq<Sweep>): seq<nat> {
    if trace == [] then []
    else
      var front, rest := trace[..|trace| - 1], Streaks(trace[..|trace| - 1]);
      if !trace[|trace| - 1].SweepFailed? then rest
      else if front != [] && front[|front| - 1].SweepFailed? && rest != []
        then rest[..|rest| - 1] + [rest[|rest| - 1] + 1]
      else rest + [1]
  }

  function AtLeast(lengths: seq<nat>, threshold: int): nat {
    if lengths == [] then 0
    else AtLeast(lengths[..|lengths| - 1], threshold) + if lengths[|lengths| - 1] >= threshold then 1 else 0
  }

  function FailureLines(log: seq<Line>): seq<Line> {
    if log == [] then []
    else FailureLines(log[..|log| - 1]) + if log[|log| - 1].FailingRepeatedly? then [log[|log| - 1]] else []
  }

  function BacklogLines(log: seq<Line>): seq<Line> {
    if log == [] then []
    else BacklogLines(log[..|log| - 1]) + if log[|log| - 1].FailingRepeatedly? then [] else [log[|log| - 1]]
  }

  lemma LogSnoc(log: seq<Line>, line: Line)
    ensures FailureLines(log + [line]) == FailureLines(log) + if line.FailingRepeatedly? then [line] else []
    ensures BacklogLines(log + [line]) == BacklogLines(log) + if line.FailingRepeatedly? then [] else [line]
  {
    assert (log + [line])[..|log|] == log;
  }

  lemma LogStep(threshold: int, front: seq<Sweep>, e: Sweep)
    ensures FailureLines(Log(threshold, front + [e])) == FailureLines(Log(threshold, front))
      + if e.SweepFailed? then LinesFor(threshold, front, e) else []
    ensures BacklogLines(Log(threshold, front + [e])) == BacklogLines(Log(threshold, front))
      + if e.SweepFailed? then [] else LinesFor(threshold, front, e)
  {
    hide FailureLines, BacklogLines;
    assert (front + [e])[..|front|] == front;
    var log, lines := Log(threshold, front), LinesFor(threshold, front, e);
    if lines == [] {
      assert log + lines == log;
    } else {
      assert lines == [lines[0]];
      LogSnoc(log, lines[0]);
    }
  }

  lemma {:induction false} LastStreak(trace: seq<Sweep>)
    ensures Streak(trace) > 0 ==> Streaks(trace) != [] && Streaks(trace)[|Streaks(trace)| - 1] == Streak(trace)
  {
    if trace != [] {
      LastStreak(trace[..|trace| - 1]);
    }
  }

  lemma AtLeastSnoc(lengths: seq<nat>, n: nat, threshold: int)
    ensures AtLeast(lengths + [n], threshold) == AtLeast(lengths, threshold) + if n >= threshold then 1 else 0
  {
    assert (lengths + [n])[..|lengths|] == lengths;
  }

  /** A failed sweep makes one more streak reach the threshold exactly when the alert fires. */
  lemma StreakReaches(threshold: int, front: seq<Sweep>)
    requires threshold >= 1
    ensures AtLeast(Streaks(front + [SweepFailed]), threshold)
      == AtLeast(Streaks(front), threshold) + if Streak(front) + 1 == threshold then 1 else 0
  {
    var before, after := Streaks(front), Streaks(front + [SweepFailed]);
    assert (front + [SweepFailed])[..|front|] == front;
    LastStreak(front);
    if Streak(front) > 0 {
      var n := |before| - 1;
      AtLeastSnoc(before[..n], before[n], threshold);
      AtLeastSnoc(before[..n], before[n] + 1, threshold);
      assert before == before[..n] + [before[n]] && after == before[..n] + [before[n] + 1];
    } else {
      assert after == before + [1];
      AtLeastSnoc(before, 1, threshold);
    }
  }

  /** Repeated-failure lines: one for every maximal failure streak that reaches the threshold,
      and each says the threshold. */
  lemma {:induction false} OneLinePerStreak(threshold: int, trace: seq<Sweep>)
    requires threshold >= 1
    ensures |FailureLines(Log(threshold, trace))| == AtLeast(Streaks(trace), threshold)
    ensures forall i :: 0 <= i < |FailureLines(Log(threshold, trace))| ==>
      FailureLines(Log(threshold, trace))[i] == FailingRepeatedly(threshold)
  {
    hide AtLeast, FailureLines, Log;
    if trace == [] {
      OneLineNone(threshold);
    } else {
      var front, e := trace[..|trace| - 1], trace[|trace| - 1];
      assert trace == front + [e];
      OneLinePerStreak(threshold, front);
      LogStep(threshold, front, e);
      if e.SweepFailed? { StreakReaches(threshold, front); }
    }
  }

  lemma OneLineNone(threshold: int)
    ensures FailureLines(Log(threshold, [])) == [] && AtLeast(Streaks([]), threshold) == 0
    ensures BacklogLines(Log(threshold, [])) == []
  {}

  /** A threshold that no streak can equal never alerts. */
  lemma {:induction false} NoThresholdNoLine(threshold: int, trace: seq<Sweep>)
    requires threshold < 1
    ensures FailureLines(Log(threshold, trace)) == []
  {
    hide FailureLines, Log;
    if trace == [] {
      OneLineNone(threshold);
    } else {
      var front, e := trace[..|trace| - 1], trace[|trace| - 1];
      assert trace == front + [e];
      NoThresholdNoLine(threshold, front);
      LogStep(threshold, front, e);
    }
  }

  /** Backlog lines alternate, starting with `started`, and the last one is what the latest
      successful sweep reported. */
  lemma {:induction false} BacklogAlternates(threshold: int, trace: seq<Sweep>)
    ensures var lines := BacklogLines(Log(threshold, trace));
      && (forall i :: 0 <= i < |lines| ==> (lines[i].BacklogStarted? <==> i % 2 == 0) && !lines[i].FailingRepeatedly?)
      && (Backlog(trace) <==> |lines| % 2 == 1)
  {
    hide BacklogLines, Log;
    if trace == [] {
      OneLineNone(threshold);
    } else {
      var front, e := trace[..|trace| - 1], trace[|trace| - 1];
      assert trace == front + [e];
      BacklogAlternates(threshold, front);
      LogStep(threshold, front, e);
    }
  }

  // ----- readiness alerts -----

  /** The outcome of a probe: None is ready. */
  datatype Cause = Draining | StorageError | Busy | Full | ReadOnly
  type Probe = Option<Cause>

  class ReadinessMonitor {
    var openCause: Probe
    var log: seq<Probe>
    ghost var trace: seq<Probe>

    ghost predicate Valid()
      reads this
    {
      openCause == Previous(trace, |trace|) && log == Changes(trace)
    }

    constructor ()
      ensures Valid() && trace == [] && log == []
    {
      openCause, log, trace := None, [], [];
    }

    /** notReady (104-109): true exactly when the probe's outcome is new. */
    method NotReady(cause: Cause) returns (isNew: bool)
      requires Valid()
      modifies this
      ensures Valid() && trace == old(trace) + [Some(cause)] && log == Changes(trace)
      ensures isNew <==> Previous(old(trace), |old(trace)|) != Some(cause)
    {
      trace := trace + [Some(cause)];
      ChangesSnoc(old(trace), Some(cause));
      if openCause == Some(cause) {
        return false;
      }
      openCause := Some(cause);
      log := log + [Some(cause)];
      return true;
    }

    /** ready (110-114). */
    method Ready()
      requires Valid()
      modifies this
      ensures Valid() && trace == old(trace) + [None] && log == Changes(trace)
    {
      trace := trace + [None];
      ChangesSnoc(old(trace), None);
      if openCause == None {
        return;
      }
      openCause := None;
      log := log + [None];
    }
  }

  /** The outcome before position i; the service starts out ready. */
  function Previous(trace: seq<Probe>, i: nat): Probe
    requires i <= |trace|
  {
    if i == 0 then None else trace[i - 1]
  }

  /** The outcomes that differ from the one before. */
  function ChangesFrom(trace: seq<Probe>, i: nat): seq<Probe>
    requires i <= |trace|
    decreases |trace| - i
  {
    if i == |trace| then [] else (if trace[i] != Previous(trace, i) then [trace[i]] else []) + ChangesFrom(trace, i + 1)
  }

  function Changes(trace: seq<Probe>): seq<Probe> {
    ChangesFrom(trace, 0)
  }

  function ChangeAt(trace: seq<Probe>, i: nat): seq<Probe>
    requires i < |trace|
  {
    if trace[i] != Previous(trace, i) then [trace[i]] else []
  }

  lemma ChangesStep(trace: seq<Probe>, i: nat)
    requires i <= |trace|
    ensures ChangesFrom(trace, i) == if i == |trace| then [] else ChangeAt(trace, i) + ChangesFrom(trace, i + 1)
  {}

  lemma {:induction false} ChangesFromSnoc(trace: seq<Probe>, p: Probe, i: nat)
    requires i <= |trace|
    ensures ChangesFrom(trace + [p], i) == ChangesFrom(trace, i) + if p != Previous(trace, |trace|) then [p] else []
    decreases |trace| - i
  {
    hide ChangesFrom;
    var all := trace + [p];
    var last := if p != Previous(trace, |trace|) then [p] else [];
    ChangesStep(all, i);
    ChangesStep(trace, i);
    if i < |trace| {
      assert ChangeAt(all, i) == ChangeAt(trace, i);
      ChangesFromSnoc(trace, p, i + 1);
      hide ChangeAt;
      Assoc(ChangeAt(trace, i), ChangesFrom(trace, i + 1), last);
    } else {
      ChangesStep(all, i + 1);
      assert ChangeAt(all, i) == last;
    }
  }

  lemma ChangesSnoc(trace: seq<Probe>, p: Probe)
    ensures Changes(trace + [p]) == Changes(trace) + if p != Previous(trace, |trace|) then [p] else []
    ensures Previous(trace + [p], |trace| + 1) == p
  {
    ChangesFromSnoc(trace, p, 0);
  }

  /** The log never repeats itself, never starts with a recovery, and ends where the trace ends. */
  lemma {:induction false} NoStutter(trace: seq<Probe>)
    ensures var log := Changes(trace);
      && (log != [] ==> log[0] != None)
      && (forall i :: 0 <= i < |log| - 1 ==> log[i] != log[i + 1])
      && Previous(log, |log|) == Previous(trace, |trace|)
  {
    if trace != [] {
      var front, p := trace[..|trace| - 1], trace[|trace| - 1];
      NoStutter(front);
      assert trace == front + [p];
      ChangesSnoc(front, p);
    }
  }

  // ----- the prune loop -----

  /** Ticks and scheduled continuations call prune; an open sweep settles. */
  datatype LoopEvent = Tick | Continuation | Settled(sweep: Sweep)

  predicate BacklogFound(sweep: Sweep) {
    sweep.Swept? && sweep.backlog
  }

  class PruneLoop {
    const alerts: RetentionMonitor
    var pruning: bool
    var scheduled: nat
    ghost var started: nat

    /** Exactly one report per sweep but for the open one, and a backlog that was just reported is
        never left lying: a sweep is open or a continuation is on its way. */
    ghost predicate Valid()
      reads this, alerts
    {
      && alerts.Valid()
      && started == |alerts.trace| + (if pruning then 1 else 0)
      && (alerts.trace != [] && alerts.trace[|alerts.trace| - 1].Swept? && Backlog(alerts.trace) ==>
        pruning || scheduled > 0)
    }

    constructor (alerts: RetentionMonitor)
      requires alerts.Valid() && alerts.trace == []
      ensures Valid() && this.alerts == alerts && started == 0 && !pruning && scheduled == 0
    {
      this.alerts := alerts;
      pruning, scheduled, started := false, 0, 0;
    }

    /** The call of prune up to its await (344-349). */
    method Prune()
      requires Valid()
      modifies this
      ensures Valid() && pruning && scheduled == old(scheduled)
      ensures started == old(started) + if old(pruning) then 0 else 1
    {
      if pruning {
        return;
      }
      pruning := true;
      started := started + 1;
    }

    /** setImmediate calls the continuation it was given. */
    method RunContinuation()
      requires Valid() && scheduled > 0
      modifies this
      ensures Valid() && pruning && scheduled == old(scheduled) - 1
      ensures started == old(started) + if old(pruning) then 0 else 1
    {
      Prune();
      scheduled := scheduled - 1;
    }

    /** The await returns or throws (349-367): one report, and another round only after success with a backlog. */
    method Settle(sweep: Sweep)
      requires Valid() && pruning
      modifies this, alerts
      ensures Valid() && !pruning && started == old(started)
      ensures alerts.trace == old(alerts.trace) + [sweep] && alerts.log == Log(alerts.threshold, alerts.trace)
      ensures scheduled == old(scheduled) + if BacklogFound(sweep) then 1 else 0
    {
      var continueBacklog := false;
      match sweep {
        case Swept(backlog, batches) =>
          continueBacklog := backlog;
          alerts.SweepDone(backlog, batches);
        case SweepFailed =>
          alerts.SweepThrew();
      }
      pruning := false;
      if continueBacklog {
        scheduled := scheduled + 1;
      }
    }

    /** Any interleaving of ticks, continuations and completions; what cannot happen is skipped. */
    method Interleave(events: seq<LoopEvent>)
      requires Valid()
      modifies this, alerts
      ensures Valid() && started == |alerts.trace| + (if pruning then 1 else 0)
      ensures alerts.log == Log(alerts.threshold, alerts.trace)
      ensures alerts.trace != [] && BacklogFound(alerts.trace[|alerts.trace| - 1]) ==> pruning || scheduled > 0
    {
      var i := 0;
      while i < |events|
        invariant 0 <= i <= |events| && Valid()
      {
        match events[i] {
          case Tick => Prune();
          case Continuation =>
            if scheduled > 0 { RunContinuation(); }
          case Settled(sweep) =>
            if pruning { Settle(sweep); }
        }
        i := i + 1;
      }
    }
  }
}
