/** What the monitors log, said of the sweeps and probes themselves. */
module MonitorLogs {
  import opened Prelude
  import opened Monitors

  /** The latest successful one of the first n sweeps left a backlog. */
  ghost predicate Backlogged(trace: seq<Sweep>, n: nat)
    requires n <= |trace|
  {
    exists j :: 0 <= j < n && BacklogFrom(trace, j, n)
  }

  predicate BacklogFrom(trace: seq<Sweep>, j: nat, n: nat)
    requires j < n <= |trace|
  {
    trace[j].Swept? && trace[j].backlog && forall m :: j < m < n ==> trace[m] == SweepFailed
  }

  /** Exactly the last k of the first n sweeps failed. */
  predicate FailedRun(trace: seq<Sweep>, n: nat, k: int)
    requires n <= |trace|
  {
    0 <= k <= n && (forall m :: n - k <= m < n ==> trace[m] == SweepFailed) && (k < n ==> trace[n - k - 1].Swept?)
  }

  lemma {:induction false} BacklogExactly(trace: seq<Sweep>, n: nat)
    requires n <= |trace|
    ensures Backlog(trace[..n]) <==> Backlogged(trace, n)
  {
    if n > 0 {
      BacklogExactly(trace, n - 1);
      assert trace[..n][..n - 1] == trace[..n - 1];
      if Backlogged(trace, n - 1) && trace[n - 1].SweepFailed? {
        var j :| 0 <= j < n - 1 && BacklogFrom(trace, j, n - 1);
        assert BacklogFrom(trace, j, n);
      }
      if Backlogged(trace, n) {
        var j :| 0 <= j < n && BacklogFrom(trace, j, n);
        if j < n - 1 { assert BacklogFrom(trace, j, n - 1); }
      }
      if trace[n - 1].Swept? && trace[n - 1].backlog { assert BacklogFrom(trace, n - 1, n); }
    }
  }

  lemma {:induction false} StreakExactly(trace: seq<Sweep>, n: nat)
    requires n <= |trace|
    ensures FailedRun(trace, n, Streak(trace[..n])) && forall k :: FailedRun(trace, n, k) ==> k == Streak(trace[..n])
  {
    if n > 0 {
      StreakExactly(trace, n - 1);
      assert trace[..n][..n - 1] == trace[..n - 1];
      forall k | FailedRun(trace, n, k) ensures k == Streak(trace[..n]) {
        if k > 0 { assert FailedRun(trace, n - 1, k - 1); }
      }
    }
  }

  /** The line that sweep i calls for: a backlog began, a backlog ended, or as many sweeps in a row
      as the threshold have now failed. */
  ghost predicate CallsFor(threshold: int, trace: seq<Sweep>, i: nat, line: Line)
    requires i < |trace|
  {
    match line
    case BacklogStarted(batches) => trace[i] == Swept(true, batches) && !Backlogged(trace, i)
    case BacklogCleared => trace[i].Swept? && !trace[i].backlog && Backlogged(trace, i)
    case FailingRepeatedly(n) =>
      trace[i] == SweepFailed && n == threshold && FailedRun(trace, i + 1, n)
  }

  lemma LinesExactly(threshold: int, trace: seq<Sweep>, i: nat)
    requires i < |trace|
    ensures var lines := LinesFor(threshold, trace[..i], trace[i]);
      |lines| <= 1 && forall line :: line in lines <==> CallsFor(threshold, trace, i, line)
  {
    hide Streak, Backlog, Backlogged;
    BacklogExactly(trace, i);
    StreakExactly(trace, i);
    StreakExactly(trace, i + 1);
    if trace[i].SweepFailed? { OneMore(trace, i); }
  }

  lemma OneMore(trace: seq<Sweep>, i: nat)
    requires i < |trace| && trace[i].SweepFailed?
    ensures Streak(trace[..i + 1]) == Streak(trace[..i]) + 1
  {
    assert trace[..i + 1][..i] == trace[..i];
  }

  /** at lists the sweeps that call for a line, in order, and log has their lines. */
  ghost predicate Logs(threshold: int, trace: seq<Sweep>, log: seq<Line>, at: seq<nat>) {
    && |log| == |at| && (forall k :: 0 <= k < |at| ==> at[k] < |trace| && CallsFor(threshold, trace, at[k], log[k]))
    && (forall k, l :: 0 <= k < l < |at| ==> at[k] < at[l])
    && (forall i, line :: 0 <= i < |trace| && CallsFor(threshold, trace, i, line) ==> i in at)
  }

  /** The log has exactly one line for every sweep that calls for one, in order. */
  lemma LogExactly(threshold: int, trace: seq<Sweep>) returns (at: seq<nat>)
    ensures Logs(threshold, trace, Log(threshold, trace), at)
  {
    at := LogUpTo(threshold, trace, |trace|);
    assert trace[..|trace|] == trace;
  }

  ghost predicate LogsUpTo(threshold: int, trace: seq<Sweep>, n: nat, log: seq<Line>, at: seq<nat>)
    requires n <= |trace|
  {
    && |log| == |at| && (forall k :: 0 <= k < |at| ==> at[k] < n && CallsFor(threshold, trace, at[k], log[k]))
    && (forall k, l :: 0 <= k < l < |at| ==> at[k] < at[l])
    && (forall i, line :: 0 <= i < n && CallsFor(threshold, trace, i, line) ==> i in at)
  }

  lemma {:induction false} LogUpTo(threshold: int, trace: seq<Sweep>, n: nat) returns (at: seq<nat>)
    requires n <= |trace|
    ensures LogsUpTo(threshold, trace, n, Log(threshold, trace[..n]), at)
  {
    hide CallsFor, LinesFor;
    if n == 0 {
      at := [];
    } else {
      var before := LogUpTo(threshold, trace, n - 1);
      LinesExactly(threshold, trace, n - 1);
      var lines := LinesFor(threshold, trace[..n - 1], trace[n - 1]);
      assert trace[..n][..n - 1] == trace[..n - 1];
      assert Log(threshold, trace[..n]) == Log(threshold, trace[..n - 1]) + lines;
      at := if lines == [] then before else before + [n - 1];
      UpToNext(threshold, trace, n - 1, Log(threshold, trace[..n - 1]), before, lines);
    }
  }

  lemma UpToNext(threshold: int, trace: seq<Sweep>, n: nat, log: seq<Line>, at: seq<nat>, lines: seq<Line>)
    requires n < |trace| && LogsUpTo(threshold, trace, n, log, at) && |lines| <= 1
    requires forall line :: line in lines <==> CallsFor(threshold, trace, n, line)
    ensures LogsUpTo(threshold, trace, n + 1, log + lines, if lines == [] then at else at + [n])
  {
    hide CallsFor;
    if lines != [] {
      assert lines[0] in lines;
      assert (at + [n])[|at|] == n;
    }
  }

  // ----- readiness -----

  /** The outcome of probe i differs from the one before; the service starts out ready. */
  predicate IsNew(trace: seq<Probe>, i: nat)
    requires i < |trace|
  {
    trace[i] != if i == 0 then None else trace[i - 1]
  }

  /** at lists the first n probes whose outcome was new, in order, and log has their outcomes. */
  ghost predicate Announces(trace: seq<Probe>, n: nat, log: seq<Probe>, at: seq<nat>)
    requires n <= |trace|
  {
    && |log| == |at| && (forall k :: 0 <= k < |at| ==> at[k] < n && IsNew(trace, at[k]) && log[k] == trace[at[k]])
    && (forall k, l :: 0 <= k < l < |at| ==> at[k] < at[l])
    && (forall i: nat :: i < n && IsNew(trace, i) ==> i in at)
  }

  /** The log has exactly the new outcomes. */
  lemma ChangesExactly(trace: seq<Probe>) returns (at: seq<nat>)
    ensures Announces(trace, |trace|, Changes(trace), at)
  {
    at := ChangesUpTo(trace, |trace|);
    assert trace[..|trace|] == trace;
  }

  lemma {:induction false} ChangesUpTo(trace: seq<Probe>, n: nat) returns (at: seq<nat>)
    requires n <= |trace|
    ensures Announces(trace, n, Changes(trace[..n]), at)
  {
    if n == 0 {
      at := [];
    } else {
      hide Announces, Changes;
      var before := ChangesUpTo(trace, n - 1);
      assert trace[..n - 1] + [trace[n - 1]] == trace[..n];
      ChangesSnoc(trace[..n - 1], trace[n - 1]);
      ChangeNext(trace, n - 1, Changes(trace[..n - 1]), before);
      at := if IsNew(trace, n - 1) then before + [n - 1] else before;
      assert Changes(trace[..n - 1]) + [] == Changes(trace[..n - 1]);
    }
  }

  lemma ChangeNext(trace: seq<Probe>, n: nat, log: seq<Probe>, at: seq<nat>)
    requires n < |trace| && Announces(trace, n, log, at)
    ensures IsNew(trace, n) ==> Announces(trace, n + 1, log + [trace[n]], at + [n])
    ensures !IsNew(trace, n) ==> Announces(trace, n + 1, log, at)
  {
    hide IsNew;
    assert (at + [n])[|at|] == n;
  }
}
