/** Sequences of deploys, and the rollback plans that must be able to undo them
    (scripts/cutover-transaction.ts). */
module Cutover {
  import opened Prelude
  import opened Deploy
  import opened DeployRuns

  // ----- sequences of attempts -----

  datatype Try = Try(env: Environment, w: Conditions)

  function After(vars: Vars, tries: seq<Try>): Vars
    decreases |tries|
  {
    if tries == [] then vars
    else
      var t := tries[|tries| - 1];
      Transaction(t.env, t.w, After(vars, tries[..|tries| - 1])).vars
  }

  /** The attempt did not end in a half-restored store. */
  predicate CleanAt(vars: Vars, tries: seq<Try>, i: nat)
    requires i < |tries|
  {
    !Transaction(tries[i].env, tries[i].w, After(vars, tries[..i])).outcome.NotRestored?
  }

  ghost predicate Clean(vars: Vars, tries: seq<Try>) {
    forall i :: 0 <= i < |tries| ==> CleanAt(vars, tries, i)
  }

  predicate ReleasedAt(vars: Vars, tries: seq<Try>, i: nat)
    requires i < |tries|
  {
    Transaction(tries[i].env, tries[i].w, After(vars, tries[..i])).outcome.Released?
  }

  lemma AfterSnoc(vars: Vars, tries: seq<Try>, i: nat)
    requires i < |tries|
    ensures After(vars, tries[..i + 1]) == Transaction(tries[i].env, tries[i].w, After(vars, tries[..i])).vars
  {
    assert tries[..i + 1][..i] == tries[..i];
  }

  /** What a store selects. */
  predicate Stores(vars: Vars, engine: string, path: string) {
    Get(vars, ASSISTANT_ENGINE) == Some(engine) && Get(vars, DATABASE_PATH) == Some(path)
  }

  /** What a request asks for. */
  predicate Asks(env: Environment, engine: string, path: string, disposition: string) {
    Required(env.engine) == Ok(engine) && Required(env.path) == Ok(path) && Required(env.disposition) == Ok(disposition)
  }

  const SUPERSEDED := Some("superseded_in_place_migration")

  /** One clean attempt: engine, path and disposition stay all old or become all as requested, the
      disposition says whether the path moved, and a step to v2 moves it unless the recorded
      exception is stated. */
  lemma PairMovesTogether(env: Environment, w: Conditions, vars: Vars)
    ensures var a := Transaction(env, w, vars);
      && (!a.outcome.NotRestored? && !a.outcome.Released? ==> a.vars == vars)
      && (a.outcome.Released? ==>
            && Desired(env, Snapshot(vars)).Ok? && ASSISTANT_ENGINE in vars && DATABASE_PATH in vars
            && var s := Selected(env, Snapshot(vars));
            && Asks(env, s.engine, s.path, s.disposition) && Stores(a.vars, s.engine, s.path)
            && Get(a.vars, DATABASE_PATH_DISPOSITION) == Some(s.disposition)
            && (s.disposition == "new_unused" <==> s.path != vars[DATABASE_PATH])
            && (s.engine == "v2" && vars[ASSISTANT_ENGINE] != "v2" && env.adr != SUPERSEDED ==>
                  s.path != vars[DATABASE_PATH]))
  {
    hide Desired, Value, Transaction, Required;
    DeployOutcomes(env, w, vars);
    var a := Transaction(env, w, vars);
    if a.outcome.Released? {
      WasCovered(env, w, vars);
      DesiredKeys(env, Snapshot(vars));
      SelectedValues(env, Snapshot(vars));
      AsksSelected(env, Snapshot(vars));
      var d, s := Desired(env, Snapshot(vars)).value, Selected(env, Snapshot(vars));
      assert !Introducible(d[4].0) && !Introducible(d[5].0);
      assert Get(a.vars, ASSISTANT_ENGINE) == Some(s.engine) && Get(a.vars, DATABASE_PATH) == Some(s.path);
      assert Get(a.vars, DATABASE_PATH_DISPOSITION) == Some(s.disposition);
      InSnapshot(vars);
    }
  }

  lemma AsksSelected(env: Environment, existing: Vars)
    requires Desired(env, existing).Ok?
    ensures var s := Selected(env, existing); Asks(env, s.engine, s.path, s.disposition)
  {
    hide Required, PathOk, ExactHash, CheckSelection;
  }

  lemma InSnapshot(vars: Vars)
    ensures Get(Snapshot(vars), DATABASE_PATH) == Get(vars, DATABASE_PATH)
    ensures Get(Snapshot(vars), ASSISTANT_ENGINE) == Get(vars, ASSISTANT_ENGINE)
  {
    assert ROLLBACK_KEYS[6] == ASSISTANT_ENGINE && ROLLBACK_KEYS[7] == DATABASE_PATH;
  }

  // ----- how v2 comes to be selected on another engine's database -----

  /** Another engine is selected, on the given path. */
  ghost predicate OtherServes(vars: Vars, path: string) {
    exists engine: string :: engine != "v2" && Stores(vars, engine, path)
  }

  /** After n attempts v2 is selected on a path another engine was selected on after m of them. */
  ghost predicate Reused(vars: Vars, tries: seq<Try>, m: nat, n: nat)
    requires m <= |tries| && n <= |tries|
  {
    exists path: string :: OtherServes(After(vars, tries[..m]), path) && Stores(After(vars, tries[..n]), "v2", path)
  }

  /** Request k asks for v2 on a path another engine was selected on after m attempts, as a new
      path or as the one in service. The deploy compares a new path with the one in service only. */
  ghost predicate Reclaims(vars: Vars, tries: seq<Try>, m: nat, k: nat)
    requires m <= k < |tries|
  {
    exists path: string :: OtherServes(After(vars, tries[..m]), path)
      && (Asks(tries[k].env, "v2", path, "new_unused")
        || (m == k && Asks(tries[k].env, "v2", path, "existing_expected")))
  }

  /** A released reclaiming request does select v2 there. */
  lemma ReclaimReuses(vars: Vars, tries: seq<Try>, m: nat, k: nat)
    requires m <= k < |tries| && ReleasedAt(vars, tries, k) && Reclaims(vars, tries, m, k)
    ensures Reused(vars, tries, m, k + 1)
  {
    hide Transaction, Required, OtherServes;
    AfterSnoc(vars, tries, k);
    PairMovesTogether(tries[k].env, tries[k].w, After(vars, tries[..k]));
  }

  /** The first time v2 is selected there, the request reclaimed the path. */
  lemma ReuseReclaims(vars: Vars, tries: seq<Try>, m: nat, k: nat)
    requires m <= k < |tries| && CleanAt(vars, tries, k) && Reused(vars, tries, m, k + 1) && !Reused(vars, tries, m, k)
    ensures ReleasedAt(vars, tries, k) && (Reclaims(vars, tries, m, k) || Reclaims(vars, tries, k, k))
  {
    hide Transaction, Required;
    var before := After(vars, tries[..k]);
    AfterSnoc(vars, tries, k);
    PairMovesTogether(tries[k].env, tries[k].w, before);
    var path: string :| OtherServes(After(vars, tries[..m]), path) && Stores(After(vars, tries[..k + 1]), "v2", path);
    if ReleasedAt(vars, tries, k) && Asks(tries[k].env, "v2", path, "existing_expected") {
      assert Stores(before, before[ASSISTANT_ENGINE], path);
      assert OtherServes(before, path);
    }
  }

  /** After n attempts v2 is selected where another engine was before. */
  ghost predicate ReusedBy(vars: Vars, tries: seq<Try>, n: nat)
    requires n <= |tries|
  {
    exists m: nat :: m <= n && Reused(vars, tries, m, n)
  }

  ghost predicate Reclaiming(vars: Vars, tries: seq<Try>, k: nat)
    requires k < |tries|
  {
    exists m: nat :: m <= k && Reclaims(vars, tries, m, k)
  }

  /** One released attempt, when v2 was on no such path before: it is afterwards if and only if the
      request reclaims one. */
  lemma ReclaimedExactly(vars: Vars, tries: seq<Try>, k: nat)
    requires k < |tries| && ReleasedAt(vars, tries, k) && !ReusedBy(vars, tries, k)
    ensures ReusedBy(vars, tries, k + 1) <==> Reclaiming(vars, tries, k)
  {
    hide Transaction, Reclaims;
    if ReusedBy(vars, tries, k + 1) {
      var m: nat :| m <= k + 1 && Reused(vars, tries, m, k + 1);
      assert m <= k;
      assert !Reused(vars, tries, m, k);
      ReuseReclaims(vars, tries, m, k);
    }
    if m: nat :| m <= k && Reclaims(vars, tries, m, k) {
      ReclaimReuses(vars, tries, m, k);
    }
  }

  /** Over any sequence of clean attempts: v2 is at some time selected on a path another engine was
      selected on before if and only if some released request reclaimed one. */
  lemma ReusedExactly(vars: Vars, tries: seq<Try>)
    requires Clean(vars, tries)
    ensures (exists n: nat :: n <= |tries| && ReusedBy(vars, tries, n))
       <==> (exists k: nat :: k < |tries| && ReleasedAt(vars, tries, k) && Reclaiming(vars, tries, k))
  {
    hide ReleasedAt, Reused, Reclaims, CleanAt;
    if n: nat :| n <= |tries| && ReusedBy(vars, tries, n) {
      var m: nat :| m <= n && Reused(vars, tries, m, n);
      var k := FirstReuse(vars, tries, m, n);
    }
    if k: nat :| k < |tries| && ReleasedAt(vars, tries, k) && Reclaiming(vars, tries, k) {
      var m: nat :| m <= k && Reclaims(vars, tries, m, k);
      ReclaimReuses(vars, tries, m, k);
      assert ReusedBy(vars, tries, k + 1);
    }
  }

  lemma NotAtOnce(vars: Vars, tries: seq<Try>, m: nat)
    requires m <= |tries|
    ensures !Reused(vars, tries, m, m)
  {
    hide After;
  }

  lemma {:induction false} FirstReuse(vars: Vars, tries: seq<Try>, m: nat, n: nat) returns (k: nat)
    requires Clean(vars, tries) && m <= n <= |tries| && Reused(vars, tries, m, n)
    ensures m <= k < n && ReleasedAt(vars, tries, k) && Reclaiming(vars, tries, k)
    decreases n
  {
    hide ReleasedAt, Reclaims, CleanAt, Reused, Transaction, After;
    NotAtOnce(vars, tries, m);
    if m == n {
      assert false;
    } else if Reused(vars, tries, m, n - 1) {
      k := FirstReuse(vars, tries, m, n - 1);
    } else {
      ReuseReclaims(vars, tries, m, n - 1);
      k := n - 1;
    }
  }

  const SMOOTH := Conditions(true, Call(true, false), {}, true, (k: Key) => Call(true, false))

  /** The request for v2 on the first database again, first as new and then as existing. */
  function Back(env: Environment, path: string, disposition: string): Environment {
    env.(engine := Some("v2"), path := Some(path), disposition := Some(disposition))
  }

  /** Reclaiming is accepted: from v1 on its own database, to v2 on a new one, and back to the
      first database, again as "new"; after that it even passes as existing. */
  lemma AbandonedDatabaseReturns(vars: Vars, env: Environment, engine: string, path: string)
    requires Stores(vars, engine, path) && engine != "v2" && PlanAccepts(vars)
    requires PathOk(path) && Required(Some(path)) == Ok(path)
    requires Desired(env, Snapshot(vars)).Ok? && env.adr != SUPERSEDED
    requires Selected(env, Snapshot(vars)).engine == "v2"
    ensures var tries := [Try(env, SMOOTH), Try(Back(env, path, "new_unused"), SMOOTH),
      Try(Back(env, path, "existing_expected"), SMOOTH)];
      && ReleasedAt(vars, tries, 0) && ReleasedAt(vars, tries, 1) && ReleasedAt(vars, tries, 2)
      && Asks(tries[1].env, "v2", path, "new_unused") && Asks(tries[2].env, "v2", path, "existing_expected")
  {
    hide Desired, Value, Transaction, Required, PathOk, PlanAccepts;
    var tries := [Try(env, SMOOTH), Try(Back(env, path, "new_unused"), SMOOTH),
      Try(Back(env, path, "existing_expected"), SMOOTH)];
    BackAsks(env, path);
    SmoothReleases(env, vars);
    PairMovesTogether(env, SMOOTH, vars);
    var second := Transaction(env, SMOOTH, vars).vars;
    StillDeployable(env, vars, second, path, "new_unused");
    SmoothReleases(tries[1].env, second);
    PairMovesTogether(tries[1].env, SMOOTH, second);
    var third := Transaction(tries[1].env, SMOOTH, second).vars;
    StillDeployable(tries[1].env, second, third, path, "existing_expected");
    SmoothReleases(tries[2].env, third);
    assert After(vars, tries[..0]) == vars;
    AfterSnoc(vars, tries, 0);
    AfterSnoc(vars, tries, 1);
  }

  lemma BackAsks(env: Environment, path: string)
    requires Required(Some(path)) == Ok(path)
    ensures Asks(Back(env, path, "new_unused"), "v2", path, "new_unused")
    ensures Asks(Back(env, path, "existing_expected"), "v2", path, "existing_expected")
  {
    hide Required, IsSpace;
    Untrimmed("v2");
    Untrimmed("new_unused");
    Untrimmed("existing_expected");
  }

  lemma SmoothReleases(env: Environment, vars: Vars)
    requires Desired(env, Snapshot(vars)).Ok? && PlanAccepts(vars)
    ensures Transaction(env, SMOOTH, vars).outcome.Released? && PlanAccepts(Transaction(env, SMOOTH, vars).vars)
    ensures forall k: Key ::
      Get(Transaction(env, SMOOTH, vars).vars, k) == Overlay(vars, Desired(env, Snapshot(vars)).value, k)
  {
    hide Desired, Value, SetAll, Restore;
    PlanCovers(env, vars);
    DeployOutcomes(env, SMOOTH, vars);
    var after := Transaction(env, SMOOTH, vars).vars;
    forall i | 0 <= i < |ROLLBACK_KEYS| && !Introducible(ROLLBACK_KEYS[i]) ensures ROLLBACK_KEYS[i] in after {
      assert Get(vars, ROLLBACK_KEYS[i]).Some?;
      assert Get(after, ROLLBACK_KEYS[i]).Some?;
    }
  }

  /** With v2 in service, the request for another path as new, or for its own as existing, is again
      accepted on the store a release left. */
  lemma StillDeployable(env: Environment, vars: Vars, mid: Vars, path: string, disposition: string)
    requires Desired(env, Snapshot(vars)).Ok? && PathOk(path)
      && Asks(Back(env, path, disposition), "v2", path, disposition)
    requires Get(mid, ASSISTANT_ENGINE) == Some("v2")
    requires (disposition == "new_unused" && Get(mid, DATABASE_PATH) != Some(path))
      || (disposition == "existing_expected" && Get(mid, DATABASE_PATH) == Some(path))
    requires forall k: Key :: Get(mid, k) == Overlay(vars, Desired(env, Snapshot(vars)).value, k)
    ensures Desired(Back(env, path, disposition), Snapshot(mid)).Ok?
  {
    hide Required, PathOk, ExactHash, Value;
    InSnapshot(mid);
    var d := Desired(env, Snapshot(vars)).value;
    assert ROLLBACK_KEYS[4] == LLM_REASONING_EFFORT && ROLLBACK_KEYS[5] == LLM_THINKING_MODE;
    if Required(env.reasoning) == Ok("unset") { StaysAbsent(vars, mid, d, LLM_REASONING_EFFORT); }
    if Required(env.thinking) == Ok("unset") { StaysAbsent(vars, mid, d, LLM_THINKING_MODE); }
    assert CheckSelection(Back(env, path, disposition), Snapshot(mid), "v2", path, disposition).None?;
  }

  lemma StaysAbsent(vars: Vars, mid: Vars, d: seq<(Key, string)>, k: Key)
    requires RollbackKey(k) && k !in Snapshot(vars) && forall i :: 0 <= i < |d| ==> d[i].0 != k
    requires Get(mid, k) == Overlay(vars, d, k)
    ensures k !in Snapshot(mid)
  {
    ValueKeys(d, k);
  }

  // ----- the plans -----

  /** The keys a plan cannot do without. */
  predicate PlanAccepts(prior: Vars) {
    forall i :: 0 <= i < |ROLLBACK_KEYS| && !Introducible(ROLLBACK_KEYS[i]) ==> ROLLBACK_KEYS[i] in prior
  }

  /** collectRollbackVariables (44-58): what can be restored, and every gap at once. */
  method CollectRollbackVariables(keys: seq<Key>, prior: Vars) returns (variables: Vars, missing: seq<Key>)
    ensures variables == map k | k in prior && k in keys :: prior[k]
    ensures forall k :: k in missing <==> k in keys && !Introducible(k) && k !in prior
  {
    variables, missing := map[], [];
    var i := 0;
    while i < |keys|
      invariant 0 <= i <= |keys|
      invariant variables == map k | k in prior && k in keys[..i] :: prior[k]
      invariant forall k :: k in missing <==> k in keys[..i] && !Introducible(k) && k !in prior
    {
      var key := keys[i];
      if key !in prior {
        if !Introducible(key) {
          missing := missing + [key];
        }
      } else {
        variables := variables[key := prior[key]];
      }
      i := i + 1;
    }
    assert keys[..i] == keys;
  }

  /** planAutomaticRollback (112-118). */
  method PlanAutomaticRollback(prior: Vars) returns (plan: Result<Vars, seq<Key>>)
    ensures plan.Ok? <==> PlanAccepts(prior)
    ensures plan.Ok? ==> plan.value == Snapshot(prior)
    ensures plan.Err? ==> forall k :: k in plan.error <==> RollbackKey(k) && !Introducible(k) && k !in prior
  {
    hide PlanAccepts;
    var variables, missing := CollectRollbackVariables(ROLLBACK_KEYS, prior);
    MissingExactly(prior, missing);
    return if missing == [] then Ok(variables) else Err(missing);
  }

  lemma MissingExactly(prior: Vars, missing: seq<Key>)
    requires forall k :: k in missing <==> RollbackKey(k) && !Introducible(k) && k !in prior
    ensures missing == [] <==> PlanAccepts(prior)
  {
    if missing != [] {
      assert missing[0] in missing;
      var j :| 0 <= j < |ROLLBACK_KEYS| && ROLLBACK_KEYS[j] == missing[0];
    }
    if !PlanAccepts(prior) {
      var i :| 0 <= i < |ROLLBACK_KEYS| && !Introducible(ROLLBACK_KEYS[i]) && ROLLBACK_KEYS[i] !in prior;
      assert RollbackKey(ROLLBACK_KEYS[i]);
    }
  }

  /** A probe selection that names all nine keys and is refused by no check. */
  function Probe(existing: Vars): Environment {
    var path := if Get(existing, DATABASE_PATH) == Some("/data/a") then "/data/b" else "/data/a";
    Environment(Some("disabled"), Some("high"), Some("v1"), Some(path), Some("new_unused"), None,
                Some(seq(40, i => '0')), Some(seq(64, i => '0')), Some(seq(64, i => '0')), Some("m"))
  }

  lemma Untrimmed(s: string)
    requires s != [] && '!' <= s[0] <= '~' && '!' <= s[|s| - 1] <= '~'
    ensures Required(Some(s)) == Ok(s)
  {
    assert !IsSpace(s[0]) && !IsSpace(s[|s| - 1]);
  }

  lemma ProbeReads(existing: Vars)
    ensures var e := Probe(existing);
      && Required(e.thinking) == Ok("disabled") && Required(e.reasoning) == Ok("high") && Required(e.engine) == Ok("v1")
      && Required(e.path) == Ok(e.path.value) && Required(e.disposition) == Ok("new_unused")
      && Required(e.sha) == Ok(e.sha.value) && Required(e.buildHash) == Ok(e.buildHash.value)
      && Required(e.binding) == Ok(e.binding.value) && Required(e.model) == Ok("m")
  {
    hide Required, IsSpace;
    var e := Probe(existing);
    Untrimmed("disabled");
    Untrimmed("high");
    Untrimmed("v1");
    Untrimmed("/data/a");
    Untrimmed("/data/b");
    Untrimmed("new_unused");
    Untrimmed("m");
    Untrimmed(e.sha.value);
    Untrimmed(e.binding.value);
  }

  lemma ProbeChecks(existing: Vars)
    ensures var e := Probe(existing);
      PathOk(e.path.value) && ExactHash(e.sha.value, 40) && ExactHash(e.binding.value, 64)
        && ExactHash(e.buildHash.value, 64)
    ensures CheckSelection(Probe(existing), existing, "v1", Probe(existing).path.value, "new_unused").None?
  {}

  lemma ProbeNamesAll(existing: Vars)
    ensures Desired(Probe(existing), existing).Ok?
    ensures forall k :: RollbackKey(k) ==> k in Keys(Desired(Probe(existing), existing).value)
  {
    hide Required, PathOk, ExactHash, CheckSelection, Probe;
    ProbeReads(existing);
    ProbeChecks(existing);
    var d := Desired(Probe(existing), existing).value;
    assert |d| == 9;
    DesiredKeys(Probe(existing), existing);
    assert Keys(d)[7] == LLM_REASONING_EFFORT && Keys(d)[8] == LLM_THINKING_MODE;
  }

  /** The plan accepts a store exactly when the deploy's own coverage check passes for every
      selection that could be deployed onto it. */
  lemma CoverageIffPlan(vars: Vars)
    ensures PlanAccepts(vars) <==>
      forall env: Environment :: Desired(env, Snapshot(vars)).Ok? ==>
        Covered(Snapshot(vars), Desired(env, Snapshot(vars)).value)
  {
    hide Desired, Probe;
    if PlanAccepts(vars) {
      forall env: Environment | Desired(env, Snapshot(vars)).Ok?
        ensures Covered(Snapshot(vars), Desired(env, Snapshot(vars)).value)
      {
        PlanCovers(env, vars);
      }
    } else {
      ProbeNamesAll(Snapshot(vars));
      var i :| 0 <= i < |ROLLBACK_KEYS| && !Introducible(ROLLBACK_KEYS[i]) && ROLLBACK_KEYS[i] !in vars;
      var k, d := ROLLBACK_KEYS[i], Desired(Probe(Snapshot(vars)), Snapshot(vars)).value;
      assert RollbackKey(k);
      var j :| 0 <= j < |d| && Keys(d)[j] == k;
      assert !Covered(Snapshot(vars), d);
    }
  }

  lemma PlanCovers(env: Environment, vars: Vars)
    requires PlanAccepts(vars) && Desired(env, Snapshot(vars)).Ok?
    ensures Covered(Snapshot(vars), Desired(env, Snapshot(vars)).value)
  {
    hide Desired;
    DesiredKeys(env, Snapshot(vars));
    var d := Desired(env, Snapshot(vars)).value;
    forall i | 0 <= i < |d| && !Introducible(d[i].0) ensures d[i].0 in Snapshot(vars) {
      assert Keys(d)[i] == d[i].0 && RollbackKey(d[i].0);
      var j :| 0 <= j < |ROLLBACK_KEYS| && ROLLBACK_KEYS[j] == d[i].0;
    }
  }

  lemma WasCovered(env: Environment, w: Conditions, vars: Vars)
    requires Transaction(env, w, vars).outcome.Released?
    ensures Desired(env, Snapshot(vars)).Ok? && Covered(Snapshot(vars), Desired(env, Snapshot(vars)).value)
  {
    hide Desired, SetAll, Restore;
  }

  /** Executing the plan made from the store before a release brings that store back, except that
      an introduced disposition stays set. */
  lemma PlanUndoesRelease(env: Environment, w: Conditions, vars: Vars, k: Key)
    requires Transaction(env, w, vars).outcome.Released?
    ensures var undone := Transaction(env, w, vars).vars + Snapshot(vars);
      Get(undone, k) == Get(vars, k) || (k == DATABASE_PATH_DISPOSITION && k !in vars)
  {
    hide Desired, Transaction, Value, RollbackKey;
    DeployOutcomes(env, w, vars);
    var d := Desired(env, Snapshot(vars)).value;
    DesiredKeys(env, Snapshot(vars));
    ValueKeys(d, k);
    assert Get(Transaction(env, w, vars).vars, k) == Overlay(vars, d, k);
    if k !in Snapshot(vars) && k in Keys(d) {
      WasCovered(env, w, vars);
      var j :| 0 <= j < |d| && Keys(d)[j] == k;
      assert Introducible(k) && RollbackKey(k);
    }
  }

  /** planSignedFullV1Rollback (172-195). */
  predicate SignedPlanAccepts(signature: string, prior: Vars, abandonedPath: string) {
    TrimEnd(TrimStart(signature)) != "" && PlanAccepts(prior) && Get(prior, DATABASE_PATH) != Some(abandonedPath)
  }

  /** The signed full rollback from the store before a release is available exactly when the
      release went to a new database. */
  lemma SignedRollbackExactly(env: Environment, w: Conditions, vars: Vars, signature: string)
    requires PlanAccepts(vars) && Transaction(env, w, vars).outcome.Released?
    requires TrimEnd(TrimStart(signature)) != ""
    ensures var v := Transaction(env, w, vars).vars;
      DATABASE_PATH in v
      && (SignedPlanAccepts(signature, vars, v[DATABASE_PATH]) <==>
        Get(v, DATABASE_PATH_DISPOSITION) == Some("new_unused"))
  {
    hide Transaction, PlanAccepts, Required;
    PairMovesTogether(env, w, vars);
  }
}
