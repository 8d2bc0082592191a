/** The private production deploy: a remote variable store where a failed batch may have applied
    any subset, followed by one compensating call per key, each of which may fail too
    (scripts/deploy-private-production.ts, scripts/cutover-transaction.ts). */
module Deploy {
  import opened Prelude

  /** The nine rollback keys, and every other variable of the service. */
  datatype Key =
    | RELEASE_SHA | RELEASE_BUILD_HASH | RELEASE_SOURCE_BINDING_SHA256
    | LLM_MODEL | LLM_REASONING_EFFORT | LLM_THINKING_MODE
    | ASSISTANT_ENGINE | DATABASE_PATH | DATABASE_PATH_DISPOSITION
    | Other(name: string)

  const ROLLBACK_KEYS: seq<Key> := [
    RELEASE_SHA, RELEASE_BUILD_HASH, RELEASE_SOURCE_BINDING_SHA256, LLM_MODEL, LLM_REASONING_EFFORT,
    LLM_THINKING_MODE, ASSISTANT_ENGINE, DATABASE_PATH, DATABASE_PATH_DISPOSITION]

  predicate RollbackKey(k: Key) {
    k in ROLLBACK_KEYS
  }

  type Vars = map<Key, string>

  predicate Introducible(k: Key) {
    k.DATABASE_PATH_DISPOSITION?
  }

  /** The operator's environment; None where a variable is not set. */
  datatype Environment = Environment(
    thinking: Option<string>, reasoning: Option<string>, engine: Option<string>, path: Option<string>,
    disposition: Option<string>, adr: Option<string>, sha: Option<string>, buildHash: Option<string>,
    binding: Option<string>, model: Option<string>)

  datatype Refusal = Missing | BadValue | NotAbsent | PathInService | PathNotInService | ReusesDatabase
    | NoRollbackValue | Preflight

  // ----- reading the environment -----

  predicate IsSpace(ch: char) {
    ch in "\t\n\r \U{000B}\U{000C}\U{00A0}\U{1680}\U{2028}\U{2029}\U{202F}\U{205F}\U{3000}\U{FEFF}"
      || '\U{2000}' <= ch <= '\U{200A}'
  }

  function TrimStart(s: string): string {
    if s != [] && IsSpace(s[0]) then TrimStart(s[1..]) else s
  }

  function TrimEnd(s: string): string {
    if s != [] && IsSpace(s[|s| - 1]) then TrimEnd(s[..|s| - 1]) else s
  }

  function Required(value: Option<string>): Result<string, Refusal> {
    if value.None? || TrimEnd(TrimStart(value.value)) == "" then Err(Missing) else Ok(TrimEnd(TrimStart(value.value)))
  }

  predicate ExactHash(s: string, n: nat) {
    |s| == n && forall i :: 0 <= i < n ==> '0' <= s[i] <= '9' || 'a' <= s[i] <= 'f'
  }

  function RequiredHash(value: Option<string>, n: nat): Result<string, Refusal> {
    if Required(value).Ok? && !ExactHash(Required(value).value, n) then Err(BadValue) else Required(value)
  }

  predicate PathOk(s: string) {
    "/data/" <= s && (forall i :: 0 <= i < |s| - 1 && s[i] == '.' ==> s[i + 1] != '.') && s[|s| - 1] != '/'
  }

  function Get(vars: Vars, k: Key): Option<string> {
    if k in vars then Some(vars[k]) else None
  }

  /** The engine, path and disposition checks of desiredReleaseVariables (91-120). */
  function CheckSelection(env: Environment, existing: Vars, engine: string, path: string,
      disposition: string): Option<Refusal> {
    if disposition == "new_unused" && Get(existing, DATABASE_PATH) == Some(path) then Some(PathInService)
    else if disposition == "existing_expected" && Get(existing, DATABASE_PATH) != Some(path) then Some(PathNotInService)
    else if engine == "v2" && ASSISTANT_ENGINE in existing && existing[ASSISTANT_ENGINE] != "v2"
      && disposition == "existing_expected" && env.adr != Some("superseded_in_place_migration") then
      Some(ReusesDatabase)
    else None
  }

  /** desiredReleaseVariables (71-140): the variables in the order they are set. */
  function Desired(env: Environment, existing: Vars): Result<seq<(Key, string)>, Refusal> {
    var thinking, reasoning := Required(env.thinking), Required(env.reasoning);
    if thinking.Err? || reasoning.Err? then Err(Missing)
    else if thinking.value != "disabled" && thinking.value != "unset" then Err(BadValue)
    else if reasoning.value == "unset" && LLM_REASONING_EFFORT in existing then Err(NotAbsent)
    else if thinking.value == "unset" && LLM_THINKING_MODE in existing then Err(NotAbsent) else
    var engine, path, disposition := Required(env.engine), Required(env.path), Required(env.disposition);
    if engine.Err? then Err(Missing)
    else if engine.value != "v1" && engine.value != "v2" then Err(BadValue)
    else if path.Err? then Err(Missing)
    else if !PathOk(path.value) then Err(BadValue)
    else if disposition.Err? then Err(Missing)
    else if disposition.value != "new_unused" && disposition.value != "existing_expected" then Err(BadValue)
    else if CheckSelection(env, existing, engine.value, path.value, disposition.value).Some? then
      Err(CheckSelection(env, existing, engine.value, path.value, disposition.value).value) else
    var sha, buildHash := RequiredHash(env.sha, 40), RequiredHash(env.buildHash, 64);
    var binding, model := RequiredHash(env.binding, 64), Required(env.model);
    if sha.Err? then Err(sha.error)
    else if buildHash.Err? then Err(buildHash.error)
    else if binding.Err? then Err(binding.error)
    else if model.Err? then Err(model.error)
    else Ok(
      [(RELEASE_SHA, sha.value), (RELEASE_BUILD_HASH, buildHash.value), (RELEASE_SOURCE_BINDING_SHA256, binding.value),
       (LLM_MODEL, model.value), (ASSISTANT_ENGINE, engine.value), (DATABASE_PATH, path.value),
       (DATABASE_PATH_DISPOSITION, disposition.value)]
      + (if reasoning.value == "unset" then [] else [(LLM_REASONING_EFFORT, reasoning.value)])
      + (if thinking.value == "disabled" then [(LLM_THINKING_MODE, "disabled")] else []))
  }

  function Keys(desired: seq<(Key, string)>): (ks: seq<Key>)
    ensures |ks| == |desired| && forall i :: 0 <= i < |ks| ==> ks[i] == desired[i].0
  {
    seq(|desired|, i requires 0 <= i < |desired| => desired[i].0)
  }

  /** assertRollbackCoverage (162-174). */
  predicate Covered(snapshot: Vars, desired: seq<(Key, string)>) {
    forall i :: 0 <= i < |desired| && !Introducible(desired[i].0) ==> desired[i].0 in snapshot
  }

  /** What parseRollbackVariableSnapshot keeps of the store. */
  function Snapshot(vars: Vars): Vars {
    map k | k in vars && RollbackKey(k) :: vars[k]
  }

  // ----- the remote store -----

  /** A call that returned an error may have been applied all the same. */
  datatype Call = Call(ok: bool, appliedAnyway: bool)

  datatype Conditions = Conditions(preflightOk: bool, batch: Call, appliedSubset: set<Key>, uploadOk: bool,
    restore: Key -> Call)

  function SetAll(vars: Vars, desired: seq<(Key, string)>, applied: set<Key>): Vars
    decreases desired
  {
    if desired == [] then vars else
    var kv := desired[0];
    SetAll(if kv.0 in applied then vars[kv.0 := kv.1] else vars, desired[1..], applied)
  }

  datatype Restoring = Restoring(vars: Vars, tried: seq<Key>, failures: seq<Key>)

  predicate Confirmed(snapshot: Vars, calls: Key -> Call, k: Key) {
    k in snapshot && calls(k).ok
  }

  function AfterTry(vars: Vars, snapshot: Vars, calls: Key -> Call, k: Key): Vars {
    if k in snapshot && (calls(k).ok || calls(k).appliedAnyway) then vars[k := snapshot[k]] else vars
  }

  /** rollbackVariables (189-212): every mutated key is tried, whatever happened to the others. */
  function Restore(vars: Vars, snapshot: Vars, keys: seq<Key>, calls: Key -> Call): Restoring
    decreases keys
  {
    if keys == [] then Restoring(vars, [], []) else
    var k := keys[0];
    if !RollbackKey(k) then Restore(vars, snapshot, keys[1..], calls) else
    var r := Restore(AfterTry(vars, snapshot, calls, k), snapshot, keys[1..], calls);
    Restoring(r.vars, (if k in snapshot then [k] else []) + r.tried,
      (if Confirmed(snapshot, calls, k) then [] else [k]) + r.failures)
  }

  lemma RestoreTurn(vars: Vars, snapshot: Vars, keys: seq<Key>, i: nat, calls: Key -> Call)
    requires i < |keys|
    ensures var k := keys[i];
      Restore(vars, snapshot, keys[i..], calls) ==
      if !RollbackKey(k) then Restore(vars, snapshot, keys[i + 1..], calls)
      else
        var r := Restore(AfterTry(vars, snapshot, calls, k), snapshot, keys[i + 1..], calls);
        Restoring(r.vars, (if k in snapshot then [k] else []) + r.tried,
                  (if Confirmed(snapshot, calls, k) then [] else [k]) + r.failures)
  {
    assert keys[i..][1..] == keys[i + 1..];
  }

  datatype Outcome = Refused(why: Refusal) | Released | Restored | NotRestored(failures: seq<Key>)

  datatype Attempt = Attempt(outcome: Outcome, vars: Vars, tried: seq<Key>)

  /** What the store holds once the batch and the upload are over. */
  function AfterMutation(w: Conditions, vars: Vars, desired: seq<(Key, string)>): Vars {
    SetAll(vars, desired, if w.batch.ok then Elems(Keys(desired)) else w.appliedSubset)
  }

  /** deployPrivateProduction (225-301). */
  function Transaction(env: Environment, w: Conditions, vars: Vars): Attempt {
    if !w.preflightOk then Attempt(Refused(Preflight), vars, []) else
    var snapshot := Snapshot(vars);
    var desired := Desired(env, snapshot);
    if desired.Err? then Attempt(Refused(desired.error), vars, [])
    else if !Covered(snapshot, desired.value) then Attempt(Refused(NoRollbackValue), vars, [])
    else
      var mutated := AfterMutation(w, vars, desired.value);
      if w.batch.ok && w.uploadOk then Attempt(Released, mutated, [])
      else
        var r := Restore(mutated, snapshot, Keys(desired.value), w.restore);
        Attempt(if r.failures == [] then Restored else NotRestored(r.failures), r.vars, r.tried)
  }

  /** The service, with the loops of the program. */
  class Railway {
    var vars: Vars
    ghost var tried: seq<Key>

    constructor (vars: Vars)
      ensures this.vars == vars && tried == []
    {
      this.vars := vars;
      tried := [];
    }

    /** One `variable set --skip-deploys KEY=value`. */
    method SetOne(k: Key, value: string, call: Call) returns (ok: bool)
      modifies this
      ensures vars == (if call.ok || call.appliedAnyway then old(vars)[k := value] else old(vars))
      ensures tried == old(tried) + [k] && ok == call.ok
    {
      if call.ok || call.appliedAnyway {
        vars := vars[k := value];
      }
      tried := tried + [k];
      return call.ok;
    }

    /** One `variable set` of many values; an error may come after any subset was accepted. */
    method SetBatch(desired: seq<(Key, string)>, call: Call, appliedSubset: set<Key>) returns (ok: bool)
      modifies `vars
      ensures vars == SetAll(old(vars), desired, if call.ok then Elems(Keys(desired)) else appliedSubset)
        && ok == call.ok
    {
      var applied := if call.ok then Elems(Keys(desired)) else appliedSubset;
      var i := 0;
      assert desired[0..] == desired;
      while i < |desired|
        invariant 0 <= i <= |desired|
        invariant SetAll(vars, desired[i..], applied) == SetAll(old(vars), desired, applied)
      {
        assert desired[i..][1..] == desired[i + 1..];
        if desired[i].0 in applied {
          vars := vars[desired[i].0 := desired[i].1];
        }
        i := i + 1;
      }
      return call.ok;
    }

    method RollbackVariables(snapshot: Vars, mutated: seq<Key>, calls: Key -> Call) returns (failures: seq<Key>)
      modifies this
      ensures var r := Restore(old(vars), snapshot, mutated, calls);
        vars == r.vars && tried == old(tried) + r.tried && failures == r.failures
    {
      hide RollbackKey;
      failures := [];
      var i := 0;
      assert mutated[0..] == mutated;
      ghost var whole := Restore(vars, snapshot, mutated, calls);
      assert forall v: Vars :: Restore(v, snapshot, [], calls) == Restoring(v, [], []);
      hide Restore;
      while i < |mutated|
        invariant 0 <= i <= |mutated|
        invariant Restore(vars, snapshot, mutated[i..], calls).vars == whole.vars
        invariant failures + Restore(vars, snapshot, mutated[i..], calls).failures == whole.failures
        invariant tried + Restore(vars, snapshot, mutated[i..], calls).tried == old(tried) + whole.tried
      {
        var k := mutated[i];
        RestoreTurn(vars, snapshot, mutated, i, calls);
        ghost var r := Restore(AfterTry(vars, snapshot, calls, k), snapshot, mutated[i + 1..], calls);
        if RollbackKey(k) {
          Assoc(failures, if Confirmed(snapshot, calls, k) then [] else [k], r.failures);
          Assoc(tried, if k in snapshot then [k] else [], r.tried);
          var ok := false;
          if k in snapshot {
            ok := SetOne(k, snapshot[k], calls(k));
          }
          if !ok {
            failures := failures + [k];
          }
        }
        i := i + 1;
      }
    }

    /** parseRollbackVariableSnapshot (56-69), on the values the service lists. */
    method ReadSnapshot() returns (snapshot: Vars)
      ensures snapshot == Snapshot(vars)
    {
      snapshot := map[];
      var i := 0;
      while i < |ROLLBACK_KEYS|
        invariant 0 <= i <= |ROLLBACK_KEYS|
        invariant snapshot == map k | k in vars && k in ROLLBACK_KEYS[..i] :: vars[k]
      {
        if ROLLBACK_KEYS[i] in vars {
          snapshot := snapshot[ROLLBACK_KEYS[i] := vars[ROLLBACK_KEYS[i]]];
        }
        i := i + 1;
      }
      assert ROLLBACK_KEYS[..i] == ROLLBACK_KEYS;
    }

    method DeployPrivateProduction(env: Environment, w: Conditions) returns (outcome: Outcome)
      modifies this
      ensures var a := Transaction(env, w, old(vars));
        Attempt(outcome, vars, tried) == a.(tried := old(tried) + a.tried)
    {
      hide Desired, SetAll, Restore;
      if !w.preflightOk {
        return Refused(Preflight);
      }
      var snapshot := ReadSnapshot();
      var desired := Desired(env, snapshot);
      if desired.Err? {
        return Refused(desired.error);
      }
      if !Covered(snapshot, desired.value) {
        return Refused(NoRollbackValue);
      }
      var batchOk := SetBatch(desired.value, w.batch, w.appliedSubset);
      if batchOk && w.uploadOk {
        return Released;
      }
      var failures := RollbackVariables(snapshot, Keys(desired.value), w.restore);
      return if failures == [] then Restored else NotRestored(failures);
    }
  }
}
