/** What a deploy leaves behind, in one attempt and over any sequence of them. */
module DeployRuns {
  import opened Prelude
  import opened Deploy

  // ----- one attempt -----

  /** The fate of one key. */
  ghost predicate KeyFate(vars: Vars, snapshot: Vars, keys: seq<Key>, calls: Key -> Call, r: Restoring, k: Key) {
    && (k in r.tried <==> k in keys && k in snapshot)
    && (k in r.failures <==> k in keys && !Confirmed(snapshot, calls, k))
    && (k in keys && Confirmed(snapshot, calls, k) ==> Get(r.vars, k) == Some(snapshot[k]))
    && (k !in keys ==> Get(r.vars, k) == Get(vars, k))
    && (k in r.failures ==> Get(r.vars, k) == Get(vars, k) || (k in snapshot && Get(r.vars, k) == Some(snapshot[k])))
  }

  ghost predicate Plan(keys: seq<Key>) {
    Distinct(keys) && forall k :: k in keys ==> RollbackKey(k)
  }

  lemma PlanRest(keys: seq<Key>)
    requires Plan(keys) && keys != []
    ensures Plan(keys[1..]) && keys[0] !in keys[1..] && RollbackKey(keys[0])
  {
    assert forall i :: 0 <= i < |keys| - 1 ==> keys[1..][i] == keys[i + 1];
  }

  /** One turn: membership in the lists grows by at most the key just tried. */
  lemma RestoreStep(vars: Vars, snapshot: Vars, keys: seq<Key>, calls: Key -> Call, k: Key)
    requires keys != [] && RollbackKey(keys[0])
    ensures var r, r' := Restore(vars, snapshot, keys, calls),
      Restore(AfterTry(vars, snapshot, calls, keys[0]), snapshot, keys[1..], calls);
      && r.vars == r'.vars
      && (k in r.tried <==> k in r'.tried || (k == keys[0] && k in snapshot))
      && (k in r.failures <==> k in r'.failures || (k == keys[0] && !Confirmed(snapshot, calls, k)))
      && (k in keys <==> k == keys[0] || k in keys[1..])
  {
    assert keys == [keys[0]] + keys[1..];
  }

  lemma {:induction false} RestoreKey(vars: Vars, snapshot: Vars, keys: seq<Key>, calls: Key -> Call, k: Key)
    requires Plan(keys)
    ensures KeyFate(vars, snapshot, keys, calls, Restore(vars, snapshot, keys, calls), k)
    decreases keys
  {
    hide Plan, RollbackKey;
    if keys == [] {
      assert Restore(vars, snapshot, keys, calls) == Restoring(vars, [], []);
    } else {
      hide Restore;
      PlanRest(keys);
      RestoreStep(vars, snapshot, keys, calls, k);
      RestoreKey(AfterTry(vars, snapshot, calls, keys[0]), snapshot, keys[1..], calls, k);
    }
  }

  lemma {:induction false} RestoreOnce(vars: Vars, snapshot: Vars, keys: seq<Key>, calls: Key -> Call)
    requires Plan(keys)
    ensures Distinct(Restore(vars, snapshot, keys, calls).tried)
      && Distinct(Restore(vars, snapshot, keys, calls).failures)
    decreases keys
  {
    hide Plan, RollbackKey;
    if keys != [] {
      var vars' := AfterTry(vars, snapshot, calls, keys[0]);
      PlanRest(keys);
      RestoreOnce(vars', snapshot, keys[1..], calls);
      RestoreKey(vars', snapshot, keys[1..], calls, keys[0]);
    }
  }

  /** Whatever the store holds, compensation tries every key that has a snapshot value, reports
      exactly the unconfirmed ones, restores the others and touches nothing else. */
  lemma RestoreExact(vars: Vars, snapshot: Vars, keys: seq<Key>, calls: Key -> Call)
    requires Plan(keys)
    ensures var r := Restore(vars, snapshot, keys, calls);
      Distinct(r.tried) && Distinct(r.failures) && forall k: Key :: KeyFate(vars, snapshot, keys, calls, r, k)
  {
    RestoreOnce(vars, snapshot, keys, calls);
    forall k: Key ensures KeyFate(vars, snapshot, keys, calls, Restore(vars, snapshot, keys, calls), k) {
      RestoreKey(vars, snapshot, keys, calls, k);
    }
  }

  function Value(desired: seq<(Key, string)>, k: Key): Option<string> {
    if desired == [] then None else if desired[0].0 == k then Some(desired[0].1) else Value(desired[1..], k)
  }

  /** The desired value where there is one, the old one elsewhere. */
  function Overlay(vars: Vars, desired: seq<(Key, string)>, k: Key): Option<string> {
    if Value(desired, k).Some? then Value(desired, k) else Get(vars, k)
  }

  lemma {:induction false} SetAllExact(vars: Vars, desired: seq<(Key, string)>, applied: set<Key>, k: Key)
    requires Distinct(Keys(desired))
    ensures Get(SetAll(vars, desired, applied), k)
      == if k in Keys(desired) && k in applied then Value(desired, k) else Get(vars, k)
    decreases desired
  {
    if desired != [] {
      assert Keys(desired)[1..] == Keys(desired[1..]);
      assert Keys(desired) == [desired[0].0] + Keys(desired[1..]);
      var vars' := if desired[0].0 in applied then vars[desired[0].0 := desired[0].1] else vars;
      SetAllExact(vars', desired[1..], applied, k);
    }
  }

  lemma {:induction false} ValueAt(desired: seq<(Key, string)>, i: nat)
    requires i < |desired| && Distinct(Keys(desired))
    ensures Value(desired, desired[i].0) == Some(desired[i].1)
    decreases desired
  {
    if i > 0 {
      assert Keys(desired)[0] != Keys(desired)[i];
      assert Keys(desired)[1..] == Keys(desired[1..]);
      ValueAt(desired[1..], i - 1);
    }
  }

  /** Every desired set names distinct rollback keys, in a fixed order. */
  lemma DesiredKeys(env: Environment, existing: Vars)
    requires Desired(env, existing).Ok?
    ensures var d := Desired(env, existing).value;
      && Plan(Keys(d))
      && (forall k :: RollbackKey(k) && k != LLM_REASONING_EFFORT && k != LLM_THINKING_MODE ==> k in Keys(d))
      && |d| >= 7 && d[4].0 == ASSISTANT_ENGINE && d[5].0 == DATABASE_PATH && d[6].0 == DATABASE_PATH_DISPOSITION
  {
    hide PathOk, ExactHash, Required, CheckSelection;
    var ks := Keys(Desired(env, existing).value);
    assert ks[0] == RELEASE_SHA && ks[1] == RELEASE_BUILD_HASH && ks[2] == RELEASE_SOURCE_BINDING_SHA256
      && ks[3] == LLM_MODEL;
    assert ks[4] == ASSISTANT_ENGINE && ks[5] == DATABASE_PATH && ks[6] == DATABASE_PATH_DISPOSITION;
  }

  datatype Selection = Selection(engine: string, path: string, disposition: string)

  /** The selection a deploy asks for. */
  function Selected(env: Environment, existing: Vars): (s: Selection)
    requires Desired(env, existing).Ok?
    ensures (s.engine == "v1" || s.engine == "v2") && PathOk(s.path)
    ensures s.disposition == "new_unused" || s.disposition == "existing_expected"
    ensures CheckSelection(env, existing, s.engine, s.path, s.disposition).None?
  {
    Selection(Required(env.engine).value, Required(env.path).value, Required(env.disposition).value)
  }

  lemma SelectedValues(env: Environment, existing: Vars)
    requires Desired(env, existing).Ok?
    ensures var d, s := Desired(env, existing).value, Selected(env, existing);
      && Value(d, ASSISTANT_ENGINE) == Some(s.engine) && Value(d, DATABASE_PATH) == Some(s.path)
      && Value(d, DATABASE_PATH_DISPOSITION) == Some(s.disposition)
  {
    hide PathOk, ExactHash, Required, CheckSelection, Value;
    DesiredKeys(env, existing);
    var d := Desired(env, existing).value;
    ValueAt(d, 4);
    ValueAt(d, 5);
    ValueAt(d, 6);
  }

  // ----- the transaction -----

  /** All four outcomes, for every subset a failed batch may have applied and every way the
      compensating calls may fail. */
  lemma DeployOutcomes(env: Environment, w: Conditions, vars: Vars)
    ensures var a := Transaction(env, w, vars);
      match a.outcome
      case Refused(_) => a.vars == vars && a.tried == []
      case Released =>
        Desired(env, Snapshot(vars)).Ok?
        && forall k: Key :: Get(a.vars, k) == Overlay(vars, Desired(env, Snapshot(vars)).value, k)
      case Restored => a.vars == vars
      case NotRestored(failures) =>
        && Desired(env, Snapshot(vars)).Ok? && failures != []
        && var ks := Keys(Desired(env, Snapshot(vars)).value);
        && (forall k :: k in failures <==> k in ks && !Confirmed(vars, w.restore, k))
        && (forall k :: k in a.tried <==> k in ks && k in vars)
        && (forall k :: k !in failures ==> Get(a.vars, k) == Get(vars, k))
  {
    hide Desired, SetAll, Restore, Value, Covered, RollbackKey;
    var a, snapshot := Transaction(env, w, vars), Snapshot(vars);
    if !a.outcome.Refused? {
      var d := Desired(env, snapshot).value;
      DesiredKeys(env, snapshot);
      forall k: Key ensures MutatedAt(w, vars, d, k) {
        MutatedKey(w, vars, d, k);
      }
      if !a.outcome.Released? {
        var mutated := AfterMutation(w, vars, d);
        RestoreExact(mutated, snapshot, Keys(d), w.restore);
        var r := Restore(mutated, snapshot, Keys(d), w.restore);
        forall k: Key ensures k !in r.failures ==> Get(a.vars, k) == Get(vars, k) {
          assert KeyFate(mutated, snapshot, Keys(d), w.restore, r, k) && MutatedAt(w, vars, d, k);
        }
        forall k: Key ensures (k in r.tried <==> k in Keys(d) && k in vars)
            && (k in r.failures <==> k in Keys(d) && !Confirmed(vars, w.restore, k)) {
          assert KeyFate(mutated, snapshot, Keys(d), w.restore, r, k);
        }
        if r.failures == [] { SameVars(a.vars, vars); }
      } else {
        forall k: Key ensures Get(a.vars, k) == Overlay(vars, d, k) {
          assert MutatedAt(w, vars, d, k);
        }
      }
    }
  }

  ghost predicate MutatedAt(w: Conditions, vars: Vars, d: seq<(Key, string)>, k: Key) {
    && (k !in Keys(d) ==> Value(d, k).None? && Get(AfterMutation(w, vars, d), k) == Get(vars, k))
    && (k in Keys(d) ==> Value(d, k).Some? && (w.batch.ok ==> Get(AfterMutation(w, vars, d), k) == Value(d, k)))
  }

  lemma MutatedKey(w: Conditions, vars: Vars, d: seq<(Key, string)>, k: Key)
    requires Distinct(Keys(d))
    ensures MutatedAt(w, vars, d, k)
  {
    SetAllExact(vars, d, if w.batch.ok then Elems(Keys(d)) else w.appliedSubset, k);
    ValueKeys(d, k);
  }

  lemma {:induction false} ValueKeys(desired: seq<(Key, string)>, k: Key)
    ensures Value(desired, k).Some? <==> k in Keys(desired)
    decreases desired
  {
    if desired != [] {
      assert Keys(desired) == [desired[0].0] + Keys(desired[1..]);
      ValueKeys(desired[1..], k);
    }
  }

  lemma SameVars(a: Vars, b: Vars)
    requires forall k: Key :: Get(a, k) == Get(b, k)
    ensures a == b
  {
    forall k: Key ensures (k in a <==> k in b) && (k in a ==> a[k] == b[k]) {
      assert Get(a, k) == Get(b, k);
    }
  }

  /** A failed release is fully restored exactly when the disposition had a value before and
      every restoring call was confirmed. In particular the first deploy that introduces the
      disposition passes the coverage check but can never report a full restoration. */
  lemma RestoredExactly(env: Environment, w: Conditions, vars: Vars)
    requires var a := Transaction(env, w, vars); a.outcome.Restored? || a.outcome.NotRestored?
    ensures Transaction(env, w, vars).outcome.Restored? <==>
      DATABASE_PATH_DISPOSITION in vars
      && forall k :: k in Keys(Desired(env, Snapshot(vars)).value) ==> w.restore(k).ok
  {
    hide Desired, SetAll, Restore, Value, RollbackKey;
    var d := Desired(env, Snapshot(vars)).value;
    DesiredKeys(env, Snapshot(vars));
    RestoreExact(AfterMutation(w, vars, d), Snapshot(vars), Keys(d), w.restore);
    var r := Restore(AfterMutation(w, vars, d), Snapshot(vars), Keys(d), w.restore);
    assert Transaction(env, w, vars).outcome.Restored? <==> r.failures == [];
    assert Keys(d)[6] == DATABASE_PATH_DISPOSITION;
    forall k | k in Keys(d) ensures k in r.failures <==> !Confirmed(Snapshot(vars), w.restore, k) {
      assert KeyFate(AfterMutation(w, vars, d), Snapshot(vars), Keys(d), w.restore, r, k);
    }
    forall k | k in Keys(d) ensures k in vars || k == DATABASE_PATH_DISPOSITION {
      var i :| 0 <= i < |d| && d[i].0 == k;
    }
    if r.failures != [] {
      var k := r.failures[0];
      assert KeyFate(AfterMutation(w, vars, d), Snapshot(vars), Keys(d), w.restore, r, k);
      assert k in r.failures && k in Keys(d) && RollbackKey(k);
      assert k in vars ==> k in Snapshot(vars);
      assert !(DATABASE_PATH_DISPOSITION in vars && w.restore(k).ok);
    } else {
      assert Confirmed(Snapshot(vars), w.restore, DATABASE_PATH_DISPOSITION);
      assert forall k :: k in Keys(d) ==> w.restore(k).ok;
    }
  }
}
