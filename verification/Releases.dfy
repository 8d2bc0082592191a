/** A release said of the environment and the store alone: when it is accepted, what every variable
    holds then, and why it is refused otherwise. */
module Releases {
  import opened Prelude
  import opened Deploy
  import opened DeployRuns
  import opened Cutover

  // ----- what the program reads -----

  /** White space and line terminators (ECMA-262, sections 12.2 and 12.3). */
  predicate White(ch: char) {
    var n := ch as int;
    || 0x9 <= n <= 0xD || n == 0x20 || n == 0xA0 || n == 0x1680 || 0x2000 <= n <= 0x200A
    || n == 0x2028 || n == 0x2029 || n == 0x202F || n == 0x205F || n == 0x3000 || n == 0xFEFF
  }

  lemma WhiteExactly(ch: char)
    ensures IsSpace(ch) <==> White(ch)
  {
    var spaces := "\t\n\r \U{000B}\U{000C}\U{00A0}\U{1680}\U{2028}\U{2029}\U{202F}\U{205F}\U{3000}\U{FEFF}";
    assert ch in spaces <==> exists i :: 0 <= i < 14 && spaces[i] == ch;
    assert spaces[0] == '\t' && spaces[1] == '\n' && spaces[2] == '\r' && spaces[3] == ' ';
  }

  /** t is what lies between the white space at both ends of s. */
  ghost predicate TrimmedTo(s: string, t: string) {
    exists i: nat, j: nat :: TrimmedAt(s, t, i, j)
  }

  ghost predicate TrimmedAt(s: string, t: string, i: nat, j: nat) {
    && i < j <= |s| && t == s[i..j]
    && (forall k :: 0 <= k < i ==> White(s[k])) && (forall k :: j <= k < |s| ==> White(s[k]))
    && !White(s[i]) && !White(s[j - 1])
  }

  lemma {:induction false} StartTrimmed(s: string) returns (i: nat)
    ensures i <= |s| && TrimStart(s) == s[i..] && (forall k :: 0 <= k < i ==> White(s[k]))
    ensures i < |s| ==> !White(s[i])
  {
    hide IsSpace, White;
    i := 0;
    if s != [] {
      WhiteExactly(s[0]);
      if IsSpace(s[0]) {
        var j := StartTrimmed(s[1..]);
        i := j + 1;
        forall k | 0 <= k < i ensures White(s[k]) {
          if k > 0 { assert s[k] == s[1..][k - 1]; }
        }
      }
    }
  }

  lemma {:induction false} EndTrimmed(s: string) returns (j: nat)
    ensures j <= |s| && TrimEnd(s) == s[..j] && (forall k :: j <= k < |s| ==> White(s[k]))
    ensures j > 0 ==> !White(s[j - 1])
  {
    hide IsSpace, White;
    j := |s|;
    if s != [] {
      WhiteExactly(s[|s| - 1]);
      if IsSpace(s[|s| - 1]) {
        j := EndTrimmed(s[..|s| - 1]);
        assert forall k :: 0 <= k < |s| - 1 ==> s[..|s| - 1][k] == s[k];
      }
    }
  }

  /** The variable is set, to t up to white space at its ends, and not to white space alone. */
  ghost predicate Reads(value: Option<string>, t: string) {
    value.Some? && TrimmedTo(value.value, t)
  }

  lemma ReadsExactly(value: Option<string>, t: string)
    ensures Required(value) == Ok(t) <==> Reads(value, t)
  {
    hide IsSpace, White, TrimStart, TrimEnd;
    if value.Some? {
      var s := value.value;
      var i := StartTrimmed(s);
      var j := EndTrimmed(s[i..]);
      assert s[i..][..j] == s[i..i + j];
      assert forall k :: i <= k < |s| ==> s[k] == s[i..][k - i];
      if Required(value) == Ok(t) {
        assert TrimmedAt(s, t, i, i + j);
      }
      if a: nat, b: nat :| TrimmedAt(s, t, a, b) {
        assert a == i;
        assert b == i + j;
      }
    }
  }

  // ----- the request -----

  /** The nine values a release is asked for with. */
  datatype Request = Request(
    thinking: string, reasoning: string, engine: string, path: string, disposition: string, sha: string,
    buildHash: string, binding: string, model: string)

  ghost predicate Requests(env: Environment, r: Request) {
    && Reads(env.thinking, r.thinking) && Reads(env.reasoning, r.reasoning) && Reads(env.engine, r.engine)
    && Reads(env.path, r.path) && Reads(env.disposition, r.disposition) && Reads(env.sha, r.sha)
    && Reads(env.buildHash, r.buildHash) && Reads(env.binding, r.binding) && Reads(env.model, r.model)
  }

  /** Exactly n lower-case hexadecimal digits. */
  predicate Hex(s: string, n: nat) {
    |s| == n && forall ch :: ch in s ==> ch in "0123456789abcdef"
  }

  /** A file below /data, written without a parent step and not as a directory. */
  predicate OnVolume(path: string) {
    && |path| >= 6 && path[..6] == "/data/" && path[|path| - 1] != '/'
    && (forall i :: 0 <= i < |path| ==> !ParentAt(path, i))
  }

  predicate ParentAt(path: string, i: nat) {
    i + 2 <= |path| && path[i..i + 2] == ".."
  }

  /** The request is well formed, fits the stored selection, and has a value to go back to for
      everything it sets but the disposition. */
  predicate Acceptable(vars: Vars, adr: Option<string>, r: Request) {
    && r.thinking in {"disabled", "unset"} && r.engine in {"v1", "v2"}
    && r.disposition in {"new_unused", "existing_expected"} && OnVolume(r.path)
    && Hex(r.sha, 40) && Hex(r.buildHash, 64) && Hex(r.binding, 64)
    && (r.reasoning == "unset" <==> LLM_REASONING_EFFORT !in vars)
    && (r.thinking == "unset" <==> LLM_THINKING_MODE !in vars)
    && RELEASE_SHA in vars && RELEASE_BUILD_HASH in vars && RELEASE_SOURCE_BINDING_SHA256 in vars && LLM_MODEL in vars
    && ASSISTANT_ENGINE in vars && DATABASE_PATH in vars
    && (r.disposition == "existing_expected" <==> r.path == vars[DATABASE_PATH])
    && (r.engine == "v2" && vars[ASSISTANT_ENGINE] != "v2" && r.disposition == "existing_expected" ==>
          adr == Some("superseded_in_place_migration"))
  }

  /** v is vars with exactly the request set. */
  ghost predicate Sets(vars: Vars, v: Vars, r: Request) {
    && Get(v, RELEASE_SHA) == Some(r.sha) && Get(v, RELEASE_BUILD_HASH) == Some(r.buildHash)
    && Get(v, RELEASE_SOURCE_BINDING_SHA256) == Some(r.binding) && Get(v, LLM_MODEL) == Some(r.model)
    && Get(v, ASSISTANT_ENGINE) == Some(r.engine) && Get(v, DATABASE_PATH) == Some(r.path)
    && Get(v, DATABASE_PATH_DISPOSITION) == Some(r.disposition)
    && Get(v, LLM_REASONING_EFFORT) == (if r.reasoning == "unset" then None else Some(r.reasoning))
    && Get(v, LLM_THINKING_MODE) == (if r.thinking == "disabled" then Some("disabled") else None)
    && (forall name: string :: Get(v, Other(name)) == Get(vars, Other(name)))
  }

  lemma HexExactly(s: string, n: nat)
    ensures ExactHash(s, n) <==> Hex(s, n)
  {
    forall ch: char ensures ch in "0123456789abcdef" <==> '0' <= ch <= '9' || 'a' <= ch <= 'f' {
      HexDigit(ch);
    }
    forall i | 0 <= i < |s| ensures s[i] in s {}
  }

  lemma HexDigit(ch: char)
    ensures ch in "0123456789abcdef" <==> '0' <= ch <= '9' || 'a' <= ch <= 'f'
  {
    var digits := "0123456789abcdef";
    assert ch in digits <==> exists i :: 0 <= i < 16 && digits[i] == ch;
    assert forall i :: 0 <= i < 10 ==> digits[i] == ('0' as int + i) as char;
    assert forall i :: 10 <= i < 16 ==> digits[i] == ('a' as int + i - 10) as char;
    if '0' <= ch <= '9' { assert digits[ch as int - '0' as int] == ch; }
    if 'a' <= ch <= 'f' { assert digits[10 + ch as int - 'a' as int] == ch; }
  }

  lemma PathExactly(path: string)
    requires path != ""
    ensures PathOk(path) <==> OnVolume(path)
  {
    assert "/data/" <= path <==> |path| >= 6 && path[..6] == "/data/";
    forall i | 0 <= i && i + 2 <= |path| ensures ParentAt(path, i) <==> path[i] == '.' && path[i + 1] == '.' {
      assert path[i..i + 2] == [path[i], path[i + 1]];
    }
    if forall i :: 0 <= i < |path| ==> !ParentAt(path, i) {
      forall i | 0 <= i < |path| - 1 && path[i] == '.' ensures path[i + 1] != '.' {
        assert !ParentAt(path, i);
      }
    }
    if PathOk(path) {
      forall i | 0 <= i < |path| ensures !ParentAt(path, i) {
        if i + 2 <= |path| { assert path[i] == '.' ==> path[i + 1] != '.'; }
      }
    }
  }

  /** What the program checks of a readable request before it looks at coverage. */
  predicate WellFormed(existing: Vars, adr: Option<string>, r: Request) {
    && r.thinking in {"disabled", "unset"} && r.engine in {"v1", "v2"}
    && r.disposition in {"new_unused", "existing_expected"} && OnVolume(r.path)
    && Hex(r.sha, 40) && Hex(r.buildHash, 64) && Hex(r.binding, 64)
    && (r.reasoning == "unset" ==> LLM_REASONING_EFFORT !in existing)
    && (r.thinking == "unset" ==> LLM_THINKING_MODE !in existing)
    && (r.disposition == "existing_expected" <==> Get(existing, DATABASE_PATH) == Some(r.path))
    && (r.engine == "v2" && r.disposition == "existing_expected" ==>
          || ASSISTANT_ENGINE !in existing || existing[ASSISTANT_ENGINE] == "v2"
          || adr == Some("superseded_in_place_migration"))
  }

  lemma DesiredOk(env: Environment, existing: Vars, r: Request)
    requires Requests(env, r)
    ensures Desired(env, existing).Ok? <==> WellFormed(existing, env.adr, r)
  {
    hide Required, PathOk, ExactHash, OnVolume, Hex, TrimmedTo, Requests;
    ReadAll(env, r);
    HexExactly(r.sha, 40);
    HexExactly(r.buildHash, 64);
    HexExactly(r.binding, 64);
    RequestPath(env, r);
    PathExactly(r.path);
  }

  lemma RequestPath(env: Environment, r: Request)
    requires Requests(env, r)
    ensures r.path != ""
  {
    hide White;
  }

  /** The desired variables are covered exactly for acceptable requests. */
  lemma DesiredExactly(env: Environment, vars: Vars, r: Request)
    requires Requests(env, r)
    ensures Desired(env, Snapshot(vars)).Ok? && Covered(Snapshot(vars), Desired(env, Snapshot(vars)).value)
      <==> Acceptable(vars, env.adr, r)
  {
    hide Desired, Covered, Requests, Wanted, OnVolume, Hex;
    DesiredOk(env, Snapshot(vars), r);
    InStore(vars);
    AllWanted(vars, r);
    if Desired(env, Snapshot(vars)).Ok? { CoveredExactly(env, vars, r); }
  }

  lemma AllWanted(vars: Vars, r: Request)
    ensures (forall k: Key :: Wanted(r, k).Some? && k != DATABASE_PATH_DISPOSITION ==> k in vars) <==>
      && RELEASE_SHA in vars && RELEASE_BUILD_HASH in vars && RELEASE_SOURCE_BINDING_SHA256 in vars && LLM_MODEL in vars
      && ASSISTANT_ENGINE in vars && DATABASE_PATH in vars
      && (r.reasoning != "unset" ==> LLM_REASONING_EFFORT in vars)
      && (r.thinking == "disabled" ==> LLM_THINKING_MODE in vars)
  {
    if forall k: Key :: Wanted(r, k).Some? && k != DATABASE_PATH_DISPOSITION ==> k in vars {
      assert Wanted(r, RELEASE_SHA).Some? && Wanted(r, RELEASE_BUILD_HASH).Some? && Wanted(r, LLM_MODEL).Some?;
      assert Wanted(r, RELEASE_SOURCE_BINDING_SHA256).Some? && Wanted(r, ASSISTANT_ENGINE).Some?;
      assert Wanted(r, DATABASE_PATH).Some? && (r.reasoning != "unset" ==> Wanted(r, LLM_REASONING_EFFORT).Some?);
      assert r.thinking == "disabled" ==> Wanted(r, LLM_THINKING_MODE).Some?;
    }
  }

  lemma ReadAll(env: Environment, r: Request)
    requires Requests(env, r)
    ensures Required(env.thinking) == Ok(r.thinking) && Required(env.reasoning) == Ok(r.reasoning)
    ensures Required(env.engine) == Ok(r.engine) && Required(env.path) == Ok(r.path)
    ensures Required(env.disposition) == Ok(r.disposition) && Required(env.sha) == Ok(r.sha)
    ensures Required(env.buildHash) == Ok(r.buildHash) && Required(env.binding) == Ok(r.binding)
    ensures Required(env.model) == Ok(r.model)
  {
    hide Required, Reads;
    ReadsExactly(env.thinking, r.thinking);
    ReadsExactly(env.reasoning, r.reasoning);
    ReadsExactly(env.engine, r.engine);
    ReadsExactly(env.path, r.path);
    ReadsExactly(env.disposition, r.disposition);
    ReadsExactly(env.sha, r.sha);
    ReadsExactly(env.buildHash, r.buildHash);
    ReadsExactly(env.binding, r.binding);
    ReadsExactly(env.model, r.model);
  }

  lemma InStore(vars: Vars)
    ensures forall k: Key :: k in Snapshot(vars) <==> k in vars && !k.Other?
    ensures forall k: Key :: k in Snapshot(vars) ==> Snapshot(vars)[k] == vars[k]
  {
    forall k: Key ensures RollbackKey(k) <==> !k.Other? {
      NineKeys(k);
    }
  }

  lemma NineKeys(k: Key)
    ensures RollbackKey(k) <==> !k.Other?
  {
    assert ROLLBACK_KEYS[0] == RELEASE_SHA && ROLLBACK_KEYS[1] == RELEASE_BUILD_HASH;
    assert ROLLBACK_KEYS[2] == RELEASE_SOURCE_BINDING_SHA256 && ROLLBACK_KEYS[3] == LLM_MODEL;
    assert ROLLBACK_KEYS[4] == LLM_REASONING_EFFORT && ROLLBACK_KEYS[5] == LLM_THINKING_MODE;
    assert ROLLBACK_KEYS[6] == ASSISTANT_ENGINE && ROLLBACK_KEYS[7] == DATABASE_PATH;
    assert ROLLBACK_KEYS[8] == DATABASE_PATH_DISPOSITION;
  }

  /** What a request wants of each variable; None where it says nothing. */
  function Wanted(r: Request, k: Key): Option<string> {
    match k
    case RELEASE_SHA => Some(r.sha)
    case RELEASE_BUILD_HASH => Some(r.buildHash)
    case RELEASE_SOURCE_BINDING_SHA256 => Some(r.binding)
    case LLM_MODEL => Some(r.model)
    case LLM_REASONING_EFFORT => if r.reasoning == "unset" then None else Some(r.reasoning)
    case LLM_THINKING_MODE => if r.thinking == "disabled" then Some("disabled") else None
    case ASSISTANT_ENGINE => Some(r.engine)
    case DATABASE_PATH => Some(r.path)
    case DATABASE_PATH_DISPOSITION => Some(r.disposition)
    case Other(_) => None
  }

  lemma ValueCons(k: Key, value: string, rest: seq<(Key, string)>, x: Key)
    ensures Value([(k, value)] + rest, x) == if k == x then Some(value) else Value(rest, x)
  {
    assert ([(k, value)] + rest)[1..] == rest;
  }

  lemma ValueTail(r: Request, x: Key) returns (tail: seq<(Key, string)>)
    ensures tail == (if r.reasoning == "unset" then [] else [(LLM_REASONING_EFFORT, r.reasoning)])
      + (if r.thinking == "disabled" then [(LLM_THINKING_MODE, "disabled")] else [])
    ensures Value(tail, x)
      == if x == LLM_REASONING_EFFORT || x == LLM_THINKING_MODE then Wanted(r, x) else None
  {
    var last: seq<(Key, string)> := if r.thinking == "disabled" then [(LLM_THINKING_MODE, "disabled")] else [];
    assert last == last + [];
    if r.thinking == "disabled" { ValueCons(LLM_THINKING_MODE, "disabled", [], x); }
    tail := last;
    if r.reasoning != "unset" {
      tail := [(LLM_REASONING_EFFORT, r.reasoning)] + last;
      ValueCons(LLM_REASONING_EFFORT, r.reasoning, last, x);
    } else {
      assert [] + last == last;
    }
  }

  /** The desired list wants exactly what the request wants. */
  lemma DesiredValue(env: Environment, existing: Vars, r: Request, x: Key)
    requires Requests(env, r) && Desired(env, existing).Ok?
    ensures Value(Desired(env, existing).value, x) == Wanted(r, x)
  {
    hide Required, PathOk, ExactHash, TrimmedTo, CheckSelection, Value;
    ReadAll(env, r);
    var s7 := ValueTail(r, x);
    var s6 := [(DATABASE_PATH_DISPOSITION, r.disposition)] + s7;
    var s5 := [(DATABASE_PATH, r.path)] + s6;
    var s4 := [(ASSISTANT_ENGINE, r.engine)] + s5;
    var s3 := [(LLM_MODEL, r.model)] + s4;
    var s2 := [(RELEASE_SOURCE_BINDING_SHA256, r.binding)] + s3;
    var s1 := [(RELEASE_BUILD_HASH, r.buildHash)] + s2;
    ValueCons(DATABASE_PATH_DISPOSITION, r.disposition, s7, x);
    ValueCons(DATABASE_PATH, r.path, s6, x);
    ValueCons(ASSISTANT_ENGINE, r.engine, s5, x);
    ValueCons(LLM_MODEL, r.model, s4, x);
    ValueCons(RELEASE_SOURCE_BINDING_SHA256, r.binding, s3, x);
    ValueCons(RELEASE_BUILD_HASH, r.buildHash, s2, x);
    ValueCons(RELEASE_SHA, r.sha, s1, x);
    assert Desired(env, existing).value == [(RELEASE_SHA, r.sha)] + s1;
  }

  lemma CoveredExactly(env: Environment, vars: Vars, r: Request)
    requires Requests(env, r) && Desired(env, Snapshot(vars)).Ok?
    ensures Covered(Snapshot(vars), Desired(env, Snapshot(vars)).value) <==>
      forall k: Key :: Wanted(r, k).Some? && k != DATABASE_PATH_DISPOSITION ==> k in vars
  {
    hide Desired, Requests, Wanted, Value;
    InStore(vars);
    hide Snapshot;
    var d := Desired(env, Snapshot(vars)).value;
    forall k: Key ensures Wanted(r, k).Some? <==> k in Keys(d) {
      DesiredValue(env, Snapshot(vars), r, k);
      ValueKeys(d, k);
    }
    forall k: Key | k in Keys(d) ensures !k.Other? {
      DesiredKeys(env, Snapshot(vars));
      NineKeys(k);
    }
    forall i | 0 <= i < |d| ensures Keys(d)[i] == d[i].0 && d[i].0 in Keys(d) {}
    if Covered(Snapshot(vars), d) {
      forall k: Key | Wanted(r, k).Some? && k != DATABASE_PATH_DISPOSITION ensures k in vars {
        var i :| 0 <= i < |d| && Keys(d)[i] == k;
        assert d[i].0 in Snapshot(vars);
      }
    }
  }

  /** A release happens exactly for acceptable requests when every call succeeds, and sets exactly
      the request. */
  lemma ReleasedExactly(env: Environment, w: Conditions, vars: Vars)
    ensures Transaction(env, w, vars).outcome == Released <==>
      && w.preflightOk && w.batch.ok && w.uploadOk && exists r :: Requests(env, r) && Acceptable(vars, env.adr, r)
    ensures Transaction(env, w, vars).outcome == Released ==>
      exists r :: Requests(env, r) && Acceptable(vars, env.adr, r) && Sets(vars, Transaction(env, w, vars).vars, r)
  {
    hide Desired, Covered, Acceptable, Sets, Requests, SetAll, Restore, Snapshot;
    if r :| Requests(env, r) {
      DesiredExactly(env, vars, r);
      if Transaction(env, w, vars).outcome == Released { SetsExactly(env, w, vars, r); }
    } else if Desired(env, Snapshot(vars)).Ok? {
      var r := TheRequest(env, Snapshot(vars));
      assert false;
    }
    forall r, s | Requests(env, r) && Requests(env, s) ensures r == s { SameRequest(env, r, s); }
  }

  lemma SameRequest(env: Environment, r: Request, s: Request)
    requires Requests(env, r) && Requests(env, s)
    ensures r == s
  {
    hide Required, Requests;
    ReadAll(env, r);
    ReadAll(env, s);
  }

  lemma TheRequest(env: Environment, existing: Vars) returns (r: Request)
    requires Desired(env, existing).Ok?
    ensures Requests(env, r)
  {
    hide PathOk, ExactHash, CheckSelection, Reads, Required;
    r := Request(Required(env.thinking).value, Required(env.reasoning).value, Required(env.engine).value,
                 Required(env.path).value, Required(env.disposition).value, Required(env.sha).value,
                 Required(env.buildHash).value, Required(env.binding).value, Required(env.model).value);
    ReadsExactly(env.thinking, r.thinking);
    ReadsExactly(env.reasoning, r.reasoning);
    ReadsExactly(env.engine, r.engine);
    ReadsExactly(env.path, r.path);
    ReadsExactly(env.disposition, r.disposition);
    ReadsExactly(env.sha, r.sha);
    ReadsExactly(env.buildHash, r.buildHash);
    ReadsExactly(env.binding, r.binding);
    ReadsExactly(env.model, r.model);
  }

  lemma ValuesSet(env: Environment, w: Conditions, vars: Vars, r: Request)
    requires Requests(env, r) && Transaction(env, w, vars).outcome == Released
    ensures forall k: Key ::
      Get(Transaction(env, w, vars).vars, k) == if Wanted(r, k).Some? then Wanted(r, k) else Get(vars, k)
  {
    hide Desired, Covered, Requests, SetAll, Restore, Transaction, Wanted, Value;
    DeployOutcomes(env, w, vars);
    var v := Transaction(env, w, vars).vars;
    forall k: Key ensures Get(v, k) == if Wanted(r, k).Some? then Wanted(r, k) else Get(vars, k) {
      DesiredValue(env, Snapshot(vars), r, k);
      assert Get(v, k) == Overlay(vars, Desired(env, Snapshot(vars)).value, k);
    }
  }

  lemma SetsExactly(env: Environment, w: Conditions, vars: Vars, r: Request)
    requires Requests(env, r) && Acceptable(vars, env.adr, r) && Transaction(env, w, vars).outcome == Released
    ensures Sets(vars, Transaction(env, w, vars).vars, r)
  {
    hide Requests, Transaction, OnVolume, Hex;
    ValuesSet(env, w, vars, r);
  }

  /** What a refusal says is so. */
  lemma RefusedTruly(env: Environment, existing: Vars)
    requires Desired(env, existing).Err?
    ensures match Desired(env, existing).error
      case NotAbsent =>
        || (Reads(env.reasoning, "unset") && LLM_REASONING_EFFORT in existing)
        || (Reads(env.thinking, "unset") && LLM_THINKING_MODE in existing)
      case PathInService =>
        Reads(env.disposition, "new_unused") && DATABASE_PATH in existing && Reads(env.path, existing[DATABASE_PATH])
      case PathNotInService =>
        && Reads(env.disposition, "existing_expected")
        && (DATABASE_PATH in existing ==> !Reads(env.path, existing[DATABASE_PATH]))
      case ReusesDatabase =>
        && Reads(env.disposition, "existing_expected") && Reads(env.engine, "v2") && ASSISTANT_ENGINE in existing
        && existing[ASSISTANT_ENGINE] != "v2" && env.adr != Some("superseded_in_place_migration")
      case Missing => Lacks(env.thinking) || Lacks(env.reasoning) || Lacks(env.engine) || Lacks(env.path)
        || Lacks(env.disposition) || Lacks(env.sha) || Lacks(env.buildHash) || Lacks(env.binding) || Lacks(env.model)
      case BadValue => forall r :: Requests(env, r) ==> !WellFormed(existing, env.adr, r)
      case _ => false
  {
    hide Required, PathOk, ExactHash, Reads, WellFormed, Requests;
    ReadsExactly(env.reasoning, "unset");
    ReadsExactly(env.thinking, "unset");
    ReadsExactly(env.disposition, "new_unused");
    ReadsExactly(env.disposition, "existing_expected");
    ReadsExactly(env.engine, "v2");
    if DATABASE_PATH in existing { ReadsExactly(env.path, existing[DATABASE_PATH]); }
    forall r | Requests(env, r) ensures !WellFormed(existing, env.adr, r) { DesiredOk(env, existing, r); }
    LacksExactly(env.thinking);
    LacksExactly(env.reasoning);
    LacksExactly(env.engine);
    LacksExactly(env.path);
    LacksExactly(env.disposition);
    LacksExactly(env.sha);
    LacksExactly(env.buildHash);
    LacksExactly(env.binding);
    LacksExactly(env.model);
  }

  /** The variable is not set, or to white space alone. */
  ghost predicate Lacks(value: Option<string>) {
    value.Some? ==> forall k :: 0 <= k < |value.value| ==> White(value.value[k])
  }

  lemma LacksExactly(value: Option<string>)
    ensures Required(value).Err? <==> Lacks(value)
    ensures Required(value).Err? ==> Required(value).error == Missing
  {
    hide IsSpace, White, TrimStart, TrimEnd;
    if value.Some? {
      var s := value.value;
      var i := StartTrimmed(s);
      var j := EndTrimmed(s[i..]);
      assert forall k :: i <= k < |s| ==> s[k] == s[i..][k - i];
      if i < |s| && j > 0 { assert !White(s[i + j - 1]); }
    }
  }

  // ----- refused and failed releases -----

  predicate GoesBack(w: Conditions, vars: Vars, k: Key) {
    k in vars && w.restore(k).ok
  }

  /** Nothing is touched before the preflight has passed and the request is acceptable; a well-formed
      one is refused only for a value that could not be restored. */
  lemma RefusedExactly(env: Environment, w: Conditions, vars: Vars)
    ensures var a := Transaction(env, w, vars);
      && (a.outcome.Refused? <==> !w.preflightOk || forall r :: Requests(env, r) ==> !Acceptable(vars, env.adr, r))
      && (a.outcome.Refused? ==> a.vars == vars && a.tried == [])
      && (a.outcome == Refused(Preflight) <==> !w.preflightOk)
      && (a.outcome == Refused(NoRollbackValue) <==>
            w.preflightOk && exists r :: Requests(env, r) && WellFormed(vars, env.adr, r)
                                         && !Acceptable(vars, env.adr, r))
  {
    hide Desired, Covered, Acceptable, Requests, SetAll, Restore, Snapshot, WellFormed;
    var existing := Snapshot(vars);
    if r :| Requests(env, r) {
      DesiredExactly(env, vars, r);
      DesiredOk(env, existing, r);
      SameForms(env, vars, r);
      forall s | Requests(env, s) ensures r == s { SameRequest(env, r, s); }
    } else if Desired(env, existing).Ok? {
      var r := TheRequest(env, existing);
      assert false;
    }
    if Desired(env, existing).Err? { NeverThese(env, existing); }
  }

  lemma SameForms(env: Environment, vars: Vars, r: Request)
    ensures WellFormed(Snapshot(vars), env.adr, r) <==> WellFormed(vars, env.adr, r)
  {
    hide OnVolume, Hex;
    InStore(vars);
    hide Snapshot;
    assert Get(Snapshot(vars), DATABASE_PATH) == Get(vars, DATABASE_PATH);
  }

  lemma NeverThese(env: Environment, existing: Vars)
    requires Desired(env, existing).Err?
    ensures Desired(env, existing).error != Preflight && Desired(env, existing).error != NoRollbackValue
  {
    hide Requests, WellFormed, Reads, Lacks;
    RefusedTruly(env, existing);
    hide Desired;
  }

  /** The restoring call of k has an effect, whatever it returns. */
  predicate Undone(w: Conditions, vars: Vars, k: Key) {
    k in vars && (w.restore(k).ok || w.restore(k).appliedAnyway)
  }

  lemma {:induction false} RestoreValue(vars: Vars, snapshot: Vars, keys: seq<Key>, calls: Key -> Call, k: Key)
    requires forall x :: x in keys ==> RollbackKey(x)
    ensures Get(Restore(vars, snapshot, keys, calls).vars, k) ==
      if k in keys && k in snapshot && (calls(k).ok || calls(k).appliedAnyway) then Some(snapshot[k]) else Get(vars, k)
    decreases keys
  {
    if keys == [] {
      assert Restore(vars, snapshot, keys, calls) == Restoring(vars, [], []);
    } else {
      assert keys == [keys[0]] + keys[1..];
      RestoreValue(AfterTry(vars, snapshot, calls, keys[0]), snapshot, keys[1..], calls, k);
    }
  }

  /** A release that fails after the request was accepted goes back key by key: exactly the keys
      without an earlier value, or whose restoring call is not confirmed, are reported, and every
      other key has its earlier value. A reported key has what the failed batch left there, unless
      the unconfirmed call restored it all the same. */
  lemma FailedExactly(env: Environment, w: Conditions, vars: Vars, r: Request)
    requires Requests(env, r) && Acceptable(vars, env.adr, r) && w.preflightOk && !(w.batch.ok && w.uploadOk)
    ensures var a := Transaction(env, w, vars);
      && (a.outcome == Restored || a.outcome.NotRestored?)
      && (a.outcome == Restored <==> forall k: Key :: Wanted(r, k).Some? ==> GoesBack(w, vars, k))
      && (a.outcome.NotRestored? ==>
            forall k :: k in a.outcome.failures <==> Wanted(r, k).Some? && !GoesBack(w, vars, k))
      && (forall k: Key :: Wanted(r, k).None? || GoesBack(w, vars, k) ==> Get(a.vars, k) == Get(vars, k))
      && (forall k: Key :: Get(a.vars, k) ==
            if Wanted(r, k).Some? && !Undone(w, vars, k) && (w.batch.ok || k in w.appliedSubset) then Wanted(r, k)
            else Get(vars, k))
      && (forall k :: k in a.tried <==> Wanted(r, k).Some? && k in vars)
  {
    hide Desired, Covered, Acceptable, Requests, SetAll, Restore, Snapshot, Wanted, GoesBack, Undone;
    DesiredExactly(env, vars, r);
    InStore(vars);
    var snapshot := Snapshot(vars);
    var d := Desired(env, snapshot).value;
    var mutated := AfterMutation(w, vars, d);
    var back := Restore(mutated, snapshot, Keys(d), w.restore);
    DesiredKeys(env, snapshot);
    RestoreExact(mutated, snapshot, Keys(d), w.restore);
    forall k: Key
      ensures k in back.failures <==> Wanted(r, k).Some? && !GoesBack(w, vars, k)
      ensures Wanted(r, k).None? || GoesBack(w, vars, k) ==> Get(back.vars, k) == Get(vars, k)
      ensures Get(back.vars, k) ==
        if Wanted(r, k).Some? && !Undone(w, vars, k) && (w.batch.ok || k in w.appliedSubset) then Wanted(r, k)
        else Get(vars, k)
      ensures k in back.tried <==> Wanted(r, k).Some? && k in vars
    {
      KeyGoesBack(env, w, vars, r, k);
    }
    if back.failures != [] { assert back.failures[0] in back.failures; }
  }

  lemma KeyGoesBack(env: Environment, w: Conditions, vars: Vars, r: Request, k: Key)
    requires Requests(env, r) && Desired(env, Snapshot(vars)).Ok?
    ensures var snapshot := Snapshot(vars);
      var ks := Keys(Desired(env, snapshot).value);
      var back := Restore(AfterMutation(w, vars, Desired(env, snapshot).value), snapshot, ks, w.restore);
      && (k in back.failures <==> Wanted(r, k).Some? && !GoesBack(w, vars, k))
      && (Wanted(r, k).None? || GoesBack(w, vars, k) ==> Get(back.vars, k) == Get(vars, k))
      && (Get(back.vars, k) ==
            if Wanted(r, k).Some? && !Undone(w, vars, k) && (w.batch.ok || k in w.appliedSubset) then Wanted(r, k)
            else Get(vars, k))
      && (k in back.tried <==> Wanted(r, k).Some? && k in vars)
  {
    hide Desired, Requests, SetAll, Restore, Wanted, Value;
    InStore(vars);
    hide Snapshot;
    var snapshot := Snapshot(vars);
    var d := Desired(env, snapshot).value;
    DesiredKeys(env, snapshot);
    DesiredValue(env, snapshot, r, k);
    ValueKeys(d, k);
    NineKeys(k);
    var applied := if w.batch.ok then Elems(Keys(d)) else w.appliedSubset;
    SetAllExact(vars, d, applied, k);
    RestoreExact(AfterMutation(w, vars, d), snapshot, Keys(d), w.restore);
    assert KeyFate(AfterMutation(w, vars, d), snapshot, Keys(d), w.restore,
                   Restore(AfterMutation(w, vars, d), snapshot, Keys(d), w.restore), k);
    assert Confirmed(snapshot, w.restore, k) <==> k in snapshot && w.restore(k).ok;
    RestoreValue(AfterMutation(w, vars, d), snapshot, Keys(d), w.restore, k);
  }

  // ----- the signed rollback -----

  ghost predicate Signed(signature: string) {
    exists i :: 0 <= i < |signature| && !White(signature[i])
  }

  lemma PlanExactly(vars: Vars)
    ensures PlanAccepts(vars) <==> forall k: Key :: !k.Other? && k != DATABASE_PATH_DISPOSITION ==> k in vars
  {
    if PlanAccepts(vars) {
      forall k: Key | !k.Other? && k != DATABASE_PATH_DISPOSITION ensures k in vars {
        NineKeys(k);
        var i :| 0 <= i < |ROLLBACK_KEYS| && ROLLBACK_KEYS[i] == k;
        assert !Introducible(ROLLBACK_KEYS[i]);
      }
    }
    if forall k: Key :: !k.Other? && k != DATABASE_PATH_DISPOSITION ==> k in vars {
      forall i | 0 <= i < |ROLLBACK_KEYS| && !Introducible(ROLLBACK_KEYS[i]) ensures ROLLBACK_KEYS[i] in vars {
        NineKeys(ROLLBACK_KEYS[i]);
      }
    }
  }

  /** After a release the signed full rollback is available exactly with a signature that is not blank,
      when the release went to a new database, and both optional model settings had been set. */
  lemma SignedExactly(env: Environment, w: Conditions, vars: Vars, signature: string)
    requires Transaction(env, w, vars).outcome == Released
    ensures var v := Transaction(env, w, vars).vars;
      DATABASE_PATH in v
      && (SignedPlanAccepts(signature, vars, v[DATABASE_PATH]) <==>
            && Signed(signature) && Get(v, DATABASE_PATH_DISPOSITION) == Some("new_unused")
            && LLM_REASONING_EFFORT in vars && LLM_THINKING_MODE in vars)
  {
    hide Transaction, PlanAccepts, Required, TrimStart, TrimEnd, White, Requests, OnVolume, Hex;
    PairMovesTogether(env, w, vars);
    ReleasedExactly(env, w, vars);
    PlanExactly(vars);
    SignedTrimmed(signature);
  }

  lemma SignedTrimmed(signature: string)
    ensures TrimEnd(TrimStart(signature)) != "" <==> Signed(signature)
  {
    hide White, TrimStart, TrimEnd;
    LacksExactly(Some(signature));
  }
}
