/** The production audit gate (scripts/dependency-gates/audit.ts): a depth-first search over an
    arbitrary vulnerability graph, with cycle detection and aggregate severities. */
module Audit {
  import opened Prelude
  import opened Sorting

  /** Severities by rank: info, low, moderate, high, critical. */
  type Severity = s: nat | s < 5

  const HIGH: Severity := 3
  const CRITICAL: Severity := 4

  datatype Advisory = Advisory(id: string, pkg: string, severity: Severity, title: string, url: string)
  datatype Cause = Ref(name: string) | Direct(advisory: Advisory)
  datatype Vulnerability = Vulnerability(severity: Severity, via: seq<Cause>)

  type Graph = map<string, Vulnerability>
  type Key = string

  datatype Error = Cyclic | MissingVulnerability | WrongSeverity | Conflicting

  /** Parsing refuses a package without causes. */
  ghost predicate Parsed(g: Graph) {
    forall name :: name in g ==> g[name].via != []
  }

  function KeyOf(a: Advisory): Key {
    a.id + "\0" + a.pkg
  }

  /** Keys tell advisories apart that have no NUL in their ids. */
  lemma KeyExactly(x: Advisory, y: Advisory)
    requires '\0' !in x.id && '\0' !in y.id
    ensures KeyOf(x) == KeyOf(y) <==> x.id == y.id && x.pkg == y.pkg
  {
    var a, b := KeyOf(x), KeyOf(y);
    assert a[|x.id|] == '\0' && b[|y.id|] == '\0';
    assert forall i :: 0 <= i < |x.id| ==> a[i] == x.id[i] && x.id[i] in x.id;
    assert forall i :: 0 <= i < |y.id| ==> b[i] == y.id[i] && y.id[i] in y.id;
    if a == b {
      assert x.id == a[..|x.id|] && y.id == b[..|y.id|];
      assert x.pkg == a[|x.id| + 1..] && y.pkg == b[|y.id| + 1..];
    }
  }

  function MaxSeverity(causes: seq<Advisory>): (m: Severity)
    requires causes != []
  {
    if |causes| == 1 then causes[0].severity
    else
      var m := MaxSeverity(causes[..|causes| - 1]);
      if causes[|causes| - 1].severity > m then causes[|causes| - 1].severity else m
  }

  /** visit (193-214): every advisory reachable from name, path by path; stack is the path so far. */
  function Visit(g: Graph, name: string, stack: set<string>): (r: Result<seq<Advisory>, Error>)
    requires Parsed(g)
    ensures r.Ok? ==> r.value != []
    decreases g.Keys - stack, 1, 0
  {
    if name in stack then Err(Cyclic)
    else if name !in g then Err(MissingVulnerability)
    else
      assert name in g.Keys - stack && g.Keys - (stack + {name}) < g.Keys - stack;
      var causes := VisitVia(g, g[name].via, stack + {name});
      if causes.Err? then causes
      else if g[name].severity != MaxSeverity(causes.value) then Err(WrongSeverity)
      else causes
  }

  function VisitVia(g: Graph, via: seq<Cause>, stack: set<string>): (r: Result<seq<Advisory>, Error>)
    requires Parsed(g)
    ensures r.Ok? && via != [] ==> r.value != []
    decreases g.Keys - stack, 2, |via|
  {
    if via == [] then Ok([])
    else
      var first := if via[0].Ref? then Visit(g, via[0].name, stack) else Ok([via[0].advisory]);
      if first.Err? then first
      else
        var rest := VisitVia(g, via[1..], stack);
        if rest.Err? then rest else Ok(first.value + rest.value)
  }

  // ----- the graph itself -----

  /** b can be reached from a in n references. */
  ghost predicate Steps(g: Graph, a: string, b: string, n: nat)
    decreases n
  {
    if n == 0 then a == b
    else a in g && exists c :: Ref(c) in g[a].via && Steps(g, c, b, n - 1)
  }

  ghost predicate Reaches(g: Graph, a: string, x: Advisory) {
    exists b, n: nat :: ReachesVia(g, a, x, b, n)
  }

  ghost predicate ReachesVia(g: Graph, a: string, x: Advisory, b: string, n: nat) {
    Steps(g, a, b, n) && b in g && Direct(x) in g[b].via
  }

  ghost predicate Closed(g: Graph) {
    forall a, b :: a in g && Ref(b) in g[a].via ==> b in g
  }

  ghost predicate Acyclic(g: Graph) {
    forall a, n: nat :: Steps(g, a, a, n) ==> n == 0
  }

  /** The aggregate severity is the maximum over all reachable advisories. */
  ghost predicate SeverityOk(g: Graph, name: string) {
    && name in g
    && (exists x :: Reaches(g, name, x) && x.severity == g[name].severity)
    && (forall x :: Reaches(g, name, x) ==> x.severity <= g[name].severity)
  }

  ghost predicate Listed(g: Graph, x: Advisory) {
    exists name :: name in g && Direct(x) in g[name].via
  }

  ghost predicate NoConflict(g: Graph) {
    forall x, y :: Listed(g, x) && Listed(g, y) && KeyOf(x) == KeyOf(y) ==> x == y
  }

  ghost predicate Consistent(g: Graph) {
    Closed(g) && Acyclic(g) && (forall name :: name in g ==> SeverityOk(g, name)) && NoConflict(g)
  }

  // ----- what a successful visit establishes -----

  lemma {:induction false} ViaParts(g: Graph, via: seq<Cause>, stack: set<string>)
    requires Parsed(g) && VisitVia(g, via, stack).Ok?
    ensures forall c :: Ref(c) in via ==> Visit(g, c, stack).Ok?
    ensures forall x :: x in VisitVia(g, via, stack).value <==>
      Direct(x) in via || exists c :: Ref(c) in via && Visit(g, c, stack).Ok? && x in Visit(g, c, stack).value
    decreases |via|
  {
    if via != [] {
      ViaParts(g, via[1..], stack);
      assert via == [via[0]] + via[1..];
    }
  }

  lemma StepsFirst(g: Graph, a: string, b: string, n: nat) returns (c: string)
    requires n > 0 && Steps(g, a, b, n)
    ensures a in g && Ref(c) in g[a].via && Steps(g, c, b, n - 1)
  {
    c :| Ref(c) in g[a].via && Steps(g, c, b, n - 1);
  }

  /** Everything reachable exists and is off the stack, and name is not reachable from itself. */
  lemma {:induction false} VisitedOffStack(g: Graph, name: string, stack: set<string>, b: string, n: nat)
    requires Parsed(g) && Visit(g, name, stack).Ok? && Steps(g, name, b, n)
    ensures b in g && b !in stack && (n > 0 ==> b != name)
    decreases n
  {
    if n > 0 {
      var c := StepsFirst(g, name, b, n);
      ViaParts(g, g[name].via, stack + {name});
      VisitedOffStack(g, c, stack + {name}, b, n - 1);
    }
  }

  /** The collected causes are the reachable advisories. */
  lemma {:induction false} VisitedReaches(g: Graph, name: string, stack: set<string>, x: Advisory)
    requires Parsed(g) && Visit(g, name, stack).Ok?
    ensures x in Visit(g, name, stack).value <==> Reaches(g, name, x)
    decreases g.Keys - stack
  {
    assert name in g.Keys - stack && g.Keys - (stack + {name}) < g.Keys - stack;
    ViaParts(g, g[name].via, stack + {name});
    forall c | Ref(c) in g[name].via ensures x in Visit(g, c, stack + {name}).value <==> Reaches(g, c, x) {
      VisitedReaches(g, c, stack + {name}, x);
    }
    ReachesStep(g, name, x);
  }

  lemma ReachesStep(g: Graph, name: string, x: Advisory)
    requires name in g
    ensures Reaches(g, name, x) <==> Direct(x) in g[name].via || exists c :: Ref(c) in g[name].via && Reaches(g, c, x)
  {
    if Reaches(g, name, x) {
      var b, n: nat :| ReachesVia(g, name, x, b, n);
      if n > 0 {
        var c := StepsFirst(g, name, b, n);
        assert ReachesVia(g, c, x, b, n - 1);
      }
    }
    if Direct(x) in g[name].via {
      assert ReachesVia(g, name, x, name, 0);
    }
    if c :| Ref(c) in g[name].via && Reaches(g, c, x) {
      var b, n: nat :| ReachesVia(g, c, x, b, n);
      assert Steps(g, name, b, n + 1);
      assert ReachesVia(g, name, x, b, n + 1);
    }
  }

  lemma {:induction false} MaxIsMax(causes: seq<Advisory>) returns (top: Advisory)
    requires causes != []
    ensures top in causes && top.severity == MaxSeverity(causes)
    ensures forall x :: x in causes ==> x.severity <= MaxSeverity(causes)
  {
    var n := |causes| - 1;
    top := causes[n];
    assert causes == causes[..n] + [causes[n]];
    if n > 0 {
      var below := MaxIsMax(causes[..n]);
      if causes[n].severity <= below.severity { top := below; }
    }
  }

  lemma VisitedSeverity(g: Graph, name: string, stack: set<string>)
    requires Parsed(g) && Visit(g, name, stack).Ok?
    ensures SeverityOk(g, name)
  {
    var causes := Visit(g, name, stack).value;
    var top := MaxIsMax(causes);
    forall x: Advisory ensures x in causes <==> Reaches(g, name, x) {
      VisitedReaches(g, name, stack, x);
    }
  }

  // ----- when a visit succeeds -----

  /** Every package on the stack leads to name. */
  ghost predicate Leads(g: Graph, stack: set<string>, name: string) {
    forall s :: s in stack ==> exists n: nat :: n > 0 && Steps(g, s, name, n)
  }

  lemma {:induction false} StepsSnoc(g: Graph, a: string, b: string, c: string, n: nat)
    requires Steps(g, a, b, n) && b in g && Ref(c) in g[b].via
    ensures Steps(g, a, c, n + 1)
    decreases n
  {
    if n == 0 {
      assert Steps(g, c, c, 0);
    } else {
      var d := StepsFirst(g, a, b, n);
      StepsSnoc(g, d, b, c, n - 1);
    }
  }

  lemma LeadsOn(g: Graph, stack: set<string>, name: string, c: string)
    requires Leads(g, stack, name) && name in g && Ref(c) in g[name].via
    ensures Leads(g, stack + {name}, c)
  {
    forall s | s in stack + {name} ensures exists n: nat :: n > 0 && Steps(g, s, c, n) {
      if s == name {
        assert Steps(g, c, c, 0) && Steps(g, name, c, 1);
      } else {
        var n: nat :| n > 0 && Steps(g, s, name, n);
        StepsSnoc(g, s, name, c, n);
      }
    }
  }

  ghost predicate Sound(g: Graph) {
    Closed(g) && Acyclic(g) && forall name :: name in g ==> SeverityOk(g, name)
  }

  /** The causes gathered below name are its reachable advisories, so the aggregate matches. */
  lemma AggregateMatches(g: Graph, name: string, stack: set<string>)
    requires Parsed(g) && SeverityOk(g, name) && VisitVia(g, g[name].via, stack).Ok?
    ensures MaxSeverity(VisitVia(g, g[name].via, stack).value) == g[name].severity
  {
    hide Visit, VisitVia, Reaches;
    var causes := VisitVia(g, g[name].via, stack).value;
    ViaParts(g, g[name].via, stack);
    forall x: Advisory ensures x in causes <==> Reaches(g, name, x) {
      forall c | Ref(c) in g[name].via ensures x in Visit(g, c, stack).value <==> Reaches(g, c, x) {
        VisitedReaches(g, c, stack, x);
      }
      ReachesStep(g, name, x);
    }
    var top := MaxIsMax(causes);
    var y :| Reaches(g, name, y) && y.severity == g[name].severity;
    assert y in causes;
  }

  lemma {:induction false} VisitSucceeds(g: Graph, name: string, stack: set<string>)
    requires Parsed(g) && Sound(g) && name in g && Leads(g, stack, name)
    ensures Visit(g, name, stack).Ok?
    decreases g.Keys - stack, 1, 0
  {
    hide SeverityOk, VisitVia;
    assert name !in stack;
    assert name in g.Keys - stack && g.Keys - (stack + {name}) < g.Keys - stack;
    forall c | Ref(c) in g[name].via ensures c in g && Leads(g, stack + {name}, c) {
      LeadsOn(g, stack, name, c);
    }
    hide Leads;
    ViaSucceeds(g, g[name].via, stack + {name});
    AggregateMatches(g, name, stack + {name});
  }

  lemma {:induction false} ViaSucceeds(g: Graph, via: seq<Cause>, stack: set<string>)
    requires Parsed(g) && Sound(g)
    requires forall c :: Ref(c) in via ==> c in g && Leads(g, stack, c)
    ensures VisitVia(g, via, stack).Ok?
    decreases g.Keys - stack, 2, |via|
  {
    if via != [] {
      if via[0].Ref? {
        assert Ref(via[0].name) in via;
        VisitSucceeds(g, via[0].name, stack);
      }
      ViaSucceeds(g, via[1..], stack);
    }
  }

  ghost predicate AllVisited(g: Graph)
    requires Parsed(g)
  {
    forall name :: name in g ==> Visit(g, name, {}).Ok?
  }

  /** Every visit from every package succeeds exactly when references are closed and acyclic and
      every aggregate severity is right. */
  lemma VisitsExactly(g: Graph)
    requires Parsed(g)
    ensures AllVisited(g) <==> Sound(g)
  {
    hide Visit, SeverityOk;
    if AllVisited(g) {
      forall a, b | a in g && Ref(b) in g[a].via ensures b in g {
        assert Steps(g, b, b, 0) && Steps(g, a, b, 1);
        VisitedOffStack(g, a, {}, b, 1);
      }
      forall a, n: nat | Steps(g, a, a, n) ensures n == 0 {
        if n > 0 { VisitedOffStack(g, a, {}, a, n); }
      }
      forall name | name in g ensures SeverityOk(g, name) {
        VisitedSeverity(g, name, {});
      }
    }
    if Sound(g) {
      forall name | name in g ensures Visit(g, name, {}).Ok? {
        VisitSucceeds(g, name, {});
      }
    }
  }

  // ----- collecting -----

  // ----- what a failure says -----

  /** The graph does have the fault. */
  ghost predicate Faulty(g: Graph, e: Error) {
    match e
    case Cyclic => exists a, n: nat :: n > 0 && Steps(g, a, a, n)
    case MissingVulnerability => exists a, b :: a in g && Ref(b) in g[a].via && b !in g
    case WrongSeverity => exists a :: a in g && !SeverityOk(g, a)
    case Conflicting => exists x, y :: Listed(g, x) && Listed(g, y) && KeyOf(x) == KeyOf(y) && x != y
  }

  lemma {:induction false} ViaErr(g: Graph, via: seq<Cause>, stack: set<string>) returns (c: string)
    requires Parsed(g) && VisitVia(g, via, stack).Err?
    ensures Ref(c) in via && Visit(g, c, stack).Err? && Visit(g, c, stack).error == VisitVia(g, via, stack).error
    decreases |via|
  {
    var first := if via[0].Ref? then Visit(g, via[0].name, stack) else Ok([via[0].advisory]);
    if first.Err? {
      c := via[0].name;
    } else {
      c := ViaErr(g, via[1..], stack);
    }
  }

  /** A failing visit of name, with everything on the stack leading to it, names a real fault. */
  lemma {:induction false} VisitTruly(g: Graph, name: string, stack: set<string>)
    requires Parsed(g) && Leads(g, stack, name) && Visit(g, name, stack).Err?
    ensures var e := Visit(g, name, stack).error; Faulty(g, e) || (e == MissingVulnerability && name !in g)
    decreases g.Keys - stack
  {
    if name in stack {
      var n: nat :| n > 0 && Steps(g, name, name, n);
    } else if name in g {
      assert name in g.Keys - stack && g.Keys - (stack + {name}) < g.Keys - stack;
      var below := VisitVia(g, g[name].via, stack + {name});
      if below.Err? {
        var c := ViaErr(g, g[name].via, stack + {name});
        LeadsOn(g, stack, name, c);
        VisitTruly(g, c, stack + {name});
      } else if SeverityOk(g, name) {
        AggregateMatches(g, name, stack + {name});
      }
    }
  }


  /** Sorted by package, then by advisory id. */
  function Name(a: Advisory): Pair {
    (a.pkg, a.id)
  }

  /** The insertion-ordered map of advisories by key. */
  ghost predicate Holding(collected: map<Key, Advisory>, values: seq<Advisory>) {
    && (forall i :: 0 <= i < |values| ==> KeyOf(values[i]) in collected && collected[KeyOf(values[i])] == values[i])
    && (forall k :: k in collected ==> collected[k] in values && KeyOf(collected[k]) == k)
    && (forall i, j :: 0 <= i < j < |values| ==> KeyOf(values[i]) != KeyOf(values[j]))
  }

  ghost predicate Conflict(x: Advisory, y: Advisory) {
    KeyOf(x) == KeyOf(y) && x != y
  }

  /** The inner loop (217-224): the first record of a key stays, a different second one is refused. */
  method Merge(collected: map<Key, Advisory>, values: seq<Advisory>, advisories: seq<Advisory>)
    returns (ok: bool, collected': map<Key, Advisory>, values': seq<Advisory>)
    requires Holding(collected, values)
    ensures Holding(collected', values')
    ensures ok ==> forall x :: x in values' <==> x in values || x in advisories
    ensures !ok ==> exists x, y :: Conflict(x, y) && y in advisories && (x in values || x in advisories)
  {
    collected', values' := collected, values;
    var i := 0;
    while i < |advisories|
      invariant 0 <= i <= |advisories| && Holding(collected', values')
      invariant forall x :: x in values' <==> x in values || x in advisories[..i]
    {
      var advisory := advisories[i];
      assert advisories[..i + 1] == advisories[..i] + [advisory];
      var key := KeyOf(advisory);
      if key in collected' {
        if collected'[key] != advisory {
          assert Conflict(collected'[key], advisory);
          return false, collected', values';
        }
      } else {
        collected', values' := collected'[key := advisory], values' + [advisory];
      }
      i := i + 1;
    }
    assert advisories[..i] == advisories;
    ok := true;
  }

  /** Direct advisories are exactly what the visits of all packages bring. */
  lemma VisitsAreListed(g: Graph, x: Advisory)
    requires Parsed(g) && AllVisited(g)
    ensures Listed(g, x) <==> exists name :: name in g && x in Visit(g, name, {}).value
  {
    hide Visit;
    if Listed(g, x) {
      var name :| name in g && Direct(x) in g[name].via;
      assert ReachesVia(g, name, x, name, 0);
      VisitedReaches(g, name, {}, x);
    }
    if name :| name in g && x in Visit(g, name, {}).value {
      VisitedListed(g, name, x);
    }
  }

  lemma VisitedListed(g: Graph, name: string, x: Advisory)
    requires Parsed(g) && Visit(g, name, {}).Ok? && x in Visit(g, name, {}).value
    ensures Listed(g, x)
  {
    hide Visit;
    VisitedReaches(g, name, {}, x);
    var b, n: nat :| ReachesVia(g, name, x, b, n);
  }

  /** collectAdvisories (190-228). It returns exactly on consistent graphs, and then gives the
      direct advisories of all packages, once each, in strict order. */
  method CollectAdvisories(g: Graph, names: seq<string>, text: (string, string) -> bool)
    returns (r: Result<seq<Advisory>, Error>)
    requires Parsed(g) && StrictOrder(text) && forall name :: name in names <==> name in g
    ensures r.Ok? <==> Consistent(g)
    ensures r.Ok? ==> StrictlySorted(Name, ByPair(text), r.value) && forall x :: x in r.value <==> Listed(g, x)
    ensures r.Err? ==> Faulty(g, r.error)
  {
    hide Visit, SeverityOk, StrictOrder, Listed, Acyclic, Closed, StrictlySorted, Holding;
    var collected: map<Key, Advisory>, values: seq<Advisory> := map[], [];
    HoldingNothing();
    VisitsExactly(g);
    var i := 0;
    while i < |names|
      invariant 0 <= i <= |names| && Holding(collected, values)
      invariant forall j :: 0 <= j < i ==> Visit(g, names[j], {}).Ok?
      invariant forall x :: x in values ==> Listed(g, x)
      invariant forall j, x :: 0 <= j < i && x in Visit(g, names[j], {}).value ==> x in values
    {
      var name := names[i];
      var advisories := Visit(g, name, {});
      if advisories.Err? {
        VisitTruly(g, name, {});
        return Err(advisories.error);
      }
      forall x | x in advisories.value ensures Listed(g, x) {
        VisitedListed(g, name, x);
      }
      var ok, collected', values' := Merge(collected, values, advisories.value);
      if !ok {
        ghost var x, y :| Conflict(x, y) && y in advisories.value && (x in values || x in advisories.value);
        assert Listed(g, x) && Listed(g, y);
        return Err(Conflicting);
      }
      collected, values := collected', values';
      i := i + 1;
    }
    assert AllVisited(g) by {
      forall name | name in g ensures Visit(g, name, {}).Ok? {
        var j :| 0 <= j < |names| && names[j] == name;
      }
    }
    forall x | Listed(g, x) ensures x in values {
      VisitsAreListed(g, x);
      var name :| name in g && x in Visit(g, name, {}).value;
      var j :| 0 <= j < |names| && names[j] == name;
    }
    HeldKeys(collected, values);
    ByPairStrict(text);
    SortSorted(Name, ByPair(text), values);
    forall x ensures x in Sort(Name, ByPair(text), values) <==> x in values {
      SortMembers(Name, ByPair(text), values, x);
    }
    return Ok(Sort(Name, ByPair(text), values));
  }

  lemma HoldingNothing()
    ensures Holding(map[], [])
  {}

  lemma HeldKeys(collected: map<Key, Advisory>, values: seq<Advisory>)
    requires Holding(collected, values)
    ensures KeysDiffer(Name, values)
    ensures forall x, y :: x in values && y in values && KeyOf(x) == KeyOf(y) ==> x == y
  {}

  // ----- the gate -----

  predicate Serious(s: Severity) {
    s >= 3
  }

  datatype Finding = Finding(advisory: Advisory, allowlisted: bool)

  datatype AuditReport = AuditReport(passed: bool, findings: seq<Finding>, blocking: seq<Finding>)

  function Marked(advisories: seq<Advisory>, allowed: set<Key>): (fs: seq<Finding>)
    ensures |fs| == |advisories| && forall i :: 0 <= i < |fs| ==>
      fs[i] == Finding(advisories[i], KeyOf(advisories[i]) in allowed)
  {
    seq(|advisories|, i requires 0 <= i < |advisories| => Finding(advisories[i], KeyOf(advisories[i]) in allowed))
  }

  function Blocking(fs: seq<Finding>): seq<Finding> {
    if fs == [] then []
    else (if !fs[0].allowlisted && Serious(fs[0].advisory.severity) then [fs[0]] else []) + Blocking(fs[1..])
  }

  lemma {:induction false} BlockingMembers(fs: seq<Finding>, f: Finding)
    ensures f in Blocking(fs) <==> f in fs && !f.allowlisted && Serious(f.advisory.severity)
  {
    if fs != [] {
      assert fs == [fs[0]] + fs[1..];
      BlockingMembers(fs[1..], f);
    }
  }

  /** By package, and within a package by id. */
  predicate Precedes(text: (string, string) -> bool, a: Advisory, b: Advisory) {
    text(a.pkg, b.pkg) || (a.pkg == b.pkg && text(a.id, b.id))
  }

  /** inspectProductionAudit (230-255). */
  method InspectProductionAudit(g: Graph, names: seq<string>, text: (string, string) -> bool, allowed: set<Key>)
    returns (r: Result<AuditReport, Error>)
    requires Parsed(g) && StrictOrder(text) && forall name :: name in names <==> name in g
    ensures r.Ok? <==> Consistent(g)
    ensures r.Err? ==> Faulty(g, r.error)
    ensures r.Ok? ==> (r.value.passed <==>
      forall x :: Listed(g, x) && (x.severity == HIGH || x.severity == CRITICAL) ==> KeyOf(x) in allowed)
    ensures r.Ok? ==> forall x :: Listed(g, x) <==> Finding(x, KeyOf(x) in allowed) in r.value.findings
    ensures r.Ok? ==> forall f :: f in r.value.blocking <==>
      f in r.value.findings && !f.allowlisted && (f.advisory.severity == HIGH || f.advisory.severity == CRITICAL)
    ensures r.Ok? ==> forall i, j :: 0 <= i < j < |r.value.findings| ==>
      Precedes(text, r.value.findings[i].advisory, r.value.findings[j].advisory)
  {
    hide Consistent, Listed, StrictOrder, Faulty;
    var advisories := CollectAdvisories(g, names, text);
    if advisories.Err? {
      return Err(advisories.error);
    }
    var findings := Marked(advisories.value, allowed);
    var blocking := Blocking(findings);
    forall x ensures Listed(g, x) <==> Finding(x, KeyOf(x) in allowed) in findings {
      if x in advisories.value {
        var i :| 0 <= i < |advisories.value| && advisories.value[i] == x;
        assert findings[i] == Finding(x, KeyOf(x) in allowed);
      }
    }
    forall f ensures f in blocking <==> f in findings && !f.allowlisted && Serious(f.advisory.severity) {
      BlockingMembers(findings, f);
    }
    if blocking != [] {
      assert blocking[0] in findings;
    } else {
      forall x | Listed(g, x) && Serious(x.severity) ensures KeyOf(x) in allowed {
        BlockingMembers(findings, Finding(x, KeyOf(x) in allowed));
      }
    }
    return Ok(AuditReport(blocking == [], findings, blocking));
  }

  /** What a pass is worth: every high or critical package is so because of a reachable advisory
      of exactly that severity, and that advisory is allowlisted. */
  lemma PassMeansExcused(g: Graph, allowed: set<Key>, name: string)
    requires Consistent(g) && name in g && (g[name].severity == HIGH || g[name].severity == CRITICAL)
    requires forall x :: Listed(g, x) && (x.severity == HIGH || x.severity == CRITICAL) ==> KeyOf(x) in allowed
    ensures exists x :: Reaches(g, name, x) && x.severity == g[name].severity && KeyOf(x) in allowed
  {
    assert SeverityOk(g, name);
    var x :| Reaches(g, name, x) && x.severity == g[name].severity;
    var b, n: nat :| ReachesVia(g, name, x, b, n);
    assert Listed(g, x);
  }
}
