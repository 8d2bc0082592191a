/** The production license gate (scripts/dependency-gates/license.ts): the closure of an install
    tree, and what a license expression allows. */
module License {
  import opened Prelude
  import opened Sorting

  /** Name and version. */
  type Key = Pair

  /** An installed package with its own dependencies; valid covers the per-edge checks. */
  datatype Node = Node(pkg: string, version: string, license: string, valid: bool, deps: seq<Node>)

  datatype Package = Package(pkg: string, version: string, license: string)

  function KeyOf(n: Node): Key {
    (n.pkg, n.version)
  }

  function NameOf(p: Package): Key {
    (p.pkg, p.version)
  }

  function PackageOf(n: Node): Package {
    Package(n.pkg, n.version, n.license)
  }

  /** d is a dependency of node at some depth. */
  ghost predicate Below(node: Node, d: Node)
    decreases node
  {
    exists i :: 0 <= i < |node.deps| && (d == node.deps[i] || Below(node.deps[i], d))
  }

  ghost predicate AtOrBelow(node: Node, d: Node) {
    d == node || Below(node, d)
  }

  ghost function Under(node: Node): iset<Node> {
    iset d | Below(node, d)
  }

  ghost predicate BelowFirst(node: Node, i: nat, d: Node)
    requires i <= |node.deps|
  {
    exists j :: 0 <= j < i && AtOrBelow(node.deps[j], d)
  }

  /** What the first i direct dependencies bring. */
  ghost function UnderFirst(node: Node, i: nat): iset<Node>
    requires i <= |node.deps|
  {
    iset d | BelowFirst(node, i, d)
  }

  ghost predicate Clash(a: Package, b: Package) {
    a.pkg == b.pkg && a.version == b.version && a.license != b.license
  }

  /** after keeps before and adds only packages of s. */
  ghost predicate Grew(before: map<Key, Package>, after: map<Key, Package>, s: iset<Node>) {
    && (forall k :: k in before ==> k in after && after[k] == before[k])
    && (forall k :: k in after ==> NameOf(after[k]) == k)
    && (forall k :: k in after && k !in before ==> exists d :: d in s && after[k] == PackageOf(d))
  }

  ghost predicate Installed(after: map<Key, Package>, s: iset<Node>) {
    forall d :: d in s ==> d.valid && KeyOf(d) in after && after[KeyOf(d)] == PackageOf(d)
  }

  /** Some node of s is an invalid edge, or has another license than one installed before or one of s. */
  ghost predicate Refused(before: map<Key, Package>, s: iset<Node>) {
    exists d :: d in s && RefusedAt(before, s, d)
  }

  ghost predicate RefusedAt(before: map<Key, Package>, s: iset<Node>, d: Node) {
    || !d.valid
    || (KeyOf(d) in before && Clash(before[KeyOf(d)], PackageOf(d)))
    || exists e :: e in s && Clash(PackageOf(e), PackageOf(d))
  }

  lemma GrewTwice(a: map<Key, Package>, b: map<Key, Package>, c: map<Key, Package>, s: iset<Node>, t: iset<Node>)
    requires Grew(a, b, s) && Grew(b, c, t)
    ensures Grew(a, c, s + t)
  {
    forall k | k in c && k !in a ensures exists d :: d in s + t && c[k] == PackageOf(d) {
      if k in b {
        var d :| d in s && b[k] == PackageOf(d);
        assert d in s + t;
      } else {
        var d :| d in t && c[k] == PackageOf(d);
        assert d in s + t;
      }
    }
  }

  lemma InstalledTwice(b: map<Key, Package>, c: map<Key, Package>, s: iset<Node>, t: iset<Node>)
    requires Installed(b, s) && Grew(b, c, t) && Installed(c, t)
    ensures Installed(c, s + t)
  {}

  /** A refusal further down the walk is a refusal of the whole. */
  lemma RefusedLater(a: map<Key, Package>, b: map<Key, Package>, s: iset<Node>, t: iset<Node>, whole: iset<Node>)
    requires Grew(a, b, s) && Refused(b, t) && s + t <= whole
    ensures Refused(a, whole)
  {
    var d :| d in t && RefusedAt(b, t, d);
    assert d in whole;
    if d.valid {
      if KeyOf(d) in b && Clash(b[KeyOf(d)], PackageOf(d)) {
        if KeyOf(d) !in a {
          var e :| e in s && b[KeyOf(d)] == PackageOf(e);
          assert e in whole;
        }
      } else {
        var e :| e in t && Clash(PackageOf(e), PackageOf(d));
        assert e in whole;
      }
    }
    assert RefusedAt(a, whole, d);
  }

  lemma UnderNext(node: Node, i: nat)
    requires i < |node.deps|
    ensures UnderFirst(node, i + 1) == UnderFirst(node, i) + (iset{node.deps[i]} + Under(node.deps[i]))
    ensures UnderFirst(node, i + 1) <= Under(node)
  {}

  lemma UnderAll(node: Node)
    ensures UnderFirst(node, |node.deps|) == Under(node)
  {}

  /** The install tree read so far: a map that keeps the order in which keys were added. */
  class Tree {
    var installed: map<Key, Package>
    var order: seq<Key>

    ghost predicate Valid()
      reads this
    {
      && (forall k :: k in installed ==> NameOf(installed[k]) == k)
      && Distinct(order) && Elems(order) == installed.Keys
    }

    constructor ()
      ensures installed == map[] && order == [] && Valid()
    {
      installed := map[];
      order := [];
    }

    /** Map.set. */
    method Set(value: Node)
      requires Valid()
      modifies this
      ensures Valid() && installed == old(installed)[KeyOf(value) := PackageOf(value)]
      ensures order == old(order) + if KeyOf(value) in old(installed) then [] else [KeyOf(value)]
    {
      var key := KeyOf(value);
      if key !in installed {
        assert key !in Elems(order);
        order := order + [key];
      }
      installed := installed[key := PackageOf(value)];
    }

    /** One dependency: its own checks, then everything below it (114-136). */
    method VisitOne(value: Node) returns (ok: bool)
      requires Valid()
      modifies this
      ensures Valid() && Grew(old(installed), installed, iset{value} + Under(value))
      ensures ok ==> Installed(installed, iset{value} + Under(value))
      ensures !ok ==> Refused(old(installed), iset{value} + Under(value))
      decreases value, 1
    {
      hide Under, Distinct, Elems;
      ghost var before, whole := installed, iset{value} + Under(value);
      var key := KeyOf(value);
      if !value.valid || (key in installed && installed[key].license != value.license) {
        assert RefusedAt(before, whole, value);
        return false;
      }
      Set(value);
      ghost var mid := installed;
      assert Grew(before, mid, iset{value}) && Installed(mid, iset{value});
      ok := VisitDependencies(value);
      GrewTwice(before, mid, installed, iset{value}, Under(value));
      if ok {
        InstalledTwice(mid, installed, iset{value}, Under(value));
      } else {
        RefusedLater(before, mid, iset{value}, Under(value), whole);
      }
    }

    /** visitDependencies (110-138). */
    method VisitDependencies(node: Node) returns (ok: bool)
      requires Valid()
      modifies this
      ensures Valid() && Grew(old(installed), installed, Under(node))
      ensures ok ==> Installed(installed, Under(node))
      ensures !ok ==> Refused(old(installed), Under(node))
      decreases node, 0
    {
      hide Under, UnderFirst, Grew, Installed, Refused, Distinct, Elems;
      ghost var before := installed;
      NothingRead(installed, node);
      var i := 0;
      while i < |node.deps|
        invariant 0 <= i <= |node.deps| && Valid()
        invariant Grew(before, installed, UnderFirst(node, i)) && Installed(installed, UnderFirst(node, i))
      {
        ghost var mid := installed;
        ghost var part := iset{node.deps[i]} + Under(node.deps[i]);
        ok := VisitOne(node.deps[i]);
        UnderNext(node, i);
        GrewTwice(before, mid, installed, UnderFirst(node, i), part);
        if !ok {
          RefusedLater(before, mid, UnderFirst(node, i), part, Under(node));
          MoreUnder(before, installed, UnderFirst(node, i + 1), Under(node));
          return false;
        }
        InstalledTwice(mid, installed, UnderFirst(node, i), part);
        i := i + 1;
      }
      UnderAll(node);
      return true;
    }
  }

  lemma NothingRead(installed: map<Key, Package>, node: Node)
    requires forall k :: k in installed ==> NameOf(installed[k]) == k
    ensures Grew(installed, installed, UnderFirst(node, 0)) && Installed(installed, UnderFirst(node, 0))
  {}

  lemma MoreUnder(before: map<Key, Package>, after: map<Key, Package>, s: iset<Node>, t: iset<Node>)
    requires Grew(before, after, s) && s <= t
    ensures Grew(before, after, t)
  {}

  // ----- expressions -----

  /** A parsed license expression (SPDX Specification 2.3, Annex D). */
  datatype Expr = Id(name: string) | And(left: Expr, right: Expr) | Or(left: Expr, right: Expr)

  /** licenseIdentifiers (146-149). */
  function Identifiers(e: Expr): seq<string> {
    match e
    case Id(name) => [name]
    case And(l, r) => Identifiers(l) + Identifiers(r)
    case Or(l, r) => Identifiers(l) + Identifiers(r)
  }

  /** The ways to satisfy an expression: every OR decided, every AND obeyed on both sides. */
  function Resolutions(e: Expr): set<set<string>> {
    match e
    case Id(name) => {{name}}
    case And(l, r) => set a, b | a in Resolutions(l) && b in Resolutions(r) :: a + b
    case Or(l, r) => Resolutions(l) + Resolutions(r)
  }

  predicate IsReference(id: string) {
    "LicenseRef-" <= id || "DocumentRef-" <= id
  }

  predicate IsForbidden(id: string) {
    "GPL-3.0" <= id || "AGPL-" <= id
  }

  predicate Permitted(id: string) {
    !IsReference(id) && !IsForbidden(id)
  }

  datatype Reason = Forbidden | Unknown

  /** classifyLicense (151-169); parse is the SPDX parser. */
  function Classify(parse: string -> Option<Expr>, license: string): Option<Reason> {
    if license == "UNKNOWN" || parse(license).None? then Some(Unknown)
    else
      var ids := Identifiers(parse(license).value);
      if exists i :: 0 <= i < |ids| && IsReference(ids[i]) then Some(Unknown)
      else if exists i :: 0 <= i < |ids| && IsForbidden(ids[i]) then Some(Forbidden)
      else None
  }

  lemma {:induction false} SomeResolution(e: Expr) returns (r: set<string>)
    ensures r in Resolutions(e)
  {
    match e
    case Id(name) => r := {name};
    case And(a, b) =>
      var x := SomeResolution(a);
      var y := SomeResolution(b);
      r := x + y;
    case Or(a, b) => r := SomeResolution(a);
  }

  /** The identifiers of an expression are those of its resolutions, and each occurs in one. */
  lemma {:induction false} IdentifiersResolve(e: Expr, id: string)
    ensures id in Identifiers(e) <==> exists r :: r in Resolutions(e) && id in r
  {
    match e
    case Id(name) => assert {name} in Resolutions(e);
    case Or(a, b) =>
      IdentifiersResolve(a, id);
      IdentifiersResolve(b, id);
    case And(a, b) =>
      IdentifiersResolve(a, id);
      IdentifiersResolve(b, id);
      if id in Identifiers(a) {
        var x :| x in Resolutions(a) && id in x;
        var y := SomeResolution(b);
        assert x + y in Resolutions(e);
      } else if id in Identifiers(b) {
        var x := SomeResolution(a);
        var y :| y in Resolutions(b) && id in y;
        assert x + y in Resolutions(e);
      }
      if r :| r in Resolutions(e) && id in r {
        var x, y :| x in Resolutions(a) && y in Resolutions(b) && r == x + y;
      }
  }

  ghost predicate AllPermitted(e: Expr) {
    forall r, id :: r in Resolutions(e) && id in r ==> Permitted(id)
  }

  /** A license is allowed exactly when it parses and every way to satisfy it uses permitted
      identifiers only. */
  lemma AllowedExactly(parse: string -> Option<Expr>, license: string)
    ensures Classify(parse, license).None? <==>
      license != "UNKNOWN" && parse(license).Some? && AllPermitted(parse(license).value)
  {
    hide IsReference, IsForbidden, Resolutions, Identifiers;
    if license != "UNKNOWN" && parse(license).Some? {
      var e := parse(license).value;
      var ids := Identifiers(e);
      if AllPermitted(e) {
        forall i | 0 <= i < |ids| ensures Permitted(ids[i]) {
          IdentifiersResolve(e, ids[i]);
          assert ids[i] in ids;
        }
      }
      if Classify(parse, license).None? {
        forall r, id | r in Resolutions(e) && id in r ensures Permitted(id) {
          IdentifiersResolve(e, id);
          var i :| 0 <= i < |ids| && ids[i] == id;
        }
      }
    }
  }

  /** That is stricter than asking for one acceptable choice: an alternative does not help. */
  lemma AlternativesDoNotHelp(parse: string -> Option<Expr>, license: string, e: Expr, id: string)
    requires parse(license) == Some(Or(e, Id(id))) && !Permitted(id)
    ensures Classify(parse, license).Some?
  {
    AllowedExactly(parse, license);
    assert {id} in Resolutions(Or(e, Id(id)));
  }

  // ----- the gate -----

  datatype Status = Allowed | Exception | Blocked(reason: Reason)

  datatype Entry = Entry(package: Package, status: Status)

  datatype Report = Report(passed: bool, packages: seq<Entry>, allowed: nat, exceptions: nat, blocked: nat)

  /** What is fixed outside: the SPDX parser, the exceptions, and the order of texts. */
  datatype Gate = Gate(parse: string -> Option<Expr>, excused: set<Pair>, text: (string, string) -> bool)

  function Judge(g: Gate, p: Package): Entry {
    match Classify(g.parse, p.license)
    case None => Entry(p, Allowed)
    case Some(reason) => if (p.pkg, p.license) in g.excused then Entry(p, Exception) else Entry(p, Blocked(reason))
  }

  function Tally(entries: seq<Entry>): (c: (nat, nat, nat))
    ensures c.0 + c.1 + c.2 == |entries|
    ensures c.2 == 0 <==> forall i :: 0 <= i < |entries| ==> !entries[i].status.Blocked?
  {
    if entries == [] then (0, 0, 0)
    else
      var c := Tally(entries[..|entries| - 1]);
      match entries[|entries| - 1].status
      case Allowed => (c.0 + 1, c.1, c.2)
      case Exception => (c.0, c.1 + 1, c.2)
      case Blocked(_) => (c.0, c.1, c.2 + 1)
  }

  /** The install tree is acceptable as such: valid edges, one license per package and version. */
  ghost predicate WellInstalled(root: Node) {
    && (forall d :: Below(root, d) ==> d.valid)
    && (forall d, e :: Below(root, d) && Below(root, e) ==> !Clash(PackageOf(d), PackageOf(e)))
  }

  function EntryName(e: Entry): Key {
    NameOf(e.package)
  }

  ghost predicate FromTree(g: Gate, root: Node, e: Entry) {
    exists d :: Below(root, d) && e == Judge(g, PackageOf(d))
  }

  /** Everything at any depth of the tree is in the report, and nothing else, strictly ordered by
      package and version. */
  ghost predicate Covers(g: Gate, root: Node, packages: seq<Entry>) {
    && (forall d :: Below(root, d) ==> Judge(g, PackageOf(d)) in packages)
    && (forall i :: 0 <= i < |packages| ==> FromTree(g, root, packages[i]))
    && StrictlySorted(EntryName, ByPair(g.text), packages)
  }

  lemma TreeExactly(root: Node, installed: map<Key, Package>, ok: bool)
    requires Grew(map[], installed, Under(root))
    requires ok ==> Installed(installed, Under(root))
    requires !ok ==> Refused(map[], Under(root))
    ensures ok <==> WellInstalled(root)
    ensures ok ==> forall d :: Below(root, d) ==> KeyOf(d) in installed && installed[KeyOf(d)] == PackageOf(d)
    ensures forall k :: k in installed ==> exists d :: Below(root, d) && installed[k] == PackageOf(d) && KeyOf(d) == k
  {
    if ok {
      forall d, e | Below(root, d) && Below(root, e) ensures !Clash(PackageOf(d), PackageOf(e)) {
        assert d in Under(root) && e in Under(root);
      }
    } else {
      var d :| d in Under(root) && RefusedAt(map[], Under(root), d);
      if d.valid {
        var e :| e in Under(root) && Clash(PackageOf(e), PackageOf(d));
      }
    }
  }

  /** By name, and within a name by version. */
  predicate Precedes(text: (string, string) -> bool, a: Package, b: Package) {
    text(a.pkg, b.pkg) || (a.pkg == b.pkg && text(a.version, b.version))
  }

  lemma CoversInOrder(g: Gate, root: Node, packages: seq<Entry>)
    requires Covers(g, root, packages)
    ensures forall i, j :: 0 <= i < j < |packages| ==> Precedes(g.text, packages[i].package, packages[j].package)
  {
    hide FromTree, Judge;
    forall i, j | 0 <= i < j < |packages| ensures Precedes(g.text, packages[i].package, packages[j].package) {
      assert ByPair(g.text)(EntryName(packages[i]), EntryName(packages[j]));
    }
  }

  /** inspectProductionLicenses (171-212); None where it throws. */
  method InspectProductionLicenses(g: Gate, root: Node) returns (r: Option<Report>)
    requires StrictOrder(g.text)
    ensures r.Some? <==> WellInstalled(root)
    ensures r.Some? ==> Covers(g, root, r.value.packages)
    ensures r.Some? ==> forall i, j :: 0 <= i < j < |r.value.packages| ==>
      Precedes(g.text, r.value.packages[i].package, r.value.packages[j].package)
    ensures r.Some? ==> (r.value.allowed, r.value.exceptions, r.value.blocked) == Tally(r.value.packages)
    ensures r.Some? ==> (r.value.passed <==> r.value.blocked == 0)
  {
    hide Below, Judge, WellInstalled, Grew, Installed, Refused, StrictOrder, StrictlySorted, KeysDiffer, ByPair, Sort,
      Distinct;
    var tree := new Tree();
    var ok := tree.VisitDependencies(root);
    TreeExactly(root, tree.installed, ok);
    if !ok {
      return None;
    }
    var values := Values(tree.installed, tree.order);
    SortSorted(NameOf, ByPair(g.text), values) by {
      ByPairStrict(g.text);
      NamesDiffer(tree.installed, tree.order);
    }
    var sorted := Sort(NameOf, ByPair(g.text), values);
    var packages := Judged(g, sorted);
    Reported(g, root, tree.installed, tree.order, packages);
    CoversInOrder(g, root, packages);
    var c := Tally(packages);
    return Some(Report(c.2 == 0, packages, c.0, c.1, c.2));
  }

  function Values(installed: map<Key, Package>, order: seq<Key>): (values: seq<Package>)
    requires Elems(order) == installed.Keys
    ensures |values| == |order|
    ensures forall i :: 0 <= i < |order| ==> order[i] in installed && values[i] == installed[order[i]]
  {
    assert forall i :: 0 <= i < |order| ==> order[i] in Elems(order);
    seq(|order|, i requires 0 <= i < |order| && order[i] in installed => installed[order[i]])
  }

  lemma NamesDiffer(installed: map<Key, Package>, order: seq<Key>)
    requires Distinct(order) && Elems(order) == installed.Keys
    requires forall k :: k in installed ==> NameOf(installed[k]) == k
    ensures KeysDiffer(NameOf, Values(installed, order))
  {
    var values := Values(installed, order);
    forall i, j | 0 <= i < j < |values| ensures NameOf(values[i]) != NameOf(values[j]) {
      assert NameOf(values[i]) == order[i] && NameOf(values[j]) == order[j];
    }
  }

  function Judged(g: Gate, packages: seq<Package>): (entries: seq<Entry>)
    ensures |entries| == |packages| && forall i :: 0 <= i < |packages| ==> entries[i] == Judge(g, packages[i])
  {
    seq(|packages|, i requires 0 <= i < |packages| => Judge(g, packages[i]))
  }

  lemma Reported(g: Gate, root: Node, installed: map<Key, Package>, order: seq<Key>, packages: seq<Entry>)
    requires Elems(order) == installed.Keys
    requires packages == Judged(g, Sort(NameOf, ByPair(g.text), Values(installed, order)))
    requires StrictlySorted(NameOf, ByPair(g.text), Sort(NameOf, ByPair(g.text), Values(installed, order)))
    requires forall d :: Below(root, d) ==> KeyOf(d) in installed && installed[KeyOf(d)] == PackageOf(d)
    requires forall k :: k in installed ==> exists d :: Below(root, d) && installed[k] == PackageOf(d) && KeyOf(d) == k
    ensures Covers(g, root, packages)
  {
    hide Below, Sort, StrictlySorted, Classify, ByPair;
    var values := Values(installed, order);
    var sorted := Sort(NameOf, ByPair(g.text), values);
    forall d | Below(root, d) ensures Judge(g, PackageOf(d)) in packages {
      assert KeyOf(d) in Elems(order);
      var j :| 0 <= j < |order| && order[j] == KeyOf(d);
      SortMembers(NameOf, ByPair(g.text), values, values[j]);
      var i :| 0 <= i < |sorted| && sorted[i] == values[j];
      assert packages[i] == Judge(g, PackageOf(d));
    }
    forall i | 0 <= i < |packages| ensures FromTree(g, root, packages[i]) {
      SortMembers(NameOf, ByPair(g.text), values, sorted[i]);
      var j :| 0 <= j < |values| && values[j] == sorted[i];
      var d :| Below(root, d) && installed[order[j]] == PackageOf(d) && KeyOf(d) == order[j];
    }
    JudgedSorted(g, sorted);
  }

  lemma JudgedSorted(g: Gate, sorted: seq<Package>)
    requires StrictlySorted(NameOf, ByPair(g.text), sorted)
    ensures StrictlySorted(EntryName, ByPair(g.text), Judged(g, sorted))
  {
    hide ByPair, Classify;
  }

  /** What a pass means for every package at any depth: it is excused, or each way to satisfy its
      license uses permitted identifiers only. */
  lemma PassExactly(g: Gate, root: Node, packages: seq<Entry>)
    requires Covers(g, root, packages)
    ensures Tally(packages).2 == 0 <==> forall d :: Below(root, d) ==>
      (d.pkg, d.license) in g.excused
      || (d.license != "UNKNOWN" && g.parse(d.license).Some? && AllPermitted(g.parse(d.license).value))
  {
    hide Below, AllPermitted, Classify, Tally;
    forall d | Below(root, d)
      ensures Judge(g, PackageOf(d)).status.Blocked? <==>
        !((d.pkg, d.license) in g.excused || (d.license != "UNKNOWN" && g.parse(d.license).Some?
          && AllPermitted(g.parse(d.license).value)))
    {
      AllowedExactly(g.parse, d.license);
    }
    if Tally(packages).2 == 0 {
      forall d | Below(root, d) ensures !Judge(g, PackageOf(d)).status.Blocked? {
        var i :| 0 <= i < |packages| && packages[i] == Judge(g, PackageOf(d));
      }
    } else {
      var i :| 0 <= i < |packages| && packages[i].status.Blocked?;
      assert FromTree(g, root, packages[i]);
      var d :| Below(root, d) && packages[i] == Judge(g, PackageOf(d));
    }
  }

  // ----- what a report says -----

  predicate Opens(s: string, p: string) {
    |p| <= |s| && s[..|p|] == p
  }

  predicate Foreign(id: string) {
    Opens(id, "LicenseRef-") || Opens(id, "DocumentRef-")
  }

  predicate Copyleft(id: string) {
    Opens(id, "GPL-3.0") || Opens(id, "AGPL-")
  }

  ghost predicate InSomeWay(e: Expr, id: string) {
    exists r :: r in Resolutions(e) && id in r
  }

  /** What each status means. A reference to a license outside the list is reported as unknown even
      beside a forbidden one; an exception only ever excuses what is not allowed anyway. */
  ghost predicate Means(g: Gate, p: Package, status: Status) {
    var parsed := if p.license == "UNKNOWN" then None else g.parse(p.license);
    var unknown := parsed.None? || exists id :: InSomeWay(parsed.value, id) && Foreign(id);
    var forbidden := parsed.Some? && exists id :: InSomeWay(parsed.value, id) && Copyleft(id);
    var excused := (p.pkg, p.license) in g.excused;
    match status
    case Allowed => !unknown && !forbidden
    case Exception => (unknown || forbidden) && excused
    case Blocked(Unknown) => unknown && !excused
    case Blocked(Forbidden) => !unknown && forbidden && !excused
  }

  lemma InIdentifiers(e: Expr, id: string)
    ensures InSomeWay(e, id) <==> exists i :: 0 <= i < |Identifiers(e)| && Identifiers(e)[i] == id
  {
    IdentifiersResolve(e, id);
  }

  /** Each package is reported under its own name, version and license with the one status that
      describes it. */
  lemma JudgedExactly(g: Gate, p: Package, status: Status)
    ensures Judge(g, p).package == p && (Judge(g, p).status == status <==> Means(g, p, status))
  {
    hide Identifiers, InSomeWay;
    if p.license != "UNKNOWN" && g.parse(p.license).Some? {
      var e := g.parse(p.license).value;
      forall id ensures InSomeWay(e, id) <==> exists i :: 0 <= i < |Identifiers(e)| && Identifiers(e)[i] == id {
        InIdentifiers(e, id);
      }
      PrefixesExactly(Identifiers(e));
      forall i | 0 <= i < |Identifiers(e)| ensures InSomeWay(e, Identifiers(e)[i]) {
        InIdentifiers(e, Identifiers(e)[i]);
      }
    }
  }

  lemma PrefixesExactly(ids: seq<string>)
    ensures forall i :: 0 <= i < |ids| ==>
      (IsReference(ids[i]) <==> Foreign(ids[i])) && (IsForbidden(ids[i]) <==> Copyleft(ids[i]))
  {}

  function At(entries: seq<Entry>, statuses: set<Status>): set<nat> {
    set i: nat | i < |entries| && entries[i].status in statuses
  }

  /** The three counts are those of the entries with each status. */
  lemma {:induction false} TallyExactly(entries: seq<Entry>)
    ensures Tally(entries).0 == |At(entries, {Allowed})|
    ensures Tally(entries).1 == |At(entries, {Exception})|
    ensures Tally(entries).2 == |At(entries, {Blocked(Forbidden), Blocked(Unknown)})|
  {
    if entries == [] {
    } else {
      var n := |entries| - 1;
      TallyExactly(entries[..n]);
      AtSnoc(entries, {Allowed});
      AtSnoc(entries, {Exception});
      AtSnoc(entries, {Blocked(Forbidden), Blocked(Unknown)});
      hide At;
      assert entries[n].status in {Blocked(Forbidden), Blocked(Unknown)} <==> entries[n].status.Blocked? by {
        match entries[n].status
        case Blocked(Forbidden) =>
        case Blocked(Unknown) =>
        case _ =>
      }
    }
  }

  lemma AtSnoc(entries: seq<Entry>, statuses: set<Status>)
    requires entries != []
    ensures var n := |entries| - 1;
      |At(entries, statuses)| == |At(entries[..n], statuses)| + if entries[n].status in statuses then 1 else 0
  {
    var n := |entries| - 1;
    assert At(entries, statuses) == At(entries[..n], statuses) + if entries[n].status in statuses then {n} else {};
  }
}
