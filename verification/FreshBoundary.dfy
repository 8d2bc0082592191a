/** The boot boundary of a database path claimed to be new (src/db/fresh-boundary.ts, called by
    src/server.ts before the store opens), and what it adds to the deploy's own rules. */
module FreshBoundary {
  import opened Prelude
  import opened Deploy
  import opened DeployRuns
  import opened Cutover

  /** A file as far as a boot looks at it; a database is no JSON text. */
  datatype File = Empty | Database(rows: string) | Text(json: bool)

  type Disk = map<string, File>

  const MEMORY := ":memory:"

  function MarkerPath(path: string): string {
    path + ".fresh-cutover.json"
  }

  predicate Marked(disk: Disk, path: string) {
    MarkerPath(path) in disk && disk[MarkerPath(path)] == Text(true)
  }

  /** True, false and the exception of assertFreshDatabaseBoundary (29-53). */
  datatype Verdict = FirstBoot | NoFirstBoot | NotFresh

  function AssertFreshDatabaseBoundary(disk: Disk, path: string, disposition: Option<string>): Verdict {
    if disposition != Some("new_unused") || path == MEMORY then NoFirstBoot
    else if path !in disk || disk[path].Empty? then FirstBoot
    else if Marked(disk, path) then NoFirstBoot
    else NotFresh
  }

  // ----- one boot -----

  datatype Config = Config(engine: string, path: string, disposition: Option<string>)

  /** The three variables as src/config.ts:135-152 reads them. */
  function LoadConfig(vars: Vars): Option<Config> {
    var engine, path, disposition := Get(vars, ASSISTANT_ENGINE), Get(vars, DATABASE_PATH),
      Get(vars, DATABASE_PATH_DISPOSITION);
    if path.None? || path.value == "" then None
    else if engine.Some? && engine.value != "v1" && engine.value != "v2" then None
    else if disposition.Some? && disposition.value != "new_unused" && disposition.value != "existing_expected" then None
    else Some(Config(if engine.Some? then engine.value else "v2", path.value, disposition))
  }

  datatype MarkerWrite = Unwritten | Partly | Written

  /** How far a process gets before it ends: what its store holds in the end, None when it wrote
      nothing, and whether the marker was written. */
  datatype Process = Process(rows: Option<string>, marker: MarkerWrite)

  /** start (490-506): the boundary, the store, the marker, in this order. */
  function Boot(disk: Disk, vars: Vars, p: Process): Disk {
    var c := LoadConfig(vars);
    if c.None? || c.value.path == MEMORY then disk else
    var path := c.value.path;
    var verdict := AssertFreshDatabaseBoundary(disk, path, c.value.disposition);
    if verdict.NotFresh? || (path in disk && disk[path].Text?) then disk
    else if p.rows.None? then (if path in disk then disk else disk[path := Empty])
    else
      var after := disk[path := Database(p.rows.value)];
      if verdict.FirstBoot? && !p.marker.Unwritten? then after[MarkerPath(path) := Text(p.marker.Written?)]
      else after
  }

  // ----- what they mean, file by file -----

  /** A configuration needs a path; engine and disposition may be missing but not be anything else. */
  lemma ConfigExactly(vars: Vars, c: Config)
    ensures LoadConfig(vars) == Some(c) <==>
      && DATABASE_PATH in vars && c.path == vars[DATABASE_PATH] && |c.path| > 0
      && (if ASSISTANT_ENGINE in vars then c.engine == vars[ASSISTANT_ENGINE] && c.engine in {"v1", "v2"}
          else c.engine == "v2")
      && (if DATABASE_PATH_DISPOSITION in vars then
            c.disposition == Some(vars[DATABASE_PATH_DISPOSITION])
            && vars[DATABASE_PATH_DISPOSITION] in {"new_unused", "existing_expected"}
          else c.disposition == None)
  {}

  /** The path holds data. */
  predicate HasData(disk: Disk, path: string) {
    path in disk && disk[path] != Empty
  }

  /** Its marker file can be read. */
  predicate HasMarker(disk: Disk, path: string) {
    var marker := path + ".fresh-cutover.json";
    marker in disk && disk[marker] == Text(true)
  }

  /** The claim of a new path is a first boot without data, and refused for data without a marker. */
  lemma BoundaryExactly(disk: Disk, path: string, disposition: Option<string>)
    ensures var claimed := disposition == Some("new_unused") && path != ":memory:";
      var verdict := AssertFreshDatabaseBoundary(disk, path, disposition);
      && (verdict == FirstBoot <==> claimed && !HasData(disk, path))
      && (verdict == NotFresh <==> claimed && HasData(disk, path) && !HasMarker(disk, path))
  {}

  /** A start opens the store of its path unless that is no database or the boundary refuses it. */
  predicate GetsToOpen(disk: Disk, c: Config) {
    && c.path != ":memory:" && !(c.path in disk && disk[c.path].Text?)
    && !(c.disposition == Some("new_unused") && HasData(disk, c.path) && !HasMarker(disk, c.path))
  }

  /** What a start leaves in its store, in its marker, and everywhere else. */
  lemma BootExactly(disk: Disk, vars: Vars, p: Process)
    ensures var after := Boot(disk, vars, p);
      match LoadConfig(vars)
      case None => after == disk
      case Some(c) =>
        if !GetsToOpen(disk, c) then after == disk
        else
          var path, marker := c.path, c.path + ".fresh-cutover.json";
          var marks := c.disposition == Some("new_unused") && !HasData(disk, path) && p.rows != None
            && p.marker != Unwritten;
          && path in after
          && after[path] == (match p.rows
                             case Some(rows) => Database(rows)
                             case None => if path in disk then disk[path] else Empty)
          && (marks ==> marker in after && after[marker] == Text(p.marker == Written))
          && (forall q :: q != path && !(marks && q == marker) ==>
                (q in after <==> q in disk) && (q in disk ==> after[q] == disk[q]))
  {
    hide LoadConfig;
    if LoadConfig(vars).Some? {
      var c := LoadConfig(vars).value;
      BoundaryExactly(disk, c.path, c.disposition);
      hide AssertFreshDatabaseBoundary;
      MarkersDiffer(c.path, c.path);
    }
  }

  datatype Service = Service(vars: Vars, disk: Disk)

  /** A start under these variables gets to open the store of this path under this engine. */
  predicate Opens(s: Service, engine: string, path: string) {
    var c := LoadConfig(s.vars);
    && c.Some? && c.value.engine == engine && c.value.path == path
    && !AssertFreshDatabaseBoundary(s.disk, path, c.value.disposition).NotFresh?
  }

  // ----- deploys and starts -----

  datatype Event = Release(t: Try) | Start(p: Process)

  function Next(s: Service, e: Event): Service {
    match e
    case Release(t) => s.(vars := Transaction(t.env, t.w, s.vars).vars)
    case Start(p) => s.(disk := Boot(s.disk, s.vars, p))
  }

  function Run(s: Service, events: seq<Event>): Service {
    if events == [] then s else Next(Run(s, events[..|events| - 1]), events[|events| - 1])
  }

  function Tries(events: seq<Event>): seq<Try> {
    if events == [] then []
    else
      var e := events[|events| - 1];
      Tries(events[..|events| - 1]) + if e.Release? then [e.t] else []
  }

  lemma AfterOne(vars: Vars, tries: seq<Try>, t: Try)
    ensures After(vars, []) == vars && After(vars, tries + [t]) == Transaction(t.env, t.w, After(vars, tries)).vars
  {
    hide Transaction;
    assert (tries + [t])[..|tries|] == tries;
  }

  lemma TriesSnoc(events: seq<Event>)
    requires events != []
    ensures var e := events[|events| - 1];
      Tries(events) == Tries(events[..|events| - 1]) + if e.Release? then [e.t] else []
  {}

  lemma {:induction false} RunVars(s: Service, events: seq<Event>)
    ensures Run(s, events).vars == After(s.vars, Tries(events))
  {
    hide Transaction, Boot, After, Tries;
    if events == [] {
      NoTries(s.vars);
    } else {
      var front, e := events[..|events| - 1], events[|events| - 1];
      RunVars(s, front);
      TriesSnoc(events);
      if e.Release? {
        AfterOne(s.vars, Tries(front), e.t);
      } else {
        assert Tries(front) + [] == Tries(front);
      }
    }
  }

  lemma NoTries(vars: Vars)
    ensures After(vars, Tries([])) == vars
  {}

  // ----- a retained database -----

  /** Data without a readable marker. */
  predicate Retained(disk: Disk, path: string) {
    path in disk && !disk[path].Empty? && !Marked(disk, path)
  }

  lemma MarkersDiffer(p: string, q: string)
    ensures MarkerPath(p) == MarkerPath(q) ==> p == q
    ensures MarkerPath(p) != p && MarkerPath(MarkerPath(p)) != p
  {
    assert p == MarkerPath(p)[..|MarkerPath(p)| - |".fresh-cutover.json"|];
    assert q == MarkerPath(q)[..|MarkerPath(q)| - |".fresh-cutover.json"|];
    assert |MarkerPath(p)| == |p| + |".fresh-cutover.json"|;
    assert |MarkerPath(MarkerPath(p))| == |MarkerPath(p)| + |".fresh-cutover.json"|;
  }

  lemma BootRetains(disk: Disk, vars: Vars, p: Process, path: string)
    requires Retained(disk, path) && path != MEMORY
    ensures Retained(Boot(disk, vars, p), path)
  {
    hide MarkerPath, LoadConfig;
    if LoadConfig(vars).Some? {
      var q := LoadConfig(vars).value.path;
      MarkersDiffer(path, q);
      MarkersDiffer(q, path);
    }
  }

  /** Whatever is deployed and however each start ends, a database without a marker never gets one,
      so the claim that its path is new is refused at every later start. */
  lemma {:induction false} RetainedStays(s: Service, events: seq<Event>, path: string)
    requires Retained(s.disk, path) && path != MEMORY
    ensures Retained(Run(s, events).disk, path)
    ensures AssertFreshDatabaseBoundary(Run(s, events).disk, path, Some("new_unused")).NotFresh?
  {
    hide Transaction, Boot, MarkerPath;
    if events != [] {
      var front, e := events[..|events| - 1], events[|events| - 1];
      RetainedStays(s, front, path);
      if e.Start? { BootRetains(Run(s, front).disk, Run(s, front).vars, e.p, path); }
    }
  }

  /** The attempt whose selection is the stored one. */
  ghost predicate LastRelease(vars: Vars, tries: seq<Try>, k: nat) {
    k < |tries| && ReleasedAt(vars, tries, k) && forall j :: k < j < |tries| ==> !ReleasedAt(vars, tries, j)
  }

  lemma {:induction false} StoredSelection(vars: Vars, tries: seq<Try>, n: nat) returns (k: nat)
    requires Clean(vars, tries) && n <= |tries|
    ensures k <= n && (forall j :: k <= j < n ==> !ReleasedAt(vars, tries, j))
    ensures k > 0 ==> ReleasedAt(vars, tries, k - 1)
    ensures After(vars, tries[..n]) == After(vars, tries[..k])
  {
    hide Transaction, After;
    k := n;
    if n > 0 && !ReleasedAt(vars, tries, n - 1) {
      k := StoredSelection(vars, tries, n - 1);
      assert CleanAt(vars, tries, n - 1);
      AfterSnoc(vars, tries, n - 1);
      PairMovesTogether(tries[n - 1].env, tries[n - 1].w, After(vars, tries[..n - 1]));
    }
  }

  /** What a released selection lets a start do with a retained database. */
  lemma ReleasedOpens(env: Environment, w: Conditions, vars: Vars, disk: Disk, path: string)
    requires Transaction(env, w, vars).outcome.Released? && Retained(disk, path) && path != MEMORY
    ensures Opens(Service(Transaction(env, w, vars).vars, disk), "v2", path) <==>
      Asks(env, "v2", path, "existing_expected")
  {
    hide Transaction, Required, Desired, MarkerPath, PathOk, CheckSelection;
    PairMovesTogether(env, w, vars);
    var s := Selected(env, Snapshot(vars));
    assert s.path != "" by { NotEmpty(s.path); }
  }

  lemma NotEmpty(path: string)
    requires PathOk(path)
    ensures path != ""
  {
    assert "/data/" <= path;
  }

  /** After any clean deploys and any starts from where another engine serves a retained database:
      v2 can open it if and only if the last released request was for v2 there as existing. */
  lemma V2OpensExactly(s: Service, events: seq<Event>, path: string)
    requires Clean(s.vars, Tries(events)) && OtherServes(s.vars, path) && Retained(s.disk, path) && path != MEMORY
    ensures Opens(Run(s, events), "v2", path) <==>
      exists k: nat :: LastRelease(s.vars, Tries(events), k)
        && Asks(Tries(events)[k].env, "v2", path, "existing_expected")
  {
    hide Transaction, After, MarkerPath, Required, Retained, Tries, Run;
    var tries, v := Tries(events), Run(s, events);
    RetainedStays(s, events, path);
    RunVars(s, events);
    assert tries[..|tries|] == tries;
    var k := StoredSelection(s.vars, tries, |tries|);
    if k == 0 {
      StartsAt(s.vars, tries);
      assert !Opens(v, "v2", path);
    } else {
      AfterSnoc(s.vars, tries, k - 1);
      ReleasedOpens(tries[k - 1].env, tries[k - 1].w, After(s.vars, tries[..k - 1]), v.disk, path);
      assert v == Service(After(s.vars, tries[..k]), v.disk);
      assert LastRelease(s.vars, tries, k - 1);
    }
  }

  lemma StartsAt(vars: Vars, tries: seq<Try>)
    ensures After(vars, tries[..0]) == vars
  {}

  /** Without the recorded exception that takes an earlier release too, which claimed the path as new. */
  lemma TwoReleasesNeeded(s: Service, events: seq<Event>, path: string) returns (j: nat, k: nat)
    requires Clean(s.vars, Tries(events)) && OtherServes(s.vars, path) && Retained(s.disk, path) && path != MEMORY
    requires forall i :: 0 <= i < |Tries(events)| ==> Tries(events)[i].env.adr != SUPERSEDED
    requires Opens(Run(s, events), "v2", path)
    ensures j < k && LastRelease(s.vars, Tries(events), k)
      && Asks(Tries(events)[k].env, "v2", path, "existing_expected")
    ensures ReleasedAt(s.vars, Tries(events), j) && Asks(Tries(events)[j].env, "v2", path, "new_unused")
  {
    hide Transaction, After, MarkerPath, Required, Retained, Tries, Run, Opens;
    var tries := Tries(events);
    V2OpensExactly(s, events, path);
    k :| LastRelease(s.vars, tries, k) && Asks(tries[k].env, "v2", path, "existing_expected");
    AfterSnoc(s.vars, tries, k);
    PairMovesTogether(tries[k].env, tries[k].w, After(s.vars, tries[..k]));
    j := ClaimedBefore(s.vars, tries, k + 1, path);
    assert j != k;
  }

  lemma {:induction false} ClaimedBefore(vars: Vars, tries: seq<Try>, n: nat, path: string) returns (j: nat)
    requires Clean(vars, tries) && n <= |tries| && OtherServes(vars, path)
      && Stores(After(vars, tries[..n]), "v2", path)
    requires forall i :: 0 <= i < |tries| ==> tries[i].env.adr != SUPERSEDED
    ensures j < n && ReleasedAt(vars, tries, j) && Asks(tries[j].env, "v2", path, "new_unused")
  {
    hide Transaction, After, Required;
    if n == 0 {
      StartsAt(vars, tries);
      assert false;
    } else {
      j := n - 1;
      assert CleanAt(vars, tries, j);
      AfterSnoc(vars, tries, j);
      PairMovesTogether(tries[j].env, tries[j].w, After(vars, tries[..j]));
      if Stores(After(vars, tries[..j]), "v2", path) {
        j := ClaimedBefore(vars, tries, j, path);
      }
    }
  }

  /** That sequence exists: to a new database, back to the retained one as new, where no start
      succeeds, and once more as existing. */
  lemma RetainedReopened(s: Service, env: Environment, engine: string, path: string, p: Process)
    requires Stores(s.vars, engine, path) && engine != "v2" && PlanAccepts(s.vars) && Retained(s.disk, path)
    requires PathOk(path) && Required(Some(path)) == Ok(path)
    requires Desired(env, Snapshot(s.vars)).Ok? && env.adr != SUPERSEDED
      && Selected(env, Snapshot(s.vars)).engine == "v2"
    ensures var tries := [Try(env, SMOOTH), Try(Back(env, path, "new_unused"), SMOOTH),
      Try(Back(env, path, "existing_expected"), SMOOTH)];
      var claimed := [Release(tries[0]), Start(p), Release(tries[1]), Start(p)];
      && !Opens(Run(s, claimed), "v2", path)
      && Opens(Run(s, claimed + [Release(tries[2])]), "v2", path)
  {
    hide Transaction, After, MarkerPath, Required, Retained, Run, Opens, Desired, PathOk, PlanAccepts, Boot;
    var tries := [Try(env, SMOOTH), Try(Back(env, path, "new_unused"), SMOOTH),
      Try(Back(env, path, "existing_expected"), SMOOTH)];
    var claimed := [Release(tries[0]), Start(p), Release(tries[1]), Start(p)];
    AbandonedDatabaseReturns(s.vars, env, engine, path);
    OnVolume(path);
    FirstTwo(tries[0], tries[1], tries[2], p);
    Prefixes(s.vars, tries);
    V2OpensExactly(s, claimed, path);
    V2OpensExactly(s, claimed + [Release(tries[2])], path);
    assert LastRelease(s.vars, tries, 2);
    assert LastRelease(s.vars, tries[..2], 1);
  }

  lemma OnVolume(path: string)
    requires PathOk(path)
    ensures path != MEMORY
  {
    assert "/data/" <= path;
    assert path[0] == "/data/"[0];
  }

  lemma FirstTwo(a: Try, b: Try, c: Try, p: Process)
    ensures Tries([Release(a), Start(p), Release(b), Start(p)]) == [a, b, c][..2]
    ensures Tries([Release(a), Start(p), Release(b), Start(p)] + [Release(c)]) == [a, b, c]
  {
    var es := [Release(a), Start(p), Release(b), Start(p), Release(c)];
    assert es[..4][..3] == es[..3] && es[..3][..2] == es[..2] && es[..2][..1] == es[..1] && es[..1][..0] == [];
    assert Tries(es[..1]) == [a];
    assert Tries(es[..2]) == [a];
    assert Tries(es[..3]) == [a, b];
    assert Tries(es[..4]) == [a, b] == [a, b, c][..2];
    assert es[..4] == [Release(a), Start(p), Release(b), Start(p)] && es == es[..4] + [Release(c)];
  }

  lemma Prefixes(vars: Vars, tries: seq<Try>)
    requires |tries| == 3 && ReleasedAt(vars, tries, 0) && ReleasedAt(vars, tries, 1) && ReleasedAt(vars, tries, 2)
    ensures ReleasedAt(vars, tries[..2], 0) && ReleasedAt(vars, tries[..2], 1)
    ensures Clean(vars, tries) && Clean(vars, tries[..2])
  {
    hide Transaction, After;
    assert tries[..2][..0] == tries[..0] && tries[..2][..1] == tries[..1];
  }

  // ----- the first boot -----

  ghost predicate Claimed(s: Service, path: string) {
    && LoadConfig(s.vars).Some? && LoadConfig(s.vars).value.path == path && path != MEMORY
    && LoadConfig(s.vars).value.disposition == Some("new_unused")
  }

  /** A first boot can be repeated unless it ended between creating the store and completing the
      marker (and found no readable marker of an earlier life of the path). */
  lemma FirstBootRestarts(s: Service, p: Process, path: string)
    requires Claimed(s, path) && AssertFreshDatabaseBoundary(s.disk, path, Some("new_unused")).FirstBoot?
    ensures AssertFreshDatabaseBoundary(Boot(s.disk, s.vars, p), path, Some("new_unused")).NotFresh? <==>
      p.rows.Some? && !p.marker.Written? && !(p.marker.Unwritten? && Marked(s.disk, path))
  {
    hide MarkerPath, LoadConfig;
    MarkersDiffer(path, path);
  }

  /** And then it is never restarted as new, whatever follows. */
  lemma CutFirstBootIsFinal(s: Service, p: Process, path: string, events: seq<Event>)
    requires Claimed(s, path) && AssertFreshDatabaseBoundary(s.disk, path, Some("new_unused")).FirstBoot?
    requires p.rows.Some? && !p.marker.Written? && !(p.marker.Unwritten? && Marked(s.disk, path))
    ensures var v := Run(s.(disk := Boot(s.disk, s.vars, p)), events);
      Claimed(v, path) ==> forall engine: string :: !Opens(v, engine, path)
  {
    hide MarkerPath, LoadConfig, Boot, Run;
    FirstBootRestarts(s, p, path);
    RetainedStays(s.(disk := Boot(s.disk, s.vars, p)), events, path);
  }
}
