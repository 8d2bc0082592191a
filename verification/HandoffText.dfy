/** Which texts are handoffs, and what their fields hold, said of the lines themselves. */
module HandoffText {
  import opened Prelude
  import opened Handoffs

  /** The text that continues a field: everything up to the next field line, single spaces between. */
  function Tail(lines: seq<Line>, from: nat): string
    requires from <= |lines|
    decreases |lines| - from
  {
    if from == |lines| || lines[from].Field? then ""
    else (if lines[from].Text? then " " + lines[from].content else "") + Tail(lines, from + 1)
  }

  /** No marker, no field twice or already known, and no text outside a field. */
  ghost predicate Shaped(lines: seq<Line>, known: set<nat>, open: bool) {
    && (forall i :: 0 <= i < |lines| ==> !lines[i].Marker?) && Fresh(lines, known) && (open || Framed(lines))
  }

  ghost predicate Fresh(lines: seq<Line>, known: set<nat>) {
    && (forall i :: 0 <= i < |lines| && lines[i].Field? ==> lines[i].name !in known)
    && (forall i, j :: 0 <= i < j < |lines| && lines[i].Field? && lines[j].Field? ==> lines[i].name != lines[j].name)
  }

  ghost predicate Framed(lines: seq<Line>) {
    forall i :: 0 <= i < |lines| && lines[i].Text? ==> FieldBefore(lines, i)
  }

  ghost predicate FieldBefore(lines: seq<Line>, i: nat)
    requires i <= |lines|
  {
    exists j :: 0 <= j < i && lines[j].Field?
  }

  ghost predicate Names(lines: seq<Line>, f: nat) {
    exists i :: 0 <= i < |lines| && lines[i].Field? && lines[i].name == f
  }

  /** Every field has its own value and what continues it. */
  ghost predicate Holds(lines: seq<Line>, fields: map<nat, string>) {
    forall i :: 0 <= i < |lines| && lines[i].Field? ==>
      lines[i].name in fields && fields[lines[i].name] == lines[i].value + Tail(lines, i + 1)
  }

  /** What was known stays, but for the open field, which the first lines may continue. */
  ghost predicate Continues(lines: seq<Line>, parsed: map<nat, string>, current: Option<nat>,
      fields: map<nat, string>)
  {
    forall f :: f in parsed ==>
      f in fields && fields[f] == if current == Some(f) then parsed[f] + Tail(lines, 0) else parsed[f]
  }

  lemma FreshCons(line: Line, rest: seq<Line>, known: set<nat>)
    ensures Fresh([line] + rest, known) <==>
      (line.Field? ==> line.name !in known) && Fresh(rest, if line.Field? then known + {line.name} else known)
  {
    var all := [line] + rest;
    assert all[0] == line && forall i :: 0 <= i < |rest| ==> rest[i] == all[i + 1];
    if Fresh(all, known) {
      forall i | 0 <= i < |rest| && rest[i].Field?
        ensures rest[i].name !in known && (line.Field? ==> rest[i].name != line.name)
      {
        assert all[i + 1].Field? && (line.Field? ==> all[0].name != all[i + 1].name);
      }
      forall i, j | 0 <= i < j < |rest| && rest[i].Field? && rest[j].Field? ensures rest[i].name != rest[j].name {
        assert all[i + 1].name != all[j + 1].name;
      }
    }
  }

  lemma FramedCons(line: Line, rest: seq<Line>)
    ensures Framed([line] + rest) <==> !line.Text? && (line.Field? || Framed(rest))
  {
    var all := [line] + rest;
    assert all[0] == line && forall i :: 0 <= i < |rest| ==> rest[i] == all[i + 1];
    NoneBefore(all);
    forall i | 0 <= i < |rest| ensures FieldBefore(all, i + 1) <==> line.Field? || FieldBefore(rest, i) {
      if FieldBefore(all, i + 1) {
        var j :| 0 <= j < i + 1 && all[j].Field?;
        if j > 0 { assert rest[j - 1].Field?; }
      }
      if FieldBefore(rest, i) {
        var j :| 0 <= j < i && rest[j].Field?;
        assert all[j + 1].Field?;
      }
      if line.Field? { assert all[0].Field?; }
    }
    hide FieldBefore;
    if Framed(all) {
      forall i | 0 <= i < |rest| && rest[i].Text? && !line.Field? ensures FieldBefore(rest, i) {
        assert all[i + 1].Text?;
      }
    }
    if !line.Text? && (line.Field? || Framed(rest)) {
      forall i | 0 <= i < |all| && all[i].Text? ensures FieldBefore(all, i) {
        assert all[(i - 1) + 1] == rest[i - 1];
      }
    }
  }

  lemma ShapedCons(line: Line, rest: seq<Line>, known: set<nat>, open: bool)
    ensures Shaped([line] + rest, known, open) <==>
      && !line.Marker? && (line.Text? ==> open) && (line.Field? ==> line.name !in known)
      && Shaped(rest, if line.Field? then known + {line.name} else known, open || line.Field?)
  {
    hide Fresh, Framed;
    FreshCons(line, rest, known);
    FramedCons(line, rest);
    var all := [line] + rest;
    assert all[0] == line && forall i :: 0 <= i < |rest| ==> rest[i] == all[i + 1];
  }

  lemma NoneBefore(lines: seq<Line>)
    ensures !FieldBefore(lines, 0)
  {}

  lemma {:induction false} TailCons(line: Line, rest: seq<Line>, from: nat)
    requires from <= |rest|
    ensures Tail([line] + rest, from + 1) == Tail(rest, from)
    decreases |rest| - from
  {
    if from < |rest| && !rest[from].Field? {
      TailCons(line, rest, from + 1);
    }
  }

  lemma HoldsCons(line: Line, rest: seq<Line>, fields: map<nat, string>)
    ensures Holds([line] + rest, fields) <==>
      Holds(rest, fields)
      && (line.Field? ==> line.name in fields && fields[line.name] == line.value + Tail(rest, 0))
  {
    hide Tail;
    var all := [line] + rest;
    assert all[0] == line && forall i :: 0 <= i < |rest| ==> rest[i] == all[i + 1];
    forall i | 0 <= i <= |rest| ensures Tail(all, i + 1) == Tail(rest, i) {
      TailCons(line, rest, i);
    }
    forall i | 0 <= i < |rest|
      ensures rest[i] == all[i + 1] && Tail(all, i + 2) == Tail(rest, i + 1)
    {}
    if Holds(all, fields) {
      forall i | 0 <= i < |rest| && rest[i].Field?
        ensures rest[i].name in fields && fields[rest[i].name] == rest[i].value + Tail(rest, i + 1)
      {
        assert all[i + 1].Field? && Tail(all, i + 2) == Tail(rest, i + 1);
      }
    }
  }

  lemma NamesCons(line: Line, rest: seq<Line>)
    ensures forall f :: Names([line] + rest, f) <==> (line.Field? && line.name == f) || Names(rest, f)
  {
    var all := [line] + rest;
    assert all[0] == line && forall i :: 0 <= i < |rest| ==> rest[i] == all[i + 1];
    forall f ensures Names(all, f) <==> (line.Field? && line.name == f) || Names(rest, f) {
      if Names(all, f) {
        var i :| 0 <= i < |all| && all[i].Field? && all[i].name == f;
        if i > 0 { assert rest[i - 1] == all[i]; }
      }
      if Names(rest, f) {
        var i :| 0 <= i < |rest| && rest[i].Field? && rest[i].name == f;
        assert all[i + 1] == rest[i];
      }
    }
  }

  lemma TailStart(line: Line, rest: seq<Line>)
    ensures Tail([line] + rest, 0) ==
      if line.Field? then "" else if line.Text? then " " + line.content + Tail(rest, 0) else Tail(rest, 0)
  {
    TailCons(line, rest, 0);
    assert "" + Tail(rest, 0) == Tail(rest, 0);
  }

  /** These fields are what the lines add to what was known. */
  ghost predicate Found(lines: seq<Line>, parsed: map<nat, string>, current: Option<nat>, fields: map<nat, string>) {
    && Holds(lines, fields) && Continues(lines, parsed, current, fields)
    && forall f :: f in fields <==> f in parsed || Names(lines, f)
  }

  lemma FoundField(name: nat, value: string, rest: seq<Line>, parsed: map<nat, string>, current: Option<nat>,
      fields: map<nat, string>)
    requires name !in parsed && Found(rest, parsed[name := value], Some(name), fields)
    requires current.Some? ==> current.value in parsed
    ensures Found([Field(name, value)] + rest, parsed, current, fields)
  {
    hide Holds, Names, Tail;
    HoldsCons(Field(name, value), rest, fields);
    NamesCons(Field(name, value), rest);
    TailStart(Field(name, value), rest);
  }

  lemma FoundText(content: string, rest: seq<Line>, parsed: map<nat, string>, k: nat, fields: map<nat, string>)
    requires k in parsed && Found(rest, parsed[k := parsed[k] + " " + content], Some(k), fields)
    ensures Found([Text(content)] + rest, parsed, Some(k), fields)
  {
    hide Holds, Names, Tail;
    HoldsCons(Text(content), rest, fields);
    NamesCons(Text(content), rest);
    TailStart(Text(content), rest);
    assert (parsed[k] + " " + content) + Tail(rest, 0) == parsed[k] + (" " + content + Tail(rest, 0));
  }

  lemma FoundBlank(rest: seq<Line>, parsed: map<nat, string>, current: Option<nat>, fields: map<nat, string>)
    requires Found(rest, parsed, current, fields)
    ensures Found([Blank] + rest, parsed, current, fields)
  {
    hide Holds, Names, Tail;
    HoldsCons(Blank, rest, fields);
    NamesCons(Blank, rest);
    TailStart(Blank, rest);
  }

  lemma NothingFound(parsed: map<nat, string>, current: Option<nat>)
    ensures Shaped([], parsed.Keys, current.Some?) && Found([], parsed, current, parsed)
  {}

  /** The field loop succeeds exactly on shaped lines, and then finds exactly these fields. */
  lemma {:induction false} GatherExactly(lines: seq<Line>, parsed: map<nat, string>, current: Option<nat>)
    requires current.Some? ==> current.value in parsed
    ensures Gather(lines, parsed, current).Ok? <==> Shaped(lines, parsed.Keys, current.Some?)
    ensures Gather(lines, parsed, current).Ok? ==> Found(lines, parsed, current, Gather(lines, parsed, current).value)
    decreases lines
  {
    hide Shaped, Found;
    if lines == [] {
      NothingFound(parsed, current);
    } else {
      var line, rest := lines[0], lines[1..];
      assert lines == [line] + rest;
      ShapedCons(line, rest, parsed.Keys, current.Some?);
      match line
      case Field(name, value) =>
        if name !in parsed {
          var more := parsed[name := value];
          assert more.Keys == parsed.Keys + {name};
          GatherExactly(rest, more, Some(name));
          if Gather(lines, parsed, current).Ok? {
            FoundField(name, value, rest, parsed, current, Gather(rest, more, Some(name)).value);
          }
        }
      case Text(content) =>
        if current.Some? {
          var k := current.value;
          var more := parsed[k := parsed[k] + " " + content];
          assert more.Keys == parsed.Keys;
          GatherExactly(rest, more, current);
          if Gather(lines, parsed, current).Ok? {
            FoundText(content, rest, parsed, k, Gather(rest, more, current).value);
          }
        }
      case Blank =>
        GatherExactly(rest, parsed, current);
        if Gather(lines, parsed, current).Ok? {
          FoundBlank(rest, parsed, current, Gather(rest, parsed, current).value);
        }
      case Marker =>
    }
  }

  // ----- one handoff -----

  predicate OnlyMarker(lines: seq<Line>, m: nat) {
    m < |lines| && lines[m].Marker? && forall i :: 0 <= i < |lines| && i != m ==> !lines[i].Marker?
  }

  /** The text is one handoff with these fields: the marker after blank lines, then the 13 fields in
      any order, each once, each with its continuation lines, none empty, and the five that are
      read further well formed. */
  ghost predicate IsHandoff(p: Patterns, lines: seq<Line>, m: nat, b: Block) {
    && OnlyMarker(lines, m) && (forall i :: 0 <= i < m ==> lines[i].Blank?)
    && var body := lines[m + 1..];
    && Shaped(body, {}, false) && Holds(body, b.fields) && (forall f :: f in b.fields ==> Names(body, f))
    && (forall f: nat :: f < 13 ==> f in b.fields && |b.fields[f]| > 0)
    && (b.fields[1] == "COMPLETE" || b.fields[1] == "BLOCKED") && p.promptOf(b.fields[0]) == Some(b.prompt)
    && (b.fields[2] == "NONE" || p.commitOk(b.fields[2])) && p.nextOk(b.fields[11])
  }

  lemma {:induction false} OneMarkerAt(lines: seq<Line>)
    ensures Markers(lines) == 1 <==> exists m: nat :: OnlyMarker(lines, m)
  {
    if lines != [] {
      var n := |lines| - 1;
      var front := lines[..n];
      OneMarkerAt(front);
      NoMarkers(front);
      if lines[n].Marker? {
        if Markers(lines) == 1 { assert OnlyMarker(lines, n); }
        if m: nat :| OnlyMarker(lines, m) {
          assert m == n;
          assert forall i :: 0 <= i < n ==> front[i] == lines[i];
        }
      } else {
        if m: nat :| OnlyMarker(front, m) { assert OnlyMarker(lines, m); }
        if m: nat :| OnlyMarker(lines, m) { assert front[m] == lines[m] && OnlyMarker(front, m); }
      }
    }
  }

  /** Exactly these texts are accepted, and as exactly this block. */
  lemma ParsedExactly(p: Patterns, lines: seq<Line>, b: Block)
    ensures Parse(p, lines) == Ok(b) <==> exists m: nat :: IsHandoff(p, lines, m, b)
  {
    hide Markers, Gather, Shaped, Holds, Names;
    OneMarkerAt(lines);
    if Markers(lines) == 1 {
      var m := MarkerIndex(lines);
      var none: map<nat, string> := map[];
      assert none.Keys == {};
      GatherExactly(lines[m + 1..], none, None);
      if Parse(p, lines) == Ok(b) { assert IsHandoff(p, lines, m, b); }
      if k: nat :| IsHandoff(p, lines, k, b) {
        assert k == m;
        SameFields(lines[m + 1..], Gather(lines[m + 1..], map[], None).value, b.fields);
      }
    }
  }

  lemma {:induction false} GatherTruly(lines: seq<Line>, parsed: map<nat, string>, current: Option<nat>)
    requires (current.Some? ==> current.value in parsed) && Gather(lines, parsed, current).Err?
    ensures match Gather(lines, parsed, current).error
      case DuplicateField => !Fresh(lines, parsed.Keys)
      case Unexpected => (current.None? && !Framed(lines)) || exists i :: 0 <= i < |lines| && lines[i].Marker?
      case _ => false
    decreases lines
  {
    hide Fresh, Framed;
    var line, rest := lines[0], lines[1..];
    assert lines == [line] + rest;
    FreshCons(line, rest, parsed.Keys);
    FramedCons(line, rest);
    assert forall i :: 0 <= i < |rest| ==> rest[i] == lines[i + 1];
    match line
    case Field(name, value) =>
      if name !in parsed {
        assert parsed[name := value].Keys == parsed.Keys + {name};
        GatherTruly(rest, parsed[name := value], Some(name));
      }
    case Text(content) =>
      if current.Some? {
        var more := parsed[current.value := parsed[current.value] + " " + content];
        assert more.Keys == parsed.Keys;
        GatherTruly(rest, more, current);
      }
    case Blank => GatherTruly(rest, parsed, current);
    case Marker =>
  }

  /** What the fields lack. */
  ghost predicate Lacks(p: Patterns, fields: map<nat, string>, e: Error) {
    match e
    case MissingFields => exists f: nat :: f < 13 && (f !in fields || fields[f] == "")
    case BadStatus => 1 in fields && fields[1] != "COMPLETE" && fields[1] != "BLOCKED"
    case BadPrompt => 0 in fields && p.promptOf(fields[0]) == None
    case BadCommit => 2 in fields && fields[2] != "NONE" && !p.commitOk(fields[2])
    case BadNext => 11 in fields && !p.nextOk(fields[11])
    case _ => false
  }

  ghost predicate ReadAs(body: seq<Line>, fields: map<nat, string>) {
    Holds(body, fields) && forall f :: f in fields <==> Names(body, f)
  }

  ghost predicate LacksAt(p: Patterns, lines: seq<Line>, m: nat, fields: map<nat, string>, e: Error) {
    OnlyMarker(lines, m) && ReadAs(lines[m + 1..], fields) && Lacks(p, fields, e)
  }

  /** What a refusal says is so. */
  lemma ParseTruly(p: Patterns, lines: seq<Line>)
    requires Parse(p, lines).Err?
    ensures var e := Parse(p, lines).error;
      match e
      case MarkerCount => forall m: nat :: !OnlyMarker(lines, m)
      case BeforeMarker => exists m: nat :: OnlyMarker(lines, m) && exists i :: 0 <= i < m && !lines[i].Blank?
      case DuplicateField => exists m: nat :: OnlyMarker(lines, m) && !Fresh(lines[m + 1..], {})
      case Unexpected => exists m: nat :: OnlyMarker(lines, m) && !Framed(lines[m + 1..])
      case _ => exists m: nat, fields :: LacksAt(p, lines, m, fields, e)
  {
    hide Markers, Gather, Shaped, Holds, Names, Fresh, Framed;
    OneMarkerAt(lines);
    if Markers(lines) == 1 {
      var m := MarkerIndex(lines);
      var k: nat :| OnlyMarker(lines, k);
      assert k == m;
      var none: map<nat, string> := map[];
      assert none.Keys == {};
      if Gather(lines[m + 1..], none, None).Err? {
        GatherTruly(lines[m + 1..], none, None);
      } else {
        GatherExactly(lines[m + 1..], none, None);
        var fields := Gather(lines[m + 1..], none, None).value;
        assert ReadAs(lines[m + 1..], fields);
        if AllBlank(lines[..m]) {
          assert Finish(p, fields).Err? && LacksAt(p, lines, m, fields, Parse(p, lines).error);
        }
      }
    }
  }

  lemma SameFields(lines: seq<Line>, a: map<nat, string>, b: map<nat, string>)
    requires Holds(lines, a) && Holds(lines, b)
    requires (forall f :: f in a ==> Names(lines, f)) && (forall f :: f in b ==> Names(lines, f))
    ensures a == b
  {
    forall f | f in a ensures f in b && b[f] == a[f] {
      var i :| 0 <= i < |lines| && lines[i].Field? && lines[i].name == f;
    }
    forall f | f in b ensures f in a {
      var i :| 0 <= i < |lines| && lines[i].Field? && lines[i].name == f;
    }
  }

  // ----- a group -----

  function Concat(parts: seq<seq<Line>>): seq<Line> {
    if parts == [] then [] else parts[0] + Concat(parts[1..])
  }

  /** Part k is a handoff that starts with its marker. */
  ghost predicate Handed(p: Patterns, parts: seq<seq<Line>>, bs: seq<Block>) {
    |parts| == |bs| && forall k :: 0 <= k < |bs| ==> IsHandoff(p, parts[k], 0, bs[k])
  }

  lemma {:induction false} BlockEnd(lines: seq<Line>)
    ensures var n := BlockLength(lines);
      (forall i :: 0 <= i < n ==> !lines[i].Marker?) && (n < |lines| ==> lines[n].Marker?)
  {
    if lines != [] && !lines[0].Marker? {
      BlockEnd(lines[1..]);
    }
  }

  lemma FirstHandoff(p: Patterns, lines: seq<Line>, b: Block)
    requires lines != [] && lines[0].Marker?
    ensures Parse(p, lines) == Ok(b) <==> IsHandoff(p, lines, 0, b)
  {
    hide Parse, Shaped, Holds, Names;
    ParsedExactly(p, lines, b);
  }

  lemma Starts(p: Patterns, lines: seq<Line>, b: Block)
    requires IsHandoff(p, lines, 0, b)
    ensures lines != [] && lines[0].Marker? && forall i :: 0 <= i < |lines[1..]| ==> !lines[1..][i].Marker?
  {
    hide Shaped, Holds, Names;
  }

  lemma PartsCons(p: Patterns, part: seq<Line>, b: Block, parts: seq<seq<Line>>, bs: seq<Block>)
    requires IsHandoff(p, part, 0, b) && Handed(p, parts, bs)
    ensures Handed(p, [part] + parts, [b] + bs) && Concat([part] + parts) == part + Concat(parts)
  {
    hide IsHandoff;
    assert ([part] + parts)[1..] == parts;
  }

  lemma {:induction false} ConcatStarts(p: Patterns, parts: seq<seq<Line>>, bs: seq<Block>)
    requires Handed(p, parts, bs)
    ensures Concat(parts) == [] || Concat(parts)[0].Marker?
  {
    hide IsHandoff;
    if parts != [] {
      Starts(p, parts[0], bs[0]);
    }
  }

  ghost predicate InParts(p: Patterns, lines: seq<Line>, bs: seq<Block>) {
    exists parts :: Handed(p, parts, bs) && Concat(parts) == lines
  }

  lemma PartsFirst(p: Patterns, lines: seq<Line>, n: nat, b: Block, bs: seq<Block>)
    requires n <= |lines| && IsHandoff(p, lines[..n], 0, b) && InParts(p, lines[n..], bs)
    ensures InParts(p, lines, [b] + bs)
  {
    hide IsHandoff, Handed;
    var parts :| Handed(p, parts, bs) && Concat(parts) == lines[n..];
    PartsCons(p, lines[..n], b, parts, bs);
    assert lines == lines[..n] + lines[n..];
  }

  lemma PartsRest(p: Patterns, lines: seq<Line>, bs: seq<Block>)
    requires lines != [] && InParts(p, lines, bs)
    ensures var n := 1 + BlockLength(lines[1..]);
      bs != [] && lines[0].Marker? && IsHandoff(p, lines[..n], 0, bs[0]) && InParts(p, lines[n..], bs[1..])
  {
    hide IsHandoff, Handed, BlockLength;
    var parts :| Handed(p, parts, bs) && Concat(parts) == lines;
    HandedFirst(p, parts, bs);
    var rest := Concat(parts[1..]);
    assert lines == parts[0] + rest;
    assert lines[1..] == parts[0][1..] + rest;
    BlockEnds(parts[0][1..], rest);
    assert lines[..|parts[0]|] == parts[0] && lines[|parts[0]|..] == rest;
    Starts(p, parts[0], bs[0]);
  }

  lemma {:induction false} BlocksExactly(p: Patterns, lines: seq<Line>, bs: seq<Block>)
    requires lines == [] || lines[0].Marker?
    ensures ParseBlocks(p, lines) == Ok(bs) <==> InParts(p, lines, bs)
    decreases |lines|
  {
    hide Parse, IsHandoff, BlockLength, InParts;
    if lines == [] {
      NoBlocks(p, bs);
    } else {
      var n := 1 + BlockLength(lines[1..]);
      BlockEnd(lines[1..]);
      assert n < |lines| ==> lines[n] == lines[1..][n - 1];
      if InParts(p, lines, bs) { PartsRest(p, lines, bs); }
      if bs != [] {
        assert bs == [bs[0]] + bs[1..];
        FirstHandoff(p, lines[..n], bs[0]);
        BlocksExactly(p, lines[n..], bs[1..]);
        if ParseBlocks(p, lines) == Ok(bs) { PartsFirst(p, lines, n, bs[0], bs[1..]); }
      }
    }
  }

  lemma NoBlocks(p: Patterns, bs: seq<Block>)
    ensures bs == [] <==> InParts(p, [], bs)
  {
    hide IsHandoff;
    if bs == [] { assert Handed(p, [], bs) && Concat([]) == []; }
    if parts :| Handed(p, parts, bs) && Concat(parts) == [] {
      if bs != [] { Starts(p, parts[0], bs[0]); }
    }
  }

  lemma HandedFirst(p: Patterns, parts: seq<seq<Line>>, bs: seq<Block>)
    requires Handed(p, parts, bs) && Concat(parts) != []
    ensures parts != [] && bs != [] && IsHandoff(p, parts[0], 0, bs[0]) && Handed(p, parts[1..], bs[1..])
    ensures parts[0] != [] && forall i :: 0 <= i < |parts[0][1..]| ==> !parts[0][1..][i].Marker?
    ensures Concat(parts[1..]) == [] || Concat(parts[1..])[0].Marker?
  {
    hide IsHandoff;
    Starts(p, parts[0], bs[0]);
    ConcatStarts(p, parts[1..], bs[1..]);
  }

  /** Blank lines, and then one handoff for each expected prompt, in order. */
  ghost predicate GroupAt(p: Patterns, lines: seq<Line>, m: nat, parts: seq<seq<Line>>, expected: seq<string>,
      bs: seq<Block>)
  {
    && m < |lines| && (forall i :: 0 <= i < m ==> lines[i].Blank?) && lines[m..] == Concat(parts)
    && Handed(p, parts, bs) && |bs| == |expected| && forall k :: 0 <= k < |bs| ==> bs[k].prompt == expected[k]
  }

  lemma MarkerFirst(p: Patterns, lines: seq<Line>, m: nat, parts: seq<seq<Line>>, expected: seq<string>,
      bs: seq<Block>)
    requires GroupAt(p, lines, m, parts, expected, bs)
    ensures Markers(lines) > 0 && MarkerIndex(lines) == m && AllBlank(lines[..m])
  {
    hide IsHandoff, Markers;
    NoMarkers(lines);
    ConcatStarts(p, parts, bs);
    assert lines[m] == lines[m..][0];
  }

  /** Exactly these texts are accepted for a group, and as exactly these blocks. */
  lemma GroupReadExactly(p: Patterns, lines: seq<Line>, expected: seq<string>, bs: seq<Block>)
    ensures ParseGroup(p, lines, expected) == Ok(bs) <==>
      exists m: nat, parts :: GroupAt(p, lines, m, parts, expected, bs)
  {
    hide ParseBlocks, Handed, Markers;
    if Markers(lines) > 0 && AllBlank(lines[..MarkerIndex(lines)]) {
      var m := MarkerIndex(lines);
      BlocksExactly(p, lines[m..], bs);
      if ParseGroup(p, lines, expected) == Ok(bs) {
        var parts :| Handed(p, parts, bs) && Concat(parts) == lines[m..];
        assert GroupAt(p, lines, m, parts, expected, bs);
      }
    }
    if m: nat, parts :| GroupAt(p, lines, m, parts, expected, bs) {
      MarkerFirst(p, lines, m, parts, expected, bs);
      assert Prompts(bs) == expected;
    }
  }
}
