/** SLICE HANDOFF blocks, line by line (scripts/codex-v2-supervisor.py:486-609). */
module Handoffs {
  import opened Prelude

  const FIELDS := 13
  const PROMPT := 0
  const STATUS := 1
  const COMMIT := 2
  const NEXT := 11

  /** A line as the program's patterns see it: the marker, a field with its trimmed value, other
      text with its trimmed content, or nothing but white space. */
  datatype Line = Marker | Field(name: nat, value: string) | Text(content: string) | Blank

  predicate Trimmed(s: string) {
    s != "" ==> s[0] != ' ' && s[|s| - 1] != ' '
  }

  predicate LineOk(l: Line) {
    (l.Field? ==> l.name < FIELDS && Trimmed(l.value)) && (l.Text? ==> l.content != "" && Trimmed(l.content))
  }

  /** What the patterns read out of single fields. */
  datatype Patterns = Patterns(promptOf: string -> Option<string>, commitOk: string -> bool, nextOk: string -> bool)

  datatype Error = MarkerCount | BeforeMarker | DuplicateField | Unexpected | MissingFields | BadStatus | BadPrompt
    | BadCommit | BadNext | WrongPrompts

  /** The fields, and the prompt id read from the first. */
  datatype Block = Block(fields: map<nat, string>, prompt: string)

  function Markers(lines: seq<Line>): nat {
    if lines == [] then 0 else Markers(lines[..|lines| - 1]) + if lines[|lines| - 1].Marker? then 1 else 0
  }

  predicate AllBlank(lines: seq<Line>) {
    forall i :: 0 <= i < |lines| ==> lines[i].Blank?
  }

  /** The field loop (528-541): a field line opens a field, any other text continues the open one. */
  function Gather(lines: seq<Line>, parsed: map<nat, string>, current: Option<nat>): Result<map<nat, string>, Error>
    requires current.Some? ==> current.value in parsed
    decreases lines
  {
    if lines == [] then Ok(parsed)
    else match lines[0]
      case Field(name, value) =>
        if name in parsed then Err(DuplicateField) else Gather(lines[1..], parsed[name := value], Some(name))
      case Text(content) =>
        if current.Some? then
          Gather(lines[1..], parsed[current.value := parsed[current.value] + " " + content], current)
        else Err(Unexpected)
      case Blank => Gather(lines[1..], parsed, current)
      case Marker => Err(Unexpected)
  }

  /** The checks on the gathered fields (543-580). */
  function Finish(p: Patterns, fields: map<nat, string>): Result<Block, Error> {
    if exists f: nat :: f < FIELDS && (f !in fields || fields[f] == "") then Err(MissingFields)
    else if fields[STATUS] != "COMPLETE" && fields[STATUS] != "BLOCKED" then Err(BadStatus)
    else if p.promptOf(fields[PROMPT]).None? then Err(BadPrompt)
    else if fields[COMMIT] != "NONE" && !p.commitOk(fields[COMMIT]) then Err(BadCommit)
    else if !p.nextOk(fields[NEXT]) then Err(BadNext)
    else Ok(Block(fields, p.promptOf(fields[PROMPT]).value))
  }

  function MarkerIndex(lines: seq<Line>): (i: nat)
    requires Markers(lines) > 0
    ensures i < |lines| && lines[i].Marker? && forall j :: 0 <= j < i ==> !lines[j].Marker?
  {
    if Markers(lines[..|lines| - 1]) > 0 then MarkerIndex(lines[..|lines| - 1])
    else
      NoMarkers(lines[..|lines| - 1]);
      |lines| - 1
  }

  lemma {:induction false} NoMarkers(lines: seq<Line>)
    ensures Markers(lines) == 0 <==> forall i :: 0 <= i < |lines| ==> !lines[i].Marker?
  {
    if lines != [] {
      NoMarkers(lines[..|lines| - 1]);
    }
  }

  /** parse_handoff (515-580). */
  function Parse(p: Patterns, lines: seq<Line>): Result<Block, Error> {
    if Markers(lines) != 1 then Err(MarkerCount)
    else
      var m := MarkerIndex(lines);
      if !AllBlank(lines[..m]) then Err(BeforeMarker)
      else
        var fields := Gather(lines[m + 1..], map[], None);
        if fields.Err? then Err(fields.error) else Finish(p, fields.value)
  }

  method ParseHandoff(p: Patterns, lines: seq<Line>) returns (r: Result<Block, Error>)
    ensures r == Parse(p, lines)
  {
    if Markers(lines) != 1 {
      return Err(MarkerCount);
    }
    var m := MarkerIndex(lines);
    if !AllBlank(lines[..m]) {
      return Err(BeforeMarker);
    }
    var parsed: map<nat, string>, current: Option<nat> := map[], None;
    var i := m + 1;
    while i < |lines|
      invariant m + 1 <= i <= |lines|
      invariant current.Some? ==> current.value in parsed
      invariant Gather(lines[i..], parsed, current) == Gather(lines[m + 1..], map[], None)
    {
      var line := lines[i];
      assert lines[i..][1..] == lines[i + 1..];
      match line {
        case Field(name, value) =>
          if name in parsed {
            return Err(DuplicateField);
          }
          current := Some(name);
          parsed := parsed[name := value];
        case Text(content) =>
          if current.None? {
            return Err(Unexpected);
          }
          parsed := parsed[current.value := parsed[current.value] + " " + content];
        case Blank =>
        case Marker =>
          return Err(Unexpected);
      }
      i := i + 1;
    }
    return Finish(p, parsed);
  }

  // ----- printing -----

  ghost predicate HasAll(fields: map<nat, string>) {
    forall f: nat :: f < FIELDS ==> f in fields
  }

  /** Fields from..FIELDS, one per line. */
  function FieldLines(fields: map<nat, string>, from: nat): (ls: seq<Line>)
    requires from <= FIELDS && HasAll(fields)
    ensures |ls| == FIELDS - from && forall i :: 0 <= i < |ls| ==> ls[i] == Field(from + i, fields[from + i])
    decreases FIELDS - from
  {
    if from == FIELDS then [] else [Field(from, fields[from])] + FieldLines(fields, from + 1)
  }

  ghost predicate Complete(fields: map<nat, string>) {
    HasAll(fields) && forall f :: f in fields ==> f < FIELDS && fields[f] != ""
  }

  function Print(b: Block): seq<Line>
    requires HasAll(b.fields)
  {
    [Marker] + FieldLines(b.fields, 0)
  }

  function Below(fields: map<nat, string>, n: nat): map<nat, string> {
    map f | f in fields && f < n :: fields[f]
  }

  lemma {:induction false} GatherPrinted(fields: map<nat, string>, from: nat)
    requires Complete(fields) && from <= FIELDS
    ensures Gather(FieldLines(fields, from), Below(fields, from), if from == 0 then None else Some(from - 1))
      == Ok(fields)
    decreases FIELDS - from
  {
    if from == FIELDS {
      assert Below(fields, FIELDS) == fields;
    } else {
      assert FieldLines(fields, from)[1..] == FieldLines(fields, from + 1);
      assert Below(fields, from)[from := fields[from]] == Below(fields, from + 1);
      GatherPrinted(fields, from + 1);
    }
  }

  lemma {:induction false} MarkersConcat(a: seq<Line>, b: seq<Line>)
    ensures Markers(a + b) == Markers(a) + Markers(b)
    decreases |b|
  {
    if b == [] {
      assert a + b == a;
    } else {
      assert (a + b)[..|a + b| - 1] == a + b[..|b| - 1];
      MarkersConcat(a, b[..|b| - 1]);
    }
  }

  lemma PrintedMarkers(b: Block)
    requires HasAll(b.fields)
    ensures Markers(Print(b)) == 1 && MarkerIndex(Print(b)) == 0
  {
    hide Markers, MarkerIndex, FieldLines;
    var fields := FieldLines(b.fields, 0);
    NoMarkers(fields);
    MarkersConcat([Marker], fields);
    OneMarker();
    assert Print(b)[0].Marker?;
  }

  lemma OneMarker()
    ensures Markers([Marker]) == 1
  {
    assert [Marker][..0] == [];
  }

  /** Printing a block and parsing the lines gives the block back. */
  lemma ParsePrinted(p: Patterns, b: Block)
    requires Complete(b.fields) && Finish(p, b.fields) == Ok(b)
    ensures Parse(p, Print(b)) == Ok(b)
  {
    PrintedMarkers(b);
    GatherPrinted(b.fields, 0);
    assert Below(b.fields, 0) == map[];
    assert Print(b)[1..] == FieldLines(b.fields, 0);
  }

  ghost predicate FieldsOk(fields: map<nat, string>) {
    forall f :: f in fields ==> f < FIELDS && (fields[f] != "" ==> fields[f][|fields[f]| - 1] != ' ')
  }

  lemma {:induction false} GatherNames(lines: seq<Line>, parsed: map<nat, string>, current: Option<nat>)
    requires (current.Some? ==> current.value in parsed) && FieldsOk(parsed)
    requires forall i :: 0 <= i < |lines| ==> LineOk(lines[i])
    requires Gather(lines, parsed, current).Ok?
    ensures FieldsOk(Gather(lines, parsed, current).value)
    decreases lines
  {
    if lines != [] {
      assert forall i :: 0 <= i < |lines[1..]| ==> lines[1..][i] == lines[i + 1];
      match lines[0]
      case Field(name, value) => GatherNames(lines[1..], parsed[name := value], Some(name));
      case Text(content) =>
        GatherNames(lines[1..], parsed[current.value := parsed[current.value] + " " + content], current);
      case Blank => GatherNames(lines[1..], parsed, current);
    }
  }

  /** The printed block is made of lines the patterns can produce. */
  ghost predicate HasText(b: Block)
    requires HasAll(b.fields)
  {
    forall i :: 0 <= i < |Print(b)| ==> LineOk(Print(b)[i])
  }

  /** Whatever is accepted, however its fields were wrapped over lines, prints to lines that parse
      to the same block; and these are the lines of a text unless some field was left empty on
      its own line and continued below, which leaves a space in front of its value. */
  lemma AcceptedIsPrintable(p: Patterns, lines: seq<Line>)
    requires (forall i :: 0 <= i < |lines| ==> LineOk(lines[i])) && Parse(p, lines).Ok?
    ensures var b := Parse(p, lines).value;
      && Complete(b.fields) && Parse(p, Print(b)) == Ok(b)
      && (HasText(b) <==> forall f: nat :: f < FIELDS ==> b.fields[f][0] != ' ')
  {
    var m := MarkerIndex(lines);
    var rest := lines[m + 1..];
    assert forall i :: 0 <= i < |rest| ==> rest[i] == lines[m + 1 + i];
    GatherNames(rest, map[], None);
    var b := Parse(p, lines).value;
    ParsePrinted(p, b);
    TextExactly(b);
  }

  lemma PrintAt(b: Block, f: nat)
    requires HasAll(b.fields) && f < FIELDS
    ensures |Print(b)| == FIELDS + 1 && Print(b)[0] == Marker && Print(b)[f + 1] == Field(f, b.fields[f])
  {}

  lemma TextExactly(b: Block)
    requires Complete(b.fields) && FieldsOk(b.fields)
    ensures HasText(b) <==> forall f: nat :: f < FIELDS ==> b.fields[f][0] != ' '
  {
    hide Print, FieldLines;
    forall f: nat | f < FIELDS ensures f + 1 < |Print(b)| && (LineOk(Print(b)[f + 1]) <==> b.fields[f][0] != ' ') {
      PrintAt(b, f);
    }
    PrintAt(b, 0);
    if forall f: nat :: f < FIELDS ==> b.fields[f][0] != ' ' {
      forall i | 0 <= i < |Print(b)| ensures LineOk(Print(b)[i]) {
        if i > 0 {
          PrintAt(b, i - 1);
          assert b.fields[i - 1][0] != ' ';
        }
      }
    }
    if HasText(b) {
      forall f: nat | f < FIELDS ensures b.fields[f][0] != ' ' {
        assert LineOk(Print(b)[f + 1]);
      }
    }
  }

  // ----- groups -----

  /** The lines up to the next marker. */
  function BlockLength(lines: seq<Line>): (n: nat)
    ensures n <= |lines|
  {
    if lines == [] || lines[0].Marker? then 0 else 1 + BlockLength(lines[1..])
  }

  /** The blocks of a text that starts with a marker, or is empty (586-604). */
  function ParseBlocks(p: Patterns, lines: seq<Line>): Result<seq<Block>, Error>
    decreases |lines|
  {
    if lines == [] then Ok([])
    else
      var n := 1 + BlockLength(lines[1..]);
      var first := Parse(p, lines[..n]);
      if first.Err? then Err(first.error)
      else
        var rest := ParseBlocks(p, lines[n..]);
        if rest.Err? then rest else Ok([first.value] + rest.value)
  }

  function Prompts(bs: seq<Block>): (ids: seq<string>)
    ensures |ids| == |bs| && forall i :: 0 <= i < |ids| ==> ids[i] == bs[i].prompt
  {
    seq(|bs|, i requires 0 <= i < |bs| => bs[i].prompt)
  }

  /** parse_group_handoffs (583-609). */
  function ParseGroup(p: Patterns, lines: seq<Line>, expected: seq<string>): Result<seq<Block>, Error> {
    if Markers(lines) == 0 || !AllBlank(lines[..MarkerIndex(lines)]) then Err(MarkerCount)
    else
      var blocks := ParseBlocks(p, lines[MarkerIndex(lines)..]);
      if blocks.Err? then blocks
      else if Prompts(blocks.value) != expected then Err(WrongPrompts)
      else blocks
  }

  function PrintAll(bs: seq<Block>): seq<Line>
    requires forall i :: 0 <= i < |bs| ==> HasAll(bs[i].fields)
  {
    if bs == [] then [] else Print(bs[0]) + PrintAll(bs[1..])
  }

  lemma {:induction false} BlockEnds(body: seq<Line>, rest: seq<Line>)
    requires forall i :: 0 <= i < |body| ==> !body[i].Marker?
    requires rest == [] || rest[0].Marker?
    ensures BlockLength(body + rest) == |body|
  {
    if body != [] {
      assert (body + rest)[1..] == body[1..] + rest;
      BlockEnds(body[1..], rest);
    } else {
      assert body + rest == rest;
    }
  }

  ghost predicate Canonical(p: Patterns, bs: seq<Block>) {
    forall i :: 0 <= i < |bs| ==> Complete(bs[i].fields) && Finish(p, bs[i].fields) == Ok(bs[i])
  }

  ghost predicate Printable(bs: seq<Block>) {
    forall i :: 0 <= i < |bs| ==> HasAll(bs[i].fields)
  }

  /** The first block of a printed group ends where the second begins. */
  lemma FirstBlock(b: Block, rest: seq<Line>)
    requires HasAll(b.fields) && (rest == [] || rest[0].Marker?)
    ensures var lines := Print(b) + rest;
      BlockLength(lines[1..]) == FIELDS && lines[..FIELDS + 1] == Print(b) && lines[FIELDS + 1..] == rest
  {
    hide FieldLines;
    var lines := Print(b) + rest;
    assert lines[1..] == FieldLines(b.fields, 0) + rest;
    BlockEnds(FieldLines(b.fields, 0), rest);
  }

  lemma PrintAllFirst(bs: seq<Block>)
    requires Printable(bs)
    ensures bs != [] ==> PrintAll(bs) != [] && PrintAll(bs)[0].Marker?
    ensures bs != [] ==> Markers(PrintAll(bs)) > 0 && MarkerIndex(PrintAll(bs)) == 0
  {
    var lines := PrintAll(bs);
    if bs != [] {
      assert lines[0] == Print(bs[0])[0];
      NoMarkers(lines);
    }
  }

  lemma {:induction false} ParseBlocksPrinted(p: Patterns, bs: seq<Block>)
    requires Canonical(p, bs) && Printable(bs)
    ensures ParseBlocks(p, PrintAll(bs)) == Ok(bs)
  {
    hide Parse, Finish, Complete, BlockLength, Print, HasAll;
    if bs != [] {
      var rest := PrintAll(bs[1..]);
      assert forall i :: 0 <= i < |bs[1..]| ==> bs[1..][i] == bs[i + 1];
      PrintAllFirst(bs[1..]);
      PrintAllFirst(bs);
      FirstBlock(bs[0], rest);
      ParsePrinted(p, bs[0]);
      ParseBlocksPrinted(p, bs[1..]);
      assert [bs[0]] + bs[1..] == bs;
    }
  }

  lemma CanonicalPrintable(p: Patterns, bs: seq<Block>)
    requires Canonical(p, bs)
    ensures Printable(bs)
  {
    hide Finish;
    forall i | 0 <= i < |bs| ensures HasAll(bs[i].fields) {
      assert Complete(bs[i].fields);
    }
  }

  /** The canonical text of k handoffs is read back as exactly those k handoffs, and is refused for
      every other expectation: missing, repeated or reordered prompts. */
  lemma GroupExactly(p: Patterns, bs: seq<Block>, expected: seq<string>)
    requires bs != [] && Canonical(p, bs)
    ensures ParseGroup(p, PrintAll(bs), expected) == if expected == Prompts(bs) then Ok(bs) else Err(WrongPrompts)
  {
    hide Canonical, Complete, HasAll, Finish, PrintAll, ParseBlocks, MarkerIndex, Markers;
    CanonicalPrintable(p, bs);
    PrintAllFirst(bs);
    ParseBlocksPrinted(p, bs);
    assert PrintAll(bs)[0..] == PrintAll(bs);
    assert AllBlank(PrintAll(bs)[..0]);
  }
}
