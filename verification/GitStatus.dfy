/** `git status --porcelain=v1 -z` (scripts/codex-v2-supervisor.py:1443-1468). */
module GitStatus {
  import opened Prelude

  const NUL := '\0'

  datatype Entry = Entry(status: string, path: string)

  /** What Git reports: a changed path, or a rename or copy with its second path. */
  datatype Record = Changed(status: string, path: string) | Moved(status: string, path: string, second: string)

  predicate IsMove(status: string) {
    'R' in status || 'C' in status
  }

  ghost predicate ValidRecord(r: Record) {
    && |r.status| == 2 && NUL !in r.status && r.path != "" && NUL !in r.path
    && (r.Moved? <==> IsMove(r.status)) && (r.Moved? ==> r.second != "" && NUL !in r.second)
  }

  /** bytes.split(b"\0"): always one more piece than separators. */
  function Split(s: string): (pieces: seq<string>)
    ensures pieces != []
  {
    if s == "" then [""]
    else
      var rest := Split(s[1..]);
      if s[0] == NUL then [""] + rest else [[s[0]] + rest[0]] + rest[1..]
  }

  /** The index loop, as a function of the pieces not yet read. */
  function Read(pieces: seq<string>): Option<seq<Entry>>
    decreases |pieces|
  {
    if pieces == [] then Some([])
    else if pieces[0] == "" then Read(pieces[1..])
    else if |pieces[0]| < 4 || pieces[0][2] != ' ' then None
    else
      var e := Entry(pieces[0][..2], pieces[0][3..]);
      if !IsMove(e.status) then Prepend([e], Read(pieces[1..]))
      else if |pieces| == 1 || pieces[1] == "" then None
      else Prepend([e, Entry(e.status, pieces[1])], Read(pieces[2..]))
  }

  function Prepend(es: seq<Entry>, r: Option<seq<Entry>>): Option<seq<Entry>> {
    if r.None? then None else Some(es + r.value)
  }

  /** git_status_entries: the loop with its index never leaves the pieces; None where it raises. */
  method GitStatusEntries(output: string) returns (r: Option<seq<Entry>>)
    ensures r == Read(Split(output))
  {
    var records := Split(output);
    var entries: seq<Entry> := [];
    var index := 0;
    assert records[0..] == records;
    PrependNothing(Read(records));
    while index < |records|
      invariant 0 <= index <= |records|
      invariant Read(records) == Prepend(entries, Read(records[index..]))
      decreases |records| - index
    {
      var record := records[index];
      assert records[index..][1..] == records[index + 1..];
      assert index + 1 < |records| ==>
        records[index..][2..] == records[index + 2..] && records[index..][1] == records[index + 1];
      index := index + 1;
      if record == "" {
        continue;
      }
      if |record| < 4 || record[2] != ' ' {
        return None;
      }
      var status, path := record[..2], record[3..];
      if !IsMove(status) {
        PrependTwice(entries, [Entry(status, path)], Read(records[index..]));
        entries := entries + [Entry(status, path)];
      } else {
        if index >= |records| || records[index] == "" {
          return None;
        }
        var both := [Entry(status, path), Entry(status, records[index])];
        PrependTwice(entries, both, Read(records[index + 1..]));
        entries := entries + both;
        index := index + 1;
      }
    }
    assert entries + [] == entries;
    return Some(entries);
  }

  lemma PrependNothing(r: Option<seq<Entry>>)
    ensures Prepend([], r) == r
  {
    if r.Some? {
      assert [] + r.value == r.value;
    }
  }

  lemma PrependTwice(a: seq<Entry>, b: seq<Entry>, r: Option<seq<Entry>>)
    ensures Prepend(a, Prepend(b, r)) == Prepend(a + b, r)
  {
    if r.Some? {
      Assoc(a, b, r.value);
    }
  }

  // ----- what Git prints -----

  function PrintRecord(r: Record): string {
    r.status + " " + r.path + [NUL] + if r.Moved? then r.second + [NUL] else ""
  }

  function Print(rs: seq<Record>): string {
    if rs == [] then "" else PrintRecord(rs[0]) + Print(rs[1..])
  }

  function EntriesOf(rs: seq<Record>): seq<Entry> {
    if rs == [] then []
    else (match rs[0]
          case Changed(status, path) => [Entry(status, path)]
          case Moved(status, path, second) => [Entry(status, path), Entry(status, second)])
         + EntriesOf(rs[1..])
  }

  lemma {:induction false} SplitPiece(piece: string, rest: string)
    requires NUL !in piece
    ensures Split(piece + [NUL] + rest) == [piece] + Split(rest)
    decreases |piece|
  {
    var s := piece + [NUL] + rest;
    if piece == "" {
      assert s[1..] == rest;
    } else {
      assert s[0] == piece[0] && s[1..] == piece[1..] + [NUL] + rest;
      SplitPiece(piece[1..], rest);
      assert [piece[0]] + piece[1..] == piece;
    }
  }

  lemma RecordPiece(r: Record)
    requires ValidRecord(r)
    ensures var piece := r.status + " " + r.path;
      NUL !in piece && |piece| >= 4 && piece[2] == ' ' && piece[..2] == r.status && piece[3..] == r.path
  {}

  lemma ReadRecord(r: Record, rest: string)
    requires ValidRecord(r)
    ensures Read(Split(PrintRecord(r) + rest)) == Prepend(EntriesOf([r]), Read(Split(rest)))
  {
    var piece := r.status + " " + r.path;
    RecordPiece(r);
    match r
    case Changed(_, _) =>
      assert PrintRecord(r) + rest == piece + [NUL] + rest;
      SplitPiece(piece, rest);
      assert ([piece] + Split(rest))[1..] == Split(rest);
      assert EntriesOf([r]) == [Entry(r.status, r.path)];
    case Moved(_, _, second) =>
      assert PrintRecord(r) + rest == piece + [NUL] + (second + [NUL] + rest);
      SplitPiece(piece, second + [NUL] + rest);
      SplitPiece(second, rest);
      var pieces := [piece] + ([second] + Split(rest));
      assert pieces[2..] == Split(rest) && pieces[1] == second;
      assert EntriesOf([r]) == [Entry(r.status, r.path), Entry(r.status, second)];
  }

  /** Reading what Git prints for any list of records gives their entries in order. */
  lemma {:induction false} RoundTrip(rs: seq<Record>)
    requires forall i :: 0 <= i < |rs| ==> ValidRecord(rs[i])
    ensures Read(Split(Print(rs))) == Some(EntriesOf(rs))
  {
    hide Split, PrintRecord, ValidRecord;
    if rs == [] {
      Nothing();
    } else {
      assert forall i :: 0 <= i < |rs[1..]| ==> rs[1..][i] == rs[i + 1];
      RoundTrip(rs[1..]);
      ReadRecord(rs[0], Print(rs[1..]));
      assert EntriesOf(rs) == EntriesOf([rs[0]]) + EntriesOf(rs[1..]) by {
        assert [rs[0]][1..] == [];
      }
    }
  }

  lemma Nothing()
    ensures Read(Split("")) == Some([])
  {
    assert [""][1..] == [];
  }

  /** A rename or copy whose second path is cut off is refused, whatever precedes it. */
  lemma {:induction false} TruncatedMove(rs: seq<Record>, r: Record)
    requires (forall i :: 0 <= i < |rs| ==> ValidRecord(rs[i])) && ValidRecord(r) && r.Moved?
    ensures Read(Split(Print(rs) + r.status + " " + r.path + [NUL])).None?
  {
    var cut := r.status + " " + r.path + [NUL];
    if rs == [] {
      var piece := r.status + " " + r.path;
      RecordPiece(r);
      SplitPiece(piece, "");
      assert piece + [NUL] + "" == cut == Print(rs) + r.status + " " + r.path + [NUL];
      assert ([piece] + [""])[1] == "";
    } else {
      assert forall i :: 0 <= i < |rs[1..]| ==> rs[1..][i] == rs[i + 1];
      TruncatedMove(rs[1..], r);
      var rest := Print(rs[1..]) + r.status + " " + r.path + [NUL];
      assert Print(rs) + r.status + " " + r.path + [NUL] == PrintRecord(rs[0]) + rest;
      ReadRecord(rs[0], rest);
    }
  }

  // ----- exactly what is read -----

  /** The pieces of an output: a record, or nothing between two separators. */
  datatype Chunk = Gap | Full(record: Record)

  /** A record of two status letters and a path; a second path exactly for renames and copies. */
  predicate Readable(c: Chunk) {
    match c
    case Gap => true
    case Full(Changed(status, path)) => |status| == 2 && |path| > 0 && !Renames(status[0]) && !Renames(status[1])
    case Full(Moved(status, path, second)) =>
      |status| == 2 && |path| > 0 && |second| > 0 && (Renames(status[0]) || Renames(status[1]))
  }

  predicate Renames(letter: char) {
    letter == 'R' || letter == 'C'
  }

  function Laid(chunks: seq<Chunk>): seq<string> {
    if chunks == [] then []
    else (match chunks[0]
          case Gap => [""]
          case Full(Changed(status, path)) => [status + " " + path]
          case Full(Moved(status, path, second)) => [status + " " + path, second])
         + Laid(chunks[1..])
  }

  function Told(chunks: seq<Chunk>): seq<Entry> {
    if chunks == [] then []
    else (match chunks[0]
          case Gap => []
          case Full(Changed(status, path)) => [Entry(status, path)]
          case Full(Moved(status, path, second)) => [Entry(status, path), Entry(status, second)])
         + Told(chunks[1..])
  }

  ghost predicate LaidOut(chunks: seq<Chunk>, pieces: seq<string>, entries: seq<Entry>) {
    (forall i :: 0 <= i < |chunks| ==> Readable(chunks[i])) && Laid(chunks) == pieces && Told(chunks) == entries
  }

  lemma Mover(status: string)
    requires |status| == 2
    ensures IsMove(status) <==> Renames(status[0]) || Renames(status[1])
  {}

  lemma Piece(status: string, path: string)
    requires |status| == 2
    ensures var piece := status + " " + path;
      |piece| == |path| + 3 && piece[2] == ' ' && piece[..2] == status && piece[3..] == path
  {}

  lemma {:induction false} LaidIsRead(chunks: seq<Chunk>)
    requires forall i :: 0 <= i < |chunks| ==> Readable(chunks[i])
    ensures Read(Laid(chunks)) == Some(Told(chunks))
  {
    if chunks != [] {
      var rest, pieces := chunks[1..], Laid(chunks);
      assert forall i :: 0 <= i < |rest| ==> rest[i] == chunks[i + 1];
      LaidIsRead(rest);
      assert Readable(chunks[0]);
      match chunks[0]
      case Gap =>
        assert pieces[1..] == Laid(rest);
        assert [] + Told(rest) == Told(rest);
      case Full(Changed(status, path)) =>
        Piece(status, path);
        Mover(status);
        assert pieces[1..] == Laid(rest);
      case Full(Moved(status, path, second)) =>
        Piece(status, path);
        Mover(status);
        assert pieces[2..] == Laid(rest);
    }
  }

  lemma LaidCons(c: Chunk, chunks: seq<Chunk>, pieces: seq<string>, entries: seq<Entry>)
    requires LaidOut(chunks, pieces, entries) && Readable(c)
    ensures LaidOut([c] + chunks, Laid([c]) + pieces, Told([c]) + entries)
  {
    var all := [c] + chunks;
    assert all[1..] == chunks && [c][1..] == [] && forall i :: 0 < i < |all| ==> all[i] == chunks[i - 1];
  }

  lemma Single(c: Chunk)
    ensures Laid([c]) == match c case Gap => [""]
      case Full(Changed(status, path)) => [status + " " + path]
      case Full(Moved(status, path, second)) => [status + " " + path, second]
    ensures Told([c]) == match c case Gap => []
      case Full(Changed(status, path)) => [Entry(status, path)]
      case Full(Moved(status, path, second)) => [Entry(status, path), Entry(status, second)]
  {
    assert [c][1..] == [];
  }

  lemma {:induction false} ReadIsLaid(pieces: seq<string>) returns (chunks: seq<Chunk>)
    requires Read(pieces).Some?
    ensures LaidOut(chunks, pieces, Read(pieces).value)
    decreases |pieces|
  {
    if pieces == [] {
      chunks := [];
    } else {
      hide LaidOut, Laid, Told;
      var n := 1;
      var c := Gap;
      if pieces[0] != "" {
        var status, path := pieces[0][..2], pieces[0][3..];
        Mover(status);
        assert pieces[0] == status + " " + path;
        n := if IsMove(status) then 2 else 1;
        c := if IsMove(status) then Full(Moved(status, path, pieces[1])) else Full(Changed(status, path));
      }
      Single(c);
      assert pieces == Laid([c]) + pieces[n..];
      var rest := ReadIsLaid(pieces[n..]);
      LaidCons(c, rest, pieces[n..], Read(pieces[n..]).value);
      chunks := [c] + rest;
    }
  }

  /** Exactly these outputs are read, and as exactly these entries; every other one is refused. */
  lemma ReadExactly(pieces: seq<string>, entries: seq<Entry>)
    ensures Read(pieces) == Some(entries) <==> exists chunks :: LaidOut(chunks, pieces, entries)
  {
    if Read(pieces) == Some(entries) {
      var chunks := ReadIsLaid(pieces);
    }
    if chunks :| LaidOut(chunks, pieces, entries) {
      LaidIsRead(chunks);
    }
  }

  function Joined(pieces: seq<string>): string
    requires pieces != []
  {
    if |pieces| == 1 then pieces[0] else pieces[0] + [NUL] + Joined(pieces[1..])
  }

  /** The pieces are what stands between the separators. */
  lemma {:induction false} SplitExactly(s: string)
    ensures Joined(Split(s)) == s && forall i :: 0 <= i < |Split(s)| ==> '\0' !in Split(s)[i]
  {
    if s != "" {
      var rest := Split(s[1..]);
      SplitExactly(s[1..]);
      assert s == [s[0]] + s[1..];
      if s[0] == NUL {
        assert Split(s)[1..] == rest;
      } else {
        assert Split(s)[1..] == rest[1..];
      }
    }
  }
}
