// The append-only observation log: ordinals, cursors, and what a reader receives.
module RecorderLog {
  import opened Options

  const LAST_ORDINAL: nat := 0xFFFF_FFFF_FFFF_FFFF
  const SCHEMA := "camera-observation/v1"

  /** One line of a bundle; the first is the header. */
  datatype Line = Line(schema: string, runId: string, recordId: string, ordinal: nat, body: string)

  datatype LogError = Io | BrokenRecord | Overflow | BrokenHeader | ForeignHeader | BrokenBundle

  datatype Exported = Exported(cursor: nat, header: Line, records: seq<Line>)

  /** A bundle of one run: line `i` has ordinal `i`. */
  predicate Coherent(lines: seq<Line>) {
    && lines != []
    && forall i :: 0 <= i < |lines| ==>
         lines[i].ordinal == i && lines[i].schema == SCHEMA && lines[i].runId == lines[0].runId
  }

  function Newer(lines: seq<Line>, after: nat): seq<Line> {
    if lines == [] then []
    else
      var n := |lines| - 1;
      Newer(lines[..n], after) + (if lines[n].ordinal > after then [lines[n]] else [])
  }

  /** In a coherent bundle, the lines above a cursor are the lines behind it. */
  lemma {:induction false} NewerIsRest(lines: seq<Line>, after: nat)
    requires Coherent(lines)
    ensures Newer(lines[1..], after) == if after + 1 <= |lines| then lines[after + 1..] else []
    decreases |lines|
  {
    var n := |lines| - 1;
    if n > 0 {
      var front, rest := lines[..n], lines[1..];
      NewerIsRest(front, after);
      assert rest[..n - 1] == front[1..] && rest[n - 1] == lines[n];
      assert Newer(rest, after) == Newer(front[1..], after) + (if n > after then [lines[n]] else []);
      if after + 1 <= n { assert lines[after + 1..] == front[after + 1..] + [lines[n]]; }
    }
  }

  /** The file behind a recorder: absent, or its lines. */
  class LogFile {
    var content: Option<seq<Line>>

    constructor ()
      ensures content == None
    {
      content := None;
    }
  }

  class ObservationRecorder {
    const file: LogFile
    const persistent: bool
    const runId: string
    var lines: seq<Line>
    var nextOrdinal: nat

    ghost predicate Valid()
      reads this, file
    {
      && Coherent(lines) && lines[0].runId == runId && nextOrdinal == |lines| && nextOrdinal <= LAST_ORDINAL
      && (persistent ==> file.content == Some(lines))
    }

    /** Use `Open`; this only fills the fields. */
    constructor (file: LogFile, persistent: bool, runId: string, lines: seq<Line>, nextOrdinal: nat)
      ensures this.file == file && this.persistent == persistent && this.runId == runId
      ensures this.lines == lines && this.nextOrdinal == nextOrdinal
    {
      this.file, this.persistent, this.runId, this.lines, this.nextOrdinal := file, persistent, runId, lines,
        nextOrdinal;
    }

    /** The line carries the identity the recorder gave it. */
    predicate Proper(made: Line, ordinal: nat) {
      made.schema == SCHEMA && made.runId == runId && made.ordinal == ordinal
    }

    /**
     * Append what `body` makes of the next ordinal. `written` says whether the file
     * took the line. The very last ordinal is stored and then reported as an error.
     */
    method Append(made: Line, written: bool) returns (r: Result<nat, LogError>)
      requires Valid()
      modifies this`lines, this`nextOrdinal, file
      ensures r.Ok? ==> Valid() && r.value == old(nextOrdinal) && lines == old(lines) + [made]
      ensures r.Err? && r.error != Overflow ==> Valid() && lines == old(lines)
      ensures r.Ok? <==> Proper(made, old(nextOrdinal)) && (written || !persistent) && old(nextOrdinal) < LAST_ORDINAL
      ensures r == Err(Overflow) <==> Proper(made, old(nextOrdinal)) && (written || !persistent)
                                      && old(nextOrdinal) == LAST_ORDINAL
      ensures r == Err(Overflow) ==> lines == old(lines) + [made] && nextOrdinal == old(nextOrdinal) && !Valid()
    {
      var ordinal := nextOrdinal;
      if !Proper(made, ordinal) { return Err(BrokenRecord); }
      if persistent {
        if !written { return Err(Io); }
        if file.content.Some? { file.content := Some(file.content.value + [made]); }
      }
      lines := lines + [made];
      if ordinal == LAST_ORDINAL { return Err(Overflow); }
      nextOrdinal := ordinal + 1;
      return Ok(ordinal);
    }

    method Export(after: nat) returns (e: Exported)
      requires Valid()
      ensures e.header == lines[0] && e.cursor == |lines| - 1
      ensures e.records == if after + 1 <= |lines| then lines[after + 1..] else []
    {
      var records: seq<Line> := [];
      var rest := lines[1..];
      for i := 0 to |rest|
        invariant records == Newer(rest[..i], after)
      {
        assert rest[..i + 1][..i] == rest[..i];
        if rest[i].ordinal > after { records := records + [rest[i]]; }
      }
      assert rest[..|rest|] == rest;
      NewerIsRest(lines, after);
      return Exported(if nextOrdinal == 0 then 0 else nextOrdinal - 1, lines[0], records);
    }
  }

  method LoadExisting(content: seq<Line>, header: Line) returns (r: Result<seq<Line>, LogError>)
    ensures r.Ok? <==> Coherent(content) && content[0] == header
    ensures r.Ok? ==> r.value == content
  {
    if content == [] { return Err(BrokenBundle); }
    if content[0] != header { return Err(ForeignHeader); }
    for i := 0 to |content|
      invariant forall j :: 0 <= j < i ==>
                  content[j].ordinal == j && content[j].schema == SCHEMA && content[j].runId == header.runId
    {
      if content[i].schema != SCHEMA || content[i].runId != header.runId || content[i].ordinal != i {
        return Err(BrokenBundle);
      }
    }
    return Ok(content);
  }

  predicate Usable(header: Line) {
    header.schema == SCHEMA && header.ordinal == 0 && header.runId != "" && header.recordId != ""
  }

  predicate Continues(content: seq<Line>, header: Line) {
    Coherent(content) && content[0] == header && |content| <= LAST_ORDINAL
  }

  /** Open or create a bundle; whatever exists is checked line by line first. */
  method Open(file: LogFile, persistent: bool, header: Line) returns (r: Result<ObservationRecorder, LogError>)
    modifies file
    ensures r.Ok? ==> r.value.Valid() && r.value.file == file && r.value.persistent == persistent && fresh(r.value)
    ensures r.Ok? ==>
              r.value.lines == if persistent && old(file.content).Some? then old(file.content).value else [header]
    ensures r.Err? ==> file.content == old(file.content)
    ensures Usable(header) && !(persistent && old(file.content).Some?) ==> r.Ok?
    ensures Usable(header) && persistent && old(file.content).Some?
            ==> (r.Ok? <==> Continues(old(file.content).value, header))
  {
    if !Usable(header) { return Err(BrokenHeader); }
    var lines := [header];
    if persistent {
      if file.content.Some? {
        var loaded := LoadExisting(file.content.value, header);
        if loaded.Err? { return Err(loaded.error); }
        lines := loaded.value;
        if |lines| > LAST_ORDINAL { return Err(Overflow); }
      } else {
        file.content := Some(lines);
      }
    }
    var recorder := new ObservationRecorder(file, persistent, header.runId, lines, |lines|);
    return Ok(recorder);
  }

  // ----- a reader that follows its cursor -----

  /** What can happen to a bundle while a reader follows it. */
  datatype Action = Appended(recordId: string, body: string) | Refused | Reopened | Polled

  datatype World = World(lines: seq<Line>, cursor: nat, received: seq<Line>)

  function NextLine(lines: seq<Line>, recordId: string, body: string): Line
    requires lines != []
  {
    Line(SCHEMA, lines[0].runId, recordId, |lines|, body)
  }

  function Act(w: World, a: Action): World
    requires w.lines != []
  {
    match a
    case Appended(recordId, body) => w.(lines := w.lines + [NextLine(w.lines, recordId, body)])
    case Refused => w
    case Reopened => w
    case Polled => w.(cursor := |w.lines| - 1, received := w.received + Newer(w.lines[1..], w.cursor))
  }

  function Acts(w: World, actions: seq<Action>): (r: World)
    requires w.lines != []
    ensures r.lines != []
  {
    if actions == [] then w else Act(Acts(w, actions[..|actions| - 1]), actions[|actions| - 1])
  }

  /** The reader holds every record up to its cursor, once and in order. */
  predicate Following(w: World) {
    Coherent(w.lines) && w.cursor < |w.lines| && w.received == w.lines[1..w.cursor + 1]
  }

  lemma AppendFollows(w: World, line: Line)
    requires Following(w) && line.ordinal == |w.lines| && line.schema == SCHEMA && line.runId == w.lines[0].runId
    ensures Following(w.(lines := w.lines + [line]))
  {
    assert (w.lines + [line])[1..w.cursor + 1] == w.lines[1..w.cursor + 1];
  }

  lemma PollFollows(w: World)
    requires Following(w)
    ensures Following(Act(w, Polled)) && Act(w, Polled).received == w.lines[1..]
  {
    NewerIsRest(w.lines, w.cursor);
    var lines, k := w.lines, w.cursor + 1;
    assert lines[1..k] + lines[k..] == lines[1..];
    assert lines[1..|lines|] == lines[1..];
  }

  /**
   * After any interleaving of appends, refusals, reopens and polls, a reader that
   * always asks for what is behind its cursor has received every record up to the
   * cursor exactly once and in order; right after a poll that is every record.
   */
  lemma {:induction false} ReaderReceivesAll(header: Line, actions: seq<Action>)
    requires header.ordinal == 0 && header.schema == SCHEMA
    ensures var w := Acts(World([header], 0, []), actions);
      && Following(w)
      && (actions != [] && actions[|actions| - 1].Polled? ==> w.received == w.lines[1..])
    decreases |actions|
  {
    if actions != [] {
      var n := |actions| - 1;
      ReaderReceivesAll(header, actions[..n]);
      var w := Acts(World([header], 0, []), actions[..n]);
      match actions[n] {
        case Appended(recordId, body) => AppendFollows(w, NextLine(w.lines, recordId, body));
        case Polled => PollFollows(w);
        case _ =>
      }
    }
  }

  /** One action, carried out on the recorder and its file. */
  method Perform(recorder: ObservationRecorder, header: Line, a: Action, cursor: nat, received: seq<Line>)
    returns (now: ObservationRecorder, after: nat, all: seq<Line>)
    requires Usable(header) && recorder.Valid() && recorder.persistent && recorder.lines[0] == header
             && |recorder.lines| < LAST_ORDINAL
    modifies recorder, recorder.file
    ensures now.Valid() && now.persistent && now.file == recorder.file && (now == recorder || fresh(now))
            && now.lines[0] == header
    ensures |now.lines| <= old(|recorder.lines|) + 1
    ensures World(now.lines, after, all) == Act(World(old(recorder.lines), cursor, received), a)
  {
    now, after, all := recorder, cursor, received;
    match a
    case Appended(recordId, body) =>
      var done := recorder.Append(Line(SCHEMA, recorder.runId, recordId, recorder.nextOrdinal, body), true);
    case Refused =>
      var failed := recorder.Append(Line(SCHEMA, recorder.runId, "", recorder.nextOrdinal, ""), false);
    case Reopened =>
      var again := Open(recorder.file, true, header);
      now := again.value;
    case Polled =>
      NewerIsRest(recorder.lines, cursor);
      var e := recorder.Export(cursor);
      after, all := e.cursor, received + e.records;
  }

  /** The recorder, the file and the reader really go through the states above. */
  method Drive(header: Line, actions: seq<Action>)
    returns (recorder: ObservationRecorder, cursor: nat, received: seq<Line>)
    requires Usable(header) && |actions| < LAST_ORDINAL
    ensures recorder.Valid()
    ensures World(recorder.lines, cursor, received) == Acts(World([header], 0, []), actions)
  {
    var file := new LogFile();
    var created := Open(file, true, header);
    recorder, cursor, received := created.value, 0, [];
    for i := 0 to |actions|
      invariant recorder.Valid() && recorder.persistent && fresh(recorder) && fresh(recorder.file)
      invariant recorder.lines[0] == header && |recorder.lines| <= i + 1
      invariant World(recorder.lines, cursor, received) == Acts(World([header], 0, []), actions[..i])
    {
      assert actions[..i + 1][..i] == actions[..i];
      recorder, cursor, received := Perform(recorder, header, actions[i], cursor, received);
    }
    assert actions[..|actions|] == actions;
  }
}
