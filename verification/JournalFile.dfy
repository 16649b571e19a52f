/** The coordinator's log as a file: whole lines, and whatever a killed process left after the last
    newline. Appending to it again does not look at what is there. */
module JournalFiles {
  import opened Journals

  /** A line of the file: an entry, nothing, or text that is no entry. */
  datatype Line = Whole(entry: Entry) | Blank | Garbled

  /** What follows the last newline: nothing, part of an entry, or an entry whose newline is missing. */
  datatype Tail = Ended | Fragment | Unended(entry: Entry)

  datatype LogFile = LogFile(lines: seq<Line>, tail: Tail)

  const NEW_LOG := LogFile([], Ended)

  /** The file as a reader splits it. */
  function Written(log: LogFile): seq<Line> {
    match log.tail
    case Ended => log.lines
    case Fragment => log.lines + [Garbled]
    case Unended(e) => log.lines + [Whole(e)]
  }

  /** The entries up to the first line that is none. */
  function ReadLines(lines: seq<Line>): seq<Entry> {
    if lines == [] || lines[0].Garbled? then []
    else if lines[0].Blank? then ReadLines(lines[1..])
    else [lines[0].entry] + ReadLines(lines[1..])
  }

  function Readable(log: LogFile): seq<Entry> {
    ReadLines(Written(log))
  }

  /** An entry and a newline; glued to whatever the last line lacks a newline of. */
  function Append(log: LogFile, e: Entry): LogFile {
    LogFile(log.lines + [if log.tail.Ended? then Whole(e) else Garbled], Ended)
  }

  function AppendAll(log: LogFile, entries: seq<Entry>): LogFile {
    if entries == [] then log else Append(AppendAll(log, entries[..|entries| - 1]), entries[|entries| - 1])
  }

  /** Nothing in it is illegible, and its last line is whole. */
  predicate WellEnded(log: LogFile) {
    log.tail.Ended? && Garbled !in log.lines
  }

  function Cut(line: Line): Tail {
    match line
    case Whole(e) => Unended(e)
    case Blank => Ended
    case Garbled => Fragment
  }

  /** What a kill leaves of the file: all of it, with part of the next entry, or short of its last
      newline. */
  ghost predicate Left(log: LogFile, file: LogFile) {
    || file == log
    || file == log.(tail := Fragment)
    || (log.tail.Ended? && log.lines != []
        && file == LogFile(log.lines[..|log.lines| - 1], Cut(log.lines[|log.lines| - 1])))
  }

  // --- reading what was written -----------------------------------------------

  lemma {:induction false} ReadOn(a: seq<Line>, b: seq<Line>)
    ensures ReadLines(a + b) == if Garbled in a then ReadLines(a) else ReadLines(a) + ReadLines(b)
  {
    if a == [] {
      assert a + b == b;
    } else {
      assert (a + b)[1..] == a[1..] + b;
      if !a[0].Garbled? {
        ReadOn(a[1..], b);
        assert Garbled in a <==> Garbled in a[1..];
      }
    }
  }

  lemma AppendOne(log: LogFile, e: Entry)
    ensures AppendAll(log, [e]) == Append(log, e)
  {
    assert [e][..0] == [];
  }

  lemma {:induction false} AppendJoin(log: LogFile, a: seq<Entry>, b: seq<Entry>)
    ensures AppendAll(AppendAll(log, a), b) == AppendAll(log, a + b)
    decreases |b|
  {
    if b == [] {
      assert a + b == a;
    } else {
      AppendJoin(log, a, b[..|b| - 1]);
      assert (a + b)[..|a + b| - 1] == a + b[..|b| - 1];
    }
  }

  /** Entries appended to a well-ended log are all read back, after what was there. */
  lemma {:induction false} AppendedReads(log: LogFile, entries: seq<Entry>)
    requires WellEnded(log)
    ensures WellEnded(AppendAll(log, entries))
    ensures Readable(AppendAll(log, entries)) == Readable(log) + entries
  {
    if entries != [] {
      var n := |entries| - 1;
      AppendedReads(log, entries[..n]);
      var before := AppendAll(log, entries[..n]);
      ReadOn(before.lines, [Whole(entries[n])]);
    }
  }

  /** Entries appended to any other log are never read, and neither is an entry whose newline was
      missing. */
  lemma {:induction false} AppendedIsLost(log: LogFile, entries: seq<Entry>)
    requires !WellEnded(log) && entries != []
    ensures var after := AppendAll(log, entries);
            after.tail.Ended? && Garbled in after.lines && Readable(after) == ReadLines(log.lines)
  {
    var n := |entries| - 1;
    var before := AppendAll(log, entries[..n]);
    if n > 0 {
      AppendedIsLost(log, entries[..n]);
    }
    var line := if before.tail.Ended? then Whole(entries[n]) else Garbled;
    ReadOn(before.lines, [line]);
    assert line in before.lines + [line];
  }

  lemma {:induction false} ReadLast(lines: seq<Line>)
    requires lines != []
    ensures var n := |lines| - 1;
            && ReadLines(lines) == ReadLines(lines[..n] + [lines[n]])
            && Readable(LogFile(lines[..n], Cut(lines[n]))) == ReadLines(lines)
            && ReadLines(lines[..n] + [Garbled]) == ReadLines(lines[..n])
  {
    var n := |lines| - 1;
    assert lines == lines[..n] + [lines[n]];
    ReadOn(lines[..n], [lines[n]]);
    ReadOn(lines[..n], [Garbled]);
  }

  /** A hard kill costs the entry being written and nothing before it, as long as the log was well
      ended when it was opened. */
  lemma WellEndedReads(found: LogFile, entries: seq<Entry>, file: LogFile)
    requires WellEnded(found) && Left(AppendAll(found, entries), file)
    ensures Readable(file) == Readable(found) + entries
  {
    var log := AppendAll(found, entries);
    AppendedReads(found, entries);
    hide AppendAll;
    ReadOn(log.lines, [Garbled]);
    if log.lines != [] {
      ReadLast(log.lines);
    }
  }

  /** Otherwise it costs every entry since, and the last one before if only its newline was missing. */
  lemma TornReads(found: LogFile, entries: seq<Entry>, file: LogFile)
    requires !WellEnded(found) && entries != [] && Left(AppendAll(found, entries), file)
    ensures Readable(file) == ReadLines(found.lines)
  {
    var log := AppendAll(found, entries);
    AppendedIsLost(found, entries);
    hide AppendAll;
    ReadOn(log.lines, [Garbled]);
    ReadLast(log.lines);
  }

  /** What a reader finds before anything is appended: at most one entry more. */
  lemma OpenedReads(found: LogFile)
    requires !WellEnded(found)
    ensures Readable(found) == ReadLines(found.lines)
            || (found.tail.Unended? && Readable(found) == ReadLines(found.lines) + [found.tail.entry])
  {
    if found.tail.Fragment? {
      ReadOn(found.lines, [Garbled]);
    } else if found.tail.Unended? {
      ReadOn(found.lines, [Whole(found.tail.entry)]);
    }
  }

  /** A reader finds the entries of the whole lines down to the first line that is neither an entry nor blank,
      and looks at nothing behind it. */
  lemma {:induction false} ReadsExactly(lines: seq<Line>) returns (end: nat)
    ensures end <= |lines| && Garbled !in lines[..end] && (end < |lines| ==> lines[end].Garbled?)
    ensures forall e :: e in ReadLines(lines) <==> Whole(e) in lines[..end]
  {
    if lines == [] || lines[0].Garbled? {
      end := 0;
    } else {
      end := ReadsExactly(lines[1..]);
      assert lines[..end + 1] == [lines[0]] + lines[1..][..end];
      end := end + 1;
    }
  }
}
