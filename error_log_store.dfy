/**
 * The date-partitioned error log: app/api/v1/endpoints/error_logs.py.
 *
 * The log directory is a map from file name to the lines of that file. A line
 * is what the read-back makes of it: a blank line (nothing but whitespace), a
 * JSON value, or text that json.loads refuses, with the message it raises.
 * Appending writes one JSON line to "<YYYY-MM-DD>.jsonl"; reading back visits
 * the "*.jsonl" files newest name first, each file top to bottom, and stops
 * once limit values have been collected.
 */
module ErrorLogStore {
  import opened Wrappers
  import opened ErrorRecords
  import opened Timestamps
  import opened FileOrder

  datatype Line = Record(json: Json) | Blank | Malformed(reason: string)

  type Files = map<string, seq<Line>>

  const ServerError := 500
  const WriteFailure := "Failed to write error log: "
  const ReadFailure := "Failed to read error logs: "
  const NoDirectoryMessage := "No log directory found"

  // ---------------------------------------------------------------------
  // The directory listing
  // ---------------------------------------------------------------------

  /** The pattern "*.jsonl": any name, the empty one included, then ".jsonl". */
  predicate MatchesGlob(name: string) {
    |name| >= 6 && name[|name| - 6..] == ".jsonl"
  }

  ghost function LogFileNames(files: Files): set<string> {
    set n | n in files && MatchesGlob(n)
  }

  /** sorted(LOG_DIR.glob("*.jsonl"), reverse=True). */
  ghost function LogFileOrder(files: Files): (names: seq<string>)
    ensures Descending(names)
    ensures forall n :: n in names <==> n in files && MatchesGlob(n)
  {
    NewestFirst(LogFileNames(files))
  }

  /** The lines of a file; a file that does not exist has none. */
  function Lines(files: Files, name: string): seq<Line> {
    if name in files then files[name] else []
  }

  // ---------------------------------------------------------------------
  // What the read-back sees
  // ---------------------------------------------------------------------

  /** The lines of a file that line.strip() keeps, in file order. */
  function NonBlank(lines: seq<Line>): (r: seq<Line>)
    ensures |r| <= |lines|
    ensures forall i :: 0 <= i < |r| ==> !r[i].Blank?
  {
    if lines == [] then []
    else
      var last := lines[|lines| - 1];
      NonBlank(lines[..|lines| - 1]) + (if last.Blank? then [] else [last])
  }

  /** The non-blank lines of the named files, file after file. */
  function Stream(files: Files, names: seq<string>): (r: seq<Line>)
    ensures forall i :: 0 <= i < |r| ==> !r[i].Blank?
  {
    if names == [] then []
    else Stream(files, names[..|names| - 1]) + NonBlank(Lines(files, names[|names| - 1]))
  }

  /** Every non-blank line of the log, in the order the read-back visits them. */
  ghost function Records(files: Files): seq<Line> {
    Stream(files, LogFileOrder(files))
  }

  function Take(s: seq<Line>, n: nat): (r: seq<Line>)
    ensures |r| == if n < |s| then n else |s|
    ensures r == s[..|r|]
  {
    if n < |s| then s[..n] else s
  }

  /**
   * The lines that the loops of lines 88-96 consume. With limit >= 1 they stop
   * after limit non-blank lines; with limit <= 0 the test len(logs) >= limit
   * holds from the start, so only the first file is opened and it is left
   * after its first non-blank line.
   */
  function Window(files: Files, names: seq<string>, limit: int): (r: seq<Line>)
    ensures limit >= 1 ==> |r| <= limit
    ensures limit < 1 ==> |r| <= 1
  {
    if limit >= 1 then Take(Stream(files, names), limit)
    else if names == [] then []
    else Take(NonBlank(Lines(files, names[0])), 1)
  }

  /**
   * json.loads over lines in order: the values, or the message of the first
   * line that does not parse.
   */
  function Decode(lines: seq<Line>): (r: Result<seq<Json>, string>)
    ensures r.Ok? ==> |r.value| <= |lines|
    ensures r.Err? ==> Malformed(r.error) in lines
  {
    if lines == [] then Ok([])
    else
      var init := lines[..|lines| - 1];
      match Decode(init)
      case Err(e) => Err(e)
      case Ok(values) =>
        match lines[|lines| - 1]
        case Record(j) => Ok(values + [j])
        case Blank => Ok(values)
        case Malformed(reason) => Err(reason)
  }

  /** logs[:limit] with Python's slice bounds, a negative limit counting from the end. */
  function PyPrefix(s: seq<Json>, limit: int): (r: seq<Json>)
    ensures |r| <= |s| && r == s[..|r|]
    ensures limit >= |s| ==> r == s
    ensures limit <= 0 && |s| <= 1 ==> r == []
  {
    if limit >= |s| then s
    else if limit >= 0 then s[..limit]
    else if |s| + limit <= 0 then []
    else s[..|s| + limit]
  }

  /** str(n). */
  function Decimal(n: nat): (s: string)
    ensures |s| >= 1 && AllDigits(s)
  {
    if n < 10 then [('0' as int + n) as char]
    else Decimal(n / 10) + [('0' as int + n % 10) as char]
  }

  /** The body of a successful read-back; count is absent only without a directory. */
  datatype LatestLogs = LatestLogs(logs: seq<Json>, count: Option<nat>, message: string)

  /** The response for the lines the loops consumed (lines 98-108). */
  function ReadOutcome(window: seq<Line>, limit: int): Result<LatestLogs, HttpError> {
    match Decode(window)
    case Err(reason) => Err(HttpError(ServerError, ReadFailure + reason))
    case Ok(logs) => Ok(Retrieved(logs, limit))
  }

  /** The body returned for the values read (lines 98-102). */
  function Retrieved(logs: seq<Json>, limit: int): (r: LatestLogs)
    ensures r.count == Some(|logs|)
    ensures |r.logs| <= |logs| && r.logs == logs[..|r.logs|]
    ensures limit >= |logs| ==> r.logs == logs
  {
    LatestLogs(PyPrefix(logs, limit), Some(|logs|), "Retrieved " + Decimal(|logs|) + " most recent error logs")
  }

  /** get_latest_logs(limit) on a directory in the given state. */
  ghost function Latest(dirExists: bool, files: Files, limit: int): (r: Result<LatestLogs, HttpError>)
    ensures !dirExists ==> r.Ok? && r.value.logs == [] && r.value.count == None
    ensures dirExists && r.Ok? ==> r.value.count.Some?
    ensures r.Err? ==> dirExists && r.error.status == ServerError && ReadFailure <= r.error.detail
  {
    if !dirExists then Ok(LatestLogs([], None, NoDirectoryMessage))
    else ReadOutcome(Window(files, LogFileOrder(files), limit), limit)
  }

  // ---------------------------------------------------------------------
  // The append
  // ---------------------------------------------------------------------

  /** The ValueError text of a timestamp fromisoformat refuses. */
  function InvalidTimestamp(timestamp: string): (s: string)
    ensures 'Z' !in timestamp ==> s == "Invalid isoformat string: '" + timestamp + "'"
  {
    "Invalid isoformat string: '" + ReplaceZ(timestamp) + "'"
  }

  /** The response of log_mediamtx_error for a report, given the directory's path. */
  function AppendResponse(directory: string, report: ErrorReport): (r: Result<LogResponse, HttpError>)
    ensures r.Ok? <==> PartitionName(report.timestamp).Some?
    ensures r.Ok? ==> |report.timestamp| >= 10
    ensures r.Ok? ==>
      var name := report.timestamp[..10] + ".jsonl";
      r.value == LogResponse(true, directory + "/" + name, "Error logged successfully to " + name)
    ensures r.Err? ==> r.error.status == 500 && WriteFailure <= r.error.detail
  {
    match PartitionName(report.timestamp)
    case None => Err(HttpError(ServerError, WriteFailure + InvalidTimestamp(report.timestamp)))
    case Some(name) =>
      PartitionIsWrittenDate(report.timestamp);
      Ok(LogResponse(true, directory + "/" + name, "Error logged successfully to " + name))
  }

  /**
   * The directory after a successful append: one more line, the report's
   * record, at the end of the file its timestamp names.
   */
  function Appended(files: Files, report: ErrorReport): (r: Files)
    requires PartitionName(report.timestamp).Some?
    ensures |report.timestamp| >= 10
    ensures var name := report.timestamp[..10] + ".jsonl";
      && r.Keys == files.Keys + {name}
      && Lines(r, name) == Lines(files, name) + [Record(ToRecord(report))]
      && forall n :: n != name ==> Lines(r, n) == Lines(files, n)
  {
    PartitionIsWrittenDate(report.timestamp);
    var name := PartitionName(report.timestamp).value;
    files[name := Lines(files, name) + [Record(ToRecord(report))]]
  }

  /** The log directory and the files in it. */
  class LogStore {
    /** LOG_DIR, as str() writes it. */
    const directory: string
    var dirExists: bool
    var files: Files

    /**
     * Files live in the directory: when it does not exist there is nothing to
     * read, so the answer without a directory hides no record.
     */
    ghost predicate Valid()
      reads this
    {
      !dirExists ==> files == map[]
    }

    constructor (directory: string, dirExists: bool, files: Files)
      requires !dirExists ==> files == map[]
      ensures Valid()
      ensures this.directory == directory && this.dirExists == dirExists && this.files == files
    {
      this.directory := directory;
      this.dirExists := dirExists;
      this.files := files;
    }

    /**
     * log_mediamtx_error (lines 30-73). The directory is created before the
     * timestamp is parsed, so it exists afterwards even when the append fails.
     */
    method LogMediamtxError(report: ErrorReport) returns (res: Result<LogResponse, HttpError>)
      requires Valid()
      modifies this
      ensures Valid() && dirExists
      ensures res == AppendResponse(directory, report)
      ensures res.Err? ==> files == old(files)
      ensures res.Ok? ==> files == Appended(old(files), report)
    {
      dirExists := true;
      var name := PartitionName(report.timestamp);
      if name.None? {
        return Err(HttpError(ServerError, WriteFailure + InvalidTimestamp(report.timestamp)));
      }
      PartitionIsWrittenDate(report.timestamp);
      var entry := ToRecord(report);
      files := files[name.value := Lines(files, name.value) + [Record(entry)]];
      res := Ok(LogResponse(true, directory + "/" + name.value, "Error logged successfully to " + name.value));
    }

    /** The directory listing of line 85: the "*.jsonl" names, newest name first. */
    method ListLogFiles() returns (names: seq<string>)
      ensures names == LogFileOrder(files)
    {
      var found: seq<string> := [];
      var rest := files.Keys;
      while rest != {}
        invariant rest <= files.Keys
        invariant Distinct(found)
        invariant forall n :: n in found <==> n in files.Keys - rest && MatchesGlob(n)
        decreases |rest|
      {
        var n :| n in rest;
        if MatchesGlob(n) {
          found := found + [n];
        }
        rest := rest - {n};
      }
      SortedListing(files, found);
      names := SortDescending(found);
    }

    /** get_latest_logs (lines 75-108), limit defaulting to 50. */
    method GetLatestLogs(limit: int := 50) returns (res: Result<LatestLogs, HttpError>)
      requires Valid()
      ensures res == Latest(dirExists, files, limit)
    {
      if !dirExists {
        return Ok(LatestLogs([], None, NoDirectoryMessage));
      }
      var names := ListLogFiles();
      res := ReadNewestFirst(names, limit);
    }

    /** The loop of lines 87-96 over the listed files. */
    method ReadNewestFirst(names: seq<string>, limit: int) returns (res: Result<LatestLogs, HttpError>)
      ensures res == ReadOutcome(Window(files, names, limit), limit)
    {
      var logs: seq<Json> := [];
      ghost var seen: seq<Line> := [];
      var i := 0;
      while i < |names|
        invariant 0 <= i <= |names|
        invariant seen == Stream(files, names[..i])
        invariant Decode(seen) == Ok(logs) && |logs| == |seen|
        invariant limit >= 1 ==> |seen| < limit
        invariant limit < 1 ==> i == 0 && seen == []
      {
        var failure;
        seen, logs, failure := ReadFile(files, names, limit, i, seen, logs);
        if failure.Some? {
          return Err(HttpError(ServerError, ReadFailure + failure.value));
        }
        if |logs| >= limit {
          break;
        }
        i := i + 1;
      }
      if i == |names| {
        AllFilesRead(files, names, limit, seen);
      }
      res := Ok(Retrieved(logs, limit));
    }
  }

  /**
   * The loop of lines 89-94 over the lines of the i-th file, after the
   * records of the files before it: it stops at the limit, or with the
   * message of a line json.loads refuses.
   */
  method ReadFile(files: Files, names: seq<string>, limit: int, i: nat, ghost before: seq<Line>, logsBefore: seq<Json>)
    returns (ghost seen: seq<Line>, logs: seq<Json>, failure: Option<string>)
    requires i < |names| && before == Stream(files, names[..i])
    requires Decode(before) == Ok(logsBefore) && |logsBefore| == |before|
    requires limit >= 1 ==> |before| < limit
    requires limit < 1 ==> i == 0 && before == []
    ensures FileDone(files, names, limit, i, seen, logs, failure)
  {
    var lines := Lines(files, names[i]);
    FileStart(files, names, limit, i, before, logsBefore);
    seen, logs, failure := before, logsBefore, None;
    var j := 0;
    while j < |lines|
      invariant j <= |lines|
      invariant Reading(files, names, limit, i, j, seen, logs)
    {
      LineStep(files, names, limit, i, j, seen, logs);
      match lines[j] {
        case Blank =>
        case Malformed(reason) =>
          return seen, logs, Some(reason);
        case Record(json) =>
          logs := logs + [json];
          seen := seen + [lines[j]];
          if |logs| >= limit {
            return;
          }
      }
      j := j + 1;
    }
    FileRead(files, names, limit, i, seen, logs);
  }

  /** Sorting any listing of the "*.jsonl" names gives the one order. */
  lemma SortedListing(files: Files, found: seq<string>)
    requires Distinct(found)
    requires forall n :: n in found <==> n in files && MatchesGlob(n)
    ensures SortDescending(found) == LogFileOrder(files)
  {
    var names := SortDescending(found);
    SortDescendingSorted(found);
    assert forall z :: z in names <==> z in multiset(found);
    DescendingUnique(names, LogFileOrder(files));
  }

  // ---------------------------------------------------------------------
  // Lemmas behind the read loop
  // ---------------------------------------------------------------------

  predicate IsPrefix(p: seq<Line>, s: seq<Line>) {
    |p| <= |s| && s[..|p|] == p
  }

  lemma NonBlankStep(lines: seq<Line>, j: nat)
    requires j < |lines|
    ensures NonBlank(lines[..j + 1]) == NonBlank(lines[..j]) + (if lines[j].Blank? then [] else [lines[j]])
  {
    assert lines[..j + 1][..j] == lines[..j];
  }

  lemma StreamStep(files: Files, names: seq<string>, i: nat)
    requires i < |names|
    ensures Stream(files, names[..i + 1]) == Stream(files, names[..i]) + NonBlank(Lines(files, names[i]))
  {
    assert names[..i + 1][..i] == names[..i];
  }

  lemma {:induction false} NonBlankPrefix(lines: seq<Line>, j: nat)
    requires j <= |lines|
    ensures IsPrefix(NonBlank(lines[..j]), NonBlank(lines))
    decreases |lines| - j
  {
    if j < |lines| {
      NonBlankPrefix(lines, j + 1);
      NonBlankStep(lines, j);
      var here, next, all := NonBlank(lines[..j]), NonBlank(lines[..j + 1]), NonBlank(lines);
      assert all[..|next|] == next;
      assert next[..|here|] == here;
      assert all[..|here|] == all[..|next|][..|here|];
    } else {
      assert lines[..j] == lines;
    }
  }

  lemma {:induction false} StreamPrefix(files: Files, names: seq<string>, i: nat)
    requires i <= |names|
    ensures IsPrefix(Stream(files, names[..i]), Stream(files, names))
    decreases |names| - i
  {
    if i < |names| {
      StreamPrefix(files, names, i + 1);
      StreamStep(files, names, i);
      var here, next, all := Stream(files, names[..i]), Stream(files, names[..i + 1]), Stream(files, names);
      assert all[..|next|] == next;
      assert next[..|here|] == here;
      assert all[..|here|] == all[..|next|][..|here|];
    } else {
      assert names[..i] == names;
    }
  }

  /** What the loops have consumed is where the stream of all files begins. */
  lemma ConsumedIsPrefix(files: Files, names: seq<string>, i: nat, lines: seq<Line>, j: nat)
    requires i < |names| && lines == Lines(files, names[i]) && j <= |lines|
    ensures IsPrefix(Stream(files, names[..i]) + NonBlank(lines[..j]), Stream(files, names))
    ensures i == 0 ==> IsPrefix(NonBlank(lines[..j]), NonBlank(lines))
  {
    NonBlankPrefix(lines, j);
    StreamStep(files, names, i);
    StreamPrefix(files, names, i + 1);
    var done, part, whole := Stream(files, names[..i]), NonBlank(lines[..j]), NonBlank(lines);
    var upTo, all := Stream(files, names[..i + 1]), Stream(files, names);
    assert upTo == done + whole;
    assert (done + whole)[..|done + part|] == done + part;
    assert all[..|upTo|][..|done + part|] == all[..|done + part|];
    if i == 0 {
      assert names[..0] == [];
    }
  }

  /**
   * Where the loops stand after the j-th line of the i-th file: the non-blank
   * lines consumed so far begin the window, and are all of it once the limit
   * is met.
   */
  lemma Reached(files: Files, names: seq<string>, limit: int, i: nat, j: nat)
    requires i < |names| && j < |Lines(files, names[i])|
    requires !Lines(files, names[i])[j].Blank?
    requires limit >= 1 ==> |Stream(files, names[..i]) + NonBlank(Lines(files, names[i])[..j])| < limit
    requires limit < 1 ==> i == 0 && NonBlank(Lines(files, names[0])[..j]) == []
    ensures var consumed := Stream(files, names[..i]) + NonBlank(Lines(files, names[i])[..j + 1]);
      IsPrefix(consumed, Window(files, names, limit)) &&
      (|consumed| >= limit ==> consumed == Window(files, names, limit))
  {
    var lines := Lines(files, names[i]);
    var done, part := Stream(files, names[..i]), NonBlank(lines[..j]);
    var consumed := done + NonBlank(lines[..j + 1]);
    ConsumedIsPrefix(files, names, i, lines, j + 1);
    NonBlankStep(lines, j);
    assert consumed == done + part + [lines[j]];
    if limit >= 1 {
      PrefixOfTake(consumed, Stream(files, names), limit);
    } else {
      assert names[..0] == [];
      PrefixOfTake(NonBlank(lines[..j + 1]), NonBlank(lines), 1);
    }
  }

  /** A prefix no longer than n begins the first n elements, and is all of them at length n. */
  lemma PrefixOfTake(p: seq<Line>, s: seq<Line>, n: nat)
    requires IsPrefix(p, s) && |p| <= n
    ensures IsPrefix(p, Take(s, n)) && (|p| >= n ==> p == Take(s, n))
  {
    var t := Take(s, n);
    assert t[..|p|] == s[..|p|];
  }

  /** With a limit below one, a newest file of blank lines leaves the window empty. */
  lemma NewestFileBlank(files: Files, names: seq<string>, limit: int, lines: seq<Line>)
    requires names != [] && lines == Lines(files, names[0])
    requires limit < 1 && NonBlank(lines[..|lines|]) == []
    ensures Window(files, names, limit) == []
  {
    assert lines[..|lines|] == lines;
  }

  /** Once every file is read below the limit, the window is the whole stream. */
  lemma AllFilesRead(files: Files, names: seq<string>, limit: int, seen: seq<Line>)
    requires seen == Stream(files, names[..|names|])
    requires limit >= 1 ==> |seen| < limit
    requires limit < 1 ==> names == [] && seen == []
    ensures seen == Window(files, names, limit)
  {
    assert names[..|names|] == names;
  }

  /**
   * Where the loops stand after the first j lines of the i-th file: seen are
   * the non-blank lines consumed, logs their values, and the limit is not met.
   */
  ghost predicate Reading(files: Files, names: seq<string>, limit: int, i: nat, j: nat, seen: seq<Line>, logs: seq<Json>) {
    && i < |names| && j <= |Lines(files, names[i])|
    && seen == Stream(files, names[..i]) + NonBlank(Lines(files, names[i])[..j])
    && Decode(seen) == Ok(logs) && |logs| == |seen|
    && (limit >= 1 ==> |seen| < limit)
    && (limit < 1 ==> i == 0 && seen == [])
  }

  /** Where the loops stand before the j-th line of the i-th file. */
  ghost predicate Scanning(files: Files, names: seq<string>, limit: int, i: nat, j: nat, seen: seq<Line>, logs: seq<Json>) {
    Reading(files, names, limit, i, j, seen, logs) && j < |Lines(files, names[i])|
  }

  /**
   * Where the loops stand once the i-th file is left: either a line json.loads
   * refuses failed the whole read with its message, or seen are the lines
   * consumed so far and logs their values, and then either the limit is met
   * and the read is complete, or the file was read to its end.
   */
  ghost predicate FileDone(files: Files, names: seq<string>, limit: int, i: nat, seen: seq<Line>, logs: seq<Json>, failure: Option<string>) {
    && i < |names|
    && (failure.Some? ==> Decode(Window(files, names, limit)) == Err(failure.value))
    && (failure.None? ==>
      && Decode(seen) == Ok(logs) && |logs| == |seen|
      && (|logs| >= limit ==> seen == Window(files, names, limit))
      && (|logs| < limit ==> seen == Stream(files, names[..i + 1])))
  }

  /** Before the first line of the i-th file, the loops hold the lines of the files before it. */
  lemma FileStart(files: Files, names: seq<string>, limit: int, i: nat, before: seq<Line>, logs: seq<Json>)
    requires i < |names| && before == Stream(files, names[..i])
    requires Decode(before) == Ok(logs) && |logs| == |before|
    requires limit >= 1 ==> |before| < limit
    requires limit < 1 ==> i == 0 && before == []
    ensures Reading(files, names, limit, i, 0, before, logs)
  {
    assert Lines(files, names[i])[..0] == [];
  }

  /** What the j-th line of the i-th file does to the loops' state. */
  lemma LineStep(files: Files, names: seq<string>, limit: int, i: nat, j: nat, seen: seq<Line>, logs: seq<Json>)
    requires Scanning(files, names, limit, i, j, seen, logs)
    ensures var line := Lines(files, names[i])[j];
      && (line.Blank? ==> Reading(files, names, limit, i, j + 1, seen, logs))
      && (line.Malformed? ==> FileDone(files, names, limit, i, seen, logs, Some(line.reason)))
      && (line.Record? && |logs| + 1 < limit ==> Reading(files, names, limit, i, j + 1, seen + [line], logs + [line.json]))
      && (line.Record? && |logs| + 1 >= limit ==> FileDone(files, names, limit, i, seen + [line], logs + [line.json], None))
  {
    var lines := Lines(files, names[i]);
    match lines[j] {
      case Blank => NonBlankStep(lines, j);
      case Malformed(_) => MalformedStep(files, names, limit, i, j, seen, logs);
      case Record(_) => RecordStep(files, names, limit, i, j, seen, logs);
    }
  }

  /** The i-th file read to its end below the limit: its lines join the stream. */
  lemma FileRead(files: Files, names: seq<string>, limit: int, i: nat, seen: seq<Line>, logs: seq<Json>)
    requires i < |names| && Reading(files, names, limit, i, |Lines(files, names[i])|, seen, logs)
    ensures FileDone(files, names, limit, i, seen, logs, None)
  {
    var lines := Lines(files, names[i]);
    assert lines[..|lines|] == lines;
    StreamStep(files, names, i);
    if limit < 1 {
      NewestFileBlank(files, names, limit, lines);
    }
  }

  /** A line json.loads refuses, met by the loops, fails the whole read with its message. */
  lemma MalformedStep(files: Files, names: seq<string>, limit: int, i: nat, j: nat, seen: seq<Line>, logs: seq<Json>)
    requires Scanning(files, names, limit, i, j, seen, logs)
    requires Lines(files, names[i])[j].Malformed?
    ensures Decode(Window(files, names, limit)) == Err(Lines(files, names[i])[j].reason)
  {
    var lines := Lines(files, names[i]);
    var upTo := seen + [lines[j]];
    assert upTo == Stream(files, names[..i]) + NonBlank(lines[..j + 1]) by {
      NonBlankStep(lines, j);
    }
    Reached(files, names, limit, i, j);
    assert Decode(upTo) == Err(lines[j].reason) by {
      assert upTo[..|seen|] == seen;
    }
    DecodeExtends(upTo, Window(files, names, limit));
  }

  /** A JSON line met by the loops is collected; at the limit the window is complete. */
  lemma RecordStep(files: Files, names: seq<string>, limit: int, i: nat, j: nat, seen: seq<Line>, logs: seq<Json>)
    requires Scanning(files, names, limit, i, j, seen, logs)
    requires Lines(files, names[i])[j].Record?
    ensures var lines := Lines(files, names[i]);
      && seen + [lines[j]] == Stream(files, names[..i]) + NonBlank(lines[..j + 1])
      && Decode(seen + [lines[j]]) == Ok(logs + [lines[j].json])
      && (|seen| + 1 >= limit ==> seen + [lines[j]] == Window(files, names, limit))
  {
    var lines := Lines(files, names[i]);
    var upTo := seen + [lines[j]];
    assert upTo == Stream(files, names[..i]) + NonBlank(lines[..j + 1]) by {
      NonBlankStep(lines, j);
    }
    assert Decode(upTo) == Ok(logs + [lines[j].json]) by {
      assert upTo[..|seen|] == seen;
    }
    if |seen| + 1 >= limit {
      assert upTo == Window(files, names, limit) by {
        Reached(files, names, limit, i, j);
      }
    }
  }

  /** A line json.loads refuses ends the reading with its message, whatever follows. */
  lemma {:induction false} DecodeExtends(p: seq<Line>, s: seq<Line>)
    requires IsPrefix(p, s) && Decode(p).Err?
    ensures Decode(s) == Decode(p)
    decreases |s|
  {
    if |s| > |p| {
      assert s[..|s| - 1][..|p|] == p;
      DecodeExtends(p, s[..|s| - 1]);
    } else {
      assert s == p;
    }
  }

  // ---------------------------------------------------------------------
  // What a read-back returns
  // ---------------------------------------------------------------------

  /** json.loads succeeds on every line exactly when no line is malformed. */
  lemma {:induction false} DecodeOkIff(lines: seq<Line>)
    ensures Decode(lines).Ok? <==> forall i :: 0 <= i < |lines| ==> !lines[i].Malformed?
  {
    if lines != [] {
      var init := lines[..|lines| - 1];
      DecodeOkIff(init);
      assert forall i :: 0 <= i < |init| ==> init[i] == lines[i];
    }
  }

  /** Over non-blank lines, a successful decoding yields one value per line, in order. */
  lemma {:induction false} DecodeValues(lines: seq<Line>)
    requires forall i :: 0 <= i < |lines| ==> !lines[i].Blank?
    ensures Decode(lines).Ok? ==>
      |Decode(lines).value| == |lines| &&
      forall i :: 0 <= i < |lines| ==> lines[i] == Record(Decode(lines).value[i])
  {
    if lines != [] {
      var init := lines[..|lines| - 1];
      DecodeValues(init);
      assert forall i :: 0 <= i < |init| ==> init[i] == lines[i];
    }
  }

  /** p is the first malformed line, and it carries the message e. */
  predicate FirstMalformedAt(lines: seq<Line>, p: int, e: string) {
    && 0 <= p < |lines| && lines[p] == Malformed(e)
    && forall q :: 0 <= q < p ==> !lines[q].Malformed?
  }

  /** A failed decoding reports the first malformed line. */
  lemma {:induction false} DecodeFirstFailure(lines: seq<Line>)
    requires Decode(lines).Err?
    ensures exists p :: FirstMalformedAt(lines, p, Decode(lines).error)
  {
    var init := lines[..|lines| - 1];
    assert forall q :: 0 <= q < |init| ==> lines[q] == init[q];
    if Decode(init).Err? {
      assert Decode(lines) == Decode(init);
      DecodeFirstFailure(init);
      var p :| FirstMalformedAt(init, p, Decode(init).error);
      assert FirstMalformedAt(lines, p, Decode(lines).error);
    } else {
      DecodeOkIff(init);
      assert FirstMalformedAt(lines, |lines| - 1, Decode(lines).error);
    }
  }

  /** The window is where the stream of all listed files begins. */
  lemma WindowIsPrefix(files: Files, names: seq<string>, limit: int)
    ensures IsPrefix(Window(files, names, limit), Stream(files, names))
  {
    if limit < 1 && names != [] {
      StreamPrefix(files, names, 1);
      StreamStep(files, names, 0);
      assert names[..0] == [];
    }
  }

  /**
   * The values returned are the first non-blank lines of the log, in reading
   * order: newest file first, each file from its first line on.
   */
  lemma LatestReadsInOrder(files: Files, limit: int)
    requires Latest(true, files, limit).Ok?
    ensures var logs := Latest(true, files, limit).value.logs;
      |logs| <= |Records(files)| &&
      forall i :: 0 <= i < |logs| ==> Records(files)[i] == Record(logs[i])
  {
    var all := Records(files);
    var w := Window(files, LogFileOrder(files), limit);
    assert |w| <= |all| && forall i :: 0 <= i < |w| ==> w[i] == all[i] by {
      WindowIsPrefix(files, LogFileOrder(files), limit);
    }
    var values := Decode(w).value;
    assert |values| == |w| && forall i :: 0 <= i < |w| ==> w[i] == Record(values[i]) by {
      DecodeValues(w);
    }
    assert Latest(true, files, limit).value.logs == PyPrefix(values, limit);
  }

  /**
   * With limit >= 1 the read returns min(limit, total) values and count is
   * that number.
   */
  lemma LatestCount(files: Files, limit: int)
    requires limit >= 1 && Latest(true, files, limit).Ok?
    ensures var out := Latest(true, files, limit).value;
      var total := |Records(files)|;
      |out.logs| == (if limit < total then limit else total) &&
      out.count == Some(|out.logs|) &&
      out.message == "Retrieved " + Decimal(|out.logs|) + " most recent error logs"
  {
    var w := Window(files, LogFileOrder(files), limit);
    WindowIsPrefix(files, LogFileOrder(files), limit);
    assert forall i :: 0 <= i < |w| ==> w[i] == Records(files)[i];
    DecodeValues(w);
  }

  /**
   * With limit <= 0 the loops leave the newest file after its first non-blank
   * line: nothing is returned, and count is 1 or 0 depending on that file alone.
   */
  lemma LatestNonPositiveLimit(files: Files, limit: int)
    requires limit <= 0 && Latest(true, files, limit).Ok?
    ensures var out := Latest(true, files, limit).value;
      var names := LogFileOrder(files);
      out.logs == [] &&
      out.count == Some(if names != [] && NonBlank(Lines(files, names[0])) != [] then 1 else 0)
  {
    var names := LogFileOrder(files);
    DecodeValues(Window(files, names, limit));
  }

  /**
   * With limit >= 1 the read fails exactly when one of the first limit
   * non-blank lines is malformed; lines after those are never parsed.
   */
  lemma MalformedAborts(files: Files, limit: int)
    requires limit >= 1
    ensures Latest(true, files, limit).Err? <==>
      exists p :: 0 <= p < |Records(files)| && p < limit && Records(files)[p].Malformed?
    ensures Latest(true, files, limit).Err? ==>
      Latest(true, files, limit).error.status == 500 &&
      ReadFailure <= Latest(true, files, limit).error.detail
  {
    var w := Window(files, LogFileOrder(files), limit);
    DecodeOkIff(w);
    assert forall p :: 0 <= p < |w| ==> w[p] == Records(files)[p];
  }

  /** Reading an empty directory returns nothing, with count 0. */
  lemma EmptyDirectory(limit: int)
    ensures Latest(true, map[], limit) == Ok(LatestLogs([], Some(0), "Retrieved 0 most recent error logs"))
  {
    var names := LogFileOrder(map[]);
    assert LogFileNames(map[]) == {};
    assert SetToSeq({}) == [];
    assert names == [];
    assert Window(map[], names, limit) == [];
    assert PyPrefix([], limit) == [];
    assert Decimal(0) == "0";
    assert Decode([]) == Ok([]);
    assert "Retrieved " + "0" + " most recent error logs" == "Retrieved 0 most recent error logs";
  }

  /** str(n) reads back as n, without leading zeros. */
  lemma {:induction false} DecimalRoundTrip(n: nat)
    ensures Number(Decimal(n)) == n
    ensures Decimal(n)[0] == '0' ==> n == 0
  {
    var s := Decimal(n);
    if n >= 10 {
      DecimalRoundTrip(n / 10);
      assert s[..|s| - 1] == Decimal(n / 10);
      assert s[0] == Decimal(n / 10)[0];
    }
  }

  // ---------------------------------------------------------------------
  // Append, then read back
  // ---------------------------------------------------------------------

  lemma {:induction false} StreamContains(files: Files, names: seq<string>, k: nat, x: Line)
    requires k < |names| && x in NonBlank(Lines(files, names[k]))
    ensures x in Stream(files, names)
  {
    var last := |names| - 1;
    if k < last {
      assert names[..last][k] == names[k];
      StreamContains(files, names[..last], k, x);
    }
  }

  /** A non-blank line of a "*.jsonl" file is among the lines the read-back visits. */
  lemma ListedLineVisited(files: Files, name: string, x: Line)
    requires name in files && MatchesGlob(name) && x in NonBlank(Lines(files, name))
    ensures x in Records(files)
  {
    var names := LogFileOrder(files);
    var k :| 0 <= k < |names| && names[k] == name;
    StreamContains(files, names, k, x);
  }

  /** After an append, the report's record is among the lines the read-back visits. */
  lemma AppendedRecordIsListed(files: Files, report: ErrorReport)
    requires PartitionName(report.timestamp).Some?
    ensures Record(ToRecord(report)) in Records(Appended(files, report))
  {
    var after := Appended(files, report);
    var x := Record(ToRecord(report));
    PartitionIsWrittenDate(report.timestamp);
    var name := report.timestamp[..10] + ".jsonl";
    assert name in after && MatchesGlob(name) by {
      assert name[|name| - 6..] == ".jsonl";
    }
    assert x in NonBlank(Lines(after, name)) by {
      NonBlankSnoc(Lines(files, name), x);
    }
    ListedLineVisited(after, name, x);
  }

  /**
   * A read allowed past every line of a log without malformed lines returns
   * every value, in reading order.
   */
  lemma FullReadReturnsAll(files: Files, limit: int)
    requires limit >= |Records(files)|
    requires forall p :: 0 <= p < |Records(files)| ==> !Records(files)[p].Malformed?
    ensures Latest(true, files, limit).Ok?
    ensures var logs := Latest(true, files, limit).value.logs;
      |logs| == |Records(files)| && forall p :: 0 <= p < |logs| ==> Records(files)[p] == Record(logs[p])
  {
    var all := Records(files);
    assert Window(files, LogFileOrder(files), limit) == all by {
      WindowIsPrefix(files, LogFileOrder(files), limit);
    }
    DecodeOkIff(all);
    var values := Decode(all).value;
    assert |values| == |all| && forall p :: 0 <= p < |all| ==> all[p] == Record(values[p]) by {
      DecodeValues(all);
    }
    assert Latest(true, files, limit) == Ok(Retrieved(values, limit));
  }

  /**
   * An appended report is read back: once the read is allowed past every
   * line of the log and no line is malformed, its record is among the values
   * returned.
   */
  lemma AppendedRecordIsRead(files: Files, report: ErrorReport, limit: int)
    requires PartitionName(report.timestamp).Some?
    requires limit >= |Records(Appended(files, report))|
    requires forall p :: 0 <= p < |Records(Appended(files, report))| ==> !Records(Appended(files, report))[p].Malformed?
    ensures Latest(true, Appended(files, report), limit).Ok?
    ensures ToRecord(report) in Latest(true, Appended(files, report), limit).value.logs
  {
    var after := Appended(files, report);
    AppendedRecordIsListed(files, report);
    FullReadReturnsAll(after, limit);
    var p :| 0 <= p < |Records(after)| && Records(after)[p] == Record(ToRecord(report));
    assert Latest(true, after, limit).value.logs[p] == ToRecord(report);
  }

  /** A day's file with two events and a blank line between them, and the day before's. */
  function TwoDays(morning: Json, evening: Json, dayBefore: Json): Files {
    map["2024-05-02.jsonl" := [Record(morning), Blank, Record(evening)],
        "2024-05-01.jsonl" := [Record(dayBefore)]]
  }

  lemma TwoDaysOrder(morning: Json, evening: Json, dayBefore: Json)
    ensures LogFileOrder(TwoDays(morning, evening, dayBefore)) == ["2024-05-02.jsonl", "2024-05-01.jsonl"]
  {
    var newer, older := "2024-05-02.jsonl", "2024-05-01.jsonl";
    var files := TwoDays(morning, evening, dayBefore);
    assert Descending([newer, older]) by {
      assert newer[..9] == older[..9];
      BelowAtFirstDifference(older, newer, 9);
    }
    assert MatchesGlob(newer) && MatchesGlob(older) by {
      assert newer[|newer| - 6..] == ".jsonl" && older[|older| - 6..] == ".jsonl";
    }
    assert files.Keys == {newer, older};
    DescendingUnique([newer, older], LogFileOrder(files));
  }

  lemma NonBlankSnoc(lines: seq<Line>, x: Line)
    ensures NonBlank(lines + [x]) == NonBlank(lines) + (if x.Blank? then [] else [x])
  {
    assert (lines + [x])[..|lines|] == lines;
  }

  lemma StreamSnoc(files: Files, names: seq<string>, name: string)
    ensures Stream(files, names + [name]) == Stream(files, names) + NonBlank(Lines(files, name))
  {
    assert (names + [name])[..|names|] == names;
  }

  lemma StreamOfTwo(files: Files, first: string, second: string)
    ensures Stream(files, [first, second]) == NonBlank(Lines(files, first)) + NonBlank(Lines(files, second))
  {
    var noNames: seq<string> := [];
    StreamSnoc(files, noNames, first);
    assert noNames + [first] == [first];
    StreamSnoc(files, [first], second);
    assert [first] + [second] == [first, second];
  }

  lemma NonBlankSingle(x: Line)
    requires !x.Blank?
    ensures NonBlank([x]) == [x]
  {
    assert [x][..0] == [];
  }

  lemma NonBlankOfDay(m: Line, e: Line)
    requires !m.Blank? && !e.Blank?
    ensures NonBlank([m, Blank, e]) == [m, e]
  {
    assert NonBlank([m, Blank]) == [m] by {
      NonBlankSingle(m);
      assert [m, Blank][..1] == [m];
    }
    assert [m, Blank, e][..2] == [m, Blank];
  }

  lemma TwoDaysStream(morning: Json, evening: Json, dayBefore: Json)
    ensures Stream(TwoDays(morning, evening, dayBefore), ["2024-05-02.jsonl", "2024-05-01.jsonl"])
      == [Record(morning), Record(evening), Record(dayBefore)]
  {
    var files := TwoDays(morning, evening, dayBefore);
    var newer, older := "2024-05-02.jsonl", "2024-05-01.jsonl";
    StreamOfTwo(files, newer, older);
    NonBlankOfDay(Record(morning), Record(evening));
    NonBlankSingle(Record(dayBefore));
    assert Lines(files, newer) == [Record(morning), Blank, Record(evening)];
    assert Lines(files, older) == [Record(dayBefore)];
  }

  lemma DecodeRecordStep(lines: seq<Line>, j: Json)
    requires Decode(lines).Ok?
    ensures Decode(lines + [Record(j)]) == Ok(Decode(lines).value + [j])
  {
    assert (lines + [Record(j)])[..|lines|] == lines;
  }

  lemma DecodeThree(a: Json, b: Json, c: Json)
    ensures Decode([Record(a)]) == Ok([a])
    ensures Decode([Record(a), Record(b), Record(c)]) == Ok([a, b, c])
  {
    var empty: seq<Line> := [];
    assert Decode(empty) == Ok([]);
    DecodeRecordStep(empty, a);
    assert empty + [Record(a)] == [Record(a)];
    assert Decode([Record(a)]).value == [] + [a] == [a];
    DecodeRecordStep([Record(a)], b);
    assert [Record(a)] + [Record(b)] == [Record(a), Record(b)];
    assert Decode([Record(a), Record(b)]).value == [a] + [b] == [a, b];
    DecodeRecordStep([Record(a), Record(b)], c);
    assert [Record(a), Record(b)] + [Record(c)] == [Record(a), Record(b), Record(c)];
    assert [a, b] + [c] == [a, b, c];
  }

  lemma MessageText(digits: string, text: string)
    requires |digits| == 1 && |text| == 34 && text[..10] == "Retrieved " && text[10] == digits[0]
    requires text[11..] == " most recent error logs"
    ensures "Retrieved " + digits + " most recent error logs" == text
  {
    assert text == text[..10] + [text[10]] + text[11..];
  }

  lemma RetrievedOne(a: Json)
    ensures Retrieved([a], 1) == LatestLogs([a], Some(1), "Retrieved 1 most recent error logs")
  {
    assert Decimal(1) == "1";
    MessageText("1", "Retrieved 1 most recent error logs");
  }

  lemma RetrievedThree(a: Json, b: Json, c: Json)
    ensures Retrieved([a, b, c], 3) == LatestLogs([a, b, c], Some(3), "Retrieved 3 most recent error logs")
  {
    assert Decimal(3) == "3";
    MessageText("3", "Retrieved 3 most recent error logs");
  }

  /**
   * "Latest" is not newest-first: the newest file is read from its oldest
   * line, so with limit 1 an earlier event of the newest day is returned
   * rather than its last one.
   */
  lemma NewestFileOldestLineFirst(morning: Json, evening: Json, dayBefore: Json)
    ensures Latest(true, TwoDays(morning, evening, dayBefore), 1) ==
      Ok(LatestLogs([morning], Some(1), "Retrieved 1 most recent error logs"))
  {
    var files := TwoDays(morning, evening, dayBefore);
    var window := Window(files, LogFileOrder(files), 1);
    assert window == [Record(morning)] by {
      TwoDaysOrder(morning, evening, dayBefore);
      TwoDaysStream(morning, evening, dayBefore);
      var all := [Record(morning), Record(evening), Record(dayBefore)];
      assert all[..1] == [Record(morning)];
    }
    assert ReadOutcome(window, 1) == Ok(Retrieved([morning], 1)) by {
      DecodeThree(morning, evening, dayBefore);
    }
    RetrievedOne(morning);
  }

  /** Read in full, the same log comes out as: newest day oldest first, then the day before. */
  lemma TwoDaysReadInFull(morning: Json, evening: Json, dayBefore: Json)
    ensures Latest(true, TwoDays(morning, evening, dayBefore), 3) ==
      Ok(LatestLogs([morning, evening, dayBefore], Some(3), "Retrieved 3 most recent error logs"))
  {
    var files := TwoDays(morning, evening, dayBefore);
    var window := Window(files, LogFileOrder(files), 3);
    assert window == [Record(morning), Record(evening), Record(dayBefore)] by {
      TwoDaysOrder(morning, evening, dayBefore);
      TwoDaysStream(morning, evening, dayBefore);
    }
    assert ReadOutcome(window, 3) == Ok(Retrieved([morning, evening, dayBefore], 3)) by {
      DecodeThree(morning, evening, dayBefore);
    }
    RetrievedThree(morning, evening, dayBefore);
  }
}
