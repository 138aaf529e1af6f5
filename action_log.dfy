/** services/action_logger.py, the values: log records, the text forms of the
    log files, and the specifications the logger's methods are proved against.
    The log directory is a map from file name to file text; JSON encoding and
    decoding are parameters. */
module ActionLog {
  import opened Wrappers
  import opened PyStr
  import opened Clock
  import opened Sorting

  // ---------------------------------------------------------------- records

  /** A log record as read back from a file: a field is None when its key is
      absent. Metadata values stand for their `str()` text. */
  datatype LogEntry = LogEntry(timestamp: Option<string>, action: Option<string>, status: Option<string>,
                               metadata: seq<(string, string)>)

  /** A decoded line: a JSON object, or any other JSON value. */
  datatype Json = Object(entry: LogEntry) | NonObject

  /** `entry.get(...)` works on an object and raises on any other value. */
  function AsEntry(j: Json): Result<LogEntry, Json> {
    if j.Object? then Ok(j.entry) else Err(j)
  }

  const DefaultStatus: string := "SUCCESS"

  /** The record `log_action` writes: the four keys, metadata `{}` when none. */
  function NewEntry(stamp: DateTime, action: string, status: string, metadata: seq<(string, string)>): LogEntry {
    LogEntry(Some(IsoFormat(stamp)), Some(action), Some(status), metadata)
  }

  /** `f"[{timestamp}] {status}: {action}"` */
  function ReadableLine(timestamp: string, status: string, action: string): string {
    "[" + timestamp + "] " + status + ": " + action
  }

  function LogFileName(day: string): string {
    "actions_" + day + ".log"
  }

  function ReadableFileName(day: string): string {
    "actions_" + day + "_readable.log"
  }

  // ---------------------------------------------------------------- files

  /** The text of a file, empty when it does not exist (opening for append creates it). */
  function TextOf(files: map<string, string>, name: string): string {
    if name in files then files[name] else ""
  }

  /** The directory after appending `text` to one file. */
  function Appended(files: map<string, string>, name: string, text: string): (r: map<string, string>)
    ensures r.Keys == files.Keys + {name}
    ensures r[name] == TextOf(files, name) + text
    ensures forall f :: f in files && f != name ==> r[f] == files[f]
  {
    files[name := TextOf(files, name) + text]
  }

  /** Iterating over a text file: the pieces between newlines (a final newline
      leaves an empty last piece, which is blank). */
  function FileLines(text: string): seq<string> {
    Split(text, '\n')
  }

  predicate Blank(line: string) {
    Strip(line) == ""
  }

  /** What one line contributes: nothing when blank or when `json.loads` of the
      stripped line raises (None), else its value. */
  function LineValues(decode: string -> Option<Json>, line: string): seq<Json> {
    if Blank(line) then []
    else match decode(Strip(line))
      case None => []
      case Some(j) => [j]
  }

  /** The values of the lines of a file, in file order. */
  function Decoded(decode: string -> Option<Json>, lines: seq<string>): seq<Json> {
    if lines == [] then [] else Decoded(decode, lines[..|lines| - 1]) + LineValues(decode, lines[|lines| - 1])
  }

  lemma {:induction false} DecodedAppend(decode: string -> Option<Json>, a: seq<string>, b: seq<string>)
    ensures Decoded(decode, a + b) == Decoded(decode, a) + Decoded(decode, b)
    decreases |b|
  {
    if b == [] {
      assert a + b == a;
    } else {
      var init := b[..|b| - 1];
      assert (a + b)[..|a + b| - 1] == a + init;
      assert (a + b)[|a + b| - 1] == b[|b| - 1];
      DecodedAppend(decode, a, init);
    }
  }

  /** Every decoded value comes from a non-blank line of the file. */
  lemma {:induction false} DecodedFrom(decode: string -> Option<Json>, lines: seq<string>, j: Json)
    requires j in Decoded(decode, lines)
    ensures exists line :: line in lines && !Blank(line) && decode(Strip(line)) == Some(j)
  {
    var init := lines[..|lines| - 1];
    var line := lines[|lines| - 1];
    assert Decoded(decode, lines) == Decoded(decode, init) + LineValues(decode, line);
    if j in Decoded(decode, init) {
      DecodedFrom(decode, init, j);
      var l :| l in init && !Blank(l) && decode(Strip(l)) == Some(j);
      assert l in lines;
    } else {
      assert line in lines;
    }
  }

  /** What the JSON encoder and decoder do to records: one line each, with
      nothing to strip, read back as the same object. */
  ghost predicate RoundTrips(encode: LogEntry -> string, decode: string -> Option<Json>) {
    forall e :: && '\n' !in encode(e) && encode(e) != "" && Strip(encode(e)) == encode(e)
                && decode(encode(e)) == Some(Object(e))
  }

  /** A file that is empty or ends with a newline. */
  predicate Terminated(text: string) {
    text == "" || text[|text| - 1] == '\n'
  }

  /** Appending a line to a terminated file adds exactly that line; the empty
      piece after the final newline stays last. */
  lemma AppendLine(text: string, line: string)
    requires Terminated(text) && '\n' !in line
    ensures var lines := FileLines(text);
      && lines[|lines| - 1] == ""
      && FileLines(text + line + "\n") == lines[..|lines| - 1] + [line, ""]
  {
    SplitWhole(line, '\n');
    SplitWhole("", '\n');
    SplitAround(line, "", '\n');
    assert line + "\n" == line + ['\n'] + "";
    assert Split(line + ['\n'] + "", '\n') == [line, ""];
    if text != "" {
      var t := text[..|text| - 1];
      assert text == t + ['\n'] + "";
      SplitAround(t, "", '\n');
      var lines := FileLines(text);
      assert lines == Split(t, '\n') + [""];
      assert lines[..|lines| - 1] == Split(t, '\n');
      assert text + line + "\n" == t + ['\n'] + (line + ['\n'] + "");
      SplitAround(t, line + ['\n'] + "", '\n');
      assert FileLines(text + line + "\n") == Split(t, '\n') + [line, ""];
    } else {
      assert text + line + "\n" == line + ['\n'] + "";
    }
  }

  /** After a line of one value is appended to a terminated file, the file
      decodes to what it did before followed by that value, and is still terminated. */
  lemma AppendDecoded(decode: string -> Option<Json>, text: string, line: string, j: Json)
    requires Terminated(text) && '\n' !in line && line != "" && Strip(line) == line && decode(line) == Some(j)
    ensures Terminated(text + line + "\n")
    ensures Decoded(decode, FileLines(text + line + "\n")) == Decoded(decode, FileLines(text)) + [j]
  {
    AppendLine(text, line);
    LineFacts(decode, line, j);
    DecodedLast(decode, FileLines(text), line, j);
  }

  lemma DecodedLast(decode: string -> Option<Json>, lines: seq<string>, line: string, j: Json)
    requires lines != [] && lines[|lines| - 1] == ""
    requires LineValues(decode, "") == [] && LineValues(decode, line) == [j]
    ensures Decoded(decode, lines[..|lines| - 1] + [line, ""]) == Decoded(decode, lines) + [j]
  {
    LastParts(lines);
    DecodedPair(decode, lines[..|lines| - 1], line, "");
  }

  lemma DecodedPair(decode: string -> Option<Json>, front: seq<string>, a: string, b: string)
    ensures Decoded(decode, front + [b]) == Decoded(decode, front) + LineValues(decode, b)
    ensures Decoded(decode, front + [a, b]) == Decoded(decode, front) + LineValues(decode, a) + LineValues(decode, b)
  {
    SnocParts(front, a, b);
    DecodedSnoc(decode, front, b);
    DecodedSnoc(decode, front + [a], b);
    DecodedSnoc(decode, front, a);
  }

  lemma LastParts<T>(xs: seq<T>)
    requires xs != []
    ensures xs == xs[..|xs| - 1] + [xs[|xs| - 1]]
  {
  }

  lemma PrefixSnoc<T>(xs: seq<T>, i: int)
    requires 0 <= i < |xs|
    ensures xs[..i + 1] == xs[..i] + [xs[i]]
  {
  }

  lemma SnocParts<T>(front: seq<T>, a: T, b: T)
    ensures front + [a, b] == front + [a] + [b]
  {
  }

  lemma DecodedSnoc(decode: string -> Option<Json>, front: seq<string>, line: string)
    ensures Decoded(decode, front + [line]) == Decoded(decode, front) + LineValues(decode, line)
  {
    assert (front + [line])[..|front|] == front;
  }

  lemma LineFacts(decode: string -> Option<Json>, line: string, j: Json)
    requires line != "" && Strip(line) == line && decode(line) == Some(j)
    ensures LineValues(decode, "") == [] && LineValues(decode, line) == [j]
  {
    BlankEmpty();
    assert !Blank(line);
  }

  lemma BlankEmpty()
    ensures Blank("")
  {
  }

  // ---------------------------------------------------------------- get_logs

  function TimestampKey(e: LogEntry): string {
    e.timestamp.GetOr("")
  }

  /** Python's `xs[:n]`: a negative bound counts from the end. */
  function Slice<T>(xs: seq<T>, n: int): (r: seq<T>)
    ensures |r| <= |xs| && r == xs[..|r|]
    ensures n >= 0 ==> |r| == if n < |xs| then n else |xs|
    ensures n < 0 ==> |r| == if |xs| + n > 0 then |xs| + n else 0
  {
    if n >= 0 then (if n < |xs| then xs[..n] else xs)
    else if |xs| + n > 0 then xs[..|xs| + n] else []
  }

  /** `if limit: entries = entries[:limit]` */
  function Limited<T>(xs: seq<T>, limit: Option<int>): (r: seq<T>)
    ensures |r| <= |xs| && r == xs[..|r|]
    ensures limit.None? || limit.value == 0 ==> r == xs
    ensures limit.Some? && limit.value > 0 ==> |r| <= limit.value
  {
    if limit.Some? && limit.value != 0 then Slice(xs, limit.value) else xs
  }

  /** The file `get_logs` reads: the given day's, or the logger's current file. */
  function LogsFile(current: string, date: Option<string>): string {
    if Truthy(date) then LogFileName(date.value) else current
  }

  /** The result of `get_logs(date, limit)`: no file gives nothing, a line that
      decodes to something other than an object gives nothing (its `.get`
      raises), and otherwise the records, newest first, cut at the limit. */
  function LogsOf(files: map<string, string>, current: string, decode: string -> Option<Json>,
                  date: Option<string>, limit: Option<int>): seq<LogEntry> {
    var name := LogsFile(current, date);
    if name !in files then []
    else
      match Traverse(AsEntry, Decoded(decode, FileLines(files[name])))
      case Err(_) => []
      case Ok(entries) => Limited(SortDesc(TimestampKey, entries), limit)
  }

  /** `get_logs` on a file that exists: its records, newest first, limited. */
  lemma LogsOfFile(files: map<string, string>, current: string, decode: string -> Option<Json>,
                   date: Option<string>, limit: Option<int>)
    requires LogsFile(current, date) in files
    ensures var t := Traverse(AsEntry, Decoded(decode, FileLines(files[LogsFile(current, date)])));
      LogsOf(files, current, decode, date, limit)
      == if t.Err? then [] else Limited(SortDesc(TimestampKey, t.value), limit)
  {
  }

  /** The records are in descending timestamp order, a missing timestamp counting
      as the empty text, and there are no more of them than a positive limit. */
  lemma LogsNewestFirst(files: map<string, string>, current: string, decode: string -> Option<Json>,
                        date: Option<string>, limit: Option<int>)
    ensures Descending(TimestampKey, LogsOf(files, current, decode, date, limit))
    ensures limit.Some? && limit.value > 0 ==> |LogsOf(files, current, decode, date, limit)| <= limit.value
  {
    var name := LogsFile(current, date);
    if name in files {
      var t := Traverse(AsEntry, Decoded(decode, FileLines(files[name])));
      if t.Ok? {
        var sorted := SortDesc(TimestampKey, t.value);
        SortDescending(TimestampKey, t.value);
        var r := Limited(sorted, limit);
        assert forall i :: 0 <= i < |r| ==> r[i] == sorted[i];
      }
    }
  }

  /** A missing file gives nothing; a limit of None or 0 keeps every record, and
      a positive one keeps that many of the newest. */
  lemma LogsLimited(files: map<string, string>, current: string, decode: string -> Option<Json>,
                    date: Option<string>, limit: Option<int>)
    ensures LogsFile(current, date) !in files ==> LogsOf(files, current, decode, date, limit) == []
    ensures limit.None? || limit.value == 0 ==>
      LogsOf(files, current, decode, date, limit) == LogsOf(files, current, decode, date, None)
    ensures limit.Some? && limit.value > 0 ==>
      var all := LogsOf(files, current, decode, date, None);
      LogsOf(files, current, decode, date, limit) == all[..if limit.value < |all| then limit.value else |all|]
  {
  }

  /** One value that is not an object empties the result of `get_logs`. */
  lemma LogsNonObject(files: map<string, string>, current: string, decode: string -> Option<Json>,
                      date: Option<string>, limit: Option<int>)
    requires LogsFile(current, date) in files
    requires NonObject in Decoded(decode, FileLines(files[LogsFile(current, date)]))
    ensures LogsOf(files, current, decode, date, limit) == []
  {
    var js := Decoded(decode, FileLines(files[LogsFile(current, date)]));
    var k :| 0 <= k < |js| && js[k] == NonObject;
    TraverseFails(AsEntry, js, k);
    LogsOfFile(files, current, decode, date, limit);
  }

  /** Without a limit, a file whose values are all objects gives back exactly its
      records. */
  lemma LogsAllObjects(files: map<string, string>, current: string, decode: string -> Option<Json>,
                       date: Option<string>)
    requires LogsFile(current, date) in files
    requires NonObject !in Decoded(decode, FileLines(files[LogsFile(current, date)]))
    ensures var js := Decoded(decode, FileLines(files[LogsFile(current, date)]));
      forall e :: e in LogsOf(files, current, decode, date, None) <==> Object(e) in js
  {
    var js := Decoded(decode, FileLines(files[LogsFile(current, date)]));
    ObjectsTraverse(js);
    var entries := Traverse(AsEntry, js).value;
    var sorted := SortDesc(TimestampKey, entries);
    assert forall e :: e in sorted <==> e in multiset(entries);
  }

  /** A traversal of objects succeeds with their records. */
  lemma {:induction false} ObjectsTraverse(js: seq<Json>)
    requires NonObject !in js
    ensures Traverse(AsEntry, js).Ok?
    ensures forall e :: e in Traverse(AsEntry, js).value <==> Object(e) in js
  {
    if js != [] {
      var init := js[..|js| - 1];
      var last := js[|js| - 1];
      assert forall x :: x in init ==> x in js;
      ObjectsTraverse(init);
      assert js == init + [last];
    }
  }

  /** Each record returned comes from a non-blank line of the file. */
  lemma LogsFromLines(files: map<string, string>, current: string, decode: string -> Option<Json>,
                      date: Option<string>, limit: Option<int>, e: LogEntry)
    requires e in LogsOf(files, current, decode, date, limit)
    ensures LogsFile(current, date) in files
    ensures exists line :: line in FileLines(files[LogsFile(current, date)]) && !Blank(line)
                           && decode(Strip(line)) == Some(Object(e))
  {
    var lines := FileLines(files[LogsFile(current, date)]);
    var js := Decoded(decode, lines);
    var entries := Traverse(AsEntry, js).value;
    InLimited(SortDesc(TimestampKey, entries), limit, e);
    InSorted(TimestampKey, entries, e);
    EntryFrom(js, e);
    DecodedFrom(decode, lines, Object(e));
  }

  lemma InLimited<T>(xs: seq<T>, limit: Option<int>, x: T)
    requires x in Limited(xs, limit)
    ensures x in xs
  {
    var r := Limited(xs, limit);
    var i :| 0 <= i < |r| && r[i] == x;
    assert xs[i] == x;
  }

  lemma InSorted<T>(key: T -> string, xs: seq<T>, x: T)
    requires x in SortDesc(key, xs)
    ensures x in xs
  {
    assert x in multiset(SortDesc(key, xs));
  }

  /** Every record read comes from an object among the values. */
  lemma EntryFrom(js: seq<Json>, e: LogEntry)
    requires Traverse(AsEntry, js).Ok? && e in Traverse(AsEntry, js).value
    ensures Object(e) in js
  {
    var entries := Traverse(AsEntry, js).value;
    TraverseOk(AsEntry, js);
    var k :| 0 <= k < |entries| && entries[k] == e;
    assert AsEntry(js[k]) == Ok(e);
  }

  /** The current file read as text, an absent one as empty: when its values are
      all objects, `get_logs()` without a limit returns exactly its records. */
  lemma LogsOfText(files: map<string, string>, current: string, decode: string -> Option<Json>)
    requires NonObject !in Decoded(decode, FileLines(TextOf(files, current)))
    ensures forall x :: x in LogsOf(files, current, decode, None, None)
                        <==> Object(x) in Decoded(decode, FileLines(TextOf(files, current)))
  {
    if current in files {
      LogsAllObjects(files, current, decode, None);
    } else {
      SplitWhole("", '\n');
      BlankEmpty();
      assert Decoded(decode, [""]) == Decoded(decode, []) + LineValues(decode, "");
    }
  }

  /** The two files `log_action` writes, when they are two. */
  lemma LoggedTexts(files: map<string, string>, current: string, readableName: string, text: string, line: string)
    requires readableName != current
    ensures var after := Appended(Appended(files, current, line + "\n"), readableName, text);
      && current in after && TextOf(after, current) == TextOf(files, current) + line + "\n"
      && after[readableName] == TextOf(files, readableName) + text
  {
    var before := TextOf(files, current);
    assert before + (line + "\n") == before + line + "\n";
  }

  /** A record's line, as the round-trip assumption describes it. */
  lemma RecordLine(encode: LogEntry -> string, decode: string -> Option<Json>, e: LogEntry)
    requires RoundTrips(encode, decode)
    ensures '\n' !in encode(e) && encode(e) != "" && Strip(encode(e)) == encode(e)
    ensures decode(encode(e)) == Some(Object(e))
  {
  }

  /** Logging an action makes `get_logs()` return its record besides the ones it
      returned before, when the current file ends with a newline and holds only
      objects, and the readable log is another file. */
  lemma LoggedThenListed(files: map<string, string>, current: string, readableName: string, text: string,
                         encode: LogEntry -> string, decode: string -> Option<Json>, e: LogEntry)
    requires RoundTrips(encode, decode) && readableName != current
    requires Terminated(TextOf(files, current))
    requires NonObject !in Decoded(decode, FileLines(TextOf(files, current)))
    ensures var after := Appended(Appended(files, current, encode(e) + "\n"), readableName, text);
      forall x :: x in LogsOf(after, current, decode, None, None)
                  <==> x == e || x in LogsOf(files, current, decode, None, None)
  {
    var after := Appended(Appended(files, current, encode(e) + "\n"), readableName, text);
    var before := TextOf(files, current);
    LoggedTexts(files, current, readableName, text, encode(e));
    RecordLine(encode, decode, e);
    AppendDecoded(decode, before, encode(e), Object(e));
    LogsOfText(files, current, decode);
    LogsOfText(after, current, decode);
  }

  // ---------------------------------------------------------------- get_log_statistics

  /** `get_log_statistics()` */
  datatype Stats = Stats(totalActions: nat, successCount: nat, errorCount: nat,
                         recentActions: seq<LogEntry>, actionTypes: seq<(string, nat)>)

  function StatusOf(e: LogEntry): string {
    e.status.GetOr("UNKNOWN")
  }

  predicate Succeeded(e: LogEntry) {
    StatusOf(e) == "SUCCESS"
  }

  predicate Failed(e: LogEntry) {
    StatusOf(e) == "ERROR"
  }

  /** The word before the first space of the action; "Unknown" for an empty or
      missing action. */
  function ActionType(e: LogEntry): string {
    var action := e.action.GetOr("Unknown");
    if action == "" then "Unknown" else Split(action, ' ')[0]
  }

  /** `counts[t] = counts.get(t, 0) + 1` on a dict kept in insertion order. */
  function Bump(counts: seq<(string, nat)>, t: string): (r: seq<(string, nat)>)
    ensures |r| == |counts| || |r| == |counts| + 1
  {
    if counts == [] then [(t, 1)]
    else if counts[0].0 == t then [(t, counts[0].1 + 1)] + counts[1..]
    else [counts[0]] + Bump(counts[1..], t)
  }

  /** The action-type counts of the records, in first-appearance order. */
  function TypeCounts(logs: seq<LogEntry>): seq<(string, nat)> {
    if logs == [] then [] else Bump(TypeCounts(logs[..|logs| - 1]), ActionType(logs[|logs| - 1]))
  }

  function Total(counts: seq<(string, nat)>): nat {
    if counts == [] then 0 else counts[0].1 + Total(counts[1..])
  }

  /** The count of a type, 0 when it has none. */
  function Lookup(counts: seq<(string, nat)>, t: string): nat {
    if counts == [] then 0
    else if counts[0].0 == t then counts[0].1
    else Lookup(counts[1..], t)
  }

  function StatsOf(logs: seq<LogEntry>): Stats {
    Stats(|logs|, |Filter(Succeeded, logs)|, |Filter(Failed, logs)|,
          logs[..if |logs| < 5 then |logs| else 5], TypeCounts(logs))
  }

  lemma {:induction false} BumpTotal(counts: seq<(string, nat)>, t: string)
    ensures Total(Bump(counts, t)) == Total(counts) + 1
  {
    if counts != [] && counts[0].0 != t {
      BumpTotal(counts[1..], t);
    }
  }

  lemma {:induction false} BumpLookup(counts: seq<(string, nat)>, t: string, u: string)
    ensures Lookup(Bump(counts, t), u) == Lookup(counts, u) + (if u == t then 1 else 0)
  {
    if counts != [] && counts[0].0 != t {
      BumpLookup(counts[1..], t, u);
    }
  }

  /** The action-type counts add up to the number of records. */
  lemma {:induction false} TypeCountsTotal(logs: seq<LogEntry>)
    ensures Total(TypeCounts(logs)) == |logs|
  {
    if logs != [] {
      TypeCountsTotal(logs[..|logs| - 1]);
      BumpTotal(TypeCounts(logs[..|logs| - 1]), ActionType(logs[|logs| - 1]));
    }
  }

  function OfType(t: string): LogEntry -> bool {
    e => ActionType(e) == t
  }

  /** The count of each type is the number of records of that type. */
  lemma {:induction false} TypeCountsLookup(logs: seq<LogEntry>, t: string)
    ensures Lookup(TypeCounts(logs), t) == |Filter(OfType(t), logs)|
  {
    if logs != [] {
      TypeCountsLookup(logs[..|logs| - 1], t);
      BumpLookup(TypeCounts(logs[..|logs| - 1]), ActionType(logs[|logs| - 1]), t);
    }
  }

  lemma TypeCountsSnoc(logs: seq<LogEntry>, e: LogEntry)
    ensures TypeCounts(logs + [e]) == Bump(TypeCounts(logs), ActionType(e))
  {
    assert (logs + [e])[..|logs|] == logs;
  }

  /** What one more record adds to each running tally of the statistics. */
  lemma StatsStep(logs: seq<LogEntry>, i: nat)
    requires i < |logs|
    ensures var e := logs[i];
      && |Filter(Succeeded, logs[..i + 1])| == |Filter(Succeeded, logs[..i])| + (if StatusOf(e) == "SUCCESS" then 1 else 0)
      && |Filter(Failed, logs[..i + 1])| == |Filter(Failed, logs[..i])| + (if StatusOf(e) == "ERROR" then 1 else 0)
      && TypeCounts(logs[..i + 1]) == Bump(TypeCounts(logs[..i]), ActionType(e))
  {
    PrefixSnoc(logs, i);
    FilterSnoc(Succeeded, logs[..i], logs[i]);
    FilterSnoc(Failed, logs[..i], logs[i]);
    TypeCountsSnoc(logs[..i], logs[i]);
  }

  /** The action types of the records, in order. */
  function ActionTypes(logs: seq<LogEntry>): seq<string> {
    if logs == [] then [] else ActionTypes(logs[..|logs| - 1]) + [ActionType(logs[|logs| - 1])]
  }

  /** A bump adds a key only when it is new, at the end. */
  lemma {:induction false} BumpKeys(counts: seq<(string, nat)>, t: string)
    ensures Keys(Bump(counts, t)) == if t in Keys(counts) then Keys(counts) else Keys(counts) + [t]
  {
    if counts != [] {
      var rest := counts[1..];
      assert counts == [counts[0]] + rest;
      KeysCons(counts[0], rest);
      if counts[0].0 == t {
        KeysCons((t, counts[0].1 + 1), rest);
      } else {
        BumpKeys(rest, t);
        KeysCons(counts[0], Bump(rest, t));
      }
    }
  }

  /** The type counts are keyed by the distinct action types, in the order they
      first appear. */
  lemma {:induction false} TypeCountsKeys(logs: seq<LogEntry>)
    ensures Keys(TypeCounts(logs)) == Dedup(ActionTypes(logs))
  {
    if logs != [] {
      var init := logs[..|logs| - 1];
      TypeCountsKeys(init);
      BumpKeys(TypeCounts(init), ActionType(logs[|logs| - 1]));
      var types := ActionTypes(logs);
      assert types[..|types| - 1] == ActionTypes(init);
    }
  }

  /** No status is both; other statuses are counted in neither. */
  lemma {:induction false} StatusCounts(logs: seq<LogEntry>)
    ensures |Filter(Succeeded, logs)| + |Filter(Failed, logs)| <= |logs|
  {
    if logs != [] {
      StatusCounts(logs[..|logs| - 1]);
    }
  }

  /** The statistics of the current file: at most 100 records, success and error
      counts within the total, type counts adding up to it, and the five newest
      records first. */
  lemma StatsFacts(files: map<string, string>, current: string, decode: string -> Option<Json>)
    ensures var logs := LogsOf(files, current, decode, None, Some(100));
      var s := StatsOf(logs);
      && s.totalActions <= 100
      && s.successCount + s.errorCount <= s.totalActions
      && Total(s.actionTypes) == s.totalActions
      && |s.recentActions| <= 5 && s.recentActions == logs[..|s.recentActions|]
  {
    var logs := LogsOf(files, current, decode, None, Some(100));
    LogsNewestFirst(files, current, decode, None, Some(100));
    StatusCounts(logs);
    TypeCountsTotal(logs);
  }

  // ---------------------------------------------------------------- get_log_file_content

  function Rule(): string {
    seq(50, _ => '=')
  }

  /** The three lines that open a readable log. */
  function Header(filename: string): seq<string> {
    ["Action Log - " + filename, Rule(), ""]
  }

  /** `f"  {key}: {value}"` for each metadata item. */
  function MetadataLines(metadata: seq<(string, string)>): seq<string> {
    seq(|metadata|, k requires 0 <= k < |metadata| => "  " + metadata[k].0 + ": " + metadata[k].1)
  }

  /** The lines written for one record: its line with the defaults of absent
      keys, then its metadata and an empty line when it has any. */
  function EntryBlock(e: LogEntry): seq<string> {
    [ReadableLine(e.timestamp.GetOr("Unknown"), e.status.GetOr("UNKNOWN"), e.action.GetOr("Unknown action"))]
    + (if e.metadata == [] then [] else MetadataLines(e.metadata) + [""])
  }

  /** The lines of the readable text of a decoded file; None when a value is not
      an object. */
  function ContentLines(filename: string, js: seq<Json>): Option<seq<string>> {
    match Traverse(AsEntry, js)
    case Err(_) => None
    case Ok(entries) => Some(Header(filename) + Concat(EntryBlock, entries))
  }

  /** The result of `get_log_file_content(filename)`. */
  function ContentOf(files: map<string, string>, decode: string -> Option<Json>, filename: string): Option<string> {
    if filename !in files then None
    else
      match ContentLines(filename, Decoded(decode, FileLines(files[filename])))
      case None => None
      case Some(lines) => Some(Join(lines, "\n"))
  }

  /** A record written by `log_action` is shown with the very line written to
      the readable log beside it. */
  lemma ReadableAgrees(stamp: DateTime, action: string, status: string)
    ensures EntryBlock(NewEntry(stamp, action, status, [])) == [ReadableLine(IsoFormat(stamp), status, action)]
  {
  }

  /** The readable text of a file starts with the header alone and grows by one
      block per object; a value that is not an object spoils it. */
  lemma ContentStep(filename: string, js: seq<Json>, j: Json)
    ensures ContentLines(filename, []) == Some(Header(filename))
    ensures ContentLines(filename, js + [j])
      == if j.Object? && ContentLines(filename, js).Some?
         then Some(ContentLines(filename, js).value + EntryBlock(j.entry))
         else None
  {
    assert Header(filename) + [] == Header(filename);
    var all := js + [j];
    assert all[..|all| - 1] == js && all[|all| - 1] == j;
    var t := Traverse(AsEntry, js);
    if t.Ok? && j.Object? {
      var rs := t.value + [j.entry];
      assert Traverse(AsEntry, all) == Ok(rs);
      assert rs[..|rs| - 1] == t.value;
      assert Concat(EntryBlock, rs) == Concat(EntryBlock, t.value) + EntryBlock(j.entry);
      assert Header(filename) + Concat(EntryBlock, rs)
          == Header(filename) + Concat(EntryBlock, t.value) + EntryBlock(j.entry);
    }
  }

  /** Once the values read so far spoil the readable text, the rest of the file
      cannot mend it. */
  lemma ContentNoneAfter(filename: string, decode: string -> Option<Json>, lines: seq<string>, i: nat)
    requires i <= |lines| && ContentLines(filename, Decoded(decode, lines[..i])).None?
    ensures ContentLines(filename, Decoded(decode, lines)).None?
  {
    assert lines == lines[..i] + lines[i..];
    DecodedAppend(decode, lines[..i], lines[i..]);
    var all := Decoded(decode, lines);
    var front := Decoded(decode, lines[..i]);
    assert all[..|front|] == front;
    TraverseSticky(AsEntry, all, |front|);
  }

  /** One more line of the file: its value, if any, extends or spoils the readable text. */
  lemma ContentLineStep(filename: string, decode: string -> Option<Json>, lines: seq<string>, i: nat)
    requires i < |lines|
    ensures var was := ContentLines(filename, Decoded(decode, lines[..i]));
      var parsed := decode(Strip(lines[i]));
      ContentLines(filename, Decoded(decode, lines[..i + 1]))
        == if Blank(lines[i]) || parsed.None? then was
           else if parsed.value.NonObject? || was.None? then None
           else Some(was.value + EntryBlock(parsed.value.entry))
  {
    DecodedLineStep(decode, lines, i);
    var parsed := decode(Strip(lines[i]));
    var before := Decoded(decode, lines[..i]);
    if !Blank(lines[i]) && parsed.Some? {
      assert LineValues(decode, lines[i]) == [parsed.value];
      ContentStep(filename, before, parsed.value);
    } else {
      assert LineValues(decode, lines[i]) == [];
      assert before + [] == before;
    }
  }

  lemma DecodedLineStep(decode: string -> Option<Json>, lines: seq<string>, i: nat)
    requires i < |lines|
    ensures Decoded(decode, lines[..i + 1]) == Decoded(decode, lines[..i]) + LineValues(decode, lines[i])
  {
    PrefixSnoc(lines, i);
    DecodedSnoc(decode, lines[..i], lines[i]);
  }

  /** Logging an action adds its block to the readable text of the current file,
      when that file ends with a newline and the readable log is another file. */
  lemma LoggedThenShown(files: map<string, string>, current: string, readableName: string, text: string,
                        encode: LogEntry -> string, decode: string -> Option<Json>, e: LogEntry)
    requires RoundTrips(encode, decode) && readableName != current
    requires Terminated(TextOf(files, current))
    ensures var after := Appended(Appended(files, current, encode(e) + "\n"), readableName, text);
      var was := ContentLines(current, Decoded(decode, FileLines(TextOf(files, current))));
      && ContentLines(current, Decoded(decode, FileLines(after[current])))
           == (if was.Some? then Some(was.value + EntryBlock(e)) else None)
      && after[readableName] == TextOf(files, readableName) + text
  {
    var before := TextOf(files, current);
    LoggedTexts(files, current, readableName, text, encode(e));
    RecordLine(encode, decode, e);
    AppendDecoded(decode, before, encode(e), Object(e));
    ContentStep(current, Decoded(decode, FileLines(before)), Object(e));
  }

  // ---------------------------------------------------------------- cleanup_old_logs

  /** The names `glob('actions_*.log')` matches. */
  predicate Globbed(name: string) {
    |name| >= 12 && StartsWith(name, "actions_") && EndsWith(name, ".log")
  }

  /** `Path(name).stem` for a name ending in ".log". */
  function Stem(name: string): string
    requires EndsWith(name, ".log")
  {
    name[..|name| - 4]
  }

  /** `stem.replace('actions_', '').replace('_readable', '')` */
  function DateOfName(name: string): string
    requires EndsWith(name, ".log")
  {
    ReplaceAll(ReplaceAll(Stem(name), "actions_", ""), "_readable", "")
  }

  /** A log file `cleanup_old_logs(cutoff)` deletes: its name yields ten
      characters that parse as a date, and that day's midnight is before the cutoff. */
  predicate Expired(name: string, cutoff: DateTime) {
    && Globbed(name)
    && var d := DateOfName(name);
       |d| == 10 && ParseDate(d).Some? && Earlier(ParseDate(d).value, cutoff)
  }

  /** What is left: every file but the expired logs. */
  function Kept(files: map<string, string>, cutoff: DateTime): (r: map<string, string>)
    ensures r.Keys <= files.Keys
    ensures forall f :: f in files ==> (f in r <==> !Expired(f, cutoff))
  {
    map f | f in files && !Expired(f, cutoff) :: files[f]
  }

  /** The directory part way through the cleanup: the expired logs no longer
      pending are gone. */
  ghost function Pruned(start: map<string, string>, pending: set<string>, cutoff: DateTime): map<string, string> {
    map f | f in start && !(f !in pending && Expired(f, cutoff)) :: start[f]
  }

  /** With every log still pending, nothing is gone yet. */
  lemma PrunedStart(start: map<string, string>, pending: set<string>, cutoff: DateTime)
    requires forall n :: n in start && Globbed(n) ==> n in pending
    ensures Pruned(start, pending, cutoff) == start
  {
  }

  /** Looking at one more log removes it exactly when it has expired. */
  lemma PrunedStep(start: map<string, string>, pending: set<string>, n: string, cutoff: DateTime)
    requires n in pending
    ensures var before := Pruned(start, pending, cutoff);
      Pruned(start, pending - {n}, cutoff)
      == if Expired(n, cutoff) then map f | f in before && f != n :: before[f] else before
  {
  }

  /** With nothing pending, what is left is what the cleanup keeps. */
  lemma PrunedEnd(start: map<string, string>, cutoff: DateTime)
    ensures Pruned(start, {}, cutoff) == Kept(start, cutoff)
  {
  }

  /** Removing expired logs twice removes nothing more. */
  lemma KeptIdempotent(files: map<string, string>, cutoff: DateTime)
    ensures Kept(Kept(files, cutoff), cutoff) == Kept(files, cutoff)
  {
  }

  lemma {:induction false} ReplaceAbsentText(s: string, pat: string, rep: string)
    requires pat != [] && pat[0] !in s
    ensures ReplaceAll(s, pat, rep) == s
    decreases |s|
  {
    if |s| >= |pat| {
      assert s[..|pat|][0] == s[0];
      ReplaceAbsentText(s[1..], pat, rep);
      assert [s[0]] + s[1..] == s;
    }
  }

  lemma {:induction false} ReplaceAfterPlain(a: string, b: string, pat: string, rep: string)
    requires pat != [] && pat[0] !in a
    ensures ReplaceAll(a + b, pat, rep) == a + ReplaceAll(b, pat, rep)
    decreases |a|
  {
    if a != [] {
      var s := a + b;
      if |s| >= |pat| {
        assert s[..|pat|][0] == a[0];
      }
      assert s[1..] == a[1..] + b;
      ReplaceAfterPlain(a[1..], b, pat, rep);
    } else {
      assert a + b == b;
    }
  }

  lemma ReplaceFront(pat: string, b: string, rep: string)
    requires pat != []
    ensures ReplaceAll(pat + b, pat, rep) == rep + ReplaceAll(b, pat, rep)
  {
    assert (pat + b)[..|pat|] == pat && (pat + b)[|pat|..] == b;
  }

  /** A date text is digits and dashes. */
  lemma DatePlain(t: DateTime)
    ensures 'a' !in DateText(t) && '_' !in DateText(t)
  {
    var y, m, dd := ZeroPad(t.year, 4), ZeroPad(t.month, 2), ZeroPad(t.day, 2);
    assert DateText(t) == y + "-" + m + "-" + dd;
    assert 'a' !in y && '_' !in y && 'a' !in m && '_' !in m && 'a' !in dd && '_' !in dd;
  }

  /** The date a day's JSON log name yields. */
  lemma DateOfLogName(d: string)
    requires 'a' !in d && '_' !in d
    ensures DateOfName(LogFileName(d)) == d
  {
    assert Stem(LogFileName(d)) == "actions_" + d;
    ReplaceFront("actions_", d, "");
    ReplaceAbsentText(d, "actions_", "");
    ReplaceAbsentText(d, "_readable", "");
    assert "" + d == d;
  }

  /** The date a day's readable log name yields: the same. */
  lemma DateOfReadableName(d: string)
    requires 'a' !in d && '_' !in d
    ensures DateOfName(ReadableFileName(d)) == d
  {
    assert Stem(ReadableFileName(d)) == "actions_" + (d + "_readable");
    ReplaceFront("actions_", d + "_readable", "");
    ReplaceAfterPlain(d, "_readable", "actions_", "");
    assert ReplaceAll("_readable", "actions_", "") == "_readable";
    assert "" + (d + "_readable") == d + "_readable";
    ReplaceAfterPlain(d, "_readable", "_readable", "");
    ReplaceFront("_readable", "", "");
    assert "_readable" + "" == "_readable";
    assert ReplaceAll("", "_readable", "") == "";
    assert d + "" == d;
  }

  /** The logs of a day are deleted, JSON and readable together, exactly when
      that day began before the cutoff. */
  lemma ExpiredDated(t: DateTime, cutoff: DateTime)
    requires t.Valid()
    ensures Expired(LogFileName(DateText(t)), cutoff) <==> Earlier(t.Midnight(), cutoff)
    ensures Expired(ReadableFileName(DateText(t)), cutoff) <==> Earlier(t.Midnight(), cutoff)
  {
    var d := DateText(t);
    DatePlain(t);
    DateOfLogName(d);
    DateOfReadableName(d);
    ParseDateText(t);
    assert Globbed(LogFileName(d)) && Globbed(ReadableFileName(d)) by {
      assert LogFileName(d)[..8] == "actions_" && ReadableFileName(d)[..8] == "actions_";
    }
  }

  /** A name without a ten-character date, such as a log of a free-form name, is
      never deleted. */
  lemma ExpiredNeedsDate(name: string, cutoff: DateTime)
    requires EndsWith(name, ".log") && |DateOfName(name)| != 10
    ensures !Expired(name, cutoff)
  {
  }

  // ---------------------------------------------------------------- get_all_log_files

  /** The names `get_all_log_files` lists: JSON logs, not their readable twins. */
  predicate Listed(name: string) {
    Globbed(name) && !EndsWith(name, "_readable.log")
  }

  /** Each name once, in strictly descending order. */
  predicate StrictlyDescending(names: seq<string>) {
    forall i, j :: 0 <= i < j < |names| ==> LexLess(names[j], names[i])
  }

  /** The listing is determined by the directory: any two strictly descending
      lists of its log names are the same list. */
  lemma ListingUnique(files: map<string, string>, a: seq<string>, b: seq<string>)
    requires StrictlyDescending(a) && StrictlyDescending(b)
    requires forall n :: n in a <==> n in files && Listed(n)
    requires forall n :: n in b <==> n in files && Listed(n)
    ensures a == b
  {
    StrictlyDescendingUnique(a, b);
  }

  /** A readable log never appears in the listing; the JSON log of a day does. */
  lemma ListedNames(t: DateTime)
    requires t.Valid()
    ensures !Listed(ReadableFileName(DateText(t)))
    ensures Listed(LogFileName(DateText(t)))
  {
    var day := DateText(t);
    ParseDateText(t);
    DatePlain(t);
    var r := ReadableFileName(day);
    assert r[|r| - 13..] == "_readable.log";
    var l := LogFileName(day);
    assert l[..8] == "actions_" && l[|l| - 4..] == ".log";
    assert l[|l| - 13] == day[1] && day[1] in day;
    assert l[|l| - 13..][0] != '_';
  }

  predicate Distinct<T(==)>(xs: seq<T>) {
    forall i, j :: 0 <= i < j < |xs| ==> xs[i] != xs[j]
  }

  lemma {:induction false} DistinctCount<T>(xs: seq<T>, x: T)
    requires Distinct(xs)
    ensures multiset(xs)[x] <= 1
  {
    if xs != [] {
      var init := xs[..|xs| - 1];
      var last := xs[|xs| - 1];
      DistinctCount(init, x);
      assert xs == init + [last];
      assert forall k :: 0 <= k < |init| ==> init[k] == xs[k] && xs[k] != last;
      assert last !in init;
    }
  }

  /** A reordering of a list without repeats has none. */
  lemma PermutedDistinct<T>(a: seq<T>, b: seq<T>)
    requires multiset(a) == multiset(b) && Distinct(b)
    ensures Distinct(a)
  {
    forall i, j | 0 <= i < j < |a|
      ensures a[i] != a[j]
    {
      DistinctCount(b, a[i]);
      assert a == a[..j] + [a[j]] + a[j + 1..];
      assert a[i] in a[..j];
      assert multiset(a)[a[j]] >= multiset(a[..j])[a[j]] + 1;
    }
  }

  /** Sorting names without repeats in reverse gives them in strictly descending order. */
  lemma SortedListing(found: seq<string>)
    requires Distinct(found)
    ensures StrictlyDescending(SortDesc(Itself, found))
    ensures forall n :: n in SortDesc(Itself, found) <==> n in found
  {
    var sorted := SortDesc(Itself, found);
    PermutedDistinct(sorted, found);
    SortDescending(Itself, found);
    DistinctDescending(sorted);
    assert forall n :: n in sorted <==> n in multiset(found);
  }
}
