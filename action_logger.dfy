/** services/action_logger.py, the logger object: its log directory (file name to
    text) and current log file are fields its methods read and change. The clock,
    the JSON codec and the file system are not called: the times are parameters,
    the codec two fixed functions, the directory a map. */
module ActionLogging {
  import opened Wrappers
  import opened PyStr
  import opened Clock
  import opened Sorting
  import opened ActionLog

  class ActionLogger {
    /** The files of the log directory, by name. */
    var files: map<string, string>
    /** The JSON log named after the day the logger was made; it never moves on. */
    var currentLogFile: string
    /** `json.dumps(entry, ensure_ascii=False)` */
    const encode: LogEntry -> string
    /** `json.loads(text)`; None when it raises JSONDecodeError. */
    const decode: string -> Option<Json>

    /** `ActionLogger()` on the given day: today's log file is created empty when
        missing and left as it is otherwise. */
    constructor (today: DateTime, existing: map<string, string>, encode: LogEntry -> string,
                 decode: string -> Option<Json>)
      ensures currentLogFile == LogFileName(DateText(today))
      ensures files.Keys == existing.Keys + {currentLogFile}
      ensures forall f :: f in existing ==> files[f] == existing[f]
      ensures files[currentLogFile] == TextOf(existing, currentLogFile)
      ensures this.encode == encode && this.decode == decode
    {
      this.encode := encode;
      this.decode := decode;
      var name := LogFileName(DateText(today));
      currentLogFile := name;
      files := if name in existing then existing else existing[name := ""];
    }

    /** `log_action(action, status, metadata)` at time `stamp`; `now` is the second
        reading of the clock, which names the readable log. The record goes to the
        current file and its readable line to that day's readable log. */
    method LogAction(action: string, status: string, metadata: seq<(string, string)>, stamp: DateTime, now: DateTime)
      modifies this
      ensures currentLogFile == old(currentLogFile)
      ensures files == Appended(Appended(old(files), currentLogFile, encode(NewEntry(stamp, action, status, metadata)) + "\n"),
                                ReadableFileName(DateText(now)),
                                ReadableLine(IsoFormat(stamp), status, action) + "\n")
    {
      var timestamp := IsoFormat(stamp);
      var entry := LogEntry(Some(timestamp), Some(action), Some(status), metadata);
      files := Appended(files, currentLogFile, encode(entry) + "\n");
      var readableEntry := ReadableLine(timestamp, status, action) + "\n";
      files := Appended(files, ReadableFileName(DateText(now)), readableEntry);
    }

    /** `get_logs(date, limit)` */
    method GetLogs(date: Option<string>, limit: Option<int>) returns (entries: seq<LogEntry>)
      ensures entries == LogsOf(files, currentLogFile, decode, date, limit)
    {
      var logFile := if Truthy(date) then LogFileName(date.value) else currentLogFile;
      if logFile !in files {
        return [];
      }
      LogsOfFile(files, currentLogFile, decode, date, limit);
      var lines := FileLines(files[logFile]);
      var values: seq<Json> := [];
      for i := 0 to |lines|
        invariant values == Decoded(decode, lines[..i])
      {
        DecodedLineStep(decode, lines, i);
        var line := lines[i];
        if Strip(line) != "" {
          var parsed := decode(Strip(line));
          if parsed.Some? {
            values := values + [parsed.value];
          }
        }
      }
      TakeAll(lines);
      var objects := Traverse(AsEntry, values);
      if objects.Err? {
        return [];
      }
      entries := SortDesc(TimestampKey, objects.value);
      if limit.Some? && limit.value != 0 {
        entries := Slice(entries, limit.value);
      }
    }

    /** `get_all_log_files()`: the JSON logs of the directory, newest name first. */
    method GetAllLogFiles() returns (names: seq<string>)
      ensures StrictlyDescending(names)
      ensures forall n :: n in names <==> n in files && Listed(n)
    {
      var pending := set n | n in files && Globbed(n);
      var found: seq<string> := [];
      while pending != {}
        invariant forall n :: n in pending ==> n in files && Globbed(n)
        invariant forall n :: n in found <==> n in files && Listed(n) && n !in pending
        invariant Distinct(found)
        decreases |pending|
      {
        var n :| n in pending;
        if !EndsWith(n, "_readable.log") {
          found := found + [n];
        }
        pending := pending - {n};
      }
      SortedListing(found);
      names := SortDesc(Itself, found);
    }

    /** `get_log_file_content(filename)`: the readable text of a JSON log. */
    method GetLogFileContent(filename: string) returns (content: Option<string>)
      ensures content == ContentOf(files, decode, filename)
    {
      if filename !in files {
        return None;
      }
      var lines := FileLines(files[filename]);
      var readable := Header(filename);
      ContentStep(filename, [], NonObject);
      for i := 0 to |lines|
        invariant ContentLines(filename, Decoded(decode, lines[..i])) == Some(readable)
      {
        ContentLineStep(filename, decode, lines, i);
        var line := lines[i];
        if Strip(line) != "" {
          var parsed := decode(Strip(line));
          if parsed.Some? {
            var value := parsed.value;
            if value.NonObject? {
              ContentNoneAfter(filename, decode, lines, i + 1);
              return None;
            }
            readable := AppendBlock(readable, value.entry);
          }
        }
      }
      TakeAll(lines);
      content := Some(Join(readable, "\n"));
    }

    /** `cleanup_old_logs(days_to_keep)`, with `cutoff` the moment `days_to_keep`
        days before now: every dated log older than that is deleted. */
    method CleanupOldLogs(cutoff: DateTime)
      modifies this
      ensures currentLogFile == old(currentLogFile)
      ensures files == Kept(old(files), cutoff)
    {
      var pending := set n | n in files && Globbed(n);
      ghost var start := files;
      PrunedStart(start, pending, cutoff);
      while pending != {}
        invariant currentLogFile == old(currentLogFile)
        invariant forall n :: n in pending ==> n in start && Globbed(n)
        invariant files == Pruned(start, pending, cutoff)
        decreases |pending|
      {
        var n :| n in pending;
        PrunedStep(start, pending, n, cutoff);
        var dateStr := ReplaceAll(ReplaceAll(Stem(n), "actions_", ""), "_readable", "");
        if |dateStr| == 10 {
          var fileDate := ParseDate(dateStr);
          if fileDate.Some? && Earlier(fileDate.value, cutoff) {
            files := map f | f in files && f != n :: files[f];
          }
        }
        pending := pending - {n};
      }
      PrunedEnd(start, cutoff);
    }

    /** `get_log_statistics()`: over the newest hundred records of the current file. */
    method GetLogStatistics() returns (stats: Stats)
      ensures stats == StatsOf(LogsOf(files, currentLogFile, decode, None, Some(100)))
    {
      var logs := GetLogs(None, Some(100));
      var successCount, errorCount := 0, 0;
      var actionTypes: seq<(string, nat)> := [];
      for i := 0 to |logs|
        invariant successCount == |Filter(Succeeded, logs[..i])|
        invariant errorCount == |Filter(Failed, logs[..i])|
        invariant actionTypes == TypeCounts(logs[..i])
      {
        var entry := logs[i];
        StatsStep(logs, i);
        var status := entry.status.GetOr("UNKNOWN");
        var action := entry.action.GetOr("Unknown");
        if status == "SUCCESS" {
          successCount := successCount + 1;
        } else if status == "ERROR" {
          errorCount := errorCount + 1;
        }
        var actionType := if action != "" then Split(action, ' ')[0] else "Unknown";
        actionTypes := Bump(actionTypes, actionType);
      }
      TakeAll(logs);
      stats := Stats(|logs|, successCount, errorCount, logs[..if |logs| < 5 then |logs| else 5], actionTypes);
    }
  }

  /** The lines one record adds to the readable text. */
  method AppendBlock(readable: seq<string>, e: LogEntry) returns (r: seq<string>)
    ensures r == readable + EntryBlock(e)
  {
    var timestamp := e.timestamp.GetOr("Unknown");
    var action := e.action.GetOr("Unknown action");
    var status := e.status.GetOr("UNKNOWN");
    r := readable + [ReadableLine(timestamp, status, action)];
    if e.metadata != [] {
      ghost var start := r;
      for k := 0 to |e.metadata|
        invariant r == start + MetadataLines(e.metadata)[..k]
      {
        PrefixSnoc(MetadataLines(e.metadata), k);
        var (key, value) := e.metadata[k];
        r := r + ["  " + key + ": " + value];
      }
      assert MetadataLines(e.metadata)[..|e.metadata|] == MetadataLines(e.metadata);
      r := r + [""];
    }
  }
}
