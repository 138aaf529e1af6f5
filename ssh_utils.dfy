/** services/ssh_utils.py: the output sanitizer `clean_ovs_output`, the
    reclassification of in-band tool errors that `run_ovs_command` performs, and
    the remote executor itself, whose SSH transport is left abstract. */
module SshUtils {
  import opened Wrappers
  import opened PyStr

  // ---------------------------------------------------------------- clean_ovs_output

  /** Error texts that are dropped from cleaned output, compared case-insensitively. */
  const ErrorMarkers: seq<string> := [
    "ovs-vsctl: no bridge named",
    "ovs-vsctl: no port named",
    "ovs-vsctl: no interface named",
    "does not exist",
    "does not contain a column"
  ]

  const UuidAlphabet: string := "0123456789abcdef-"

  /** A 36-character token of hexadecimal digits and hyphens (in either case); only
      length and alphabet are checked, not the 8-4-4-4-12 layout of a UUID. */
  predicate LooksLikeUuid(stripped: string) {
    |stripped| == 36 && forall k :: 0 <= k < |stripped| ==> Lower(stripped)[k] in UuidAlphabet
  }

  predicate HasErrorMarker(stripped: string) {
    exists m :: m in ErrorMarkers && Contains(Lower(stripped), m)
  }

  /** A line the sanitizer drops, judged on its stripped form. */
  predicate IsNoise(line: string) {
    var stripped := Strip(line);
    || stripped == "kali"
    || StartsWith(stripped, "[sudo]")
    || LooksLikeUuid(stripped)
    || stripped == ""
    || HasErrorMarker(stripped)
  }

  predicate Survives(line: string) {
    !IsNoise(line)
  }

  /** The lines that survive, unstripped and in their original order. */
  function KeptLines(lines: seq<string>): seq<string> {
    Filter(Survives, lines)
  }

  /** The text `clean_ovs_output` returns. */
  function Cleaned(raw: string): string {
    if raw == "" then "" else Join(KeptLines(SplitLines(raw)), "\n")
  }

  /** The loop of `clean_ovs_output`. */
  method CleanOvsOutput(raw: string) returns (cleaned: string)
    ensures cleaned == Cleaned(raw)
  {
    if raw == "" {
      return "";
    }
    var lines := SplitLines(raw);
    var cleanedLines: seq<string> := [];
    for i := 0 to |lines|
      invariant cleanedLines == KeptLines(lines[..i])
    {
      KeptLinesStep(lines, i);
      var line := lines[i];
      var stripped := Strip(line);
      if stripped == "kali" || StartsWith(stripped, "[sudo]") {
        continue;
      }
      if LooksLikeUuid(stripped) {
        continue;
      }
      if stripped == "" {
        continue;
      }
      if HasErrorMarker(stripped) {
        continue;
      }
      cleanedLines := cleanedLines + [line];
    }
    TakeAll(lines);
    cleaned := Join(cleanedLines, "\n");
  }

  /** One more line of input adds that line to the kept ones unless it is noise. */
  lemma KeptLinesStep(lines: seq<string>, i: nat)
    requires i < |lines|
    ensures KeptLines(lines[..i + 1])
      == if IsNoise(lines[i]) then KeptLines(lines[..i]) else KeptLines(lines[..i]) + [lines[i]]
  {
    PrefixPrefix(lines, i);
  }

  /** A line survives exactly when it occurs in the input and is not noise. */
  lemma KeptLinesMembers(lines: seq<string>, line: string)
    ensures line in KeptLines(lines) <==> line in lines && !IsNoise(line)
  {
    FilterMembers(Survives, lines, line);
  }

  lemma NoiseFreeNotEmpty(line: string)
    requires !IsNoise(line)
    ensures line != ""
  {
  }

  /** Surviving lines hold no line boundary and none is empty, so cleaned text
      splits back into exactly the surviving lines. */
  lemma CleanedLines(raw: string)
    ensures SplitLines(Cleaned(raw)) == KeptLines(SplitLines(raw))
  {
    if raw != "" {
      var lines := SplitLines(raw);
      var kept := KeptLines(lines);
      FilterKept(Survives, lines);
      forall i | 0 <= i < |kept|
        ensures NoBreak(kept[i]) && kept[i] != ""
      {
        var j :| 0 <= j < |lines| && lines[j] == kept[i];
        NoiseFreeNotEmpty(kept[i]);
      }
      SplitJoinLines(kept);
    }
  }

  /** A line of the input is in the cleaned text exactly when it is not noise:
      the drop rules are the only thing that removes a line. */
  lemma CleanedKeepsExactly(raw: string, line: string)
    requires line in SplitLines(raw)
    ensures line in SplitLines(Cleaned(raw)) <==> !IsNoise(line)
  {
    CleanedLines(raw);
    KeptLinesMembers(SplitLines(raw), line);
  }

  /** Cleaning already-cleaned text returns it unchanged. */
  lemma CleanIdempotent(raw: string)
    ensures Cleaned(Cleaned(raw)) == Cleaned(raw)
  {
    var c := Cleaned(raw);
    if c != "" {
      CleanedLines(raw);
      var kept := KeptLines(SplitLines(raw));
      assert SplitLines(c) == kept;
      FilterKept(Survives, SplitLines(raw));
      FilterAll(Survives, kept);
    }
  }

  /** Cleaning the empty output gives the empty text. */
  lemma CleanEmpty()
    ensures Cleaned("") == ""
  {
  }

  // ---------------------------------------------------------------- run_ovs_command

  /** Raw output of one remote command: its standard output and standard error. */
  datatype Reply = Reply(out: string, err: string)

  /** Standard output carries an error of the wrapped tool. */
  predicate ToolErrorInStdout(out: string) {
    && Contains(out, "ovs-vsctl:")
    && (|| Contains(Lower(out), "error")
        || Contains(Lower(out), "does not exist")
        || Contains(Lower(out), "no bridge named"))
  }

  /** Moves a tool error from standard output to standard error; nothing else
      changes and no text is lost. */
  function Reclassify(raw: Reply): (r: Reply)
    ensures r == raw <==> !ToolErrorInStdout(raw.out)
    ensures ToolErrorInStdout(raw.out) ==>
      r.out == "" && StartsWith(r.err, raw.err) && EndsWith(r.err, raw.out)
  {
    if ToolErrorInStdout(raw.out) then
      ContainsLength(raw.out, "ovs-vsctl:");
      Reply("", if raw.err == "" then raw.out else raw.err + "\n" + raw.out)
    else raw
  }

  /** Standard error after a move: the output alone, or appended on a new line. */
  lemma ReclassifyJoinsErrors(raw: Reply)
    requires ToolErrorInStdout(raw.out)
    ensures raw.err == "" ==> Reclassify(raw).err == raw.out
    ensures raw.err != "" ==> Reclassify(raw).err == raw.err + "\n" + raw.out
  {
  }

  /** A reclassified reply has nothing left to move. */
  lemma ReclassifyIdempotent(raw: Reply)
    ensures Reclassify(Reclassify(raw)) == Reclassify(raw)
  {
    if ToolErrorInStdout(raw.out) {
      assert !Contains("", "ovs-vsctl:");
    }
  }

  /** One invocation of `run_ovs_command`: the command (sent as `sudo <cmd>`), the
      target host (None: the built-in default host) and the sudo password. */
  datatype Call = Call(cmd: string, host: Option<string>, password: string)

  /** The remote executor. `transport` stands for the SSH session: given every call
      made so far, the last one included, it answers the raw output of the last one,
      so the remote host may change state between calls; a connection failure is
      one such answer. */
  class Session {
    const transport: seq<Call> -> Reply
    var history: seq<Call>

    constructor (transport: seq<Call> -> Reply)
      ensures this.transport == transport && history == []
    {
      this.transport := transport;
      history := [];
    }

    /** `run_ovs_command(cmd, hostname=host, password=password)` */
    method Run(cmd: string, host: Option<string>, password: string) returns (reply: Reply)
      modifies this
      ensures history == old(history) + [Call(cmd, host, password)]
      ensures reply == Reclassify(transport(history))
    {
      history := history + [Call(cmd, host, password)];
      reply := Reclassify(transport(history));
    }
  }

  /** The same host and password for each command, in order. */
  function CallsOf(cmds: seq<string>, host: Option<string>, password: string): (calls: seq<Call>)
    ensures |calls| == |cmds|
    ensures forall k :: 0 <= k < |cmds| ==> calls[k] == Call(cmds[k], host, password)
  {
    seq(|cmds|, k requires 0 <= k < |cmds| => Call(cmds[k], host, password))
  }

  lemma CallsSnoc(cmds: seq<string>, cmd: string, host: Option<string>, password: string)
    ensures CallsOf(cmds + [cmd], host, password) == CallsOf(cmds, host, password) + [Call(cmd, host, password)]
  {
  }

  /** Runs `cmds` one after the other on the same host with the same password. */
  method RunEach(session: Session, cmds: seq<string>, host: Option<string>, password: string)
    returns (replies: seq<Reply>)
    modifies session
    ensures session.history == old(session.history) + CallsOf(cmds, host, password)
    ensures replies == RepliesFor(session.transport, old(session.history), CallsOf(cmds, host, password))
  {
    ghost var before := session.history;
    ghost var calls := CallsOf(cmds, host, password);
    replies := [];
    for k := 0 to |cmds|
      invariant session.history == before + calls[..k]
      invariant replies == RepliesFor(session.transport, before, calls[..k])
    {
      assert calls[..k + 1] == calls[..k] + [calls[k]];
      var reply := session.Run(cmds[k], host, password);
      replies := replies + [reply];
      RepliesSnoc(session.transport, before, calls[..k + 1]);
      PrefixPrefix(calls, k);
    }
    assert calls[..|cmds|] == calls;
  }

  lemma RepliesSnoc(transport: seq<Call> -> Reply, before: seq<Call>, calls: seq<Call>)
    requires calls != []
    ensures RepliesFor(transport, before, calls)
      == RepliesFor(transport, before, calls[..|calls| - 1]) + [Reclassify(transport(before + calls))]
  {
    var n := |calls| - 1;
    assert calls[..n + 1] == calls;
    var prev, all := RepliesFor(transport, before, calls[..n]), RepliesFor(transport, before, calls);
    forall k | 0 <= k < n
      ensures prev[k] == all[k]
    {
      assert calls[..n][..k + 1] == calls[..k + 1];
    }
  }

  /** The replies a session gives to `calls` made in order after `before`. */
  function RepliesFor(transport: seq<Call> -> Reply, before: seq<Call>, calls: seq<Call>): (rs: seq<Reply>)
    ensures |rs| == |calls|
  {
    seq(|calls|, k requires 0 <= k < |calls| => Reclassify(transport(before + calls[..k + 1])))
  }
}
