/** routes/ovs_show.py: `parse_ovs_list`, the switch name and address derivation,
    the name lookups and the snapshot document that `show_ovs_full` assembles, and
    the route's four remote commands. */
module OvsShow {
  import opened Wrappers
  import opened PyStr
  import opened SshUtils

  // ---------------------------------------------------------------- the key/value pattern

  /** The largest `j` with `1 <= j < n` and `s[j] == ':'`. */
  function LastColon(s: string, n: nat): (r: Option<nat>)
    requires n <= |s|
    ensures r.Some? ==> 1 <= r.value < n && s[r.value] == ':'
    ensures r.Some? ==> forall j :: r.value < j < n ==> s[j] != ':'
    ensures r.None? ==> forall j :: 1 <= j < n ==> s[j] != ':'
  {
    if n <= 1 then None
    else if s[n - 1] == ':' then Some(n - 1)
    else LastColon(s, n - 1)
  }

  /** The text up to the first newline, which `.` does not match. */
  function UpToNewline(s: string): (r: string)
    ensures '\n' !in r && StartsWith(s, r)
    ensures '\n' !in s ==> r == s
  {
    s[..FirstIn(s, {'\n'})]
  }

  /** `re.match(r"(\S+)\s*:\s*(.*)", line)` as (group 1, group 2). `\S+` first takes
      the whole leading token; only when whitespace and then ':' do not follow it
      does the match backtrack to the last ':' inside the token. */
  function MatchKeyValue(line: string): (m: Option<(string, string)>)
  {
    if line == [] || line[0] in Whitespace then None
    else
      var t := FirstIn(line, Whitespace);
      var after := TrimLeft(line[t..], Whitespace);
      if t < |line| && after != [] && after[0] == ':' then
        Some((line[..t], UpToNewline(TrimLeft(after[1..], Whitespace))))
      else
        match LastColon(line, t)
        case Some(n) => Some((line[..n], UpToNewline(TrimLeft(line[n + 1..], Whitespace))))
        case None => None
  }

  /** A matched key is a non-empty run of non-whitespace characters and a matched
      value holds no newline. */
  lemma MatchKeyValueShape(line: string)
    ensures var m := MatchKeyValue(line);
      m.Some? ==> m.value.0 != [] && '\n' !in m.value.1 && forall k :: 0 <= k < |m.value.0| ==> m.value.0[k] !in Whitespace
  {
    if line != [] && line[0] !in Whitespace {
      var t := FirstIn(line, Whitespace);
      TokenPrefix(line, t);
      var n := LastColon(line, t);
      if n.Some? {
        TokenPrefix(line, n.value);
      }
    }
  }

  /** A prefix of the leading token holds no whitespace. */
  lemma TokenPrefix(line: string, n: nat)
    requires n <= FirstIn(line, Whitespace)
    ensures forall k :: 0 <= k < n ==> line[..n][k] !in Whitespace
  {
  }

  // ---------------------------------------------------------------- parse_ovs_list

  /** A parsed record: the `dict` of one block. */
  type Record = map<string, string>

  /** Records completed so far and the one being filled. */
  datatype ParseState = ParseState(blocks: seq<Record>, current: Record)

  const Start := ParseState([], map[])

  /** What one line of the listing is to the parser. */
  datatype LineKind = Blank | Pair(key: string, value: string) | Unmatched

  function Classify(raw: string): (k: LineKind)
    ensures k.Blank? <==> Strip(raw) == ""
    ensures k.Pair? <==> Strip(raw) != "" && MatchKeyValue(Strip(raw)).Some?
    ensures k.Pair? ==> MatchKeyValue(Strip(raw)) == Some((k.key, k.value))
  {
    var line := Strip(raw);
    if line == "" then Blank
    else
      match MatchKeyValue(line)
      case Some(kv) => Pair(kv.0, kv.1)
      case None => Unmatched
  }

  /** A blank line closes a non-empty record; a matched pair sets its key. */
  function ApplyLine(st: ParseState, kind: LineKind): ParseState {
    match kind
    case Blank => if st.current != map[] then ParseState(st.blocks + [st.current], map[]) else st
    case Pair(k, v) => st.(current := st.current[k := v])
    case Unmatched => st
  }

  function ParseStep(st: ParseState, raw: string): ParseState {
    ApplyLine(st, Classify(raw))
  }

  /** The records of a sequence of lines. */
  function ParseLines(lines: seq<string>): seq<Record> {
    var st := Fold(ParseStep, Start, lines);
    if st.current != map[] then st.blocks + [st.current] else st.blocks
  }

  /** What `parse_ovs_list(raw_output)` returns. */
  function ParsedRecords(raw: string): seq<Record> {
    ParseLines(SplitLines(raw))
  }

  /** The loop of `parse_ovs_list`. */
  method ParseOvsList(raw: string) returns (blocks: seq<Record>)
    ensures blocks == ParsedRecords(raw)
  {
    var lines := SplitLines(raw);
    blocks := [];
    var current: Record := map[];
    for i := 0 to |lines|
      invariant ParseState(blocks, current) == Fold(ParseStep, Start, lines[..i])
    {
      FoldStep(ParseStep, Start, lines, i);
      var line := Strip(lines[i]);
      if line == "" {
        if current != map[] {
          blocks := blocks + [current];
          current := map[];
        }
      } else {
        var m := MatchKeyValue(line);
        if m.Some? {
          var key, val := m.value.0, m.value.1;
          current := current[key := val];
        }
      }
    }
    TakeAll(lines);
    if current != map[] {
      blocks := blocks + [current];
    }
  }

  // ---------------------------------------------------------------- switch identity

  /** The name the snapshot is filed under and the host the commands go to (None:
      the executor's built-in host). */
  datatype SwitchId = SwitchId(name: string, host: Option<string>)

  /** `switch_name` (default `default_switch`) trimmed, with spaces made '_'. */
  function RequestedName(requested: Option<string>): string {
    ReplaceAll(Strip(requested.GetOr("default_switch")), " ", "_")
  }

  /** A name holding '.' is taken as the switch's address and renamed `switch_`
      with dots made '_'. */
  function SwitchIdentityOf(s: string): SwitchId {
    if s != "" && '.' in s then SwitchId("switch_" + ReplaceAll(s, ".", "_"), Some(s))
    else SwitchId(s, None)
  }

  function SwitchIdentity(requested: Option<string>): SwitchId {
    SwitchIdentityOf(RequestedName(requested))
  }

  /** `hostname if hostname else "localhost"` */
  function SwitchIp(id: SwitchId): string {
    if Truthy(id.host) then id.host.value else "localhost"
  }

  // ---------------------------------------------------------------- lookups by name

  /** `d[k] = v` on a dict kept as its (key, value) pairs in insertion order. */
  function Upsert(entries: seq<(string, Record)>, k: string, v: Record): seq<(string, Record)> {
    if entries == [] then [(k, v)]
    else if entries[0].0 == k then [(k, v)] + entries[1..]
    else [entries[0]] + Upsert(entries[1..], k, v)
  }

  /** `{r.get("name"): r for r in recs if "name" in r}` */
  function ByName(recs: seq<Record>): seq<(string, Record)> {
    if recs == [] then []
    else
      var d, r := ByName(recs[..|recs| - 1]), recs[|recs| - 1];
      if "name" in r then Upsert(d, r["name"], r) else d
  }

  /** The `name` values of the records that have one, in order. */
  function Names(recs: seq<Record>): seq<string> {
    if recs == [] then []
    else
      var r := recs[|recs| - 1];
      Names(recs[..|recs| - 1]) + (if "name" in r then [r["name"]] else [])
  }

  // ---------------------------------------------------------------- the snapshot document

  /** `record.get(key, "").strip('"')`; the default "" has no quotes to lose. */
  function GetUnquoted(r: Record, key: string): string {
    if key in r then StripQuotes(r[key]) else ""
  }

  /** A port entry; the route never fills `interfaces`. */
  datatype PortDoc = PortDoc(name: string, tag: string, interfaces: seq<string>)
  datatype BridgeDoc = BridgeDoc(name: string, datapathId: string, ports: seq<PortDoc>)
  datatype SwitchDoc = SwitchDoc(switchName: string, switchIp: string, bridges: seq<BridgeDoc>)

  function PortDocOf(entry: (string, Record)): PortDoc {
    PortDoc(if entry.0 != "" then StripQuotes(entry.0) else "", GetUnquoted(entry.1, "tag"), [])
  }

  /** The port list every bridge receives: one entry per distinct port name. */
  function PortDocs(byName: seq<(string, Record)>): seq<PortDoc> {
    seq(|byName|, j requires 0 <= j < |byName| => PortDocOf(byName[j]))
  }

  function BridgeDocOf(bridge: Record, ports: seq<PortDoc>): BridgeDoc {
    BridgeDoc(GetUnquoted(bridge, "name"), GetUnquoted(bridge, "datapath_id"), ports)
  }

  /** The `switch_data` document built from the parsed listings. */
  function SwitchDocOf(id: SwitchId, bridges: seq<Record>, ports: seq<Record>): SwitchDoc {
    var portDocs := PortDocs(ByName(ports));
    SwitchDoc(id.name, SwitchIp(id), seq(|bridges|, i requires 0 <= i < |bridges| => BridgeDocOf(bridges[i], portDocs)))
  }

  /** The outer assembly loop of `show_ovs_full`: one entry per bridge record. */
  method AssembleSwitch(id: SwitchId, bridges: seq<Record>, ports: seq<Record>) returns (doc: SwitchDoc)
    ensures doc == SwitchDocOf(id, bridges, ports)
  {
    var portsByName := ByName(ports);
    var docs: seq<BridgeDoc> := [];
    for i := 0 to |bridges|
      invariant |docs| == i
      invariant forall k :: 0 <= k < i ==> docs[k] == BridgeDocOf(bridges[k], PortDocs(portsByName))
    {
      var bridgeName := GetUnquoted(bridges[i], "name");
      var bridgePorts := BridgePorts(portsByName);
      docs := docs + [BridgeDoc(bridgeName, GetUnquoted(bridges[i], "datapath_id"), bridgePorts)];
    }
    doc := SwitchDoc(id.name, SwitchIp(id), docs);
    assert doc.bridges == SwitchDocOf(id, bridges, ports).bridges;
  }

  /** The inner loop: every entry of the port lookup, whatever the bridge. */
  method BridgePorts(portsByName: seq<(string, Record)>) returns (bridgePorts: seq<PortDoc>)
    ensures bridgePorts == PortDocs(portsByName)
  {
    bridgePorts := [];
    for j := 0 to |portsByName|
      invariant |bridgePorts| == j
      invariant forall k :: 0 <= k < j ==> bridgePorts[k] == PortDocOf(portsByName[k])
    {
      bridgePorts := bridgePorts + [PortDocOf(portsByName[j])];
    }
  }

  // ---------------------------------------------------------------- show_ovs_full

  const ShowCommands: seq<string> := ["ovs-vsctl show", "ovs-vsctl list bridge", "ovs-vsctl list port", "ovs-vsctl list interface"]

  /** The request fields the route reads; None is a missing key. */
  datatype ShowRequest = ShowRequest(password: Option<string>, switchName: Option<string>)

  /** One entry of `results`: cleaned output and the error, None when empty. */
  datatype CommandResult = CommandResult(output: string, error: Option<string>)

  datatype ShowResponse =
    | PasswordRequired
    | Shown(switchName: string, switchIp: string, results: seq<(string, CommandResult)>, doc: SwitchDoc)

  /** `error or None` */
  function ErrorOrNone(err: string): Option<string> {
    if err == "" then None else Some(err)
  }

  /** One `results` entry: the command, its cleaned output and its error. */
  function ResultOf(cmd: string, reply: Reply): (string, CommandResult) {
    (cmd, CommandResult(Cleaned(reply.out), ErrorOrNone(reply.err)))
  }

  /** The `results` entries, one per command, in order. */
  function ResultsOf(cmds: seq<string>, replies: seq<Reply>): (rs: seq<(string, CommandResult)>)
    requires |replies| == |cmds|
    ensures |rs| == |cmds|
  {
    MapPairs(ResultOf, cmds, replies)
  }

  /** The calls the route makes. */
  function ShowCalls(req: ShowRequest): (calls: seq<Call>)
    ensures |calls| == if Truthy(req.password) then |ShowCommands| else 0
  {
    if !Truthy(req.password) then []
    else CallsOf(ShowCommands, SwitchIdentity(req.switchName).host, req.password.value)
  }

  /** The response, given the replies to `ShowCalls(req)`. */
  function ShowResponseOf(req: ShowRequest, replies: seq<Reply>): ShowResponse
    requires |replies| == |ShowCalls(req)|
  {
    if !Truthy(req.password) then PasswordRequired
    else
      var id := SwitchIdentity(req.switchName);
      var doc := SwitchDocOf(id, ParsedRecords(replies[1].out), ParsedRecords(replies[2].out));
      Shown(id.name, SwitchIp(id), ResultsOf(ShowCommands, replies), doc)
  }

  /** Cleans each command's output and keeps its error, in command order. */
  method CollectResults(cmds: seq<string>, replies: seq<Reply>) returns (results: seq<(string, CommandResult)>)
    requires |replies| == |cmds|
    ensures results == ResultsOf(cmds, replies)
  {
    results := [];
    for k := 0 to |cmds|
      invariant results == ResultsOf(cmds[..k], replies[..k])
    {
      var output := CleanOvsOutput(replies[k].out);
      results := results + [(cmds[k], CommandResult(output, ErrorOrNone(replies[k].err)))];
      PrefixPrefix(cmds, k);
      PrefixPrefix(replies, k);
    }
    TakeAll(cmds);
    assert replies[..|cmds|] == replies;
  }

  /** `show_ovs_full`, without the snapshot file write. */
  method ShowOvsFull(session: Session, req: ShowRequest) returns (resp: ShowResponse)
    modifies session
    ensures session.history == old(session.history) + ShowCalls(req)
    ensures resp == ShowResponseOf(req, RepliesFor(session.transport, old(session.history), ShowCalls(req)))
  {
    var id := SwitchIdentity(req.switchName);
    if !Truthy(req.password) {
      return PasswordRequired;
    }
    var replies := RunEach(session, ShowCommands, id.host, req.password.value);
    var results := CollectResults(ShowCommands, replies);
    var bridges := ParseOvsList(replies[1].out);
    var ports := ParseOvsList(replies[2].out);
    var doc := AssembleSwitch(id, bridges, ports);
    resp := Shown(id.name, SwitchIp(id), results, doc);
  }
}
