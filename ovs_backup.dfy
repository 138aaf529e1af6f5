/** routes/ovs_backup.py: the `/api/backup_config` route, which snapshots one
    bridge (its ports, their interface types and the bridge's datapath id) into a
    backup document through the remote executor. */
module OvsBackup {
  import opened Wrappers
  import opened PyStr
  import opened SshUtils
  import opened Clock

  datatype BackupRequest = BackupRequest(password: Option<string>, switch: Option<string>)

  /** The 400 answers of the route, in the order they are checked. */
  datatype BackupError =
    | PasswordRequired
    | SwitchRequired
    | BridgeDoesNotExist(switch: string)
    | BridgeNotFound(switch: string, err: string)

  /** One `{name, type}` entry; the same entries fill the bridge's `ports` and the
      top-level `interfaces`. */
  datatype PortType = PortType(name: string, ifaceType: string)
  datatype BridgeBackup = BridgeBackup(name: string, datapathId: string, ports: seq<PortType>)
  datatype BackupDoc = BackupDoc(bridges: seq<BridgeBackup>, interfaces: seq<PortType>)

  /** The success answer: file name, message, number of valid ports, and the
      document written to the file. */
  datatype Saved = Saved(file: string, message: string, portsFound: nat, doc: BackupDoc)

  // ---------------------------------------------------------------- commands

  function BridgeCheckCommand(switch: string): string {
    "ovs-vsctl br-exists " + switch
  }

  function ListPortsCommand(switch: string): string {
    "ovs-vsctl list-ports " + switch
  }

  function TypeCommand(port: string): string {
    "ovs-vsctl get Interface " + port + " type"
  }

  function TypeCommands(ports: seq<string>): seq<string> {
    seq(|ports|, i requires 0 <= i < |ports| => TypeCommand(ports[i]))
  }

  function DatapathCommand(switch: string): string {
    "ovs-vsctl get Bridge " + switch + " datapath_id"
  }

  // ---------------------------------------------------------------- port list

  /** The bridge check's error that aborts the backup. */
  predicate BridgeMissing(err: string) {
    err != "" && Contains(Lower(err), "does not exist")
  }

  /** The port listing's error that aborts the backup. */
  predicate ListingFailed(err: string) {
    err != "" && (Contains(Lower(err), "no bridge named") || Contains(Lower(err), "does not exist"))
  }

  /** A listed line that is an error message rather than a port name. */
  predicate MentionsError(p: string) {
    Contains(Lower(p), "ovs-vsctl:") || Contains(Lower(p), "error:") || Contains(Lower(p), "no bridge")
  }

  predicate IsPortName(p: string) {
    !MentionsError(p)
  }

  predicate NonEmpty(s: string) {
    s != ""
  }

  function StrippedLines(lines: seq<string>): (r: seq<string>)
    ensures |r| == |lines| && forall i :: 0 <= i < |lines| ==> r[i] == Strip(lines[i])
  {
    seq(|lines|, i requires 0 <= i < |lines| => Strip(lines[i]))
  }

  /** `port_list`: the stripped, non-empty lines of the cleaned listing. */
  function PortList(cleaned: string): seq<string> {
    if Strip(cleaned) == "" then [] else Filter(NonEmpty, StrippedLines(SplitLines(cleaned)))
  }

  /** `valid_ports`: the port list without the lines that are error messages. */
  function ValidPorts(cleaned: string): seq<string> {
    Filter(IsPortName, PortList(cleaned))
  }

  /** The loop that fills `valid_ports`. */
  method SelectValidPorts(portList: seq<string>) returns (valid: seq<string>)
    ensures valid == Filter(IsPortName, portList)
  {
    valid := [];
    for i := 0 to |portList|
      invariant valid == Filter(IsPortName, portList[..i])
    {
      PrefixPrefix(portList, i);
      var port := portList[i];
      if Contains(Lower(port), "ovs-vsctl:") || Contains(Lower(port), "error:") || Contains(Lower(port), "no bridge") {
        continue;
      }
      valid := valid + [port];
    }
    TakeAll(portList);
  }

  // ---------------------------------------------------------------- value normalisation

  /** An interface type or datapath id read from a reply: "" when the command wrote
      to standard error or the value still reads as an error, otherwise the cleaned
      output stripped of whitespace and then of double quotes. */
  function Normalised(reply: Reply): string {
    if reply.err != "" then "" else ValueOf(Cleaned(reply.out))
  }

  function ValueOf(cleaned: string): string {
    var v := StripQuotes(Strip(cleaned));
    if Contains(Lower(v), "ovs-vsctl:") || Contains(Lower(v), "error:") then "" else v
  }

  /** The assignments to `iface_type` (and alike to `datapath_id`). */
  method ReadValue(reply: Reply) returns (value: string)
    ensures value == Normalised(reply)
  {
    value := "";
    if reply.err == "" {
      var cleaned := CleanOvsOutput(reply.out);
      value := StripQuotes(Strip(cleaned));
      if Contains(Lower(value), "ovs-vsctl:") || Contains(Lower(value), "error:") {
        value := "";
      }
    }
  }

  function PortTypeOf(port: string, reply: Reply): PortType {
    PortType(port, Normalised(reply))
  }

  /** The document: exactly one bridge, named after the switch, whose ports are
      also the top-level interfaces. */
  function DocOf(switch: string, datapathId: string, entries: seq<PortType>): BackupDoc {
    BackupDoc([BridgeBackup(switch, datapathId, entries)], entries)
  }

  /** `f"{switch}_backup_{now:%Y%m%d_%H%M%S}.yaml"` */
  function BackupFileName(switch: string, now: DateTime): string {
    switch + "_backup_" + CompactStamp(now) + ".yaml"
  }

  // ---------------------------------------------------------------- the route as a value

  /** The answer of the route and the executor's history after it: the calls made
      before, then the route's own calls in order. */
  datatype BackupRun = BackupRun(result: Result<Saved, BackupError>, history: seq<Call>)

  /** `Probed(valid)`: the ports whose type is read (`if not port: continue`). */
  function Probed(valid: seq<string>): seq<string> {
    Filter(NonEmpty, valid)
  }

  /** What happens once both checks have passed: `before` already holds them and
      `valid` are the valid ports of the listing. */
  function SavedRun(switch: string, password: string, now: DateTime, transport: seq<Call> -> Reply,
                    before: seq<Call>, valid: seq<string>): BackupRun
  {
    var probes := CallsOf(TypeCommands(Probed(valid)), None, password);
    var entries := MapPairs(PortTypeOf, Probed(valid), RepliesFor(transport, before, probes));
    var datapath := Call(DatapathCommand(switch), None, password);
    var datapathId := Normalised(Reclassify(transport(before + probes + [datapath])));
    var file := BackupFileName(switch, now);
    BackupRun(Ok(Saved(file, "Backup saved to " + file, |valid|, DocOf(switch, datapathId, entries))),
              before + probes + [datapath])
  }

  /** `backup_config()` on a request, with the executor's `transport` and the calls
      made before. The commands run on the default host. */
  function BackupRunOf(req: BackupRequest, now: DateTime, transport: seq<Call> -> Reply, before: seq<Call>): BackupRun {
    if !Truthy(req.password) then BackupRun(Err(PasswordRequired), before)
    else if !Truthy(req.switch) then BackupRun(Err(SwitchRequired), before)
    else CheckedRun(req.switch.value, req.password.value, now, transport, before)
  }

  /** From the bridge check on. */
  function CheckedRun(switch: string, password: string, now: DateTime, transport: seq<Call> -> Reply,
                      before: seq<Call>): BackupRun
  {
    var check := Call(BridgeCheckCommand(switch), None, password);
    if BridgeMissing(Reclassify(transport(before + [check])).err) then BackupRun(Err(BridgeDoesNotExist(switch)), before + [check])
    else ListedRun(switch, password, now, transport, before + [check])
  }

  /** From the port listing on. */
  function ListedRun(switch: string, password: string, now: DateTime, transport: seq<Call> -> Reply,
                     before: seq<Call>): BackupRun
  {
    var list := Call(ListPortsCommand(switch), None, password);
    var listing := Reclassify(transport(before + [list]));
    if ListingFailed(listing.err) then BackupRun(Err(BridgeNotFound(switch, listing.err)), before + [list])
    else SavedRun(switch, password, now, transport, before + [list], ValidPorts(Cleaned(listing.out)))
  }

  // ---------------------------------------------------------------- the route

  /** The session has made the type probes of `names` since `before`, and
      `entries` holds one `{name, type}` per probe, in order. */
  ghost predicate ProbedSoFar(session: Session, before: seq<Call>, names: seq<string>, password: string,
                              entries: seq<PortType>)
    reads session
  {
    var calls := CallsOf(TypeCommands(names), None, password);
    && session.history == before + calls
    && entries == MapPairs(PortTypeOf, names, RepliesFor(session.transport, before, calls))
  }

  /** Reads one port's interface type. */
  method Probe(session: Session, port: string, password: string,
               ghost before: seq<Call>, ghost names: seq<string>, entries: seq<PortType>)
    returns (entry: PortType)
    requires ProbedSoFar(session, before, names, password, entries)
    modifies session
    ensures ProbedSoFar(session, before, names + [port], password, entries + [entry])
  {
    ghost var cmds := TypeCommands(names);
    var cmd := TypeCommand(port);
    var reply := session.Run(cmd, None, password);
    var ifaceType := ReadValue(reply);
    entry := PortType(port, ifaceType);
    assert TypeCommands(names + [port]) == cmds + [cmd];
    CallsSnoc(cmds, cmd, None, password);
    RepliesSnoc(session.transport, before, CallsOf(cmds + [cmd], None, password));
    assert CallsOf(cmds + [cmd], None, password)[..|cmds|] == CallsOf(cmds, None, password);
    MapPairsSnoc(PortTypeOf, names, RepliesFor(session.transport, before, CallsOf(cmds, None, password)), port, reply);
  }

  /** The loop over the valid ports, filling `ports_data` and `interfaces_data`. */
  method ProbePorts(session: Session, valid: seq<string>, password: string)
    returns (portsData: seq<PortType>, interfacesData: seq<PortType>)
    modifies session
    ensures ProbedSoFar(session, old(session.history), Probed(valid), password, portsData)
    ensures interfacesData == portsData
  {
    ghost var before := session.history;
    portsData, interfacesData := [], [];
    assert TypeCommands([]) == [];
    assert before + [] == before;
    for i := 0 to |valid|
      invariant ProbedSoFar(session, before, Probed(valid[..i]), password, portsData)
      invariant interfacesData == portsData
    {
      PrefixPrefix(valid, i);
      var port := valid[i];
      assert Probed(valid[..i + 1]) == Probed(valid[..i]) + (if port != "" then [port] else []);
      if port == "" {
        assert Probed(valid[..i + 1]) == Probed(valid[..i]);
        continue;
      }
      assert Probed(valid[..i + 1]) == Probed(valid[..i]) + [port];
      var entry := Probe(session, port, password, before, Probed(valid[..i]), portsData);
      portsData := portsData + [entry];
      interfacesData := interfacesData + [entry];
    }
    TakeAll(valid);
  }

  /** `backup_config()`: the field checks, then the bridge. */
  method BackupConfig(session: Session, req: BackupRequest, now: DateTime)
    returns (result: Result<Saved, BackupError>)
    modifies session
    ensures var run := BackupRunOf(req, now, session.transport, old(session.history));
      result == run.result && session.history == run.history
  {
    if !Truthy(req.password) {
      return Err(PasswordRequired);
    }
    if !Truthy(req.switch) {
      return Err(SwitchRequired);
    }
    var password, switch := req.password.value, req.switch.value;
    result := CheckBridge(session, switch, password, now);
  }

  /** Step 1 of the route: `br-exists`. */
  method CheckBridge(session: Session, switch: string, password: string, now: DateTime)
    returns (result: Result<Saved, BackupError>)
    modifies session
    ensures var run := CheckedRun(switch, password, now, session.transport, old(session.history));
      result == run.result && session.history == run.history
  {
    var check := session.Run(BridgeCheckCommand(switch), None, password);
    if BridgeMissing(check.err) {
      return Err(BridgeDoesNotExist(switch));
    }
    result := ListPorts(session, switch, password, now);
  }

  /** Step 2 of the route: `list-ports`. */
  method ListPorts(session: Session, switch: string, password: string, now: DateTime)
    returns (result: Result<Saved, BackupError>)
    modifies session
    ensures var run := ListedRun(switch, password, now, session.transport, old(session.history));
      result == run.result && session.history == run.history
  {
    var listing := session.Run(ListPortsCommand(switch), None, password);
    if ListingFailed(listing.err) {
      return Err(BridgeNotFound(switch, listing.err));
    }
    var valid := ListedPorts(listing);
    result := Snapshot(session, switch, password, now, valid);
  }

  /** The valid ports of the listing. */
  method ListedPorts(listing: Reply) returns (valid: seq<string>)
    ensures valid == ValidPorts(Cleaned(listing.out))
  {
    var cleanedPorts := CleanOvsOutput(listing.out);
    var portList: seq<string> := [];
    if Strip(cleanedPorts) != "" {
      portList := Filter(NonEmpty, StrippedLines(SplitLines(cleanedPorts)));
    }
    valid := SelectValidPorts(portList);
  }

  /** Steps 3 to 6 of the route: the types, the datapath id, the document and the
      file name. */
  method Snapshot(session: Session, switch: string, password: string, now: DateTime, valid: seq<string>)
    returns (result: Result<Saved, BackupError>)
    modifies session
    ensures var run := SavedRun(switch, password, now, session.transport, old(session.history), valid);
      result == run.result && session.history == run.history
  {
    var portsData, interfacesData := ProbePorts(session, valid, password);
    var datapath := session.Run(DatapathCommand(switch), None, password);
    var datapathId := ReadValue(datapath);
    var doc := BackupDoc([BridgeBackup(switch, datapathId, portsData)], interfacesData);
    var filename := switch + "_backup_" + CompactStamp(now) + ".yaml";
    result := Ok(Saved(filename, "Backup saved to " + filename, |valid|, doc));
  }

  // ---------------------------------------------------------------- properties

  /** Every valid port is a non-empty, stripped name that is not an error text. */
  lemma ValidPortsClean(cleaned: string)
    ensures forall k :: 0 <= k < |ValidPorts(cleaned)| ==>
      var p := ValidPorts(cleaned)[k];
      p != "" && Strip(p) == p && !MentionsError(p)
  {
    var list := PortList(cleaned);
    FilterKept(IsPortName, list);
    if Strip(cleaned) != "" {
      var stripped := StrippedLines(SplitLines(cleaned));
      FilterKept(NonEmpty, stripped);
      forall k | 0 <= k < |list|
        ensures list[k] != "" && Strip(list[k]) == list[k]
      {
        var i :| 0 <= i < |stripped| && stripped[i] == list[k];
        TrimIdempotent(SplitLines(cleaned)[i], Whitespace);
      }
    }
  }

  /** A name is a valid port exactly when some line of the listing strips to it,
      it is not empty, and it is not an error text. */
  lemma ValidPortsMembers(cleaned: string, p: string)
    ensures p in ValidPorts(cleaned) <==>
      && Strip(cleaned) != "" && p != "" && !MentionsError(p)
      && exists i :: 0 <= i < |SplitLines(cleaned)| && Strip(SplitLines(cleaned)[i]) == p
  {
    FilterMembers(IsPortName, PortList(cleaned), p);
    if Strip(cleaned) != "" {
      var stripped := StrippedLines(SplitLines(cleaned));
      FilterMembers(NonEmpty, stripped, p);
      if p in stripped {
        var i :| 0 <= i < |stripped| && stripped[i] == p;
        assert Strip(SplitLines(cleaned)[i]) == p;
      }
      if exists i :: 0 <= i < |SplitLines(cleaned)| && Strip(SplitLines(cleaned)[i]) == p {
        var i :| 0 <= i < |SplitLines(cleaned)| && Strip(SplitLines(cleaned)[i]) == p;
        assert stripped[i] == p;
      }
    }
  }

  /** A read value is empty after an error, and otherwise never holds an error
      text nor starts or ends with a double quote. */
  lemma NormalisedFacts(reply: Reply)
    ensures reply.err != "" ==> Normalised(reply) == ""
    ensures var v := Normalised(reply);
      v != "" ==> && !Contains(Lower(v), "ovs-vsctl:") && !Contains(Lower(v), "error:")
                  && v[0] != '"' && v[|v| - 1] != '"'
  {
    if reply.err == "" {
      ValueOfFacts(Cleaned(reply.out));
    }
  }

  lemma ValueOfFacts(cleaned: string)
    ensures var v := ValueOf(cleaned);
      v != "" ==> && !Contains(Lower(v), "ovs-vsctl:") && !Contains(Lower(v), "error:")
                  && v[0] != '"' && v[|v| - 1] != '"'
  {
    var v := StripQuotes(Strip(cleaned));
    if !(Contains(Lower(v), "ovs-vsctl:") || Contains(Lower(v), "error:")) {
      QuoteEnds(Strip(cleaned));
    }
  }

  lemma QuoteEnds(s: string)
    ensures var q := StripQuotes(s);
      q != [] ==> q[0] != '"' && q[|q| - 1] != '"'
  {
  }

  /** A stripped, unquoted value without error text is read back unchanged. */
  lemma ValueKept(v: string)
    requires Strip(v) == v && (v == [] || (v[0] != '"' && v[|v| - 1] != '"'))
    requires !Contains(Lower(v), "ovs-vsctl:") && !Contains(Lower(v), "error:")
    ensures ValueOf(v) == v
  {
    TrimNoop(v, {'"'});
  }

  /** Once the checks have passed, with non-empty port names: one type probe per
      port in order, then the datapath read. */
  lemma SavedRunCalls(switch: string, password: string, now: DateTime,
                      transport: seq<Call> -> Reply, before: seq<Call>, valid: seq<string>)
    requires forall k :: 0 <= k < |valid| ==> valid[k] != ""
    ensures var history := SavedRun(switch, password, now, transport, before, valid).history;
      && |history| == |before| + |valid| + 1 && history[..|before|] == before
      && history[|before| + |valid|] == Call(DatapathCommand(switch), None, password)
      && forall k :: 0 <= k < |valid| ==> history[|before| + k] == Call(TypeCommand(valid[k]), None, password)
  {
    FilterAll(NonEmpty, valid);
    var probes := CallsOf(TypeCommands(valid), None, password);
    var history := SavedRun(switch, password, now, transport, before, valid).history;
    assert history == before + probes + [Call(DatapathCommand(switch), None, password)];
    forall k | 0 <= k < |valid|
      ensures history[|before| + k] == Call(TypeCommand(valid[k]), None, password)
    {
      assert history[|before| + k] == probes[k];
    }
  }

  /** ... and the document has one bridge, named after the switch, whose ports
      are the interfaces, one entry per valid port ... */
  lemma SavedRunDoc(switch: string, password: string, now: DateTime,
                    transport: seq<Call> -> Reply, before: seq<Call>, valid: seq<string>)
    requires forall k :: 0 <= k < |valid| ==> valid[k] != ""
    ensures var run := SavedRun(switch, password, now, transport, before, valid);
      && run.result.Ok?
      && run.result.value.doc == DocOf(switch, Normalised(Reclassify(transport(run.history))), run.result.value.doc.interfaces)
      && run.result.value.portsFound == |valid| == |run.result.value.doc.interfaces|
      && run.result.value.file == switch + "_backup_" + CompactStamp(now) + ".yaml"
      && run.result.value.message == "Backup saved to " + run.result.value.file
  {
    FilterAll(NonEmpty, valid);
  }

  /** ... each carrying the value read by that port's own probe. */
  lemma SavedRunEntries(switch: string, password: string, now: DateTime,
                        transport: seq<Call> -> Reply, before: seq<Call>, valid: seq<string>, k: nat)
    requires forall k :: 0 <= k < |valid| ==> valid[k] != ""
    requires k < |valid|
    ensures var run := SavedRun(switch, password, now, transport, before, valid);
      && run.result.Ok? && k < |run.result.value.doc.interfaces|
      && run.result.value.doc.interfaces[k] == PortTypeOf(valid[k], ProbeReply(transport, before, valid, password, k))
  {
    var replies := RepliesFor(transport, before, CallsOf(TypeCommands(valid), None, password));
    SavedRunInterfaces(switch, password, now, transport, before, valid);
    assert replies[k] == ProbeReply(transport, before, valid, password, k);
    MapPairsAt(PortTypeOf, valid, replies, k);
  }

  lemma SavedRunInterfaces(switch: string, password: string, now: DateTime,
                           transport: seq<Call> -> Reply, before: seq<Call>, valid: seq<string>)
    requires forall k :: 0 <= k < |valid| ==> valid[k] != ""
    ensures var run := SavedRun(switch, password, now, transport, before, valid);
      && run.result.Ok?
      && run.result.value.doc.interfaces
         == MapPairs(PortTypeOf, valid, RepliesFor(transport, before, CallsOf(TypeCommands(valid), None, password)))
  {
    FilterAll(NonEmpty, valid);
  }

  /** The reply to the probe of `valid[k]`: the executor's answer once the probes
      up to and including it have been made. */
  function ProbeReply(transport: seq<Call> -> Reply, before: seq<Call>, valid: seq<string>, password: string,
                      k: nat): Reply
    requires k < |valid|
  {
    Reclassify(transport(before + CallsOf(TypeCommands(valid), None, password)[..k + 1]))
  }

  /** The field checks come first and call nothing. */
  lemma BackupRejects(req: BackupRequest, now: DateTime, transport: seq<Call> -> Reply, before: seq<Call>)
    ensures var run := BackupRunOf(req, now, transport, before);
      && (run.result == Err(PasswordRequired) <==> !Truthy(req.password))
      && (run.result == Err(SwitchRequired) <==> Truthy(req.password) && !Truthy(req.switch))
      && (run.result in {Err(PasswordRequired), Err(SwitchRequired)} ==> run.history == before)
  {
  }

  /** A bridge that does not exist stops the route after its check; a failed
      listing stops it after the listing; no port is probed in either case. */
  lemma BackupAborts(req: BackupRequest, now: DateTime, transport: seq<Call> -> Reply, before: seq<Call>)
    requires Truthy(req.password) && Truthy(req.switch)
    ensures var run := BackupRunOf(req, now, transport, before);
      var switch, password := req.switch.value, req.password.value;
      var check := Call(BridgeCheckCommand(switch), None, password);
      var list := Call(ListPortsCommand(switch), None, password);
      && (run.result == Err(BridgeDoesNotExist(switch)) <==> BridgeMissing(Reclassify(transport(before + [check])).err))
      && (run.result == Err(BridgeDoesNotExist(switch)) ==> run.history == before + [check])
      && (run.result.Err? && run.result.error.BridgeNotFound? ==>
            && run.history == before + [check, list]
            && run.result.error.err == Reclassify(transport(before + [check, list])).err
            && ListingFailed(run.result.error.err))
  {
    assert before + [Call(BridgeCheckCommand(req.switch.value), None, req.password.value)]
      + [Call(ListPortsCommand(req.switch.value), None, req.password.value)]
      == before + [Call(BridgeCheckCommand(req.switch.value), None, req.password.value),
                   Call(ListPortsCommand(req.switch.value), None, req.password.value)];
  }

  /** A saved backup went through both checks and is the snapshot of the listed
      valid ports. */
  lemma BackupSucceeds(req: BackupRequest, now: DateTime, transport: seq<Call> -> Reply, before: seq<Call>)
    requires BackupRunOf(req, now, transport, before).result.Ok?
    ensures Truthy(req.password) && Truthy(req.switch)
    ensures var switch, password := req.switch.value, req.password.value;
      var check := Call(BridgeCheckCommand(switch), None, password);
      var list := Call(ListPortsCommand(switch), None, password);
      var listing := Reclassify(transport(before + [check, list]));
      && !BridgeMissing(Reclassify(transport(before + [check])).err)
      && !ListingFailed(listing.err)
      && BackupRunOf(req, now, transport, before)
         == SavedRun(switch, password, now, transport, before + [check, list], ValidPorts(Cleaned(listing.out)))
  {
    var switch, password := req.switch.value, req.password.value;
    assert before + [Call(BridgeCheckCommand(switch), None, password)] + [Call(ListPortsCommand(switch), None, password)]
      == before + [Call(BridgeCheckCommand(switch), None, password), Call(ListPortsCommand(switch), None, password)];
  }
}
