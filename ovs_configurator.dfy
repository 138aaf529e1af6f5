/** services/ovs_configurator.py: `apply_configuration_from_yaml`, which restores
    bridges and their ports from a loaded configuration through the remote
    executor. */
module OvsConfigurator {
  import opened Wrappers
  import opened SshUtils
  import opened OvsCommands

  /** The fields of the loaded YAML the restore reads; None is a missing key. */
  datatype PortEntry = PortEntry(name: Option<string>)
  datatype BridgeEntry = BridgeEntry(name: Option<string>, ports: Option<seq<PortEntry>>)
  datatype RestoreConfig = RestoreConfig(bridges: Option<seq<BridgeEntry>>)

  /** One `(cmd, out, err)` triple of the returned list. */
  datatype Outcome = Outcome(cmd: string, out: string, err: string)

  function OutcomeOf(cmd: string, reply: Reply): Outcome {
    Outcome(cmd, reply.out, reply.err)
  }

  /** `add-port` for each port with a truthy name, in order. */
  function PortRestore(bridge: string, ports: seq<PortEntry>): seq<Command> {
    if ports == [] then []
    else
      var p := ports[|ports| - 1];
      PortRestore(bridge, ports[..|ports| - 1]) + (if Truthy(p.name) then [AddPort(bridge, p.name.value)] else [])
  }

  /** A named bridge: `add-br`, then its ports; an unnamed one: nothing at all. */
  function BridgeRestore(b: BridgeEntry): seq<Command> {
    if Truthy(b.name) then [AddBr(b.name.value)] + PortRestore(b.name.value, b.ports.GetOr([])) else []
  }

  function RestoreCommandsOf(bridges: seq<BridgeEntry>): seq<Command> {
    Concat(BridgeRestore, bridges)
  }

  /** The commands `apply_configuration_from_yaml` issues, in order. */
  function RestorePlan(config: RestoreConfig): seq<Command> {
    RestoreCommandsOf(config.bridges.GetOr([]))
  }

  /** The session has made exactly the calls of `plan` since `before`, and `results`
      holds one triple per call, in order. */
  ghost predicate Logged(session: Session, before: seq<Call>, plan: seq<Command>, host: Option<string>,
                         password: string, results: seq<Outcome>)
    reads session
  {
    var calls := CallsOf(RenderAll(plan), host, password);
    && session.history == before + calls
    && results == MapPairs(OutcomeOf, RenderAll(plan), RepliesFor(session.transport, before, calls))
  }

  lemma RenderSnoc(plan: seq<Command>, c: Command)
    ensures RenderAll(plan + [c]) == RenderAll(plan) + [Render(c)]
  {
  }

  /** Runs one command and records its triple. */
  method Issue(session: Session, c: Command, host: Option<string>, password: string,
               ghost before: seq<Call>, ghost plan: seq<Command>, results: seq<Outcome>)
    returns (results': seq<Outcome>)
    requires Logged(session, before, plan, host, password, results)
    modifies session
    ensures Logged(session, before, plan + [c], host, password, results')
  {
    ghost var cmds := RenderAll(plan);
    var cmd := Render(c);
    var reply := session.Run(cmd, host, password);
    results' := results + [OutcomeOf(cmd, reply)];
    RenderSnoc(plan, c);
    CallsSnoc(cmds, cmd, host, password);
    RepliesSnoc(session.transport, before, CallsOf(cmds + [cmd], host, password));
    assert CallsOf(cmds + [cmd], host, password)[..|cmds|] == CallsOf(cmds, host, password);
    MapPairsSnoc(OutcomeOf, cmds, RepliesFor(session.transport, before, CallsOf(cmds, host, password)), cmd, reply);
  }

  lemma LoggedStart(session: Session, host: Option<string>, password: string)
    ensures Logged(session, session.history, [], host, password, [])
  {
    assert RenderAll([]) == [];
    assert session.history + [] == session.history;
  }

  /** `apply_configuration_from_yaml(config, switch_host, ssh_password)` */
  method ApplyConfiguration(session: Session, config: RestoreConfig, host: Option<string>, password: string)
    returns (results: seq<Outcome>)
    modifies session
    ensures Logged(session, old(session.history), RestorePlan(config), host, password, results)
  {
    ghost var before := session.history;
    var bridges := config.bridges.GetOr([]);
    results := [];
    ghost var plan: seq<Command> := [];
    LoggedStart(session, host, password);
    for i := 0 to |bridges|
      invariant plan == RestoreCommandsOf(bridges[..i])
      invariant Logged(session, before, plan, host, password, results)
    {
      PrefixPrefix(bridges, i);
      results, plan := RestoreBridge(session, bridges[i], host, password, before, plan, results);
    }
    TakeAll(bridges);
  }

  /** The body of the outer loop: a named bridge and its ports, or nothing. */
  method RestoreBridge(session: Session, bridge: BridgeEntry, host: Option<string>, password: string,
                       ghost before: seq<Call>, ghost plan: seq<Command>, results: seq<Outcome>)
    returns (results': seq<Outcome>, ghost plan': seq<Command>)
    requires Logged(session, before, plan, host, password, results)
    modifies session
    ensures plan' == plan + BridgeRestore(bridge)
    ensures Logged(session, before, plan', host, password, results')
  {
    results', plan' := results, plan;
    if Truthy(bridge.name) {
      var bridgeName := bridge.name.value;
      results' := Issue(session, AddBr(bridgeName), host, password, before, plan', results');
      plan' := plan' + [AddBr(bridgeName)];
      results', plan' := RestorePorts(session, bridgeName, bridge.ports.GetOr([]), host, password, before, plan', results');
      AppendAssoc(plan, [AddBr(bridgeName)], PortRestore(bridgeName, bridge.ports.GetOr([])));
    } else {
      assert plan' == plan + [];
    }
  }

  /** The inner loop: one `add-port` per named port of the bridge. */
  method RestorePorts(session: Session, bridgeName: string, ports: seq<PortEntry>, host: Option<string>, password: string,
                      ghost before: seq<Call>, ghost plan: seq<Command>, results: seq<Outcome>)
    returns (results': seq<Outcome>, ghost plan': seq<Command>)
    requires Logged(session, before, plan, host, password, results)
    modifies session
    ensures plan' == plan + PortRestore(bridgeName, ports)
    ensures Logged(session, before, plan', host, password, results')
  {
    results', plan' := results, plan;
    for j := 0 to |ports|
      invariant plan' == plan + PortRestore(bridgeName, ports[..j])
      invariant Logged(session, before, plan', host, password, results')
    {
      PrefixPrefix(ports, j);
      var port := ports[j];
      if Truthy(port.name) {
        results' := Issue(session, AddPort(bridgeName, port.name.value), host, password, before, plan', results');
        plan' := plan' + [AddPort(bridgeName, port.name.value)];
      }
    }
    TakeAll(ports);
  }

  // ---------------------------------------------------------------- properties

  predicate NamedPort(p: PortEntry) {
    Truthy(p.name)
  }

  /** Port commands are exactly `add-port <bridge> <p>` for the named ports, in order. */
  lemma {:induction false} PortRestoreExact(bridge: string, ports: seq<PortEntry>)
    ensures var named := Filter(NamedPort, ports);
      && |PortRestore(bridge, ports)| == |named|
      && forall k :: 0 <= k < |named| ==>
           NamedPort(named[k]) && PortRestore(bridge, ports)[k] == AddPort(bridge, named[k].name.value)
  {
    FilterKept(NamedPort, ports);
    if ports != [] {
      PortRestoreExact(bridge, ports[..|ports| - 1]);
    }
  }

  /** Restoring a list of bridges is restoring each part in turn. */
  lemma RestoreAppend(a: seq<BridgeEntry>, b: seq<BridgeEntry>)
    ensures RestoreCommandsOf(a + b) == RestoreCommandsOf(a) + RestoreCommandsOf(b)
  {
    ConcatAppend(BridgeRestore, a, b);
  }

  /** One bridge entry restores as `add-br` and its named ports, or, without a
      name, not at all. */
  lemma RestoreOne(b: BridgeEntry)
    ensures RestoreCommandsOf([b]) == BridgeRestore(b)
    ensures BridgeRestore(b) == [] <==> !Truthy(b.name)
  {
    assert [b][..0] == [];
    assert Concat(BridgeRestore, [b][..0]) == [];
  }

  /** Only `add-br` and `add-port` are ever issued: types, tags and interfaces
      are not restored. */
  lemma {:induction false} RestoreOnlyAdds(bridges: seq<BridgeEntry>)
    ensures forall c :: c in RestoreCommandsOf(bridges) ==> c.IsAdd()
  {
    if bridges != [] {
      RestoreOnlyAdds(bridges[..|bridges| - 1]);
      var b := bridges[|bridges| - 1];
      if Truthy(b.name) {
        PortRestoreExact(b.name.value, b.ports.GetOr([]));
      }
    }
  }

  /** A missing `bridges` key restores nothing; a missing `ports` key restores
      the bridge alone. */
  lemma RestoreMissingKeys(name: string)
    ensures RestorePlan(RestoreConfig(None)) == []
    ensures name != "" ==> BridgeRestore(BridgeEntry(Some(name), None)) == [AddBr(name)]
  {
  }

  /** The returned list has one triple per issued command, in issue order, and
      every call went to the same host with the same password. */
  lemma LoggedCalls(session: Session, before: seq<Call>, plan: seq<Command>, host: Option<string>,
                    password: string, results: seq<Outcome>)
    requires Logged(session, before, plan, host, password, results)
    ensures |results| == |plan| && |session.history| == |before| + |plan|
    ensures forall k :: 0 <= k < |plan| ==>
      && results[k].cmd == Render(plan[k])
      && session.history[|before| + k] == Call(Render(plan[k]), host, password)
  {
    var cmds := RenderAll(plan);
    var replies := RepliesFor(session.transport, before, CallsOf(cmds, host, password));
    forall k | 0 <= k < |plan|
      ensures results[k].cmd == Render(plan[k])
    {
      MapPairsAt(OutcomeOf, cmds, replies, k);
    }
  }
}
