/** What `generate_backup_commands` promises about the restore list it builds:
    block splitting, the identifier maps, bridge order, port resolution, the
    place of the `set` commands and the failing inputs. */
module BackupProperties {
  import opened Wrappers
  import opened PyStr
  import opened OvsCommands
  import opened BackupUtils

  // ---------------------------------------------------------------- blocks

  function Flatten(bs: seq<seq<string>>): seq<string> {
    if bs == [] then [] else Flatten(bs[..|bs| - 1]) + bs[|bs| - 1]
  }

  /** The non-blank lines, in order. */
  function NonBlank(lines: seq<string>): seq<string> {
    if lines == [] then []
    else
      var last := lines[|lines| - 1];
      NonBlank(lines[..|lines| - 1]) + (if IsBlank(last) then [] else [last])
  }

  predicate NoBlankLine(block: seq<string>) {
    forall j :: 0 <= j < |block| ==> !IsBlank(block[j])
  }

  predicate BlocksOk(bs: seq<seq<string>>) {
    forall k :: 0 <= k < |bs| ==> bs[k] != [] && NoBlankLine(bs[k])
  }

  lemma FlattenAppend(bs: seq<seq<string>>, b: seq<string>)
    ensures Flatten(bs + [b]) == Flatten(bs) + b
  {
    assert (bs + [b])[..|bs|] == bs;
  }

  /** One step keeps the finished blocks non-empty and every block free of blank lines. */
  lemma SplitStepKeeps(st: Splitter, line: string)
    requires BlocksOk(st.blocks) && NoBlankLine(st.current)
    ensures BlocksOk(SplitStep(st, line).blocks) && NoBlankLine(SplitStep(st, line).current)
  {
    if IsBlank(line) {
      if st.current != [] {
        var bs := st.blocks + [st.current];
        forall k | 0 <= k < |bs|
          ensures bs[k] != [] && NoBlankLine(bs[k])
        {
          if k < |st.blocks| {
            assert bs[k] == st.blocks[k];
          }
        }
      }
    } else {
      var c := st.current + [line];
      forall j | 0 <= j < |c|
        ensures !IsBlank(c[j])
      {
        if j < |st.current| {
          assert c[j] == st.current[j];
        }
      }
    }
  }

  lemma {:induction false} SplitStateInvariant(lines: seq<string>)
    ensures BlocksOk(SplitState(lines).blocks)
    ensures NoBlankLine(SplitState(lines).current)
    ensures Flatten(SplitState(lines).blocks) + SplitState(lines).current == NonBlank(lines)
  {
    if lines != [] {
      var init, line := lines[..|lines| - 1], lines[|lines| - 1];
      SplitStateInvariant(init);
      var st := SplitState(init);
      SplitStepKeeps(st, line);
      if IsBlank(line) {
        assert NonBlank(lines) == NonBlank(init);
        if st.current != [] {
          FlattenAppend(st.blocks, st.current);
          AppendNil(Flatten(st.blocks + [st.current]));
        }
      } else {
        AppendAssoc(Flatten(st.blocks), st.current, [line]);
      }
    }
  }

  /** Blank-line splitting yields non-empty blocks free of blank lines, and the
      blocks laid end to end are the non-blank lines in their original order. */
  lemma BlocksWellFormed(lines: seq<string>)
    ensures BlocksOk(Blocks(lines))
    ensures Flatten(Blocks(lines)) == NonBlank(lines)
  {
    SplitStateInvariant(lines);
    var st := SplitState(lines);
    if st.current != [] {
      FlattenAppend(st.blocks, st.current);
    } else {
      assert Flatten(st.blocks) + [] == Flatten(st.blocks);
    }
  }

  // ---------------------------------------------------------------- identifier maps

  /** A block whose `_uuid` line has no ':' makes reading all blocks fail. */
  lemma ReadAllIdsFails(blocks: seq<seq<string>>, b: int, i: int)
    requires 0 <= b < |blocks| && 0 <= i < |blocks[b]|
    requires StartsWith(Strip(blocks[b][i]), "_uuid") && ':' !in Strip(blocks[b][i])
    ensures ReadAllIds(blocks).Err?
  {
    FoldFailsAt(IdStep, IdRecord(None, None), blocks[b], i);
    TraverseFails(ReadIds, blocks, b);
  }

  /** The port map holds exactly the non-empty identifiers of the records,
      whether or not the record names the port. */
  lemma {:induction false} PortMapKeys(recs: seq<IdRecord>, u: string)
    ensures u in PortMapOf(recs) <==> u != "" && exists k :: 0 <= k < |recs| && recs[k].uuid == Some(u)
  {
    if recs != [] {
      var init := recs[..|recs| - 1];
      PortMapKeys(init, u);
      assert forall k :: 0 <= k < |init| ==> init[k] == recs[k];
      if u != "" && exists k :: 0 <= k < |recs| && recs[k].uuid == Some(u) {
        var k :| 0 <= k < |recs| && recs[k].uuid == Some(u);
        if k < |init| {
          assert init[k].uuid == Some(u);
        }
      }
    }
  }

  /** The port map records the name of the last record with that identifier, None
      when that record names no port. */
  lemma {:induction false} PortMapLastWins(recs: seq<IdRecord>, k: int, u: string)
    requires 0 <= k < |recs| && recs[k].uuid == Some(u) && u != ""
    requires forall j :: k < j < |recs| ==> recs[j].uuid != Some(u)
    ensures u in PortMapOf(recs) && PortMapOf(recs)[u] == recs[k].name
  {
    var init := recs[..|recs| - 1];
    if k < |init| {
      assert init[k] == recs[k];
      forall j | k < j < |init|
        ensures init[j].uuid != Some(u)
      {
        assert init[j] == recs[j];
      }
      PortMapLastWins(init, k, u);
    }
  }

  /** The interface map holds exactly the identifiers of records that have both a
      non-empty identifier and a non-empty name, and every name it holds is
      non-empty. */
  lemma {:induction false} IfaceMapKeys(recs: seq<IdRecord>, u: string)
    ensures u in IfaceMapOf(recs) <==> u != "" && exists k :: 0 <= k < |recs| && recs[k].uuid == Some(u) && Truthy(recs[k].name)
    ensures u in IfaceMapOf(recs) ==> IfaceMapOf(recs)[u] != ""
  {
    if recs != [] {
      var init := recs[..|recs| - 1];
      IfaceMapKeys(init, u);
      assert forall k :: 0 <= k < |init| ==> init[k] == recs[k];
      if u != "" && exists k :: 0 <= k < |recs| && recs[k].uuid == Some(u) && Truthy(recs[k].name) {
        var k :| 0 <= k < |recs| && recs[k].uuid == Some(u) && Truthy(recs[k].name);
        if k < |init| {
          assert init[k].uuid == Some(u);
        }
      }
    }
  }

  /** The interface map records the name of the last named record with that
      identifier. */
  lemma {:induction false} IfaceMapLastWins(recs: seq<IdRecord>, k: int, u: string)
    requires 0 <= k < |recs| && recs[k].uuid == Some(u) && u != "" && Truthy(recs[k].name)
    requires forall j :: k < j < |recs| ==> !(recs[j].uuid == Some(u) && Truthy(recs[j].name))
    ensures u in IfaceMapOf(recs) && IfaceMapOf(recs)[u] == recs[k].name.value
  {
    var init := recs[..|recs| - 1];
    if k < |init| {
      assert init[k] == recs[k];
      forall j | k < j < |init|
        ensures !(init[j].uuid == Some(u) && Truthy(init[j].name))
      {
        assert init[j] == recs[j];
      }
      IfaceMapLastWins(init, k, u);
    }
  }

  // ---------------------------------------------------------------- bridges table

  /** A stripped line the table reads as a bridge name. */
  predicate IsNameLine(raw: string) {
    StartsWith(Strip(raw), "name")
  }

  /** `bridges` as a dict: its keys, kept once each in insertion order, are the
      bridges known, every identifier listed is non-empty, and the current bridge
      is one of them. */
  ghost predicate TableOk(t: BridgeTable) {
    && (forall i, j :: 0 <= i < j < |t.order| ==> t.order[i] != t.order[j])
    && (forall b :: b in t.ports <==> b in t.order)
    && (forall b, k :: b in t.ports && 0 <= k < |t.ports[b]| ==> t.ports[b][k] != "")
    && (t.current.Some? ==> t.current.value in t.ports)
  }

  lemma BridgeTableSnoc(lines: seq<string>)
    requires lines != [] && BridgeTableOf(lines).Ok?
    ensures BridgeTableOf(lines[..|lines| - 1]).Ok?
    ensures var t := BridgeTableOf(lines[..|lines| - 1]).value;
      && ReadBridgeLine(lines[|lines| - 1], Truthy(t.current)).Ok?
      && BridgeTableOf(lines).value == ApplyBridgeLine(t, ReadBridgeLine(lines[|lines| - 1], Truthy(t.current)).value)
  {
  }

  lemma ApplyBridgeLineKeepsOk(t: BridgeTable, l: BridgeLine)
    requires TableOk(t)
    requires l.PortsLine? ==> forall k :: 0 <= k < |l.ids| ==> l.ids[k] != ""
    ensures TableOk(ApplyBridgeLine(t, l))
  {
    if l.NameLine? && l.bridge !in t.ports {
      var t' := ApplyBridgeLine(t, l);
      forall i, j | 0 <= i < j < |t'.order|
        ensures t'.order[i] != t'.order[j]
      {
        if j == |t.order| {
          assert t.order[i] in t.ports;
        }
      }
    }
  }

  lemma {:induction false} BridgeTableWellFormed(lines: seq<string>)
    requires BridgeTableOf(lines).Ok?
    ensures TableOk(BridgeTableOf(lines).value)
  {
    if lines != [] {
      var init := lines[..|lines| - 1];
      BridgeTableSnoc(lines);
      BridgeTableWellFormed(init);
      var t := BridgeTableOf(init).value;
      ApplyBridgeLineKeepsOk(t, ReadBridgeLine(lines[|lines| - 1], Truthy(t.current)).value);
    }
  }

  /** `ports` lines met before any `name` line change nothing. */
  lemma {:induction false} PortsBeforeNameIgnored(lines: seq<string>)
    requires forall i :: 0 <= i < |lines| ==> !IsNameLine(lines[i])
    ensures BridgeTableOf(lines) == Ok(EmptyTable)
  {
    if lines != [] {
      var n := |lines| - 1;
      PortsBeforeNameIgnored(lines[..n]);
      IgnoredLineStep(lines, n);
      TakeAll(lines);
    }
  }

  lemma IgnoredLineStep(lines: seq<string>, n: nat)
    requires n < |lines| && BridgeTableOf(lines[..n]) == Ok(EmptyTable) && !IsNameLine(lines[n])
    ensures BridgeTableOf(lines[..n + 1]) == Ok(EmptyTable)
  {
    FoldResultStep(BridgeStep, EmptyTable, lines, n, EmptyTable);
    EmptyTableStep(lines[n]);
  }

  /** With no bridge open, a line that is not a `name` line changes nothing. */
  lemma EmptyTableStep(line: string)
    ensures !IsNameLine(line) ==> BridgeStep(EmptyTable, line) == Ok(EmptyTable)
  {
    if !IsNameLine(line) {
      assert ReadBridgeLine(line, false) == Ok(OtherLine);
    }
  }

  /** A `name` line makes its bridge current with an empty identifier list; a
      bridge named again keeps its place in the order but loses the identifiers
      gathered before. */
  lemma NameLineResets(lines: seq<string>, line: string, t: BridgeTable)
    requires BridgeTableOf(lines) == Ok(t)
    requires IsNameLine(line) && ':' in Strip(line)
    ensures var br := StripQuotes(FieldValue(Strip(line)).value);
      && BridgeTableOf(lines + [line]).Ok?
      && PortsOf(BridgeTableOf(lines + [line]).value.ports, br) == []
      && BridgeTableOf(lines + [line]).value.current == Some(br)
      && (br in t.ports ==> BridgeTableOf(lines + [line]).value.order == t.order)
      && (br !in t.ports ==> BridgeTableOf(lines + [line]).value.order == t.order + [br])
      && forall b :: b != br ==> PortsOf(BridgeTableOf(lines + [line]).value.ports, b) == PortsOf(t.ports, b)
  {
    var br := StripQuotes(FieldValue(Strip(line)).value);
    FoldResultAppend(BridgeStep, EmptyTable, lines, line, t);
    NameStep(t, line);
    UpdateFrame(t.ports, br, []);
  }

  lemma NameStep(t: BridgeTable, line: string)
    requires IsNameLine(line) && ':' in Strip(line)
    ensures BridgeStep(t, line) == Ok(ApplyBridgeLine(t, NameLine(StripQuotes(FieldValue(Strip(line)).value))))
  {
  }

  lemma ReadPortsLine(line: string)
    requires !IsNameLine(line) && StartsWith(Strip(line), "ports") && ':' in Strip(line)
    ensures ReadBridgeLine(line, true) == Ok(PortsLine(PortIds(FieldValue(Strip(line)).value)))
  {
  }

  /** A `ports` line of the current bridge appends its identifiers, after the
      ones it already has. */
  lemma PortsLineExtends(lines: seq<string>, line: string, t: BridgeTable)
    requires BridgeTableOf(lines) == Ok(t)
    requires !IsNameLine(line) && StartsWith(Strip(line), "ports") && Truthy(t.current) && ':' in Strip(line)
    ensures var br := t.current.value;
      && BridgeTableOf(lines + [line]).Ok?
      && PortsOf(BridgeTableOf(lines + [line]).value.ports, br)
         == PortsOf(t.ports, br) + PortIds(FieldValue(Strip(line)).value)
      && BridgeTableOf(lines + [line]).value.order == t.order
      && BridgeTableOf(lines + [line]).value.current == t.current
      && forall b :: b != br ==> PortsOf(BridgeTableOf(lines + [line]).value.ports, b) == PortsOf(t.ports, b)
  {
    FoldResultAppend(BridgeStep, EmptyTable, lines, line, t);
    PortsStep(t, line);
    UpdateFrame(t.ports, t.current.value, PortsOf(t.ports, t.current.value) + PortIds(FieldValue(Strip(line)).value));
  }

  /** Setting one bridge's list leaves every other bridge's list as it was. */
  lemma UpdateFrame(ports: map<string, seq<string>>, br: string, ids: seq<string>)
    ensures forall b :: b != br ==> PortsOf(ports[br := ids], b) == PortsOf(ports, b)
  {
  }

  lemma PortsStep(t: BridgeTable, line: string)
    requires !IsNameLine(line) && StartsWith(Strip(line), "ports") && Truthy(t.current) && ':' in Strip(line)
    ensures var br, ids := t.current.value, PortIds(FieldValue(Strip(line)).value);
      BridgeStep(t, line) == Ok(t.(ports := t.ports[br := PortsOf(t.ports, br) + ids]))
  {
    ReadPortsLine(line);
  }

  /** A comprehension over parts that `f` leaves alone, none of them empty, keeps them all. */
  lemma {:induction false} NonEmptyOfKeeps(f: string -> string, parts: seq<string>)
    requires forall k :: 0 <= k < |parts| ==> parts[k] != "" && f(parts[k]) == parts[k]
    ensures NonEmptyOf(f, parts) == parts
  {
    if parts != [] {
      var init := parts[..|parts| - 1];
      NonEmptyOfKeeps(f, init);
      assert parts == init + [parts[|parts| - 1]];
    }
  }

  lemma NonEmptyStrippedKeeps(parts: seq<string>)
    requires forall k :: 0 <= k < |parts| ==> parts[k] != "" && Strip(parts[k]) == parts[k]
    ensures NonEmptyStripped(parts) == parts
  {
    NonEmptyOfKeeps(Strip, parts);
  }

  /** The identifier list `[]` adds nothing. */
  lemma PortIdsEmptyList()
    ensures PortIds("[]") == []
    ensures PortIds("") == []
  {
    TrimAllDropped("[]", {'[', ']'});
    assert Split("", ',') == [""];
    assert Strip("") == "";
  }

  /** Brackets around a text that neither starts nor ends with one come off. */
  lemma TrimBrackets(body: string)
    requires body != [] && body[0] !in "[]" && body[|body| - 1] !in "[]"
    ensures Trim("[" + body + "]", {'[', ']'}) == body
  {
    var s := "[" + body + "]";
    var drop := {'[', ']'};
    var left := TrimLeft(s, drop);
    assert s[1] == body[0];
    assert left == s[1..];
    assert s[1..] == body + "]";
    var right := TrimRight(left, drop);
    assert left[|left| - 2] == body[|body| - 1];
    assert right == left[..|left| - 1];
    assert left[..|left| - 1] == body;
  }

  lemma BracketedJoinTrims(ids: seq<string>)
    requires ids != []
    requires forall k :: 0 <= k < |ids| ==> ids[k] != ""
    requires ids[0][0] !in "[]" && ids[|ids| - 1][|ids[|ids| - 1]| - 1] !in "[]"
    ensures Trim("[" + Join(ids, ",") + "]", {'[', ']'}) == Join(ids, ",")
  {
    JoinBounds(ids, ",");
    TrimBrackets(Join(ids, ","));
  }

  /** A list of identifiers written between brackets and separated by commas
      reads back as the same list. */
  lemma PortIdsRoundTrip(ids: seq<string>)
    requires ids != []
    requires forall k :: 0 <= k < |ids| ==> ids[k] != "" && Strip(ids[k]) == ids[k] && ',' !in ids[k]
    requires ids[0][0] !in "[]" && ids[|ids| - 1][|ids[|ids| - 1]| - 1] !in "[]"
    ensures PortIds("[" + Join(ids, ",") + "]") == ids
  {
    BracketedJoinTrims(ids);
    SplitJoin(ids, ',');
    NonEmptyStrippedKeeps(ids);
  }

  /** The first and last characters of a join are those of its first and last parts. */
  lemma {:induction false} JoinBounds(parts: seq<string>, sep: string)
    requires parts != [] && forall k :: 0 <= k < |parts| ==> parts[k] != []
    ensures var j := Join(parts, sep);
      j != [] && j[0] == parts[0][0] && j[|j| - 1] == parts[|parts| - 1][|parts[|parts| - 1]| - 1]
  {
    if |parts| > 1 {
      var rest := parts[1..];
      JoinBounds(rest, sep);
    }
  }

  // ---------------------------------------------------------------- commands

  /** The bridges the `add-br` commands of `cs` create, in order. */
  function AddedBridges(cs: seq<Command>): seq<string> {
    if cs == [] then []
    else
      var c := cs[|cs| - 1];
      AddedBridges(cs[..|cs| - 1]) + (if c.AddBr? then [c.bridge] else [])
  }

  lemma {:induction false} AddedBridgesAppend(a: seq<Command>, b: seq<Command>)
    ensures AddedBridges(a + b) == AddedBridges(a) + AddedBridges(b)
    decreases |b|
  {
    if b != [] {
      var init := b[..|b| - 1];
      assert (a + b)[..|a + b| - 1] == a + init;
      assert (a + b)[|a + b| - 1] == b[|b| - 1];
      AddedBridgesAppend(a, init);
    } else {
      assert a + b == a;
    }
  }

  /** Exactly one `add-port <br> X` per declared identifier, in declared order,
      with X the resolved name: no identifier is dropped. */
  lemma {:induction false} PortCommandsExact(br: string, ids: seq<string>, pm: map<string, Option<string>>, im: map<string, string>)
    ensures |PortCommands(br, ids, pm, im)| == |ids|
    ensures forall k :: 0 <= k < |ids| ==> PortCommands(br, ids, pm, im)[k] == AddPort(br, Resolve(ids[k], pm, im))
  {
    if ids != [] {
      PortCommandsExact(br, ids[..|ids| - 1], pm, im);
    }
  }

  lemma {:induction false} PortCommandsAddNoBridge(br: string, ids: seq<string>, pm: map<string, Option<string>>, im: map<string, string>)
    ensures AddedBridges(PortCommands(br, ids, pm, im)) == []
  {
    if ids != [] {
      var init := ids[..|ids| - 1];
      PortCommandsAddNoBridge(br, init, pm, im);
      var pc := PortCommands(br, ids, pm, im);
      assert pc[..|pc| - 1] == PortCommands(br, init, pm, im);
    }
  }

  /** One `add-br` per bridge, in the table's order, and no other. */
  lemma {:induction false} BridgeCommandsAddOrder(order: seq<string>, ports: map<string, seq<string>>,
                                                  pm: map<string, Option<string>>, im: map<string, string>)
    ensures AddedBridges(BridgeCommands(order, ports, pm, im)) == order
  {
    if order != [] {
      var init, br := order[..|order| - 1], order[|order| - 1];
      BridgeCommandsAddOrder(init, ports, pm, im);
      PortCommandsAddNoBridge(br, PortsOf(ports, br), pm, im);
      AddedBridgesAppend(BridgeCommands(init, ports, pm, im) + [AddBr(br)], PortCommands(br, PortsOf(ports, br), pm, im));
      AddedBridgesAppend(BridgeCommands(init, ports, pm, im), [AddBr(br)]);
      assert AddedBridges([AddBr(br)]) == [br] by {
        assert [AddBr(br)][..0] == [];
      }
    }
  }

  lemma {:induction false} BridgeCommandsAppend(a: seq<string>, b: seq<string>, ports: map<string, seq<string>>,
                                                pm: map<string, Option<string>>, im: map<string, string>)
    ensures BridgeCommands(a + b, ports, pm, im) == BridgeCommands(a, ports, pm, im) + BridgeCommands(b, ports, pm, im)
    decreases |b|
  {
    if b != [] {
      var init := b[..|b| - 1];
      assert (a + b)[..|a + b| - 1] == a + init;
      assert (a + b)[|a + b| - 1] == b[|b| - 1];
      BridgeCommandsAppend(a, init, ports, pm, im);
    } else {
      assert a + b == a;
    }
  }

  /** The section of bridge `order[k]`: its `add-br` immediately followed by its
      `add-port` commands, between the sections of the bridges before and after. */
  lemma BridgeSection(order: seq<string>, k: int, ports: map<string, seq<string>>,
                      pm: map<string, Option<string>>, im: map<string, string>)
    requires 0 <= k < |order|
    ensures BridgeCommands(order, ports, pm, im)
      == BridgeCommands(order[..k], ports, pm, im)
         + [AddBr(order[k])] + PortCommands(order[k], PortsOf(ports, order[k]), pm, im)
         + BridgeCommands(order[k + 1..], ports, pm, im)
  {
    assert order == order[..k + 1] + order[k + 1..];
    BridgeCommandsAppend(order[..k + 1], order[k + 1..], ports, pm, im);
    PrefixPrefix(order, k);
  }

  predicate AllAdds(cs: seq<Command>) {
    forall k :: 0 <= k < |cs| ==> cs[k].IsAdd()
  }

  /** A `set` command names a non-empty interface and a non-empty type or tag. */
  predicate GoodSet(c: Command) {
    && !c.IsAdd()
    && (c.SetInterfaceType? ==> c.iface != "" && c.ifaceType != "")
    && (c.SetPortTag? ==> c.port != "" && c.tag != "")
  }

  lemma {:induction false} PortCommandsAllAdds(br: string, ids: seq<string>, pm: map<string, Option<string>>, im: map<string, string>)
    ensures AllAdds(PortCommands(br, ids, pm, im))
  {
    if ids != [] {
      PortCommandsAllAdds(br, ids[..|ids| - 1], pm, im);
    }
  }

  lemma {:induction false} BridgeCommandsAllAdds(order: seq<string>, ports: map<string, seq<string>>,
                                                 pm: map<string, Option<string>>, im: map<string, string>)
    ensures AllAdds(BridgeCommands(order, ports, pm, im))
  {
    if order != [] {
      var br := order[|order| - 1];
      BridgeCommandsAllAdds(order[..|order| - 1], ports, pm, im);
      PortCommandsAllAdds(br, PortsOf(ports, br), pm, im);
    }
  }

  /** Every `set` command comes from a named block and carries a non-empty type or tag. */
  lemma {:induction false} SetCommandsGood(blocks: seq<seq<string>>)
    requires SetCommands(blocks).Ok?
    ensures forall k :: 0 <= k < |SetCommands(blocks).value| ==> GoodSet(SetCommands(blocks).value[k])
  {
    if blocks != [] {
      SetCommandsGood(blocks[..|blocks| - 1]);
    }
  }

  /** Every `add-br` and `add-port` precedes every `set`, and the `set` commands
      are well formed. */
  lemma AddsBeforeSets(bridgeData: string, portData: string, interfaceData: string)
    requires BackupPlan(bridgeData, portData, interfaceData).Ok?
    ensures var cs := BackupPlan(bridgeData, portData, interfaceData).value;
      forall i, j :: 0 <= i < j < |cs| && !cs[i].IsAdd() ==> GoodSet(cs[j])
  {
    var pm := PortMap(Blocks(SplitLines(portData))).value;
    var ifaceBlocks := Blocks(SplitLines(interfaceData));
    var im := IfaceMap(ifaceBlocks).value;
    var table := BridgeTableOf(SplitLines(bridgeData)).value;
    var adds := BridgeCommands(table.order, table.ports, pm, im);
    BridgeCommandsAllAdds(table.order, table.ports, pm, im);
    SetCommandsGood(ifaceBlocks);
  }

  /** The `set` commands of one interface block: a type only when its
      quote-stripped value is non-empty, so `type: ""` gives none, and a tag only
      when non-empty; nothing at all for a block without a name. */
  lemma SettingCommandsCases(f: IfaceSettings)
    ensures SetInterfaceType(f.name.GetOr(""), f.ifaceType.GetOr("")) in SettingCommands(f)
            <==> Truthy(f.name) && Truthy(f.ifaceType)
    ensures SetPortTag(f.name.GetOr(""), f.tag.GetOr("")) in SettingCommands(f)
            <==> Truthy(f.name) && Truthy(f.tag)
    ensures |SettingCommands(f)| <= 2
  {
  }

  // ---------------------------------------------------------------- failures and the empty case

  /** A `name` line without ':' in the bridge listing makes the whole call fail. */
  lemma BridgeNameWithoutColonFails(bridgeData: string, portData: string, interfaceData: string, i: int)
    requires 0 <= i < |SplitLines(bridgeData)|
    requires IsNameLine(SplitLines(bridgeData)[i]) && ':' !in Strip(SplitLines(bridgeData)[i])
    ensures BackupText(bridgeData, portData, interfaceData).Err?
  {
    FoldFailsAt(BridgeStep, EmptyTable, SplitLines(bridgeData), i);
  }

  /** An `_uuid` line without ':' in a port block makes the whole call fail. */
  lemma PortUuidWithoutColonFails(bridgeData: string, portData: string, interfaceData: string, b: int, i: int)
    requires 0 <= b < |Blocks(SplitLines(portData))|
    requires var block := Blocks(SplitLines(portData))[b];
      0 <= i < |block| && StartsWith(Strip(block[i]), "_uuid") && ':' !in Strip(block[i])
    ensures BackupText(bridgeData, portData, interfaceData).Err?
  {
    ReadAllIdsFails(Blocks(SplitLines(portData)), b, i);
  }

  /** Empty listings give the empty command text. */
  lemma EmptyBackup()
    ensures BackupText("", "", "") == Ok("")
  {
    assert SplitLines("") == [];
  }

  lemma {:induction false} SetsAddNoBridge(cs: seq<Command>)
    requires forall k :: 0 <= k < |cs| ==> !cs[k].IsAdd()
    ensures AddedBridges(cs) == []
  {
    if cs != [] {
      SetsAddNoBridge(cs[..|cs| - 1]);
    }
  }

  /** The whole list creates each bridge of the listing exactly once, in the order
      its `name` line first appears. */
  lemma BackupBridgesInOrder(bridgeData: string, portData: string, interfaceData: string)
    requires BackupPlan(bridgeData, portData, interfaceData).Ok?
    ensures var order := BridgeTableOf(SplitLines(bridgeData)).value.order;
      && AddedBridges(BackupPlan(bridgeData, portData, interfaceData).value) == order
      && forall i, j :: 0 <= i < j < |order| ==> order[i] != order[j]
  {
    var pm := PortMap(Blocks(SplitLines(portData))).value;
    var ifaceBlocks := Blocks(SplitLines(interfaceData));
    var im := IfaceMap(ifaceBlocks).value;
    var table := BridgeTableOf(SplitLines(bridgeData)).value;
    var sets := SetCommands(ifaceBlocks).value;
    BridgeTableWellFormed(SplitLines(bridgeData));
    BridgeCommandsAddOrder(table.order, table.ports, pm, im);
    SetCommandsGood(ifaceBlocks);
    SetsAddNoBridge(sets);
    AddedBridgesAppend(BridgeCommands(table.order, table.ports, pm, im), sets);
  }
}
