/** services/backup_utils.py: `generate_backup_commands`, which correlates the
    text of `ovs-vsctl list bridge`, `list port` and `list interface` through the
    record identifiers they share and synthesizes the restore command list. */
module BackupUtils {
  import opened Wrappers
  import opened PyStr
  import opened OvsCommands

  /** `line.split(":", 1)[1]` raised IndexError on this stripped line. */
  datatype ParseError = MissingColon(line: string)

  /** The trimmed text after the first ':' of a stripped line. */
  function FieldValue(line: string): (r: Result<string, ParseError>)
    ensures r.Err? <==> ':' !in line
    ensures r.Err? ==> r.error == MissingColon(line)
  {
    match AfterFirst(line, ':')
    case None => Err(MissingColon(line))
    case Some(v) => Ok(Strip(v))
  }

  // ---------------------------------------------------------------- blank-line blocks

  predicate IsBlank(line: string) {
    Strip(line) == ""
  }

  /** The splitter's state: finished blocks and the block being filled. */
  datatype Splitter = Splitter(blocks: seq<seq<string>>, current: seq<string>)

  function SplitStep(st: Splitter, line: string): Splitter {
    if IsBlank(line) then
      if st.current != [] then Splitter(st.blocks + [st.current], []) else st
    else Splitter(st.blocks, st.current + [line])
  }

  function SplitState(lines: seq<string>): Splitter {
    if lines == [] then Splitter([], [])
    else SplitStep(SplitState(lines[..|lines| - 1]), lines[|lines| - 1])
  }

  /** The blocks of `lines` separated by blank lines. */
  function Blocks(lines: seq<string>): seq<seq<string>> {
    var st := SplitState(lines);
    if st.current != [] then st.blocks + [st.current] else st.blocks
  }

  lemma SplitStateStep(lines: seq<string>, i: nat)
    requires i < |lines|
    ensures SplitState(lines[..i + 1]) == SplitStep(SplitState(lines[..i]), lines[i])
  {
    PrefixPrefix(lines, i);
  }

  /** The block-splitting loop that the source writes out twice, once for the
      port listing and once for the interface listing. */
  method SplitBlocks(text: string) returns (blocks: seq<seq<string>>)
    ensures blocks == Blocks(SplitLines(text))
  {
    var lines := SplitLines(text);
    blocks := [];
    var current: seq<string> := [];
    for i := 0 to |lines|
      invariant Splitter(blocks, current) == SplitState(lines[..i])
    {
      SplitStateStep(lines, i);
      var line := lines[i];
      if Strip(line) == "" {
        if current != [] {
          blocks := blocks + [current];
          current := [];
        }
      } else {
        current := current + [line];
      }
    }
    TakeAll(lines);
    if current != [] {
      blocks := blocks + [current];
    }
  }

  // ---------------------------------------------------------------- identifier maps

  /** The `_uuid` and `name` fields of one port or interface block. */
  datatype IdRecord = IdRecord(uuid: Option<string>, name: Option<string>)

  function IdStep(r: IdRecord, raw: string): Result<IdRecord, ParseError> {
    var line := Strip(raw);
    if StartsWith(line, "_uuid") then
      var v :- FieldValue(line);
      Ok(r.(uuid := Some(v)))
    else if StartsWith(line, "name") then
      var v :- FieldValue(line);
      Ok(r.(name := Some(StripQuotes(v))))
    else Ok(r)
  }

  function ReadIds(block: seq<string>): Result<IdRecord, ParseError> {
    FoldResult(IdStep, IdRecord(None, None), block)
  }

  /** The inner loop over one block's lines, shared by both identifier maps. */
  method ReadIdBlock(block: seq<string>) returns (r: Result<IdRecord, ParseError>)
    ensures r == ReadIds(block)
  {
    var rec := IdRecord(None, None);
    for i := 0 to |block|
      invariant ReadIds(block[..i]) == Ok(rec)
    {
      FoldResultStep(IdStep, IdRecord(None, None), block, i, rec);
      var line := Strip(block[i]);
      if StartsWith(line, "_uuid") || StartsWith(line, "name") {
        var v := FieldValue(line);
        if v.Err? {
          FoldResultSticky(IdStep, IdRecord(None, None), block, i + 1);
          return Err(v.error);
        }
        if StartsWith(line, "_uuid") {
          rec := rec.(uuid := Some(v.value));
        } else {
          rec := rec.(name := Some(StripQuotes(v.value)));
        }
      }
    }
    TakeAll(block);
    r := Ok(rec);
  }

  /** The records of all blocks, or the first block's failure. */
  function ReadAllIds(blocks: seq<seq<string>>): Result<seq<IdRecord>, ParseError> {
    Traverse(ReadIds, blocks)
  }

  /** Port identifier to port name; a record without a name still maps its
      identifier, to None, and a later record overrides an earlier one. */
  function PortMapOf(recs: seq<IdRecord>): map<string, Option<string>> {
    if recs == [] then map[]
    else
      var m, r := PortMapOf(recs[..|recs| - 1]), recs[|recs| - 1];
      if Truthy(r.uuid) then m[r.uuid.value := r.name] else m
  }

  /** Interface identifier to interface name, only for records that have both. */
  function IfaceMapOf(recs: seq<IdRecord>): map<string, string> {
    if recs == [] then map[]
    else
      var m, r := IfaceMapOf(recs[..|recs| - 1]), recs[|recs| - 1];
      if Truthy(r.uuid) && Truthy(r.name) then m[r.uuid.value := r.name.value] else m
  }

  function PortMap(blocks: seq<seq<string>>): Result<map<string, Option<string>>, ParseError> {
    var recs :- ReadAllIds(blocks);
    Ok(PortMapOf(recs))
  }

  function IfaceMap(blocks: seq<seq<string>>): Result<map<string, string>, ParseError> {
    var recs :- ReadAllIds(blocks);
    Ok(IfaceMapOf(recs))
  }

  // ---------------------------------------------------------------- bridges and their port identifiers

  /** `[f(p) for p in parts if f(p)]` */
  function NonEmptyOf(f: string -> string, parts: seq<string>): (ids: seq<string>)
    ensures forall k :: 0 <= k < |ids| ==> ids[k] != ""
  {
    if parts == [] then []
    else
      var p := f(parts[|parts| - 1]);
      NonEmptyOf(f, parts[..|parts| - 1]) + (if p != "" then [p] else [])
  }

  /** `[p.strip() for p in parts if p.strip()]` */
  function NonEmptyStripped(parts: seq<string>): (ids: seq<string>)
    ensures forall k :: 0 <= k < |ids| ==> ids[k] != ""
  {
    NonEmptyOf(Strip, parts)
  }

  /** The identifiers of a `ports` value: brackets stripped, split on commas. */
  function PortIds(value: string): (ids: seq<string>)
    ensures forall k :: 0 <= k < |ids| ==> ids[k] != ""
  {
    NonEmptyStripped(Split(Trim(value, {'[', ']'}), ','))
  }

  /** The `bridges` dict: its keys in insertion order, their identifier lists, and
      the bridge the latest `name` line named. */
  datatype BridgeTable = BridgeTable(order: seq<string>, ports: map<string, seq<string>>, current: Option<string>)

  function PortsOf(ports: map<string, seq<string>>, br: string): seq<string> {
    if br in ports then ports[br] else []
  }

  /** What one line of the bridge listing means to the table. */
  datatype BridgeLine = NameLine(bridge: string) | PortsLine(ids: seq<string>) | OtherLine

  /** Reads one line; a `ports` line counts only while a bridge is current. */
  function ReadBridgeLine(raw: string, inBridge: bool): (r: Result<BridgeLine, ParseError>)
    ensures r.Ok? && r.value.PortsLine? ==> inBridge && forall k :: 0 <= k < |r.value.ids| ==> r.value.ids[k] != ""
  {
    var line := Strip(raw);
    if StartsWith(line, "name") then
      var v :- FieldValue(line);
      Ok(NameLine(StripQuotes(v)))
    else if StartsWith(line, "ports") && inBridge then
      var v :- FieldValue(line);
      Ok(PortsLine(PortIds(v)))
    else Ok(OtherLine)
  }

  /** A `name` line (re)starts its bridge with no identifiers and makes it current,
      keeping the dict's insertion order; a `ports` line extends the current one. */
  function ApplyBridgeLine(t: BridgeTable, l: BridgeLine): BridgeTable {
    match l
    case NameLine(br) =>
      BridgeTable(if br in t.ports then t.order else t.order + [br], t.ports[br := []], Some(br))
    case PortsLine(ids) =>
      if t.current.Some? then
        var br := t.current.value;
        t.(ports := t.ports[br := PortsOf(t.ports, br) + ids])
      else t
    case OtherLine => t
  }

  function BridgeStep(t: BridgeTable, raw: string): Result<BridgeTable, ParseError> {
    var l :- ReadBridgeLine(raw, Truthy(t.current));
    Ok(ApplyBridgeLine(t, l))
  }

  const EmptyTable := BridgeTable([], map[], None)

  function BridgeTableOf(lines: seq<string>): Result<BridgeTable, ParseError> {
    FoldResult(BridgeStep, EmptyTable, lines)
  }

  // ---------------------------------------------------------------- commands

  /** The name a bridge's port identifier is attached under: the port's own name,
      else the interface name recorded for that identifier, else the identifier. */
  function Resolve(id: string, pm: map<string, Option<string>>, im: map<string, string>): (name: string)
    ensures id != "" ==> name != ""
  {
    if id in pm && Truthy(pm[id]) then pm[id].value
    else if id in im && im[id] != "" then im[id]
    else id
  }

  function PortCommands(br: string, ids: seq<string>, pm: map<string, Option<string>>, im: map<string, string>)
    : seq<Command>
  {
    if ids == [] then []
    else PortCommands(br, ids[..|ids| - 1], pm, im) + [AddPort(br, Resolve(ids[|ids| - 1], pm, im))]
  }

  function BridgeCommands(order: seq<string>, ports: map<string, seq<string>>,
                          pm: map<string, Option<string>>, im: map<string, string>): seq<Command>
  {
    if order == [] then []
    else
      var br := order[|order| - 1];
      BridgeCommands(order[..|order| - 1], ports, pm, im) + [AddBr(br)] + PortCommands(br, PortsOf(ports, br), pm, im)
  }

  /** The `name`, `type` and `tag` fields of one interface block. */
  datatype IfaceSettings = IfaceSettings(name: Option<string>, ifaceType: Option<string>, tag: Option<string>)

  function SettingsStep(f: IfaceSettings, raw: string): Result<IfaceSettings, ParseError> {
    var line := Strip(raw);
    if StartsWith(line, "name") then
      var v :- FieldValue(line);
      Ok(f.(name := Some(StripQuotes(v))))
    else if StartsWith(line, "type") then
      var v :- FieldValue(line);
      Ok(f.(ifaceType := Some(StripQuotes(v))))
    else if StartsWith(line, "tag") then
      var v :- FieldValue(line);
      Ok(f.(tag := Some(v)))
    else Ok(f)
  }

  const NoSettings := IfaceSettings(None, None, None)

  function ReadSettings(block: seq<string>): Result<IfaceSettings, ParseError> {
    FoldResult(SettingsStep, NoSettings, block)
  }

  function SettingCommands(f: IfaceSettings): seq<Command> {
    if Truthy(f.name) then
      (if Truthy(f.ifaceType) then [SetInterfaceType(f.name.value, f.ifaceType.value)] else [])
      + (if Truthy(f.tag) then [SetPortTag(f.name.value, f.tag.value)] else [])
    else []
  }

  function SetCommandsStep(cmds: seq<Command>, block: seq<string>): Result<seq<Command>, ParseError> {
    var f :- ReadSettings(block);
    Ok(cmds + SettingCommands(f))
  }

  function SetCommands(blocks: seq<seq<string>>): Result<seq<Command>, ParseError> {
    FoldResult(SetCommandsStep, [], blocks)
  }

  /** The whole command list, or the IndexError that stops it. */
  function BackupPlan(bridgeData: string, portData: string, interfaceData: string): Result<seq<Command>, ParseError> {
    var pm :- PortMap(Blocks(SplitLines(portData)));
    var ifaceBlocks := Blocks(SplitLines(interfaceData));
    var im :- IfaceMap(ifaceBlocks);
    var table :- BridgeTableOf(SplitLines(bridgeData));
    var sets :- SetCommands(ifaceBlocks);
    Ok(BridgeCommands(table.order, table.ports, pm, im) + sets)
  }

  /** What `generate_backup_commands` returns. */
  function BackupText(bridgeData: string, portData: string, interfaceData: string): Result<string, ParseError> {
    var cmds :- BackupPlan(bridgeData, portData, interfaceData);
    Ok(Join(RenderAll(cmds), "\n"))
  }

  // ---------------------------------------------------------------- generate_backup_commands

  /** The source's loops, stage by stage. */
  method GenerateBackupCommands(bridgeData: string, portData: string, interfaceData: string)
    returns (r: Result<string, ParseError>)
    ensures r == BackupText(bridgeData, portData, interfaceData)
  {
    var pm := BuildPortMap(portData);
    if pm.Err? {
      return Err(pm.error);
    }
    var ifaceBlocks := SplitBlocks(interfaceData);
    var im := BuildIfaceMap(ifaceBlocks);
    if im.Err? {
      return Err(im.error);
    }
    var table := BuildBridgeTable(bridgeData);
    if table.Err? {
      return Err(table.error);
    }
    var commands := EmitBridgeCommands(table.value, pm.value, im.value);
    var sets := EmitSetCommands(ifaceBlocks);
    if sets.Err? {
      return Err(sets.error);
    }
    commands := commands + sets.value;
    r := Ok(Join(RenderAll(commands), "\n"));
  }

  /** One more block read without error extends the records by its record. */
  lemma ReadAllIdsStep(blocks: seq<seq<string>>, b: nat, recs: seq<IdRecord>, rec: IdRecord)
    requires b < |blocks| && ReadAllIds(blocks[..b]) == Ok(recs) && ReadIds(blocks[b]) == Ok(rec)
    ensures ReadAllIds(blocks[..b + 1]) == Ok(recs + [rec])
  {
    PrefixPrefix(blocks, b);
  }

  /** A later record with an identifier overrides that identifier's entry. */
  lemma PortMapSnoc(recs: seq<IdRecord>, rec: IdRecord)
    ensures PortMapOf(recs + [rec])
      == if Truthy(rec.uuid) then PortMapOf(recs)[rec.uuid.value := rec.name] else PortMapOf(recs)
  {
    InitSnoc(recs, rec);
  }

  /** A later record with both identifier and name overrides that identifier's entry. */
  lemma IfaceMapSnoc(recs: seq<IdRecord>, rec: IdRecord)
    ensures IfaceMapOf(recs + [rec]) == if Truthy(rec.uuid) && Truthy(rec.name)
      then IfaceMapOf(recs)[rec.uuid.value := rec.name.value] else IfaceMapOf(recs)
  {
    InitSnoc(recs, rec);
  }

  method BuildPortMap(portData: string) returns (r: Result<map<string, Option<string>>, ParseError>)
    ensures r == PortMap(Blocks(SplitLines(portData)))
  {
    var blocks := SplitBlocks(portData);
    var m: map<string, Option<string>> := map[];
    ghost var recs: seq<IdRecord> := [];
    for b := 0 to |blocks|
      invariant ReadAllIds(blocks[..b]) == Ok(recs) && m == PortMapOf(recs)
    {
      var rec := ReadIdBlock(blocks[b]);
      if rec.Err? {
        PrefixPrefix(blocks, b);
        TraverseSticky(ReadIds, blocks, b + 1);
        return Err(rec.error);
      }
      ReadAllIdsStep(blocks, b, recs, rec.value);
      PortMapSnoc(recs, rec.value);
      var uuid := rec.value.uuid;
      if Truthy(uuid) {
        m := m[uuid.value := rec.value.name];
      }
      recs := recs + [rec.value];
    }
    TakeAll(blocks);
    r := Ok(m);
  }

  method BuildIfaceMap(blocks: seq<seq<string>>) returns (r: Result<map<string, string>, ParseError>)
    ensures r == IfaceMap(blocks)
  {
    var m: map<string, string> := map[];
    ghost var recs: seq<IdRecord> := [];
    for b := 0 to |blocks|
      invariant ReadAllIds(blocks[..b]) == Ok(recs) && m == IfaceMapOf(recs)
    {
      var rec := ReadIdBlock(blocks[b]);
      if rec.Err? {
        PrefixPrefix(blocks, b);
        TraverseSticky(ReadIds, blocks, b + 1);
        return Err(rec.error);
      }
      ReadAllIdsStep(blocks, b, recs, rec.value);
      IfaceMapSnoc(recs, rec.value);
      recs := recs + [rec.value];
      var uuid, name := rec.value.uuid, rec.value.name;
      if Truthy(uuid) && Truthy(name) {
        m := m[uuid.value := name.value];
      }
    }
    TakeAll(blocks);
    r := Ok(m);
  }

  method BuildBridgeTable(bridgeData: string) returns (r: Result<BridgeTable, ParseError>)
    ensures r == BridgeTableOf(SplitLines(bridgeData))
  {
    var lines := SplitLines(bridgeData);
    var order: seq<string> := [];
    var bridges: map<string, seq<string>> := map[];
    var current: Option<string> := None;
    for i := 0 to |lines|
      invariant BridgeTableOf(lines[..i]) == Ok(BridgeTable(order, bridges, current))
    {
      ghost var t := BridgeTable(order, bridges, current);
      FoldResultStep(BridgeStep, EmptyTable, lines, i, t);
      var read := ReadBridgeLine(lines[i], Truthy(current));
      if read.Err? {
        FoldResultSticky(BridgeStep, EmptyTable, lines, i + 1);
        return Err(read.error);
      }
      match read.value {
      case NameLine(br) =>
        if br !in bridges {
          order := order + [br];
        }
        bridges := bridges[br := []];
        current := Some(br);
      case PortsLine(ids) =>
        var br := current.value;
        bridges := bridges[br := PortsOf(bridges, br) + ids];
      case OtherLine =>
      }
      assert BridgeTable(order, bridges, current) == ApplyBridgeLine(t, read.value);
    }
    TakeAll(lines);
    r := Ok(BridgeTable(order, bridges, current));
  }

  method EmitBridgeCommands(t: BridgeTable, pm: map<string, Option<string>>, im: map<string, string>)
    returns (commands: seq<Command>)
    ensures commands == BridgeCommands(t.order, t.ports, pm, im)
  {
    commands := [];
    for k := 0 to |t.order|
      invariant commands == BridgeCommands(t.order[..k], t.ports, pm, im)
    {
      PrefixPrefix(t.order, k);
      var br := t.order[k];
      var portCommands := EmitPortCommands(br, PortsOf(t.ports, br), pm, im);
      commands := commands + [AddBr(br)] + portCommands;
    }
    TakeAll(t.order);
  }

  /** The inner loop: one `add-port` per identifier of the bridge. */
  method EmitPortCommands(br: string, ids: seq<string>, pm: map<string, Option<string>>, im: map<string, string>)
    returns (commands: seq<Command>)
    ensures commands == PortCommands(br, ids, pm, im)
  {
    commands := [];
    for j := 0 to |ids|
      invariant commands == PortCommands(br, ids[..j], pm, im)
    {
      PrefixPrefix(ids, j);
      var id := ids[j];
      var portName := if id in pm then pm[id] else None;
      var ifaceName := if id in im then Some(im[id]) else None;
      var name := id;
      if Truthy(portName) {
        name := portName.value;
      } else if Truthy(ifaceName) {
        name := ifaceName.value;
      }
      commands := commands + [AddPort(br, name)];
    }
    TakeAll(ids);
  }

  method ReadSettingsBlock(block: seq<string>) returns (r: Result<IfaceSettings, ParseError>)
    ensures r == ReadSettings(block)
  {
    var f := NoSettings;
    for i := 0 to |block|
      invariant ReadSettings(block[..i]) == Ok(f)
    {
      FoldResultStep(SettingsStep, NoSettings, block, i, f);
      var line := Strip(block[i]);
      if StartsWith(line, "name") || StartsWith(line, "type") || StartsWith(line, "tag") {
        var v := FieldValue(line);
        if v.Err? {
          FoldResultSticky(SettingsStep, NoSettings, block, i + 1);
          return Err(v.error);
        }
        if StartsWith(line, "name") {
          f := f.(name := Some(StripQuotes(v.value)));
        } else if StartsWith(line, "type") {
          f := f.(ifaceType := Some(StripQuotes(v.value)));
        } else {
          f := f.(tag := Some(v.value));
        }
      }
    }
    TakeAll(block);
    r := Ok(f);
  }

  method EmitSetCommands(blocks: seq<seq<string>>) returns (r: Result<seq<Command>, ParseError>)
    ensures r == SetCommands(blocks)
  {
    var commands: seq<Command> := [];
    for b := 0 to |blocks|
      invariant SetCommands(blocks[..b]) == Ok(commands)
    {
      FoldResultStep(SetCommandsStep, [], blocks, b, commands);
      var f := ReadSettingsBlock(blocks[b]);
      if f.Err? {
        FoldResultSticky(SetCommandsStep, [], blocks, b + 1);
        return Err(f.error);
      }
      var emitted := EmitSettings(f.value);
      commands := commands + emitted;
    }
    TakeAll(blocks);
    r := Ok(commands);
  }

  /** The `set` commands of one interface block. */
  method EmitSettings(f: IfaceSettings) returns (commands: seq<Command>)
    ensures commands == SettingCommands(f)
  {
    commands := [];
    var name, ifaceType, tag := f.name, f.ifaceType, f.tag;
    if Truthy(name) {
      if Truthy(ifaceType) {
        commands := commands + [SetInterfaceType(name.value, ifaceType.value)];
      }
      if Truthy(tag) {
        commands := commands + [SetPortTag(name.value, tag.value)];
      }
    }
  }
}
