/** A backup written by the backup route, loaded back (routes/ovs_load_config.py
    reads it with `yaml.safe_load`) and handed to the restore: the two ends meet. */
module BackupRestore {
  import opened Wrappers
  import opened OvsCommands
  import opened SshUtils
  import opened Clock
  import opened OvsBackup
  import opened OvsConfigurator

  /** The fields of a loaded backup document that the restore reads: each bridge's
      name and its ports' names. The datapath id, the interface types and the
      top-level interfaces are never read back. */
  function LoadedBridge(b: BridgeBackup): BridgeEntry {
    BridgeEntry(Some(b.name), Some(seq(|b.ports|, j requires 0 <= j < |b.ports| => PortEntry(Some(b.ports[j].name)))))
  }

  function LoadedConfig(doc: BackupDoc): RestoreConfig {
    RestoreConfig(Some(seq(|doc.bridges|, i requires 0 <= i < |doc.bridges| => LoadedBridge(doc.bridges[i]))))
  }

  /** Restoring a backup document creates its bridge and re-attaches every port,
      in order, and does nothing else. */
  lemma RestoreOfDoc(switch: string, datapathId: string, entries: seq<PortType>)
    requires switch != "" && forall k :: 0 <= k < |entries| ==> entries[k].name != ""
    ensures RestorePlan(LoadedConfig(DocOf(switch, datapathId, entries)))
      == [AddBr(switch)] + seq(|entries|, k requires 0 <= k < |entries| => AddPort(switch, entries[k].name))
  {
    var b := LoadedBridge(BridgeBackup(switch, datapathId, entries));
    assert LoadedConfig(DocOf(switch, datapathId, entries)).bridges.value == [b];
    RestoreOne(b);
    var ports := b.ports.value;
    FilterAll(NamedPort, ports);
    PortRestoreExact(switch, ports);
  }

  /** Restoring a saved backup of a bridge re-creates it with exactly the valid
      ports the backup listed, in the listed order. */
  lemma BackupThenRestore(req: BackupRequest, now: DateTime, transport: seq<Call> -> Reply, before: seq<Call>)
    requires BackupRunOf(req, now, transport, before).result.Ok?
    ensures Truthy(req.switch)
    ensures var switch, password := req.switch.value, req.password.value;
      var listing := Reclassify(transport(before + [Call(BridgeCheckCommand(switch), None, password),
                                                    Call(ListPortsCommand(switch), None, password)]));
      var valid := ValidPorts(Cleaned(listing.out));
      RestorePlan(LoadedConfig(BackupRunOf(req, now, transport, before).result.value.doc))
        == [AddBr(switch)] + seq(|valid|, k requires 0 <= k < |valid| => AddPort(switch, valid[k]))
  {
    BackupSucceeds(req, now, transport, before);
    var switch, password := req.switch.value, req.password.value;
    var after := before + [Call(BridgeCheckCommand(switch), None, password), Call(ListPortsCommand(switch), None, password)];
    var cleaned := Cleaned(Reclassify(transport(after)).out);
    ValidPortsClean(cleaned);
    SnapshotRestores(switch, password, now, transport, after, ValidPorts(cleaned));
  }

  /** The same for the snapshot of any non-empty port names. */
  lemma SnapshotRestores(switch: string, password: string, now: DateTime, transport: seq<Call> -> Reply,
                         before: seq<Call>, valid: seq<string>)
    requires switch != "" && forall k :: 0 <= k < |valid| ==> valid[k] != ""
    ensures SavedRun(switch, password, now, transport, before, valid).result.Ok?
    ensures RestorePlan(LoadedConfig(SavedRun(switch, password, now, transport, before, valid).result.value.doc))
      == [AddBr(switch)] + seq(|valid|, k requires 0 <= k < |valid| => AddPort(switch, valid[k]))
  {
    SavedRunDoc(switch, password, now, transport, before, valid);
    var doc := SavedRun(switch, password, now, transport, before, valid).result.value.doc;
    forall k | 0 <= k < |valid|
      ensures doc.interfaces[k].name == valid[k]
    {
      SavedRunEntries(switch, password, now, transport, before, valid, k);
    }
    RestoreOfDoc(switch, doc.bridges[0].datapathId, doc.interfaces);
  }
}
