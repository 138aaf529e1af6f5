# OVS switch manager: a verified model of its core

The system is a small web back end for Open vSwitch (OVS) hosts. It runs
`ovs-vsctl` commands over SSH, cleans and reclassifies what they print, and
parses `ovs-vsctl list` listings into records. It turns a live switch into a
YAML snapshot or a backup file, and replays a backup as `add-br` / `add-port`
commands. It also turns the raw listings into a restore script, scans a
subnet for hosts that look like switches, and keeps a daily JSON action log
with a readable twin.

This project models that core in Dafny and proves what it promises.

- **Loops become methods.** Each loop of the source becomes a `method` with a
  `while`/`for` loop. Its invariants prove it equal to a specification
  function, and the behaviour is then proved about that function.
- **Remote calls go through a recorded session.** Every remote command runs
  through `SshUtils.Session`. That class records each call in its `history`
  field. Its `transport` function, which may depend on the whole history,
  stands for the switch.
- **The action logger is a class.** Its `files` map stands for the log
  directory: file name to text. Its `currentLogFile` field is the file the
  source opens at start-up.
- **Python built-ins used by the core are modelled explicitly** in helper
  modules:
  - `PyStr`: `str.strip` with its whitespace set, `splitlines` with its line
    boundaries, `split`, `join`, `replace` and string order;
  - `Sorting`: stable `list.sort(reverse=True)`;
  - `Clock`: `strftime`, `isoformat` and `strptime('%Y-%m-%d')`.

Modules, by source file:

| module | models |
|---|---|
| `SshUtils` | `services/ssh_utils.py`: output cleaning, the stdout-to-stderr reclassification, the remote executor |
| `OvsCommands` | the `ovs-vsctl add-br` / `add-port` / `set` command texts |
| `BackupUtils`, `BackupProperties` | `services/backup_utils.py`: `generate_backup_commands` |
| `OvsShow`, `ShowProperties` | `routes/ovs_show.py`: `parse_ovs_list` and `show_ovs_full` |
| `OvsConfigurator` | `services/ovs_configurator.py`: `apply_configuration_from_yaml` |
| `OvsBackup` | `routes/ovs_backup.py`: `backup_config` |
| `BackupRestore` | the round trip from a saved backup, loaded back as in `routes/ovs_load_config.py`, to the restore |
| `NetworkScanner` | `services/network_scanner.py`: address validation, port probing, banner classification, host details, the connectivity verdict |
| `NetworkScan` | `routes/network_scan.py`: the three endpoints' checks and counts |
| `ActionLog`, `ActionLogging` | `services/action_logger.py`: the `ActionLogger` class and the specification of its files |

## Model

| member | source | states |
|---|---|---|
| SshUtils.CleanOvsOutput | services/ssh_utils.py:61-103 | the cleaning loop returns exactly `Cleaned(raw)`, the join of the kept lines |
| SshUtils.KeptLinesMembers | services/ssh_utils.py:76-101 | a line survives cleaning iff it is one of the input lines and is no noise (user name, sudo prompt, UUID, blank, error marker) |
| SshUtils.NoiseFreeNotEmpty | services/ssh_utils.py:87-89 | a kept line is never empty |
| SshUtils.CleanedLines | services/ssh_utils.py:73-103 | splitting the cleaned text gives back exactly the kept lines, in order |
| SshUtils.CleanedKeepsExactly | services/ssh_utils.py:76-103 | a line of the raw output is a line of the cleaned output iff it is not noise |
| SshUtils.CleanIdempotent | services/ssh_utils.py:61-103 | cleaning twice is cleaning once |
| SshUtils.CleanEmpty | services/ssh_utils.py:70-71 | empty output cleans to the empty text |
| SshUtils.Reclassify | services/ssh_utils.py:45-49 | the reply is unchanged iff stdout does not carry an `ovs-vsctl:` error; otherwise stdout becomes empty and stderr starts with the old stderr and ends with the old stdout |
| SshUtils.ReclassifyJoinsErrors | services/ssh_utils.py:48 | the moved stdout replaces an empty stderr, or is appended after a newline |
| SshUtils.ReclassifyIdempotent | services/ssh_utils.py:45-49 | reclassifying twice is reclassifying once |
| SshUtils.Session.constructor | services/ssh_utils.py:8-35 | a fresh session has made no call |
| SshUtils.Session.Run | services/ssh_utils.py:8-52 | one call is appended to the history and the reply is the reclassified answer of the transport to that history |
| SshUtils.CallsOf | services/ssh_utils.py:8 | one call per command, each with the same host and password |
| SshUtils.RunEach | services/ssh_utils.py:8-52 | running commands in order appends exactly their calls and returns the reply to each, given the calls before it |
| SshUtils.RepliesSnoc | services/ssh_utils.py:8-52 | the reply to the last call is the transport's answer to the whole history up to it |
| SshUtils.RepliesFor | services/ssh_utils.py:8-52 | one reply per call |
| OvsCommands.RenderPrefix | services/backup_utils.py:73-102 | a command is an `add-` command iff its text starts `ovs-vsctl add-`, and a `set` command iff it starts `ovs-vsctl set ` |
| BackupUtils.FieldValue | services/backup_utils.py:26 | `split(":", 1)[1]` fails (IndexError) iff the line has no ':', and the error names the line |
| BackupUtils.SplitBlocks | services/backup_utils.py:7-17 | the block-splitting loop returns the blank-separated blocks of the text's lines |
| BackupProperties.SplitStateInvariant | services/backup_utils.py:7-17 | throughout the loop, every finished block is non-empty and free of blank lines, and the blocks followed by the current block are the non-blank lines in order |
| BackupProperties.SplitStepKeeps | services/backup_utils.py:7-17 | one line of the splitting loop keeps every finished block non-empty and every block free of blank lines |
| BackupProperties.BlocksWellFormed | services/backup_utils.py:33-43 | the blocks are non-empty, hold no blank line, and concatenated give back the non-blank lines |
| BackupUtils.ReadIdBlock | services/backup_utils.py:20-28 | the inner loop over a block reads its `_uuid` and `name` fields, or fails on a field without ':' |
| BackupProperties.ReadAllIdsFails | services/backup_utils.py:25-26 | a `_uuid` line without ':' in any block makes the whole reading fail |
| BackupUtils.BuildPortMap | services/backup_utils.py:7-30 | the port loop returns the port map of the blocks of the port listing |
| BackupProperties.PortMapKeys | services/backup_utils.py:29-30 | an identifier is a key of the port map iff it is non-empty and some block carries it |
| BackupProperties.PortMapLastWins | services/backup_utils.py:29-30 | the port map gives the name of the last block carrying the identifier, even a missing name |
| BackupUtils.BuildIfaceMap | services/backup_utils.py:45-56 | the interface loop returns the interface map of the blocks |
| BackupProperties.IfaceMapKeys | services/backup_utils.py:55-56 | an identifier is a key of the interface map iff it is non-empty and some block carries it with a non-empty name; mapped names are non-empty |
| BackupProperties.IfaceMapLastWins | services/backup_utils.py:55-56 | the interface map gives the name of the last named block carrying the identifier |
| BackupUtils.NonEmptyStripped | services/backup_utils.py:68 | the comprehension keeps no empty identifier |
| BackupUtils.PortIds | services/backup_utils.py:67-68 | the identifiers of a `ports` value are non-empty |
| BackupProperties.PortIdsEmptyList | services/backup_utils.py:67-68 | `[]` and the empty value list no identifier |
| BackupProperties.PortIdsRoundTrip | services/backup_utils.py:67-68 | a bracketed comma-joined list of clean identifiers reads back as exactly those identifiers |
| BackupProperties.NonEmptyStrippedKeeps | services/backup_utils.py:68 | clean non-empty parts pass the comprehension unchanged |
| BackupUtils.ReadBridgeLine | services/backup_utils.py:62-69 | a `ports` line counts only while a bridge is current, and its identifiers are non-empty |
| BackupUtils.BuildBridgeTable | services/backup_utils.py:58-69 | the bridge loop returns the table of the bridge listing, or the IndexError |
| BackupProperties.ApplyBridgeLineKeepsOk | services/backup_utils.py:63-69 | each line keeps the table well formed: bridges listed once, non-empty identifiers |
| BackupProperties.BridgeTableWellFormed | services/backup_utils.py:58-69 | the bridge table of any listing is well formed |
| BackupProperties.PortsBeforeNameIgnored | services/backup_utils.py:66 | with no `name` line nothing is recorded, `ports` lines included |
| BackupProperties.IgnoredLineStep | services/backup_utils.py:61-69 | before any `name` line, a line that is not a `name` line leaves the table empty |
| BackupProperties.NameLineResets | services/backup_utils.py:63-65 | a `name` line makes its bridge current with an empty list, keeping its first position if it was seen before, and leaves every other bridge's list as it was |
| BackupProperties.ReadPortsLine | services/backup_utils.py:66-68 | a `ports` line under a bridge reads as its identifiers |
| BackupProperties.PortsLineExtends | services/backup_utils.py:66-69 | a `ports` line appends its identifiers to the current bridge; the order, the current bridge and every other bridge's list are unchanged |
| BackupProperties.PortsStep | services/backup_utils.py:66-69 | under a current bridge, a `ports` line extends that bridge's identifiers and nothing else |
| BackupUtils.Resolve | services/backup_utils.py:75-83 | a non-empty identifier resolves to a non-empty name |
| BackupUtils.EmitPortCommands | services/backup_utils.py:74-83 | the inner loop emits the `add-port` commands of the bridge's identifiers |
| BackupProperties.PortCommandsExact | services/backup_utils.py:74-83 | one `add-port` per identifier, in order, under its resolved name (port name, else interface name, else identifier) |
| BackupUtils.EmitBridgeCommands | services/backup_utils.py:71-83 | the outer loop emits `add-br` then the bridge's ports, bridge by bridge |
| BackupProperties.BridgeCommandsAddOrder | services/backup_utils.py:72-73 | the bridges created are exactly the table's bridges, in first-seen order |
| BackupProperties.BridgeSection | services/backup_utils.py:72-83 | the commands of the k-th bridge sit between those of the bridges before and after it |
| BackupProperties.BridgeCommandsAllAdds | services/backup_utils.py:71-83 | the bridge section holds only `add-` commands |
| BackupUtils.ReadSettingsBlock | services/backup_utils.py:87-97 | the settings loop reads a block's `name`, `type` and `tag` fields, or fails |
| BackupUtils.EmitSettings | services/backup_utils.py:98-102 | the `set` commands of one interface block |
| BackupProperties.SettingCommandsCases | services/backup_utils.py:98-102 | a `type` command is emitted iff name and type are non-empty, a `tag` command iff name and tag are, and never more than two |
| BackupUtils.EmitSetCommands | services/backup_utils.py:85-102 | the loop over interface blocks emits their `set` commands in order |
| BackupProperties.SetCommandsGood | services/backup_utils.py:85-102 | every `set` command names a non-empty interface and a non-empty value |
| BackupUtils.GenerateBackupCommands | services/backup_utils.py:3-104 | the whole function returns the newline-joined command list, or the IndexError its field reads raise |
| BackupProperties.AddsBeforeSets | services/backup_utils.py:71-102 | every command after the first `set` command is a valid `set` command |
| BackupProperties.BackupBridgesInOrder | services/backup_utils.py:58-83 | the script creates the listed bridges in first-seen order, each once |
| BackupProperties.BridgeNameWithoutColonFails | services/backup_utils.py:63-64 | a bridge `name` line without ':' makes the function fail |
| BackupProperties.PortUuidWithoutColonFails | services/backup_utils.py:25-26 | a port `_uuid` line without ':' makes the function fail |
| BackupProperties.EmptyBackup | services/backup_utils.py:3-104 | empty listings give the empty script |
| OvsShow.LastColon | routes/ovs_show.py:23 | the backtracking point of `\s*:` is the last ':' before the bound, at position 1 or later |
| OvsShow.UpToNewline | routes/ovs_show.py:23 | `(.*)` stops at the first newline and is the whole text when there is none |
| OvsShow.MatchKeyValueShape | routes/ovs_show.py:23-26 | a matched key is a non-empty run without whitespace and the value holds no newline |
| ShowProperties.MatchRoundTrip | routes/ovs_show.py:23-26 | `key pad: value` matches as exactly (key, value) |
| ShowProperties.MatchPadded | routes/ovs_show.py:23-26 | with whitespace between key and colon, `key pad: value` matches as (key, value) |
| ShowProperties.MatchTight | routes/ovs_show.py:23-26 | with the colon right after the key, `key: value` still matches as (key, value) |
| ShowProperties.TightPieces | routes/ovs_show.py:23 | in `key: value` the first token runs through the colon, the value follows the space, and the last colon of the token closes the key |
| ShowProperties.MatchNeedsColon | routes/ovs_show.py:23-29 | a line without ':' does not match and is ignored |
| OvsShow.Classify | routes/ovs_show.py:17-29 | a line is blank iff its strip is empty, and a pair iff it is not blank and matches, with the match's key and value |
| OvsShow.ParseOvsList | routes/ovs_show.py:9-32 | the parsing loop returns the records of the listing |
| ShowProperties.ParsedNonEmpty | routes/ovs_show.py:19-21 | no parsed record is empty |
| ShowProperties.ParseBlankText | routes/ovs_show.py:16-32 | a listing of blank lines has no records |
| ShowProperties.ParseEmptyText | routes/ovs_show.py:9-32 | the empty listing has no records |
| ShowProperties.ParseSeparated | routes/ovs_show.py:18-21 | a blank line separates: the records of `a, blank, b` are those of `a` followed by those of `b` |
| ShowProperties.BlankRunCollapses | routes/ovs_show.py:18-21 | two blank lines in a row act as one |
| ShowProperties.ParseOneBlock | routes/ovs_show.py:16-31 | a block without blank lines is one record, or none when no line matches |
| ShowProperties.RecordKeys | routes/ovs_show.py:24-26 | a key is in a record iff some line of its block matches with that key |
| ShowProperties.RecordLastWins | routes/ovs_show.py:26 | a repeated key keeps the value of its last line |
| ShowProperties.RequestedTidy | routes/ovs_show.py:40 | the requested name is stripped and holds no space |
| ShowProperties.TidyRequested | routes/ovs_show.py:40 | a tidy name passes unchanged |
| ShowProperties.DefaultRequested | routes/ovs_show.py:40 | a missing name is `default_switch` |
| ShowProperties.SwitchAddress | routes/ovs_show.py:43-46 | a name holding '.' is the host, and the snapshot is named `switch_` plus the name with dots made '_' |
| ShowProperties.SwitchNameOnly | routes/ovs_show.py:43-46 | a name without '.' keeps its name, has no host, and shows as `localhost` |
| ShowProperties.DefaultSwitch | routes/ovs_show.py:40-46 | without a name the switch is `default_switch` on the default host |
| ShowProperties.SwitchNameStable | routes/ovs_show.py:40-46 | requesting the derived name again gives the same name and no host |
| ShowProperties.UpsertKeys | routes/ovs_show.py:81-82 | dict assignment keeps a key's first position and appends a new key |
| ShowProperties.UpsertLookup | routes/ovs_show.py:81-82 | after assignment the key maps to the new value and the other keys are unchanged |
| ShowProperties.ByNameKeys | routes/ovs_show.py:82 | the lookup's keys are the records' names, first occurrences, in order |
| ShowProperties.ByNameLookup | routes/ovs_show.py:82 | a name maps to the last record carrying it |
| OvsShow.BridgePorts | routes/ovs_show.py:95-103 | the inner loop builds the port entries of the lookup |
| ShowProperties.PortEntryOf | routes/ovs_show.py:95-103 | the j-th port entry has the unquoted name and the unquoted tag of the last record of that name, and no interfaces |
| OvsShow.AssembleSwitch | routes/ovs_show.py:84-110 | the assembly loop builds the switch document |
| ShowProperties.SwitchDocShape | routes/ovs_show.py:84-110 | one bridge entry per bridge record, with its unquoted name and datapath id, and every bridge gets the full port list |
| OvsShow.ResultsOf | routes/ovs_show.py:61-73 | one result per command |
| OvsShow.CollectResults | routes/ovs_show.py:61-72 | the loop builds the results of the replies |
| ShowProperties.ResultClean | routes/ovs_show.py:69-72 | a result keeps its command, holds cleaned output, and has no error iff stderr was empty |
| OvsShow.ShowCalls | routes/ovs_show.py:48-63 | no call without a password, the four listing commands otherwise |
| ShowProperties.ShowCallsShape | routes/ovs_show.py:51-63 | the calls are the four commands in order, to the derived host, with the password |
| OvsShow.ShowOvsFull | routes/ovs_show.py:36-130 | the route makes exactly its calls and answers the response of their replies |
| ShowProperties.ShownResults | routes/ovs_show.py:125-130 | each of the four results names its command, holds cleaned output, and has an error iff its stderr was non-empty |
| OvsConfigurator.Issue | services/ovs_configurator.py:22-24 | one more command is run and its triple recorded |
| OvsConfigurator.LoggedStart | services/ovs_configurator.py:16 | nothing run, nothing recorded |
| OvsConfigurator.ApplyConfiguration | services/ovs_configurator.py:4-33 | the session runs exactly the restore plan of the configuration, and the result list holds one (command, out, err) per call in order |
| OvsConfigurator.RestoreBridge | services/ovs_configurator.py:19-31 | a bridge entry runs its `add-br` and then its ports |
| OvsConfigurator.RestorePorts | services/ovs_configurator.py:26-31 | the port loop runs `add-port` for each named port |
| OvsConfigurator.PortRestoreExact | services/ovs_configurator.py:26-31 | one `add-port` per port with a non-empty name, in order, and none for the others |
| OvsConfigurator.RestoreAppend | services/ovs_configurator.py:19 | the plan of two bridge lists is the plan of the first then the second |
| OvsConfigurator.RestoreOne | services/ovs_configurator.py:20-21 | a bridge contributes nothing iff it has no name |
| OvsConfigurator.RestoreOnlyAdds | services/ovs_configurator.py:22-29 | the restore issues only `add-br` and `add-port` |
| OvsConfigurator.RestoreMissingKeys | services/ovs_configurator.py:19-26 | no `bridges` key restores nothing; a bridge without `ports` only gets `add-br` |
| OvsConfigurator.LoggedCalls | services/ovs_configurator.py:16-33 | the k-th result and the k-th new call are the k-th command of the plan, to the given host with the given password |
| OvsBackup.StrippedLines | routes/ovs_backup.py:46 | each line is stripped, one for one |
| OvsBackup.SelectValidPorts | routes/ovs_backup.py:49-53 | the filtering loop keeps the port names that mention no error |
| OvsBackup.ReadValue | routes/ovs_backup.py:67-74 | the loop-free reading of one `get` reply returns its normalised value |
| OvsBackup.NormalisedFacts | routes/ovs_backup.py:67-87 | a reply with stderr reads as ""; a non-empty value mentions no error and is not quoted at either end |
| OvsBackup.ValueOfFacts | routes/ovs_backup.py:70-74 | a non-empty cleaned value mentions no `ovs-vsctl:` or `error:` and is not quoted at either end |
| OvsBackup.ValueKept | routes/ovs_backup.py:71-74 | a clean value reads back unchanged |
| OvsBackup.ValidPortsClean | routes/ovs_backup.py:41-53 | every valid port is non-empty, stripped and mentions no error |
| OvsBackup.ValidPortsMembers | routes/ovs_backup.py:41-53 | a name is a valid port iff the cleaned listing is not blank, the name is non-empty, mentions no error, and is the strip of one of its lines |
| OvsBackup.ListedPorts | routes/ovs_backup.py:41-53 | the listing loop returns the valid ports of the cleaned listing |
| OvsBackup.Probe | routes/ovs_backup.py:63-77 | one port's type query is run and its entry recorded |
| OvsBackup.ProbePorts | routes/ovs_backup.py:58-77 | one type query per valid port, in order; the port and interface lists are equal |
| OvsBackup.CheckBridge | routes/ovs_backup.py:21-29 | the result and history are those of `CheckedRun`: a bridge reported missing aborts with `BridgeDoesNotExist` right after the `br-exists` call, and otherwise the backup goes on to the port listing |
| OvsBackup.ListPorts | routes/ovs_backup.py:31-38 | the result and history are those of `ListedRun`: a failed `list-ports` call aborts with `BridgeNotFound` carrying its stderr, and otherwise the valid ports of the listing are snapshot |
| OvsBackup.Snapshot | routes/ovs_backup.py:55-122 | the result and history are those of `SavedRun`: one type query per port, then the datapath query, then the saved document, file name and port count |
| OvsBackup.BackupConfig | routes/ovs_backup.py:11-122 | the route returns the specified result and leaves the specified history |
| OvsBackup.BackupRejects | routes/ovs_backup.py:16-19 | a missing password is reported first, then a missing switch, before any call |
| OvsBackup.BackupAborts | routes/ovs_backup.py:21-38 | a missing bridge stops after the check; a failed listing stops after the listing with its stderr |
| OvsBackup.BackupSucceeds | routes/ovs_backup.py:21-53 | a saved backup passed both checks and is the snapshot of the valid listed ports |
| OvsBackup.SavedRunCalls | routes/ovs_backup.py:58-87 | after the listing, one type query per port then one datapath query |
| OvsBackup.SavedRunDoc | routes/ovs_backup.py:79-122 | the document has one bridge, the switch, whose datapath id is the normalised reply to the last call (the datapath query), with the port entries as both its ports and the interfaces; the file is `<switch>_backup_<stamp>.yaml` and the message names it |
| OvsBackup.SavedRunEntries | routes/ovs_backup.py:58-77 | the k-th entry is the k-th valid port with the value of its own type query |
| OvsBackup.SavedRunInterfaces | routes/ovs_backup.py:58-77 | with only valid ports the run succeeds and the interfaces pair each port with the reply to its own type query |
| Clock.CompactStampFields | routes/ovs_backup.py:103 | the stamp is 15 characters, `YYYYmmdd_HHMMSS`, with each field's value the time's |
| BackupRestore.RestoreOfDoc | routes/ovs_load_config.py:46-59 | a backup document loaded back restores `add-br` then one `add-port` per entry |
| BackupRestore.SnapshotRestores | routes/ovs_backup.py:89-97 | any snapshot of non-empty names restores its bridge and exactly those ports in order |
| BackupRestore.BackupThenRestore | routes/ovs_backup.py:11-122 | restoring a saved backup re-creates the bridge with exactly its valid listed ports, in order |
| NetworkScanner.ParseInt | services/network_scanner.py:70 | `int(part)` succeeds exactly on ASCII digits with an optional `+` or `-` in front, and then gives the signed value of the digits |
| NetworkScanner.ParseIntDecimal | services/network_scanner.py:70 | a written number reads back, with `+` or `-` as well |
| NetworkScanner.IsValidIp | services/network_scanner.py:63-74 | a valid address has four dot-separated parts, each an octet |
| NetworkScanner.AllOctets | services/network_scanner.py:69-72 | the loop accepts iff every part is an octet |
| NetworkScanner.FourPartsValid | services/network_scanner.py:63-74 | four dot-free parts joined by dots are valid iff each is an octet |
| NetworkScanner.PartCountInvalid | services/network_scanner.py:67-68 | any other number of parts is invalid |
| NetworkScanner.DottedQuadValid | services/network_scanner.py:63-74 | four numbers in 0..255 in decimal joined by dots are valid |
| NetworkScanner.OctetExamples | services/network_scanner.py:70-74 | `256`, `a`, `""`, `-1` are no octet; `-0`, `+7`, `010` are |
| NetworkScanner.Hostname | services/network_scanner.py:112-118 | without a reverse name the host name is the address |
| NetworkScanner.ScanPorts | services/network_scanner.py:120-135 | the probing loop returns the open ports |
| NetworkScanner.OpenPortsMembers | services/network_scanner.py:120-135 | a port is reported open iff it is probed and accepts |
| NetworkScanner.OpenPortsOrder | services/network_scanner.py:12 | the open ports come in the probing order 22, 23, 80, 443, 161, 830 |
| NetworkScanner.DeviceType | services/network_scanner.py:137-162 | the kind is one of six, and `Unknown` iff no banner could be read |
| NetworkScanner.DeviceTypeCases | services/network_scanner.py:148-159 | each kind is given by exactly its keyword condition on the lower-cased banner |
| NetworkScanner.DeviceTypeIgnoresCase | services/network_scanner.py:145 | the kind does not depend on the banner's case |
| NetworkScanner.HostDetails | services/network_scanner.py:76-110 | `.0`, `.255` and `127.0.0.1` are skipped; otherwise the record has the address, name and open ports, SSH iff 22 is open, the banner kind only with SSH, and is a candidate iff an indicator port is open |
| NetworkScanner.CandidateUnlessTelnetOnly | services/network_scanner.py:98-105 | a host is a candidate iff some open port other than 23 is open |
| NetworkScanner.SshHostIsCandidate | services/network_scanner.py:93-105 | an SSH host is a candidate |
| NetworkScanner.ConnectivityVerdict | services/network_scanner.py:186-191 | OVS missing iff stderr names `ovs-vsctl` and `command not found`; success iff not that and output or no error; otherwise the error ends with stderr |
| NetworkScanner.ConnectivityNeedsRun | services/network_scanner.py:193-198 | a failed connection never succeeds |
| NetworkScan.CountCandidates | routes/network_scan.py:43-45 | the candidate count is at most the host count |
| NetworkScan.CountAll | routes/network_scan.py:43-45 | every host counts iff all are candidates |
| NetworkScan.CountNone | routes/network_scan.py:43-45 | no host counts iff none is a candidate |
| NetworkScan.CountAppend | routes/network_scan.py:43-45 | counting is additive over concatenation |
| NetworkScan.Summary | routes/network_scan.py:39-46 | `total_found` is the host count and bounds `switch_candidates` |
| NetworkScan.CidrShapeText | routes/network_scan.py:24 | four groups and a prefix form the accepted shape iff each group is 1-3 digits and the prefix 1-2 digits |
| NetworkScan.CidrShapeParts | routes/network_scan.py:24 | an accepted text is four groups and a prefix |
| NetworkScan.RangeMatchesText | routes/network_scan.py:24 | such a text passes, also with one trailing newline |
| NetworkScan.ScanNetworkChecks | routes/network_scan.py:10-52 | a missing range is reported first, a malformed one next; success means a well-formed range whose scan gave the hosts |
| NetworkScan.SubnetOf | routes/network_scan.py:94-101 | a range is derived iff the address has four dot-separated parts |
| NetworkScan.SubnetOfParts | routes/network_scan.py:101 | the range is the first three parts with `0/24` |
| NetworkScan.SubnetOfFour | routes/network_scan.py:94-101 | for four dot-free parts the range is the first three with `.0/24` |
| NetworkScan.DefaultSubnet | routes/network_scan.py:91-101 | the range of the default address 192.168.1.1 is `192.168.1.0/24` |
| NetworkScan.SubnetMatchesRange | routes/network_scan.py:101 | the derived range would pass the range check iff the first three parts are 1-3 digits |
| NetworkScan.QuickScanDefault | routes/network_scan.py:91 | without a base address `192.168.1.0/24` is scanned |
| NetworkScan.QuickScanChecks | routes/network_scan.py:86-127 | `Format IP invalide` iff not four parts; success reports the derived range, the scan's hosts and bounded counts |
| NetworkScan.QuickScanUnchecked | routes/network_scan.py:94-101 | a letters-only base address still yields a range the range check would reject |
| NetworkScan.TestSwitchChecks | routes/network_scan.py:54-84 | the address is checked before the password; with both the verdict is the connectivity test's, as `kali` by default |
| ActionLogging.ActionLogger.constructor | services/action_logger.py:10-26 | the current file is `actions_<today>.log`, created empty if missing, every other file unchanged |
| ActionLogging.ActionLogger.LogAction | services/action_logger.py:28-63 | one JSON line appended to the current file and one readable line to that day's readable log, nothing else |
| ActionLog.Appended | services/action_logger.py:49-50 | appending creates a missing file and changes no other file |
| ActionLog.AppendDecoded | services/action_logger.py:49-50 | appending a record line to a newline-ended file adds exactly that record to the decoded values |
| ActionLog.RecordLine | services/action_logger.py:41-50 | a record line is one non-blank stripped line that decodes to the record |
| ActionLog.LoggedTexts | services/action_logger.py:49-57 | after logging, the current file has the line appended and the readable log the readable line |
| ActionLog.LoggedThenListed | services/action_logger.py:28-105 | after logging, a record is listed iff it is the new record or was listed before |
| ActionLog.LoggedThenShown | services/action_logger.py:28-172 | after logging, the downloadable text gains exactly the record's block |
| ActionLog.ReadableAgrees | services/action_logger.py:151-156 | a record without metadata shows as the same line as the readable log |
| ActionLogging.ActionLogger.GetLogs | services/action_logger.py:65-105 | the reading loop returns the specified listing |
| ActionLog.LogsNewestFirst | services/action_logger.py:95-99 | the listing is newest first and at most `limit` long |
| ActionLog.Slice | services/action_logger.py:98-99 | Python slicing: a prefix of length `n`, or `len + n` for negative `n` |
| ActionLog.Limited | services/action_logger.py:98-99 | no limit or `0` keeps all; a positive limit bounds the length |
| ActionLog.LogsLimited | services/action_logger.py:82-99 | a missing file lists nothing; a falsy limit lists everything |
| ActionLog.LogsNonObject | services/action_logger.py:96-105 | one non-object JSON line makes the listing empty |
| ActionLog.LogsAllObjects | services/action_logger.py:85-96 | otherwise a record is listed iff some line decodes to it |
| ActionLog.LogsFromLines | services/action_logger.py:85-93 | every listed record is decoded from a non-blank line of the file |
| ActionLog.DecodedFrom | services/action_logger.py:87-93 | every decoded value comes from a non-blank line, undecodable lines skipped |
| ActionLogging.ActionLogger.GetAllLogFiles | services/action_logger.py:107-124 | the names are strictly descending and are exactly the JSON logs of the directory |
| ActionLog.ListedNames | services/action_logger.py:116-118 | a day's JSON log is listed, its readable log is not |
| ActionLog.ListingUnique | services/action_logger.py:120 | only one strictly descending list has those names |
| ActionLog.SortedListing | services/action_logger.py:120 | sorting distinct names gives a strictly descending list of the same names |
| ActionLogging.ActionLogger.GetLogFileContent | services/action_logger.py:126-172 | the reading loop returns the specified text |
| ActionLog.ContentStep | services/action_logger.py:142-166 | the header starts the text; each object adds its block; a non-object spoils the whole text |
| ActionLog.ContentLineStep | services/action_logger.py:148-166 | one more line leaves the text, adds a block or spoils it, as the line reads |
| ActionLog.ContentNoneAfter | services/action_logger.py:170-172 | once spoiled the text stays spoiled |
| ActionLogging.AppendBlock | services/action_logger.py:152-163 | a record adds its line, then one line per metadata pair and a blank line if it has metadata |
| ActionLogging.ActionLogger.CleanupOldLogs | services/action_logger.py:174-197 | exactly the dated logs older than the cutoff are deleted, the others are kept unchanged |
| ActionLog.Kept | services/action_logger.py:184-191 | a file is kept iff it is not expired |
| ActionLog.KeptIdempotent | services/action_logger.py:174-197 | cleaning up twice is cleaning up once |
| ActionLog.ExpiredDated | services/action_logger.py:187-191 | a day's JSON and readable logs expire iff that day's midnight is before the cutoff |
| ActionLog.ExpiredNeedsDate | services/action_logger.py:188 | a name whose date part is not 10 characters never expires |
| ActionLog.DateOfLogName | services/action_logger.py:187 | the date is read back from a JSON log's name |
| ActionLog.DateOfReadableName | services/action_logger.py:187 | the date is read back from a readable log's name |
| Clock.ParseDateText | services/action_logger.py:187-189 | a day written as `%Y-%m-%d` parses back to that day's midnight |
| Clock.ParseDate | services/action_logger.py:189 | a parsed date is a valid midnight |
| ActionLogging.ActionLogger.GetLogStatistics | services/action_logger.py:199-246 | the counting loop returns the specified statistics of the newest hundred records |
| ActionLog.StatsFacts | services/action_logger.py:216-234 | at most 100 records, successes plus errors at most the total, type counts sum to the total, at most 5 recent records which are the newest |
| ActionLog.StatusCounts | services/action_logger.py:224-227 | successes plus errors never exceed the records |
| ActionLog.Bump | services/action_logger.py:231 | the result has the same length as the counts or one more; the counts themselves are stated by BumpLookup and BumpKeys |
| ActionLog.BumpTotal | services/action_logger.py:231 | each record adds one to the total |
| ActionLog.BumpLookup | services/action_logger.py:231 | only the bumped type's count grows, by one |
| ActionLog.BumpKeys | services/action_logger.py:231 | a new type is appended, a known one keeps its place |
| ActionLog.TypeCountsTotal | services/action_logger.py:229-231 | the type counts sum to the number of records |
| ActionLog.TypeCountsLookup | services/action_logger.py:229-231 | each type's count is the number of records of that type |
| ActionLog.TypeCountsKeys | services/action_logger.py:229-231 | the types appear once each, in first-seen order |
| Sorting.SortDesc | services/action_logger.py:96 | sorting permutes the records |
| Sorting.SortDescending | services/action_logger.py:96 | the sorted list is descending by key |
| Sorting.SortStable | services/action_logger.py:96 | records with equal keys keep their order |
| Sorting.SortSorted | services/action_logger.py:96 | a descending list sorts to itself |
| Sorting.StrictlyDescendingUnique | services/action_logger.py:120 | two strictly descending lists with the same members are equal |
| PyStr.Trim | services/backup_utils.py:24 | the stripped text is no longer than the input and, when not empty, neither starts nor ends with a stripped character |
| PyStr.TrimMiddle | services/backup_utils.py:28 | what `strip(chars)` keeps is exactly the slice of the input between its leading and its trailing run of stripped characters, and every character it removes is one of them |
| PyStr.TrimIdempotent | services/backup_utils.py:24 | stripping twice is stripping once |
| PyStr.SplitJoinLines | services/ssh_utils.py:73-103 | joining lines by newline and splitting again gives the lines back |
| PyStr.JoinSplit | services/action_logger.py:230 | joining the pieces of `split` gives the text back |
| PyStr.SplitJoin | services/action_logger.py:230 | splitting a join of separator-free pieces gives the pieces back |
| PyStr.SplitAround | services/action_logger.py:50 | a separator splits the text into the pieces of each side |
| PyStr.AfterFirst | services/backup_utils.py:26 | the text after the first separator, None iff there is none |
| PyStr.ReplaceCharAt | routes/ovs_show.py:40-46 | replacing one character by another replaces it at every position and nowhere else |
| PyStr.LexLessTotal | services/action_logger.py:96 | string order is total |
| PyStr.LexLessTransitive | services/action_logger.py:96 | string order is transitive |

## Left out

- The SSH transport (paramiko), sockets, nmap and `scan_network`'s subprocess are out of scope. So are the thread pool, the logger's lock and the Flask request plumbing. The switch's answers are the `transport` function of a session. The scanner's answers are functions of the address (`Network`). The scan and SSH outcomes of the endpoints are parameters.
- The key-file branch of `run_ovs_command`, the default host and the password sent on stdin are not modelled: a call records the host and the password it was given.
- The `print` diagnostics and the `except` paths that only print are out of scope. `log_action` returning True or False is not modelled.
- YAML and JSON are not parsed or written. The logger's codec is two function constants. Their round trip is an assumption of the lemmas that need it (`RoundTrips`). A backup document loaded back is modelled field by field (`BackupRestore.LoadedConfig`).
- Files are a map from name to text. Path joins, `mkdir`, the snapshot and backup file writes, and write failures are not modelled. So are an `OSError` on `unlink` and path traversal in file names.
- The clock is a parameter: the logger's start-up day, both `now()` readings of `log_action` and the cleanup cutoff. `ActionLogging.ActionLogger.CleanupOldLogs` takes the cutoff moment rather than `days_to_keep`.
- File lines are split on `\n` only. Python's universal newlines also end a line at `\r` and `\r\n`.
- A decoded JSON object keeps only the `timestamp`, `action`, `status` and `metadata` keys (`ActionLog.LogEntry`). `get_logs` returns the whole dict, so a line hand-written with extra keys would be listed without them. Every line `log_action` writes has exactly these four keys.
- Record and metadata values are strings. JSON numbers, `null` and nested values in a record are out of scope, as is `str(value)` rendering of metadata. `metadata` that is not a dict is not modelled.
- `ActionLog.StatsFacts`: it states bounds and sums of the statistics, not each field's definition. Those are the loop invariants of `ActionLogging.ActionLogger.GetLogStatistics` and the lemmas on `TypeCounts`.
- `str.lower` is modelled on ASCII letters only. The keyword tests of the banner, port and error checks use only ASCII text.
- `int()` is modelled for an optional sign and ASCII digits. Underscores, surrounding whitespace and non-ASCII digits are not modelled. Regex `\d`, in the range check and in `strptime`'s date pattern, is likewise ASCII digits.
- Request fields are strings or missing. JSON `null`, numbers and other types in a request are out of scope.
- `stdout.read().decode()` is taken as already decoded text. Undecodable bytes, which raise in `decode`, are not modelled.
