/** services/network_scanner.py: the dotted-quad check, the port scan of one host,
    the classification of a host and of its SSH banner, and the verdict of the
    switch connectivity test. Sockets, reverse DNS and the SSH session are left
    abstract: the scanner sees them only through a `Network`. */
module NetworkScanner {
  import opened Wrappers
  import opened PyStr

  /** `self.open_ports`: the ports probed on every host, in probing order. */
  const ProbedPorts: seq<int> := [22, 23, 80, 443, 161, 830]

  // ---------------------------------------------------------------- _is_valid_ip

  /** `int(part)` for an optional sign followed by ASCII digits; None is the
      ValueError raised on anything else. */
  function ParseInt(part: string): (r: Option<int>)
    ensures r.Some? <==> part != [] && (AllDigits(part) || (|part| > 1 && part[0] in "+-" && AllDigits(part[1..])))
    ensures r.Some? && IsDigit(part[0]) ==> r.value == DigitsValue(part)
    ensures r.Some? && part[0] == '+' ==> r.value == DigitsValue(part[1..])
    ensures r.Some? && part[0] == '-' ==> r.value == -(DigitsValue(part[1..]) as int)
  {
    if |part| > 1 && part[0] in "+-" && AllDigits(part[1..]) then
      Some(if part[0] == '-' then -(DigitsValue(part[1..]) as int) else DigitsValue(part[1..]))
    else if part != [] && AllDigits(part) then
      assert part[0] == part[..1][0];
      Some(DigitsValue(part))
    else None
  }

  /** Reading back a written number gives the number, with or without a sign. */
  lemma ParseIntDecimal(n: nat)
    ensures ParseInt(Decimal(n)) == Some(n)
    ensures ParseInt("+" + Decimal(n)) == Some(n)
    ensures ParseInt("-" + Decimal(n)) == Some(-(n as int))
  {
    DecimalValue(n);
    var d := Decimal(n);
    assert ("+" + d)[1..] == d && ("-" + d)[1..] == d;
  }

  /** One part of a valid address: it parses, and the value lies in 0..255. */
  predicate Octet(part: string) {
    var v := ParseInt(part);
    v.Some? && 0 <= v.value <= 255
  }

  /** `_is_valid_ip`: exactly four dot-separated parts and every one an octet;
      a part that does not parse makes the answer false. */
  function IsValidIp(ip: string): (valid: bool)
    ensures valid ==> |Split(ip, '.')| == 4
    ensures valid ==> forall k :: 0 <= k < 4 ==> Octet(Split(ip, '.')[k])
  {
    var parts := Split(ip, '.');
    if |parts| != 4 then false
    else AllOctets(parts)
  }

  /** The loop over the parts, which stops at the first that is not an octet. */
  function AllOctets(parts: seq<string>): (ok: bool)
    ensures ok <==> forall k :: 0 <= k < |parts| ==> Octet(parts[k])
  {
    if parts == [] then true
    else Octet(parts[0]) && AllOctets(parts[1..])
  }

  /** Four parts free of dots, joined by dots, make a valid address exactly when
      each is an octet. */
  lemma FourPartsValid(parts: seq<string>)
    requires |parts| == 4 && forall p :: p in parts ==> '.' !in p
    ensures IsValidIp(Join(parts, ".")) <==> forall k :: 0 <= k < 4 ==> Octet(parts[k])
  {
    SplitJoin(parts, '.');
  }

  /** Any other number of parts makes the address invalid, whatever they hold. */
  lemma PartCountInvalid(parts: seq<string>)
    requires parts != [] && |parts| != 4 && forall p :: p in parts ==> '.' !in p
    ensures !IsValidIp(Join(parts, "."))
  {
    SplitJoin(parts, '.');
  }

  /** A number in 0..255 written in decimal is an octet free of dots. */
  lemma DecimalOctet(n: nat)
    requires n <= 255
    ensures Octet(Decimal(n)) && '.' !in Decimal(n)
  {
    ParseIntDecimal(n);
  }

  /** Numbers written in decimal. */
  function Decimals(ns: seq<nat>): (parts: seq<string>)
    ensures |parts| == |ns|
  {
    seq(|ns|, k requires 0 <= k < |ns| => Decimal(ns[k]))
  }

  /** Any four numbers in 0..255 written in decimal and joined by dots make a
      valid address. */
  lemma DottedQuadValid(octets: seq<nat>)
    requires |octets| == 4 && forall k :: 0 <= k < 4 ==> octets[k] <= 255
    ensures IsValidIp(Join(Decimals(octets), "."))
  {
    var parts := Decimals(octets);
    forall k | 0 <= k < 4
      ensures Octet(parts[k]) && '.' !in parts[k]
    {
      DecimalOctet(octets[k]);
    }
    FourPartsValid(parts);
  }

  /** A value above 255 or text that is not a number is no octet; a sign or
      leading zeros are accepted, as `int` accepts them. */
  lemma OctetExamples()
    ensures !Octet("256") && !Octet("a") && !Octet("") && !Octet("-1")
    ensures Octet("-0") && Octet("+7") && Octet("010")
  {
    assert DigitsValue("256") == 256 by {
      assert "256"[..2] == "25" && "25"[..1] == "2" && "2"[..0] == "";
    }
    assert DigitsValue("010") == 10 by {
      assert "010"[..2] == "01" && "01"[..1] == "0" && "0"[..0] == "";
    }
    assert "-0"[1..] == "0" && "+7"[1..] == "7" && "-1"[1..] == "1";
    assert "0"[..0] == "" && "7"[..0] == "" && "1"[..0] == "";
  }

  // ---------------------------------------------------------------- the network

  /** What the scanner can learn about a host, each question answered
      independently of the others:
      - `reverseName(ip)`: `socket.gethostbyaddr(ip)[0]`, None when it raises;
      - `connects(ip)(port)`: `connect_ex` answered 0 without raising;
      - `banner(ip)`: the first bytes read on port 22, decoded, None when the
        connection or the read raises. */
  datatype Network = Network(
    reverseName: string -> Option<string>,
    connects: string -> int -> bool,
    banner: string -> Option<string>)

  /** `_get_hostname`: the reverse name, or the address itself. */
  function Hostname(net: Network, ip: string): (name: string)
    ensures net.reverseName(ip).None? ==> name == ip
  {
    net.reverseName(ip).GetOr(ip)
  }

  // ---------------------------------------------------------------- _scan_ports

  /** The probed ports that accept a connection, in probing order. */
  function OpenPorts(net: Network, ip: string): seq<int> {
    Filter(net.connects(ip), ProbedPorts)
  }

  /** `_scan_ports` */
  method ScanPorts(net: Network, ip: string) returns (open: seq<int>)
    ensures open == OpenPorts(net, ip)
  {
    open := [];
    for i := 0 to |ProbedPorts|
      invariant open == Filter(net.connects(ip), ProbedPorts[..i])
    {
      PrefixPrefix(ProbedPorts, i);
      var port := ProbedPorts[i];
      if net.connects(ip)(port) {
        open := open + [port];
      }
    }
    TakeAll(ProbedPorts);
  }

  /** A port is reported open exactly when it is probed and accepts a connection. */
  lemma OpenPortsMembers(net: Network, ip: string, port: int)
    ensures port in OpenPorts(net, ip) <==> port in ProbedPorts && net.connects(ip)(port)
  {
    FilterMembers(net.connects(ip), ProbedPorts, port);
  }

  /** The open ports are listed in probing order, each at most once. */
  lemma OpenPortsOrder(net: Network, ip: string)
    ensures var c := net.connects(ip);
      OpenPorts(net, ip)
        == (if c(22) then [22] else []) + (if c(23) then [23] else []) + (if c(80) then [80] else [])
         + (if c(443) then [443] else []) + (if c(161) then [161] else []) + (if c(830) then [830] else [])
  {
    var c := net.connects(ip);
    var P := ProbedPorts;
    assert P[..0] == [];
    FilterSnoc(c, P[..0], 22);
    assert P[..1] == P[..0] + [22];
    FilterSnoc(c, P[..1], 23);
    assert P[..2] == P[..1] + [23];
    FilterSnoc(c, P[..2], 80);
    assert P[..3] == P[..2] + [80];
    FilterSnoc(c, P[..3], 443);
    assert P[..4] == P[..3] + [443];
    FilterSnoc(c, P[..4], 161);
    assert P[..5] == P[..4] + [161];
    FilterSnoc(c, P[..5], 830);
    assert P == P[..5] + [830];
  }

  // ---------------------------------------------------------------- _identify_device_type

  const DeviceKinds: set<string> :=
    {"Linux Server/Switch", "SSH Server", "Cisco Device", "Juniper Device", "Network Device", "Unknown"}

  /** The classification of a lowercased banner; "openssh" is looked for first. */
  function Classify(banner: string): string {
    if Contains(banner, "openssh") then
      if Contains(banner, "linux") || Contains(banner, "ubuntu") || Contains(banner, "debian") then
        "Linux Server/Switch"
      else "SSH Server"
    else if Contains(banner, "cisco") then "Cisco Device"
    else if Contains(banner, "juniper") then "Juniper Device"
    else "Network Device"
  }

  /** `_identify_device_type`, given what port 22 answered. */
  function DeviceType(banner: Option<string>): (kind: string)
    ensures kind in DeviceKinds
    ensures kind == "Unknown" <==> banner.None?
  {
    match banner
    case None => "Unknown"
    case Some(b) => Classify(Lower(b))
  }

  /** Each label, with the exact banners that earn it. */
  lemma DeviceTypeCases(b: string)
    ensures var l, kind := Lower(b), DeviceType(Some(b));
      && (kind == "Linux Server/Switch" <==>
            Contains(l, "openssh") && (Contains(l, "linux") || Contains(l, "ubuntu") || Contains(l, "debian")))
      && (kind == "SSH Server" <==>
            Contains(l, "openssh") && !Contains(l, "linux") && !Contains(l, "ubuntu") && !Contains(l, "debian"))
      && (kind == "Cisco Device" <==> !Contains(l, "openssh") && Contains(l, "cisco"))
      && (kind == "Juniper Device" <==> !Contains(l, "openssh") && !Contains(l, "cisco") && Contains(l, "juniper"))
      && (kind == "Network Device" <==>
            !Contains(l, "openssh") && !Contains(l, "cisco") && !Contains(l, "juniper"))
  {
  }

  lemma LowerTwice(s: string)
    ensures Lower(Lower(s)) == Lower(s)
  {
    forall i | 0 <= i < |s|
      ensures LowerChar(LowerChar(s[i])) == LowerChar(s[i])
    {
    }
  }

  /** The letter case of the banner does not matter. */
  lemma DeviceTypeIgnoresCase(b: string)
    ensures DeviceType(Some(Lower(b))) == DeviceType(Some(b))
  {
    LowerTwice(b);
  }

  // ---------------------------------------------------------------- _get_host_details

  /** What `_get_host_details` returns for a scanned host. */
  datatype HostInfo = HostInfo(ip: string, hostname: string, openPorts: seq<int>,
                               isSwitchCandidate: bool, sshAvailable: bool, deviceType: string)

  /** Addresses that are not examined: network, broadcast and loopback. */
  predicate Skipped(ip: string) {
    EndsWith(ip, ".0") || EndsWith(ip, ".255") || ip == "127.0.0.1"
  }

  /** Ports whose being open marks a possible switch: SSH, SNMP, HTTP, HTTPS, NETCONF. */
  const SwitchPorts: set<int> := {22, 161, 80, 443, 830}

  predicate SwitchCandidate(open: seq<int>) {
    exists p :: p in open && p in SwitchPorts
  }

  /** `_get_host_details` */
  method HostDetails(net: Network, ip: string) returns (info: Option<HostInfo>)
    ensures info.None? <==> Skipped(ip)
    ensures info.Some? ==>
      && info.value.ip == ip
      && info.value.hostname == Hostname(net, ip)
      && info.value.openPorts == OpenPorts(net, ip)
      && (info.value.sshAvailable <==> 22 in OpenPorts(net, ip))
      && info.value.deviceType == (if info.value.sshAvailable then DeviceType(net.banner(ip)) else "Unknown")
      && (info.value.isSwitchCandidate <==> SwitchCandidate(OpenPorts(net, ip)))
  {
    if EndsWith(ip, ".0") || EndsWith(ip, ".255") || ip == "127.0.0.1" {
      return None;
    }
    var open := ScanPorts(net, ip);
    var host := HostInfo(ip, Hostname(net, ip), open, false, false, "Unknown");
    if 22 in host.openPorts {
      host := host.(sshAvailable := true, deviceType := DeviceType(net.banner(ip)));
    }
    var indicators := [22 in open, 161 in open, 80 in open || 443 in open || 830 in open];
    if true in indicators {
      host := host.(isSwitchCandidate := true);
    }
    assert true in indicators <==> SwitchCandidate(open) by {
      if SwitchCandidate(open) {
        var p :| p in open && p in SwitchPorts;
        assert p == 22 || p == 161 || p in {80, 443, 830};
      }
    }
    return Some(host);
  }

  /** Among scanned ports, any open port but telnet makes a candidate: port 23
      alone does not. */
  lemma CandidateUnlessTelnetOnly(net: Network, ip: string)
    ensures SwitchCandidate(OpenPorts(net, ip)) <==> exists p :: p in OpenPorts(net, ip) && p != 23
  {
    var open := OpenPorts(net, ip);
    if exists p :: p in open && p != 23 {
      var p :| p in open && p != 23;
      OpenPortsMembers(net, ip, p);
      assert p in SwitchPorts;
    }
  }

  /** A host with SSH open is always a candidate and always has a device type
      other than the default, unless the banner read failed. */
  lemma SshHostIsCandidate(net: Network, ip: string)
    requires 22 in OpenPorts(net, ip)
    ensures SwitchCandidate(OpenPorts(net, ip))
    ensures DeviceType(net.banner(ip)) == "Unknown" <==> net.banner(ip).None?
  {
  }

  // ---------------------------------------------------------------- test_switch_connectivity

  /** How the SSH session to the switch ended: refused credentials, an SSH-level
      failure, any other exception, or `sudo ovs-vsctl show` ran and its standard
      output and standard error were read. */
  datatype SshOutcome = AuthFailed | SshFailure(detail: string) | OtherFailure(detail: string)
                      | Ran(output: string, error: string)

  datatype Connectivity = Reachable(message: string) | Unreachable(error: string)

  /** The shell could not find the tool. */
  predicate OvsMissing(error: string) {
    Contains(error, "ovs-vsctl") && Contains(error, "command not found")
  }

  /** `test_switch_connectivity`, given how the session ended. */
  function TestConnectivity(outcome: SshOutcome): Connectivity {
    match outcome
    case AuthFailed => Unreachable("Authentication failed")
    case SshFailure(d) => Unreachable("SSH error: " + d)
    case OtherFailure(d) => Unreachable("Connection error: " + d)
    case Ran(output, error) =>
      if OvsMissing(error) then Unreachable("Open vSwitch not found on this host")
      else if output != "" || error == "" then Reachable("OVS connection successful")
      else Unreachable("Connection failed: " + error)
  }

  /** The verdict once the command ran: a missing tool is reported as such;
      otherwise the switch is reachable exactly when something was printed or
      nothing went to standard error, and a failure carries standard error. */
  lemma ConnectivityVerdict(output: string, error: string)
    ensures var v := TestConnectivity(Ran(output, error));
      && (v.Reachable? <==> !OvsMissing(error) && (output != "" || error == ""))
      && (v == Unreachable("Open vSwitch not found on this host") <==> OvsMissing(error))
      && (v.Unreachable? && !OvsMissing(error) ==> output == "" && error != "" && EndsWith(v.error, error))
  {
    var v := TestConnectivity(Ran(output, error));
    if OvsMissing(error) {
      assert v.error == "Open vSwitch not found on this host";
    } else if v.Unreachable? {
      assert v.error == "Connection failed: " + error;
      assert v.error[|v.error| - |error|..] == error;
      assert "Connection failed: " + error != "Open vSwitch not found on this host" by {
        assert ("Connection failed: " + error)[0] == 'C';
      }
    }
  }

  /** Without running the command, the switch is never reachable. */
  lemma ConnectivityNeedsRun(outcome: SshOutcome)
    requires !outcome.Ran?
    ensures TestConnectivity(outcome).Unreachable?
  {
  }
}
