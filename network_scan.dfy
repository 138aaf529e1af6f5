/** routes/network_scan.py: the three scan endpoints. Each checks its request
    fields, derives what it asks the scanner, and summarises the scanner's answer.
    The scanner and the SSH session are parameters. */
module NetworkScan {
  import opened Wrappers
  import opened PyStr
  import opened NetworkScanner

  /** Why a request is answered with an error. */
  datatype RouteError = RangeRequired | RangeFormat | IpRequired | PasswordRequired | IpFormat
                      | ScanFailed(message: string)

  /** The `error` text of each answer. */
  function ErrorText(e: RouteError): string {
    match e
    case RangeRequired => "La plage réseau est requise (ex: 192.168.1.0/24)"
    case RangeFormat => "Format de plage réseau invalide. Format attendu : 192.168.1.0/24"
    case IpRequired => "Adresse IP requise"
    case PasswordRequired => "Mot de passe requis pour le test de connexion"
    case IpFormat => "Format IP invalide"
    case ScanFailed(message) => message
  }

  /** The scanner's answer to a range: the hosts found, or its error text. */
  type Scan = string -> Result<seq<HostInfo>, string>

  /** A successful answer: the range a quick scan derived, the hosts, and the two counts. */
  datatype ScanReply = ScanReply(networkScanned: Option<string>, hosts: seq<HostInfo>,
                                 totalFound: nat, switchCandidates: nat)

  // ---------------------------------------------------------------- candidate count

  predicate IsCandidate(h: HostInfo) {
    h.isSwitchCandidate
  }

  /** `len([h for h in hosts if h.get('is_switch_candidate')])` */
  function CountCandidates(hosts: seq<HostInfo>): (n: nat)
    ensures n <= |hosts|
  {
    |Filter(IsCandidate, hosts)|
  }

  /** Every host counts when all are candidates, and only then. */
  lemma {:induction false} CountAll(hosts: seq<HostInfo>)
    ensures CountCandidates(hosts) == |hosts| <==> forall k :: 0 <= k < |hosts| ==> hosts[k].isSwitchCandidate
  {
    if hosts != [] {
      var front := hosts[..|hosts| - 1];
      CountAll(front);
      if !hosts[|hosts| - 1].isSwitchCandidate {
        assert CountCandidates(hosts) == CountCandidates(front);
      }
      assert forall k :: 0 <= k < |front| ==> front[k] == hosts[k];
    }
  }

  /** No host counts when none is a candidate, and only then. */
  lemma {:induction false} CountNone(hosts: seq<HostInfo>)
    ensures CountCandidates(hosts) == 0 <==> forall k :: 0 <= k < |hosts| ==> !hosts[k].isSwitchCandidate
  {
    if hosts != [] {
      var front := hosts[..|hosts| - 1];
      CountNone(front);
      assert forall k :: 0 <= k < |front| ==> front[k] == hosts[k];
    }
  }

  /** Counting two lists of hosts one after the other adds up. */
  lemma {:induction false} CountAppend(a: seq<HostInfo>, b: seq<HostInfo>)
    ensures CountCandidates(a + b) == CountCandidates(a) + CountCandidates(b)
    decreases |b|
  {
    if b == [] {
      assert a + b == a;
    } else {
      var init := b[..|b| - 1];
      assert a + b == (a + init) + [b[|b| - 1]];
      FilterSnoc(IsCandidate, a + init, b[|b| - 1]);
      FilterSnoc(IsCandidate, init, b[|b| - 1]);
      assert init + [b[|b| - 1]] == b;
      CountAppend(a, init);
    }
  }

  function Summary(networkScanned: Option<string>, hosts: seq<HostInfo>): (r: ScanReply)
    ensures r.totalFound == |hosts| && r.switchCandidates <= r.totalFound
  {
    ScanReply(networkScanned, hosts, |hosts|, CountCandidates(hosts))
  }

  // ---------------------------------------------------------------- scan_network

  /** One to `most` ASCII digits. */
  predicate DigitRun(s: string, most: nat) {
    1 <= |s| <= most && AllDigits(s)
  }

  /** The text `(\d{1,3}\.){3}\d{1,3}/\d{1,2}` matches in full: four dot-separated
      runs of one to three digits, a slash, and one or two digits. */
  predicate CidrShape(s: string) {
    var halves := Split(s, '/');
    && |halves| == 2 && DigitRun(halves[1], 2)
    && var groups := Split(halves[0], '.');
       |groups| == 4 && forall k :: 0 <= k < 4 ==> DigitRun(groups[k], 3)
  }

  /** `re.match(r'^(\d{1,3}\.){3}\d{1,3}/\d{1,2}$', s)`: `$` also matches just
      before a newline that ends the string. */
  predicate RangeMatches(s: string) {
    CidrShape(s) || (s != [] && s[|s| - 1] == '\n' && CidrShape(s[..|s| - 1]))
  }

  /** The text of four groups and a prefix length. */
  function CidrText(groups: seq<string>, prefix: string): string {
    Join(groups, ".") + "/" + prefix
  }

  lemma DigitRunFree(s: string, most: nat)
    requires DigitRun(s, most)
    ensures '.' !in s && '/' !in s && '\n' !in s
  {
  }

  /** The joined groups hold no slash. */
  lemma {:induction false} JoinDotsFree(groups: seq<string>)
    requires forall p :: p in groups ==> '/' !in p
    ensures '/' !in Join(groups, ".")
  {
    if |groups| > 1 {
      JoinDotsFree(groups[1..]);
      assert groups[0] in groups;
    } else if |groups| == 1 {
      assert groups[0] in groups;
    }
  }

  /** The shape accepted is exactly four runs of one to three digits joined by
      dots, a slash and a run of one or two digits: no octet is compared with
      255 and no prefix with 32. */
  lemma CidrShapeText(groups: seq<string>, prefix: string)
    requires |groups| == 4 && (forall p :: p in groups ==> '/' !in p && '.' !in p) && '/' !in prefix
    ensures CidrShape(CidrText(groups, prefix))
        <==> DigitRun(prefix, 2) && forall k :: 0 <= k < 4 ==> DigitRun(groups[k], 3)
  {
    var addr := Join(groups, ".");
    JoinDotsFree(groups);
    assert CidrText(groups, prefix) == Join([addr, prefix], "/");
    SplitJoin([addr, prefix], '/');
    SplitJoin(groups, '.');
  }

  /** Conversely, a matching text is such a text. */
  lemma CidrShapeParts(s: string)
    requires CidrShape(s)
    ensures var halves := Split(s, '/');
      s == CidrText(Split(halves[0], '.'), halves[1])
  {
    var halves := Split(s, '/');
    JoinSplit(s, '/');
    JoinSplit(halves[0], '.');
    assert Join(halves, "/") == halves[0] + "/" + halves[1];
  }

  /** A text of the accepted shape passes, and so does the same text with a
      newline after it. */
  lemma RangeMatchesText(groups: seq<string>, prefix: string)
    requires |groups| == 4 && DigitRun(prefix, 2) && forall k :: 0 <= k < 4 ==> DigitRun(groups[k], 3)
    ensures RangeMatches(CidrText(groups, prefix))
    ensures RangeMatches(CidrText(groups, prefix) + "\n")
  {
    forall p | p in groups
      ensures '/' !in p && '.' !in p
    {
      var k :| 0 <= k < 4 && groups[k] == p;
      DigitRunFree(p, 3);
    }
    DigitRunFree(prefix, 2);
    CidrShapeText(groups, prefix);
    var s := CidrText(groups, prefix);
    assert (s + "\n")[..|s|] == s;
  }

  /** The `scan_network` endpoint. */
  function ScanNetwork(networkRange: Option<string>, scan: Scan): Result<ScanReply, RouteError> {
    if !Truthy(networkRange) then Err(RangeRequired)
    else if !RangeMatches(networkRange.value) then Err(RangeFormat)
    else
      match scan(networkRange.value)
      case Err(message) => Err(ScanFailed(message))
      case Ok(hosts) => Ok(Summary(None, hosts))
  }

  /** A missing range is reported before any format check, a malformed one before
      any scan; the scanner sees only a matching range, and its hosts come back
      whole with both counts. */
  lemma ScanNetworkChecks(networkRange: Option<string>, scan: Scan)
    ensures !Truthy(networkRange) ==> ScanNetwork(networkRange, scan) == Err(RangeRequired)
    ensures Truthy(networkRange) && !RangeMatches(networkRange.value) ==>
      ScanNetwork(networkRange, scan) == Err(RangeFormat)
    ensures ScanNetwork(networkRange, scan).Ok? ==>
      && Truthy(networkRange) && RangeMatches(networkRange.value)
      && scan(networkRange.value) == Ok(ScanNetwork(networkRange, scan).value.hosts)
      && ScanNetwork(networkRange, scan).value.totalFound == |ScanNetwork(networkRange, scan).value.hosts|
      && ScanNetwork(networkRange, scan).value.switchCandidates <= ScanNetwork(networkRange, scan).value.totalFound
  {
  }

  // ---------------------------------------------------------------- quick_scan

  const DefaultBaseIp: string := "192.168.1.1"

  /** The /24 range around `baseIp`, None unless it has exactly four dot-separated
      parts; what the parts hold is not looked at. */
  function SubnetOf(baseIp: string): (range: Option<string>)
    ensures range.Some? <==> |Split(baseIp, '.')| == 4
  {
    var parts := Split(baseIp, '.');
    if |parts| != 4 then None else Some(Join(parts[..3], ".") + ".0/24")
  }

  /** The range replaces the last part of the address by "0/24". */
  lemma SubnetOfParts(parts: seq<string>)
    requires |parts| == 4 && forall p :: p in parts ==> '.' !in p
    ensures SubnetOf(Join(parts, ".")) == Some(CidrText(parts[..3] + ["0"], "24"))
  {
    SplitJoin(parts, '.');
    JoinAppend(parts[..3], "0", ".");
    ZeroSuffix(Join(parts[..3], "."));
  }

  lemma ZeroSuffix(front: string)
    ensures front + "." + "0" + "/" + "24" == front + ".0/24"
  {
  }

  /** The derived range passes the check of `scan_network` exactly when the first
      three parts are runs of one to three digits. */
  lemma SubnetMatchesRange(parts: seq<string>)
    requires |parts| == 4 && forall p :: p in parts ==> '.' !in p && '/' !in p
    ensures SubnetOf(Join(parts, ".")).Some?
    ensures RangeMatches(SubnetOf(Join(parts, ".")).value)
        <==> forall k :: 0 <= k < 3 ==> DigitRun(parts[k], 3)
  {
    SubnetOfParts(parts);
    var groups := parts[..3] + ["0"];
    assert DigitRun("0", 3);
    assert DigitRun("24", 2) by {
      assert "24"[..1][..0] == [];
    }
    forall p | p in groups
      ensures '/' !in p && '.' !in p
    {
      if p != "0" {
        assert p in parts;
      }
    }
    CidrShapeText(groups, "24");
    var range := CidrText(groups, "24");
    assert range[|range| - 1] == '4';
    assert groups[3] == "0";
    assert forall k :: 0 <= k < 3 ==> groups[k] == parts[k];
  }

  /** The `quick_scan` endpoint; None is a request without `base_ip`. */
  function QuickScan(baseIp: Option<string>, scan: Scan): Result<ScanReply, RouteError> {
    match SubnetOf(baseIp.GetOr(DefaultBaseIp))
    case None => Err(IpFormat)
    case Some(range) =>
      match scan(range)
      case Err(message) => Err(ScanFailed(message))
      case Ok(hosts) => Ok(Summary(Some(range), hosts))
  }

  lemma JoinFour(a: string, b: string, c: string, d: string)
    ensures Join([a, b, c, d], ".") == a + "." + b + "." + c + "." + d
  {
    assert [a, b, c, d][1..] == [b, c, d] && [b, c, d][1..] == [c, d] && [c, d][1..] == [d];
    assert Join([c, d], ".") == c + "." + d;
    assert Join([b, c, d], ".") == b + "." + (c + "." + d);
    assert Join([a, b, c, d], ".") == a + "." + (b + "." + (c + "." + d));
  }

  /** Four dot-free parts: the range keeps the first three and ends in ".0/24". */
  lemma SubnetOfFour(a: string, b: string, c: string, d: string)
    requires '.' !in a && '.' !in b && '.' !in c && '.' !in d
    ensures SubnetOf(a + "." + b + "." + c + "." + d) == Some(a + "." + b + "." + c + ".0/24")
  {
    var parts := [a, b, c, d];
    JoinFour(a, b, c, d);
    JoinFour(a, b, c, "0");
    assert parts[..3] + ["0"] == [a, b, c, "0"];
    SubnetOfParts(parts);
    ZeroSuffix(a + "." + b + "." + c);
  }

  lemma DefaultSubnet()
    ensures SubnetOf(DefaultBaseIp) == Some("192.168.1.0/24")
  {
    assert DefaultBaseIp == "192" + "." + "168" + "." + "1" + "." + "1";
    assert "192.168.1.0/24" == "192" + "." + "168" + "." + "1" + ".0/24";
    SubnetOfFour("192", "168", "1", "1");
  }

  /** Without a base address the /24 of 192.168.1.1 is scanned. */
  lemma QuickScanDefault(scan: Scan)
    ensures QuickScan(None, scan).Ok? ==> QuickScan(None, scan).value.networkScanned == Some("192.168.1.0/24")
  {
    DefaultSubnet();
  }

  /** The range is the one derived from the address, and the answer reports it. */
  lemma QuickScanChecks(baseIp: Option<string>, scan: Scan)
    ensures var base := baseIp.GetOr(DefaultBaseIp);
      && (|Split(base, '.')| != 4 <==> QuickScan(baseIp, scan) == Err(IpFormat))
      && (QuickScan(baseIp, scan).Ok? ==>
            && QuickScan(baseIp, scan).value.networkScanned == SubnetOf(base)
            && scan(SubnetOf(base).value) == Ok(QuickScan(baseIp, scan).value.hosts)
            && QuickScan(baseIp, scan).value.switchCandidates <= QuickScan(baseIp, scan).value.totalFound)
  {
  }

  /** The parts are not looked at: a base address of letters gives a range that
      `scan_network` itself would refuse, and it is scanned all the same. */
  lemma QuickScanUnchecked()
    ensures SubnetOf("a.b.c.d") == Some("a.b.c.0/24")
    ensures !RangeMatches("a.b.c.0/24")
  {
    var parts := ["a", "b", "c", "d"];
    assert "a.b.c.d" == "a" + "." + "b" + "." + "c" + "." + "d";
    assert "a.b.c.0/24" == "a" + "." + "b" + "." + "c" + ".0/24";
    SubnetOfFour("a", "b", "c", "d");
    JoinFour("a", "b", "c", "d");
    SubnetMatchesRange(parts);
    assert !DigitRun(parts[0], 3) by {
      assert !IsDigit(parts[0][0]);
    }
  }

  // ---------------------------------------------------------------- test_switch

  /** The fields of a `test_switch` request; None is a missing field. */
  datatype TestRequest = TestRequest(ip: Option<string>, username: Option<string>, password: Option<string>)

  const DefaultUsername: string := "kali"

  /** How opening an SSH session as (ip, username, password) and running the OVS
      command ended. */
  type Connect = (string, string, string) -> SshOutcome

  /** The `test_switch` endpoint. */
  function TestSwitch(req: TestRequest, connect: Connect): Result<Connectivity, RouteError> {
    if !Truthy(req.ip) then Err(IpRequired)
    else if !Truthy(req.password) then Err(PasswordRequired)
    else Ok(TestConnectivity(connect(req.ip.value, req.username.GetOr(DefaultUsername), req.password.value)))
  }

  /** The address is checked before the password; with both present the switch is
      tried, as "kali" when no user name is given. */
  lemma TestSwitchChecks(req: TestRequest, connect: Connect)
    ensures !Truthy(req.ip) ==> TestSwitch(req, connect) == Err(IpRequired)
    ensures Truthy(req.ip) && !Truthy(req.password) ==> TestSwitch(req, connect) == Err(PasswordRequired)
    ensures TestSwitch(req, connect).Ok? <==> Truthy(req.ip) && Truthy(req.password)
    ensures TestSwitch(req, connect).Ok? && req.username.None? ==>
      TestSwitch(req, connect).value == TestConnectivity(connect(req.ip.value, "kali", req.password.value))
  {
  }
}
