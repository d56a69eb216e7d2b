/**
  The detail panel a click on a process row opens (`handleRowClick` in
  `components/ProcessMonitor.tsx`) and the row classifier
  `getProcessTypeInfo`. Everything here is derived by string tests on the
  row's name and flags; the random checksum, parent pid, user and start time
  arrive as arguments.
 */
module ProcessDetails {
  import opened Types
  import opened Draws
  import opened Text
  import ProcessTable

  /** Where the panel claims the package came from. */
  datatype InstallSource = Sideloaded | PlayStore | SystemPartition

  function InstallSourceLabel(src: InstallSource): string {
    match src
    case Sideloaded => "Unknown (Sideloaded)"
    case PlayStore => "Google Play Store"
    case SystemPartition => "System Partition"
  }

  /**
    The modal paints the install source yellow when its text mentions
    "Unknown", which is exactly the sideloaded case.
   */
  lemma UnknownSourceIffSideloaded(src: InstallSource)
    ensures Contains(InstallSourceLabel(src), "Unknown") <==> src == Sideloaded
  {
    match src
    case Sideloaded =>
      assert StartsWith(InstallSourceLabel(src), "Unknown");
      StartsWithContains(InstallSourceLabel(src), "Unknown");
    case PlayStore => LeadNot(InstallSourceLabel(src), "Unknown");
    case SystemPartition => LeadNot(InstallSourceLabel(src), "Unknown");
  }

  /** The four anomalies the panel can report, in the order it reports them. */
  datatype Anomaly = RootkitHiding | PossibleMining | MinerSignature | UnexpectedSuspension

  function AnomalyMessage(a: Anomaly): string {
    match a
    case RootkitHiding => "Process is hidden from standard API calls (Rootkit behavior)"
    case PossibleMining => "Abnormal CPU consumption detected (Possible mining)"
    case MinerSignature => "Known crypto-miner signature match"
    case UnexpectedSuspension => "System process suspended unexpectedly"
  }

  /** Distinct anomalies read differently, so the modal's list of messages names each anomaly it found once. */
  lemma AnomalyMessagesDistinct(a: Anomaly, b: Anomaly)
    requires a != b
    ensures AnomalyMessage(a) != AnomalyMessage(b)
  {
    assert AnomalyMessage(a)[0] != AnomalyMessage(b)[0] || |AnomalyMessage(a)| != |AnomalyMessage(b)|;
  }

  /** `ProcessDetails`: what the modal shows about one row. */
  datatype ProcessDetails = ProcessDetails(
    apk: string,
    installSource: InstallSource,
    permissions: seq<string>,
    openFiles: seq<string>,
    connections: seq<string>,
    anomalies: seq<Anomaly>,
    riskScore: int,
    sha256: string,
    parentPid: int,
    user: string,
    startTime: string)

  /**
    The random inputs of one click: 64 draws for the checksum digits, one for
    the parent pid, one for the user, and the start time already formatted
    by the clock.
   */
  datatype DetailDraws = DetailDraws(hash: seq<Unit>, parent: Unit, user: Unit, startTime: string)

  const Users: seq<string> := ["root", "system", "u0_a123", "u0_a124", "radio", "wifi"]

  const UserAppPermissions: seq<string> := [
    "android.permission.INTERNET", "android.permission.READ_CONTACTS",
    "android.permission.ACCESS_FINE_LOCATION"
  ]

  const SystemCapabilities: seq<string> := ["CAP_SYS_ADMIN", "CAP_NET_RAW"]

  /** `a.b.c.d` */
  function DottedQuad(a: string, b: string, c: string, d: string): string {
    a + ['.'] + b + ['.'] + c + ['.'] + d
  }

  /** `<address>:<port> <protocol> - <state>`, the shape of every connection the panel lists. */
  function Connection(address: string, port: string, protocol: string, state: string): string {
    address + [':'] + port + [' '] + protocol + [' '] + "-" + [' '] + state
  }

  /** The two connections a suspicious row shows: a reverse shell and a listener. */
  const ShellConnection: string := Connection(DottedQuad("45", "33", "22", "11"), ShellPort, "(TCP)", "ESTABLISHED")
  const ListenerConnection: string := Connection(DottedQuad("192", "168", "1", "105"), ListenerPort, "(UDP)", "LISTEN")

  /** The two connections a messaging or Play-services row shows. */
  const PushConnection: string := Connection(DottedQuad("172", "217", "16", "142"), "443", "(HTTPS)", "TIME_WAIT")
  const SyncConnection: string := Connection(DottedQuad("142", "250", "185", "78"), "443", "(HTTPS)", "ESTABLISHED")

  /** The two port numbers the risk score treats as a backdoor. */
  const ShellPort: string := "4444"
  const ListenerPort: string := "5555"
  const BackdoorPorts: seq<string> := [ShellPort, ListenerPort]

  /** The name fragment both the panel and the classifier treat as a miner signature. */
  const MinerTag: string := "miner"

  predicate IsMinerName(p: SystemProcess) {
    Contains(p.name, MinerTag)
  }

  /** `isSuspicious`: a miner by name, or hidden. */
  predicate IsSuspicious(p: SystemProcess) {
    IsMinerName(p) || p.isHidden
  }

  /** `isUserApp`: a dotted package name outside the `com.android.` and `com.google.` namespaces. */
  predicate IsUserApp(p: SystemProcess) {
    Contains(p.name, ".") && !StartsWith(p.name, "com.android.") && !StartsWith(p.name, "com.google.")
  }

  /** Rows that get network connections in the panel. */
  predicate IsNetworked(p: SystemProcess) {
    IsSuspicious(p) || Contains(p.name, "whatsapp") || Contains(p.name, "gms")
  }

  function Connections(p: SystemProcess): (conns: seq<string>)
    ensures |conns| == if IsNetworked(p) then 2 else 0
  {
    if IsNetworked(p) then
      [if IsSuspicious(p) then ShellConnection else PushConnection,
       if IsSuspicious(p) then ListenerConnection else SyncConnection]
    else []
  }

  /** `connections.some(c => c.includes('4444') || c.includes('5555'))` */
  predicate HasBackdoorPort(connections: seq<string>) {
    exists i, t | 0 <= i < |connections| && t in BackdoorPorts :: Contains(connections[i], t)
  }

  function Anomalies(p: SystemProcess): (found: seq<Anomaly>)
    ensures forall a :: a in found <==> Exhibits(p, a)
    ensures forall i, j :: 0 <= i < j < |found| ==> found[i] != found[j]
    ensures |found| <= 4
  {
    (if p.isHidden then [RootkitHiding] else []) +
    (if p.cpuTenths > 100 then [PossibleMining] else []) +
    (if IsMinerName(p) then [MinerSignature] else []) +
    (if p.pid < 2000 && p.status == Suspended then [UnexpectedSuspension] else [])
  }

  /** The condition under which the panel reports each anomaly (a CPU load over 10%, a pid under 2000). */
  predicate Exhibits(p: SystemProcess, a: Anomaly) {
    match a
    case RootkitHiding => p.isHidden
    case PossibleMining => p.cpuTenths > 100
    case MinerSignature => IsMinerName(p)
    case UnexpectedSuspension => p.pid < 2000 && p.status == Suspended
  }

  /** The score as the handler accumulates it, capped at 100. */
  function RiskScore(p: SystemProcess, connections: seq<string>): (score: int)
    ensures 0 <= score <= 100
  {
    var score :=
      (if p.isHidden then 50 else 0) +
      (if IsMinerName(p) then 40 else 0) +
      (if p.cpuTenths > 150 then 10 else 0) +
      (if HasBackdoorPort(connections) then 20 else 0);
    if score < 100 then score else 100
  }

  function HexDigit(r: Unit): (c: char)
    ensures c in "0123456789abcdef"
  {
    "0123456789abcdef"[Pick(r, 16)]
  }

  /** The file handles the panel lists: three `/proc` entries, the app's data file, libc and binder. */
  function OpenFiles(p: SystemProcess): (files: seq<string>)
    ensures |files| == 6
    ensures var proc := "/proc/" + IntToString(p.pid);
            files[0] == proc + "/cmdline" && files[1] == proc + "/status" && files[2] == proc + "/maps"
    ensures files[3] == "/data/local/tmp/payload.so" <==> IsSuspicious(p)
  {
    assert "/data/data/" + p.name + "/databases/main.db" != "/data/local/tmp/payload.so" by {
      assert ("/data/data/" + p.name + "/databases/main.db")[6] == 'd';
    }
    var proc := "/proc/" + IntToString(p.pid);
    [proc + "/cmdline", proc + "/status", proc + "/maps",
     if IsSuspicious(p) then "/data/local/tmp/payload.so" else "/data/data/" + p.name + "/databases/main.db",
     "/system/lib64/libc.so",
     "/dev/binder"]
  }

  /** The fake SHA-256: one hexadecimal digit per draw. */
  function Checksum(hash: seq<Unit>): (digest: string)
    ensures |digest| == |hash|
    ensures forall i :: 0 <= i < |digest| ==> digest[i] in "0123456789abcdef"
  {
    seq(|hash|, i requires 0 <= i < |hash| => HexDigit(hash[i]))
  }

  /** `handleRowClick`: the details the modal shows for row `p`. */
  function Derive(p: SystemProcess, d: DetailDraws): (r: ProcessDetails)
    requires |d.hash| == 64
    ensures r.installSource == Sideloaded <==> IsSuspicious(p)
    ensures r.installSource == PlayStore <==> !IsSuspicious(p) && IsUserApp(p)
    ensures Contains(p.name, ".") ==> r.apk == p.name
    ensures !Contains(p.name, ".") ==> r.apk == "System Process"
    ensures r.permissions == if IsUserApp(p) then UserAppPermissions else SystemCapabilities
    ensures r.openFiles == OpenFiles(p)
    ensures |r.openFiles| == 6 && r.openFiles[0] == "/proc/" + IntToString(p.pid) + "/cmdline"
    ensures r.openFiles[3] == "/data/local/tmp/payload.so" <==> IsSuspicious(p)
    ensures r.anomalies == Anomalies(p)
    ensures forall a :: a in r.anomalies <==> Exhibits(p, a)
    ensures r.connections == Connections(p)
    ensures |r.connections| == (if IsNetworked(p) then 2 else 0)
    ensures r.riskScore == RiskScore(p, r.connections)
    ensures 0 <= r.riskScore <= 100
    ensures r.sha256 == Checksum(d.hash)
    ensures |r.sha256| == 64 && forall i :: 0 <= i < 64 ==> r.sha256[i] in "0123456789abcdef"
    ensures r.startTime == d.startTime
    ensures 100 <= r.parentPid < 600
    ensures r.user in Users
  {
    var connections := Connections(p);
    ProcessDetails(
      apk := if Contains(p.name, ".") then p.name else "System Process",
      installSource := if IsSuspicious(p) then Sideloaded else if IsUserApp(p) then PlayStore else SystemPartition,
      permissions := if IsUserApp(p) then UserAppPermissions else SystemCapabilities,
      openFiles := OpenFiles(p),
      connections := connections,
      anomalies := Anomalies(p),
      riskScore := RiskScore(p, connections),
      sha256 := Checksum(d.hash),
      parentPid := Pick(d.parent, 500) + 100,
      user := Users[Pick(d.user, |Users|)],
      startTime := d.startTime)
  }

  /** `t` is one of the two port numbers the score looks for. */
  predicate IsBackdoorPort(t: string) {
    t in BackdoorPorts
  }

  /** Neither port number spans a separator or starts with a bracket or a capital letter. */
  lemma BackdoorPortShape(t: string)
    requires IsBackdoorPort(t)
    ensures |t| == 4 && '.' !in t && ':' !in t && ' ' !in t
    ensures IsDigit(t[0])
  {
  }

  predicate NoDigits(s: string) {
    forall i :: 0 <= i < |s| ==> !IsDigit(s[i])
  }

  lemma ServiceWordsLackDigits()
    ensures NoDigits("(HTTPS)") && NoDigits("TIME_WAIT") && NoDigits("ESTABLISHED")
  {
  }

  /** A dotted address of short octets cannot hold a four-digit port number. */
  lemma AddressLacksPort(a: string, b: string, c: string, d: string, t: string)
    requires IsBackdoorPort(t)
    requires |a| < 4 && |b| < 4 && |c| < 4 && |d| < 4
    ensures !Contains(DottedQuad(a, b, c, d), t)
  {
    BackdoorPortShape(t);
    ShortNot(a, t); ShortNot(b, t); ShortNot(c, t); ShortNot(d, t);
    SplitNot(a, '.', b, t);
    SplitNot(a + ['.'] + b, '.', c, t);
    SplitNot(a + ['.'] + b + ['.'] + c, '.', d, t);
  }

  /**
    A connection to a dotted address of short octets, on a port of fewer than
    four digits, with a protocol and state free of digits, cannot
    hold a four-digit port number.
   */
  lemma ConnectionLacksPort(a: string, b: string, c: string, d: string, port: string,
                            protocol: string, state: string, t: string)
    requires IsBackdoorPort(t)
    requires |a| < 4 && |b| < 4 && |c| < 4 && |d| < 4 && |port| < 4
    requires NoDigits(protocol) && NoDigits(state)
    ensures !Contains(Connection(DottedQuad(a, b, c, d), port, protocol, state), t)
  {
    BackdoorPortShape(t);
    var address := DottedQuad(a, b, c, d);
    AddressLacksPort(a, b, c, d, t);
    ShortNot(port, t); ShortNot("-", t);
    LeadNot(protocol, t); LeadNot(state, t);
    SplitNot(address, ':', port, t);
    SplitNot(address + [':'] + port, ' ', protocol, t);
    SplitNot(address + [':'] + port + [' '] + protocol, ' ', "-", t);
    SplitNot(address + [':'] + port + [' '] + protocol + [' '] + "-", ' ', state, t);
  }

  /** The messaging and Play-services connections mention neither backdoor port. */
  lemma ServiceConnectionsLackPorts(t: string)
    requires IsBackdoorPort(t)
    ensures !Contains(PushConnection, t) && !Contains(SyncConnection, t)
  {
    ServiceWordsLackDigits();
    ConnectionLacksPort("172", "217", "16", "142", "443", "(HTTPS)", "TIME_WAIT", t);
    ConnectionLacksPort("142", "250", "185", "78", "443", "(HTTPS)", "ESTABLISHED", t);
  }

  /** A connection names its own port. */
  lemma ConnectionNamesPort(address: string, port: string, protocol: string, state: string)
    ensures Contains(Connection(address, port, protocol, state), port)
  {
    var tail := [' '] + protocol + [' '] + "-" + [' '] + state;
    ContainsInfix(address + [':'], port, tail);
    assert Connection(address, port, protocol, state) == address + [':'] + port + tail;
  }

  lemma SuspiciousConnectionsHavePort(p: SystemProcess)
    requires IsSuspicious(p)
    ensures HasBackdoorPort(Connections(p))
  {
    ConnectionNamesPort(DottedQuad("45", "33", "22", "11"), ShellPort, "(TCP)", "ESTABLISHED");
    assert Connections(p)[0] == ShellConnection;
    assert ShellPort in BackdoorPorts;
  }

  /** A pair of connections neither of which names a backdoor port raises no flag. */
  lemma PairLacksPort(a: string, b: string)
    requires forall t | t in BackdoorPorts :: !Contains(a, t) && !Contains(b, t)
    ensures !HasBackdoorPort([a, b])
  {
  }

  lemma ServiceConnectionsHaveNoPort(p: SystemProcess)
    requires !IsSuspicious(p)
    ensures !HasBackdoorPort(Connections(p))
  {
    if IsNetworked(p) {
      forall t | t in BackdoorPorts
        ensures !Contains(PushConnection, t) && !Contains(SyncConnection, t)
      {
        ServiceConnectionsLackPorts(t);
      }
      PairLacksPort(PushConnection, SyncConnection);
      assert Connections(p) == [PushConnection, SyncConnection];
    }
  }

  /** Exactly the suspicious rows show a connection on a backdoor port. */
  lemma BackdoorPortIffSuspicious(p: SystemProcess)
    ensures HasBackdoorPort(Connections(p)) <==> IsSuspicious(p)
  {
    if IsSuspicious(p) {
      SuspiciousConnectionsHavePort(p);
    } else {
      ServiceConnectionsHaveNoPort(p);
    }
  }

  /** The score in closed form: 50 for hiding, 40 for the miner tag, 10 for a CPU load over 15%, 20 for a backdoor, capped at 100. */
  lemma RiskScoreOfClick(p: SystemProcess, d: DetailDraws)
    requires |d.hash| == 64
    ensures var raw := (if p.isHidden then 50 else 0) + (if IsMinerName(p) then 40 else 0)
                     + (if p.cpuTenths > 150 then 10 else 0) + (if IsSuspicious(p) then 20 else 0);
            Derive(p, d).riskScore == if raw < 100 then raw else 100
  {
    BackdoorPortIffSuspicious(p);
  }

  /** A row that neither hides nor carries the miner tag scores 0, or 10 when its CPU load exceeds 15%. */
  lemma BenignRowScoresLow(p: SystemProcess, d: DetailDraws)
    requires |d.hash| == 64
    requires !IsSuspicious(p)
    ensures Derive(p, d).riskScore == if p.cpuTenths > 150 then 10 else 0
  {
    RiskScoreOfClick(p, d);
  }

  /** A hidden row scores at least 70, and a hidden miner scores the maximum. */
  lemma HiddenRowScoresHigh(p: SystemProcess, d: DetailDraws)
    requires |d.hash| == 64
    requires p.isHidden
    ensures Derive(p, d).riskScore >= 70
    ensures IsMinerName(p) ==> Derive(p, d).riskScore == 100
  {
    RiskScoreOfClick(p, d);
  }

  lemma MinerNameParts()
    ensures ProcessTable.MinerName == "com.unknown." + MinerTag + ""
  {
  }

  /** The planted hidden row of a fresh table is a hidden miner, so its panel shows the maximum risk. */
  lemma GeneratedMinerScoresMax(draws: seq<ProcessTable.RowDraw>, d: DetailDraws)
    requires |draws| == ProcessTable.RowCount
    requires |d.hash| == 64
    ensures Derive(ProcessTable.Generate(draws)[ProcessTable.HiddenIndex], d).riskScore == 100
  {
    var p := ProcessTable.Generate(draws)[ProcessTable.HiddenIndex];
    ProcessTable.GeneratedHiddenRow(draws);
    MinerNameParts();
    ContainsInfix("com.unknown.", MinerTag, "");
    assert IsMinerName(p);
    HiddenRowScoresHigh(p, d);
  }

  /** Two clicks on the same row differ only in the randomly drawn fields. */
  lemma DetailsDependOnRowOnly(p: SystemProcess, d1: DetailDraws, d2: DetailDraws)
    requires |d1.hash| == 64 && |d2.hash| == 64
    ensures var r1, r2 := Derive(p, d1), Derive(p, d2);
            r1.(sha256 := r2.sha256, parentPid := r2.parentPid, user := r2.user, startTime := r2.startTime) == r2
  {
  }

  /** The three classes of `getProcessTypeInfo`, in the order it tests them. */
  datatype ProcessType = PotentialThreat | UserApplication | CoreSystem

  function TypeTitle(k: ProcessType): string {
    match k
    case PotentialThreat => "Potential Threat"
    case UserApplication => "User Application"
    case CoreSystem => "System Process"
  }

  function TypeColor(k: ProcessType): string {
    match k
    case PotentialThreat => "text-cyber-red"
    case UserApplication => "text-cyber-blue"
    case CoreSystem => "text-gray-500"
  }

  /**
    The row icon's colour and title: red "Potential Threat" exactly for the
    suspicious rows, and each class with a title of its own.
   */
  lemma TypeInfoShown(p: SystemProcess)
    ensures TypeColor(ProcessTypeInfo(p)) == "text-cyber-red" <==> IsSuspicious(p)
    ensures TypeTitle(ProcessTypeInfo(p)) == "Potential Threat" <==> IsSuspicious(p)
    ensures forall k :: k != ProcessTypeInfo(p) ==> TypeTitle(k) != TypeTitle(ProcessTypeInfo(p))
  {
    var k := ProcessTypeInfo(p);
    assert TypeColor(k)[5] == (if k == PotentialThreat then 'c' else if k == UserApplication then 'c' else 'g');
    assert TypeColor(k)[11] == (if k == PotentialThreat then 'r' else if k == UserApplication then 'b' else '0');
    assert TypeTitle(k)[0] == (if k == PotentialThreat then 'P' else if k == UserApplication then 'U' else 'S');
    forall j: ProcessType | j != k
      ensures TypeTitle(j) != TypeTitle(k)
    {
      assert TypeTitle(j)[0] != TypeTitle(k)[0];
    }
  }

  /** A `com.` or `org.` package outside the Android and Google namespaces. */
  predicate IsThirdPartyPackage(name: string) {
    (StartsWith(name, "com.") || StartsWith(name, "org.")) &&
    !Contains(name, ".android.") && !Contains(name, ".google.")
  }

  /** `getProcessTypeInfo`: threats first, then third-party packages, everything else is a system process. */
  function ProcessTypeInfo(p: SystemProcess): (k: ProcessType)
    ensures k == PotentialThreat <==> IsSuspicious(p)
    ensures k == UserApplication <==> !IsSuspicious(p) && IsThirdPartyPackage(p.name)
  {
    if p.isHidden || Contains(p.name, MinerTag) then PotentialThreat
    else if IsThirdPartyPackage(p.name) then UserApplication
    else CoreSystem
  }

  /** The row icon flags a threat exactly when the detail panel says the package was sideloaded. */
  lemma ThreatIconIffSideloaded(p: SystemProcess, d: DetailDraws)
    requires |d.hash| == 64
    ensures ProcessTypeInfo(p) == PotentialThreat <==> Derive(p, d).installSource == Sideloaded
  {
  }

  lemma NamespaceParts()
    ensures "com.android." == "com" + ".android." + ""
    ensures "com.google." == "com" + ".google." + ""
    ensures "com." == "com" + "." + "" && "org." == "org" + "." + ""
  {
  }

  /**
    A row the list marks as a user application is one the detail panel says
    came from the Play Store.
   */
  lemma UserApplicationsComeFromPlayStore(p: SystemProcess, d: DetailDraws)
    requires |d.hash| == 64
    requires ProcessTypeInfo(p) == UserApplication
    ensures Derive(p, d).installSource == PlayStore
  {
    NamespaceParts();
    if StartsWith(p.name, "com.") {
      StartsWithContains(p.name, "com.");
      ContainsInfix("com", ".", "");
      ContainsTrans(p.name, "com.", ".");
    } else {
      StartsWithContains(p.name, "org.");
      ContainsInfix("org", ".", "");
      ContainsTrans(p.name, "org.", ".");
    }
    if StartsWith(p.name, "com.android.") {
      StartsWithContains(p.name, "com.android.");
      ContainsInfix("com", ".android.", "");
      ContainsTrans(p.name, "com.android.", ".android.");
    }
    if StartsWith(p.name, "com.google.") {
      StartsWithContains(p.name, "com.google.");
      ContainsInfix("com", ".google.", "");
      ContainsTrans(p.name, "com.google.", ".google.");
    }
    assert IsUserApp(p);
  }

  /** A dotted name outside the `com.` and `org.` namespaces, on a row that is no threat. */
  lemma OutsideNamespaces(p: SystemProcess)
    requires !p.isHidden && !IsMinerName(p) && Contains(p.name, ".")
    requires p.name[0] != 'c' && p.name[0] != 'o'
    ensures !IsSuspicious(p) && IsUserApp(p) && ProcessTypeInfo(p) == CoreSystem
  {
  }

  /**
    The converse fails: a dotted name outside `com.` and `org.` is a Play
    Store package to the panel (by the contract of `Derive`) but a system
    process to the list.
   */
  lemma PlayStoreNeedNotBeUserApplication()
    ensures var p := SystemProcess(1000, "net.tor", 0, 10, false, Running);
            !IsSuspicious(p) && IsUserApp(p) && ProcessTypeInfo(p) == CoreSystem
  {
    var p := SystemProcess(1000, "net.tor", 0, 10, false, Running);
    assert p.name == "net" + "." + "tor";
    ContainsInfix("net", ".", "tor");
    LeadNot(p.name, MinerTag);
    OutsideNamespaces(p);
  }
}
