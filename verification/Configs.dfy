/** config/config.go: Validate, above all its scan for port collisions. */
module Configs {
  import opened Types

  datatype Instance = Instance(name: string, gossipD: int, logFile: string)

  datatype Config = Config(
    mode: string,
    crawlFile: string,
    bootstrapFile: string,
    baseTcp: uint64,
    baseQuic: uint64,
    baseDiscV5: uint64,
    discV4: uint64,
    instances: seq<Instance>
  )

  /** Ports are Go's uint on a 64-bit machine: the arithmetic wraps. */
  function TcpPort(c: Config, i: nat): uint64 {
    (c.baseTcp + 2 * i) % UINT64
  }

  function QuicPort(c: Config, i: nat): uint64 {
    (c.baseQuic + 2 * i) % UINT64
  }

  function DiscV5Port(c: Config, i: nat): uint64 {
    (c.baseDiscV5 + i) % UINT64
  }

  datatype Error =
    | BadMode
    | NoInstances
    | EmptyName
    | DuplicateName(name: string)
    | CrawlNeedsOneInstance
    | CrawlNeedsFile
    | CrawlExcludesBootstrap
    | LogFileRequired(name: string)
    | GossipDNotPositive(name: string)
    | ZeroBasePort
    | PortCollision(port: uint64, first: nat, second: nat)

  // ---------- Specification ----------

  /** The first n instances have different, non-empty names. */
  ghost predicate NamesOkTo(c: Config, n: nat)
    requires n <= |c.instances|
  {
    && (forall i :: 0 <= i < n ==> c.instances[i].name != "")
    && (forall i, j :: 0 <= i < j < n ==> c.instances[i].name != c.instances[j].name)
  }

  ghost predicate NamesOk(c: Config) {
    NamesOkTo(c, |c.instances|)
  }

  /** The first n instances have what probe mode needs. */
  ghost predicate ProbeOkTo(c: Config, n: nat)
    requires n <= |c.instances|
  {
    forall i :: 0 <= i < n ==> c.instances[i].logFile != "" && c.instances[i].gossipD > 0
  }

  ghost predicate ModeOk(c: Config) {
    match c.mode
    case "crawl" => |c.instances| == 1 && c.crawlFile != "" && c.bootstrapFile == ""
    case "probe" => ProbeOkTo(c, |c.instances|)
    case _ => false
  }

  ghost predicate BasesOk(c: Config) {
    |c.instances| > 1 ==> c.baseTcp != 0 && c.baseQuic != 0 && c.baseDiscV5 != 0
  }

  /** All ports in the order of the scan: TCP, QUIC and discv5 of each instance, then discv4. */
  function Ports(c: Config, n: nat): (ports: seq<uint64>)
    ensures |ports| == 3 * n
    ensures forall i :: 0 <= i < n ==>
                          && ports[3 * i] == TcpPort(c, i)
                          && ports[3 * i + 1] == QuicPort(c, i)
                          && ports[3 * i + 2] == DiscV5Port(c, i)
  {
    if n == 0 then [] else Ports(c, n - 1) + [TcpPort(c, n - 1), QuicPort(c, n - 1), DiscV5Port(c, n - 1)]
  }

  function AllPorts(c: Config): seq<uint64> {
    Ports(c, |c.instances|) + [c.discV4]
  }

  /** Two different services on one port; port 0 is unused and clashes with nothing. */
  ghost predicate Clash(ports: seq<uint64>, i: int, j: int) {
    0 <= i < j < |ports| && ports[i] == ports[j] != 0
  }

  ghost predicate NoClash(ports: seq<uint64>) {
    forall i, j :: !Clash(ports, i, j)
  }

  ghost predicate Acceptable(c: Config) {
    c.instances != [] && NamesOk(c) && ModeOk(c) && BasesOk(c) && NoClash(AllPorts(c))
  }

  ghost predicate NameFault(c: Config, e: Error, k: nat) {
    && k < |c.instances| && NamesOkTo(c, k)
    && match e
       case EmptyName => c.instances[k].name == ""
       case DuplicateName(name) =>
         c.instances[k].name == name != "" && exists i :: 0 <= i < k && c.instances[i].name == name
       case _ => false
  }

  ghost predicate ProbeFault(c: Config, e: Error, k: nat) {
    && k < |c.instances| && ProbeOkTo(c, k)
    && match e
       case LogFileRequired(name) => c.instances[k].name == name && c.instances[k].logFile == ""
       case GossipDNotPositive(name) =>
         c.instances[k].name == name && c.instances[k].logFile != "" && c.instances[k].gossipD <= 0
       case _ => false
  }

  /** The port of place `second` is the first to be taken already, by place `first`. */
  ghost predicate PortFault(ports: seq<uint64>, e: Error) {
    && e.PortCollision? && Clash(ports, e.first, e.second) && ports[e.first] == e.port
    && NoClash(ports[..e.second])
  }

  /** The error is the first thing wrong with the configuration, in the order of the checks. */
  ghost predicate FirstFault(c: Config, e: Error) {
    if c.mode != "probe" && c.mode != "crawl" then e == BadMode
    else if c.instances == [] then e == NoInstances
    else if !NamesOk(c) then exists k :: NameFault(c, e, k)
    else if c.mode == "crawl" && |c.instances| != 1 then e == CrawlNeedsOneInstance
    else if c.mode == "crawl" && c.crawlFile == "" then e == CrawlNeedsFile
    else if c.mode == "crawl" && c.bootstrapFile != "" then e == CrawlExcludesBootstrap
    else if c.mode == "probe" && !ProbeOkTo(c, |c.instances|) then exists k :: ProbeFault(c, e, k)
    else if !BasesOk(c) then e == ZeroBasePort
    else PortFault(AllPorts(c), e)
  }

  // ---------- The method ----------

  method CheckNames(c: Config) returns (e: Option<Error>)
    ensures e.None? <==> NamesOk(c)
    ensures e.Some? ==> exists k :: NameFault(c, e.value, k)
  {
    var names: set<string> := {};
    for i := 0 to |c.instances|
      invariant forall x :: x in names <==> exists k :: 0 <= k < i && c.instances[k].name == x
      invariant NamesOkTo(c, i)
    {
      var name := c.instances[i].name;
      if name == "" {
        assert NameFault(c, EmptyName, i);
        return Some(EmptyName);
      }
      if name in names {
        assert NameFault(c, DuplicateName(name), i);
        return Some(DuplicateName(name));
      }
      names := names + {name};
    }
    return None;
  }

  method CheckProbe(c: Config) returns (e: Option<Error>)
    ensures e.None? <==> ProbeOkTo(c, |c.instances|)
    ensures e.Some? ==> exists k :: ProbeFault(c, e.value, k)
  {
    for i := 0 to |c.instances|
      invariant ProbeOkTo(c, i)
    {
      var x := c.instances[i];
      if x.logFile == "" {
        assert ProbeFault(c, LogFileRequired(x.name), i);
        return Some(LogFileRequired(x.name));
      }
      if x.gossipD <= 0 {
        assert ProbeFault(c, GossipDNotPositive(x.name), i);
        return Some(GossipDNotPositive(x.name));
      }
    }
    return None;
  }

  /** `used` maps each nonzero port of a clash-free prefix of the scan to its place. */
  ghost predicate Tracks(used: map<uint64, nat>, prefix: seq<uint64>) {
    && NoClash(prefix)
    && (forall p <- used :: used[p] < |prefix| && prefix[used[p]] == p != 0)
    && (forall i :: 0 <= i < |prefix| && prefix[i] != 0 ==> prefix[i] in used)
  }

  method AddPort(used: map<uint64, nat>, port: uint64, ghost prefix: seq<uint64>, place: nat)
    returns (now: map<uint64, nat>, e: Option<Error>)
    requires Tracks(used, prefix) && place == |prefix|
    ensures e.None? ==> Tracks(now, prefix + [port])
    ensures e.Some? ==> && e.value.PortCollision? && e.value.port == port && e.value.second == place
                        && Clash(prefix + [port], e.value.first, place)
  {
    if port == 0 {
      forall i, j ensures !Clash(prefix + [port], i, j) {
        assert !Clash(prefix, i, j);
      }
      return used, None;
    }
    if port in used {
      assert Clash(prefix + [port], used[port], place);
      return used, Some(PortCollision(port, used[port], place));
    }
    forall i, j ensures !Clash(prefix + [port], i, j) {
      assert !Clash(prefix, i, j);
    }
    return used[port := place], None;
  }

  lemma FaultInPrefix(before: seq<uint64>, port: uint64, all: seq<uint64>, e: Error)
    requires before + [port] <= all && NoClash(before) && e.PortCollision? && e.port == port
    requires e.second == |before| && Clash(before + [port], e.first, e.second)
    ensures PortFault(all, e)
  {
    assert all[..e.second] == before && all[e.first] == (before + [port])[e.first];
  }

  lemma {:induction false} PortsPrefix(c: Config, m: nat, n: nat)
    requires m <= n
    ensures Ports(c, m) <= Ports(c, n)
  {
    if m < n {
      PortsPrefix(c, m, n - 1);
    }
  }

  lemma ScanPrefix(c: Config, i: nat)
    requires i < |c.instances|
    ensures var t, q, d := TcpPort(c, i), QuicPort(c, i), DiscV5Port(c, i);
            && Ports(c, i) + [t] + [q] + [d] == Ports(c, i + 1) <= AllPorts(c)
            && Ports(c, i) + [t] <= AllPorts(c) && Ports(c, i) + [t] + [q] <= AllPorts(c)
  {
    PortsPrefix(c, i + 1, |c.instances|);
  }

  method ScanPorts(c: Config) returns (e: Option<Error>)
    ensures e.None? <==> NoClash(AllPorts(c))
    ensures e.Some? ==> PortFault(AllPorts(c), e.value)
  {
    var used: map<uint64, nat> := map[];
    for i := 0 to |c.instances|
      invariant Tracks(used, Ports(c, i))
    {
      ScanPrefix(c, i);
      ghost var prefix := Ports(c, i);
      used, e := AddPort(used, TcpPort(c, i), prefix, 3 * i);
      if e.Some? {
        FaultInPrefix(prefix, TcpPort(c, i), AllPorts(c), e.value);
        return;
      }
      prefix := prefix + [TcpPort(c, i)];
      used, e := AddPort(used, QuicPort(c, i), prefix, 3 * i + 1);
      if e.Some? {
        FaultInPrefix(prefix, QuicPort(c, i), AllPorts(c), e.value);
        return;
      }
      prefix := prefix + [QuicPort(c, i)];
      used, e := AddPort(used, DiscV5Port(c, i), prefix, 3 * i + 2);
      if e.Some? {
        FaultInPrefix(prefix, DiscV5Port(c, i), AllPorts(c), e.value);
        return;
      }
    }
    used, e := AddPort(used, c.discV4, Ports(c, |c.instances|), 3 * |c.instances|);
    if e.Some? {
      FaultInPrefix(Ports(c, |c.instances|), c.discV4, AllPorts(c), e.value);
    }
  }

  /** Accepted if and only if nothing is wrong; a rejection names the first thing that is. */
  method Validate(c: Config) returns (e: Option<Error>)
    ensures e.None? <==> Acceptable(c)
    ensures e.Some? ==> FirstFault(c, e.value)
  {
    if c.mode != "probe" && c.mode != "crawl" {
      return Some(BadMode);
    }
    if |c.instances| == 0 {
      return Some(NoInstances);
    }
    e := CheckNames(c);
    if e.Some? {
      return;
    }
    if c.mode == "crawl" {
      if |c.instances| != 1 {
        return Some(CrawlNeedsOneInstance);
      }
      if c.crawlFile == "" {
        return Some(CrawlNeedsFile);
      }
      if c.bootstrapFile != "" {
        return Some(CrawlExcludesBootstrap);
      }
    }
    if c.mode == "probe" {
      e := CheckProbe(c);
      if e.Some? {
        return;
      }
    }
    if |c.instances| > 1 {
      if c.baseTcp == 0 || c.baseQuic == 0 || c.baseDiscV5 == 0 {
        return Some(ZeroBasePort);
      }
    }
    e := ScanPorts(c);
  }

  /** So the answer is determined by the configuration: there is at most one first fault. */
  lemma FirstFaultIsUnique(c: Config, e: Error, f: Error)
    requires FirstFault(c, e) && FirstFault(c, f)
    ensures e == f
  {
    if c.mode == "probe" || c.mode == "crawl" {
      if !NamesOk(c) && c.instances != [] {
        var k: nat :| NameFault(c, e, k);
        var l: nat :| NameFault(c, f, l);
        SameNameFault(c, e, f, k, l);
      } else if c.mode == "probe" && !ProbeOkTo(c, |c.instances|) {
        var k: nat :| ProbeFault(c, e, k);
        var l: nat :| ProbeFault(c, f, l);
        SameProbeFault(c, e, f, k, l);
      } else if PortFault(AllPorts(c), e) && PortFault(AllPorts(c), f) {
        SamePortFault(AllPorts(c), e, f);
      }
    }
  }

  lemma SameNameFault(c: Config, e: Error, f: Error, k: nat, l: nat)
    requires NameFault(c, e, k) && NameFault(c, f, l)
    ensures e == f
  {}

  lemma SameProbeFault(c: Config, e: Error, f: Error, k: nat, l: nat)
    requires ProbeFault(c, e, k) && ProbeFault(c, f, l)
    ensures e == f
  {}

  lemma SamePortFault(ports: seq<uint64>, e: Error, f: Error)
    requires PortFault(ports, e) && PortFault(ports, f)
    ensures e == f
  {
    assert !Clash(ports[..f.second], e.first, e.second) && !Clash(ports[..e.second], f.first, f.second);
    assert !Clash(ports[..e.second], e.first, f.first) && !Clash(ports[..e.second], f.first, e.first);
  }

  // ---------- The scan as arithmetic ----------

  ghost predicate NoWrap(c: Config) {
    var n := |c.instances|;
    c.baseTcp + 2 * (n - 1) < UINT64 && c.baseQuic + 2 * (n - 1) < UINT64 && c.baseDiscV5 + n - 1 < UINT64
  }

  function Twos(base: int, i: int): int {
    base + 2 * i
  }

  function Ones(base: int, i: int): int {
    base + i
  }

  /** The difference is even and at most 2(n-1) in size. */
  predicate EvenAndNear(a: int, b: int, n: nat) {
    (b - a) % 2 == 0 && -2 * (n - 1) <= b - a <= 2 * (n - 1)
  }

  predicate MixedNear(a: int, d: int, n: nat) {
    -(n - 1) <= d - a <= 2 * (n - 1)
  }

  predicate OnTwos(p: int, a: int, n: nat) {
    (p - a) % 2 == 0 && 0 <= p - a <= 2 * (n - 1)
  }

  lemma TwosMeetTwos(a: int, b: int, n: nat)
    ensures EvenAndNear(a, b, n) <==> exists i, j :: 0 <= i < n && 0 <= j < n && Twos(a, i) == Twos(b, j)
  {
    if EvenAndNear(a, b, n) {
      var i, j := if b >= a then (b - a) / 2 else 0, if b >= a then 0 else (a - b) / 2;
      assert 0 <= i < n && 0 <= j < n && Twos(a, i) == Twos(b, j);
    }
  }

  lemma TwosMeetOnes(a: int, d: int, n: nat)
    ensures MixedNear(a, d, n) <==> exists i, j :: 0 <= i < n && 0 <= j < n && Twos(a, i) == Ones(d, j)
  {
    if MixedNear(a, d, n) {
      var i := if d >= a then (d - a + 1) / 2 else 0;
      var j := a + 2 * i - d;
      assert 0 <= i < n && 0 <= j < n && Twos(a, i) == Ones(d, j);
    }
  }

  lemma PointOnTwos(p: int, a: int, n: nat)
    ensures OnTwos(p, a, n) <==> exists i :: 0 <= i < n && Twos(a, i) == p
  {
    if OnTwos(p, a, n) {
      assert Twos(a, (p - a) / 2) == p;
    }
  }

  ghost predicate ApartByArithmetic(c: Config) {
    var n := |c.instances|;
    && !EvenAndNear(c.baseTcp, c.baseQuic, n)
    && !MixedNear(c.baseTcp, c.baseDiscV5, n)
    && !MixedNear(c.baseQuic, c.baseDiscV5, n)
    && (c.discV4 != 0 ==>
          && !OnTwos(c.discV4, c.baseTcp, n) && !OnTwos(c.discV4, c.baseQuic, n)
          && !(c.baseDiscV5 <= c.discV4 < c.baseDiscV5 + n))
  }

  ghost predicate Plain(c: Config) {
    NoWrap(c) && c.baseTcp != 0 && c.baseQuic != 0 && c.baseDiscV5 != 0
  }

  lemma PortsOf(c: Config, i: nat)
    requires NoWrap(c) && i < |c.instances|
    ensures |AllPorts(c)| == 3 * |c.instances| + 1 && AllPorts(c)[3 * |c.instances|] == c.discV4
    ensures AllPorts(c)[3 * i] == Twos(c.baseTcp, i)
    ensures AllPorts(c)[3 * i + 1] == Twos(c.baseQuic, i)
    ensures AllPorts(c)[3 * i + 2] == Ones(c.baseDiscV5, i)
  {
    PlainPorts(c, i);
    assert Ports(c, |c.instances|)[3 * i] == TcpPort(c, i);
  }

  lemma PlainPorts(c: Config, i: nat)
    requires NoWrap(c) && i < |c.instances|
    ensures TcpPort(c, i) == Twos(c.baseTcp, i) && QuicPort(c, i) == Twos(c.baseQuic, i)
    ensures DiscV5Port(c, i) == Ones(c.baseDiscV5, i)
  {}

  /** The service at a place of the scan: 0 TCP, 1 QUIC, 2 discv5, 3 discv4. */
  lemma PortAt(c: Config, x: int) returns (kind: int, i: nat)
    requires NoWrap(c) && c.instances != [] && 0 <= x < |AllPorts(c)|
    ensures 0 <= kind <= 3 && (kind < 3 ==> i < |c.instances| && x == 3 * i + kind)
    ensures kind == 3 ==> x == 3 * |c.instances|
    ensures AllPorts(c)[x] == match kind { case 0 => Twos(c.baseTcp, i) case 1 => Twos(c.baseQuic, i)
                                           case 2 => Ones(c.baseDiscV5, i) case _ => c.discV4 }
  {
    if x == 3 * |c.instances| {
      PortsOf(c, 0);
      return 3, 0;
    }
    i, kind := x / 3, x % 3;
    PortsOf(c, i);
    assert x == 3 * i + kind;
  }

  lemma ApartMeansNoClash(c: Config, x: int, y: int)
    requires Plain(c) && c.instances != [] && ApartByArithmetic(c)
    ensures !Clash(AllPorts(c), x, y)
  {
    if Clash(AllPorts(c), x, y) {
      var kx, i := PortAt(c, x);
      var ky, j := PortAt(c, y);
      var n := |c.instances|;
      TwosMeetTwos(c.baseTcp, c.baseQuic, n);
      TwosMeetOnes(c.baseTcp, c.baseDiscV5, n);
      TwosMeetOnes(c.baseQuic, c.baseDiscV5, n);
      PointOnTwos(c.discV4, c.baseTcp, n);
      PointOnTwos(c.discV4, c.baseQuic, n);
      assert false;
    }
  }

  lemma MeetMeansClash(ports: seq<uint64>, x: nat, y: nat)
    requires x < |ports| && y < |ports| && x != y && ports[x] == ports[y] != 0
    ensures !NoClash(ports)
  {
    assert Clash(ports, if x < y then x else y, if x < y then y else x);
  }

  lemma NearMeansClash(c: Config)
    requires Plain(c) && c.instances != [] && !ApartByArithmetic(c)
    ensures !NoClash(AllPorts(c))
  {
    var n := |c.instances|;
    if EvenAndNear(c.baseTcp, c.baseQuic, n) {
      TcpQuicClash(c);
    } else if MixedNear(c.baseTcp, c.baseDiscV5, n) {
      TcpDiscV5Clash(c);
    } else if MixedNear(c.baseQuic, c.baseDiscV5, n) {
      QuicDiscV5Clash(c);
    } else {
      DiscV4MeansClash(c);
    }
  }

  lemma TcpQuicClash(c: Config)
    requires Plain(c) && EvenAndNear(c.baseTcp, c.baseQuic, |c.instances|)
    ensures !NoClash(AllPorts(c))
  {
    var n := |c.instances|;
    TwosMeetTwos(c.baseTcp, c.baseQuic, n);
    var i, j :| 0 <= i < n && 0 <= j < n && Twos(c.baseTcp, i) == Twos(c.baseQuic, j);
    PortsOf(c, i);
    PortsOf(c, j);
    MeetMeansClash(AllPorts(c), 3 * i, 3 * j + 1);
  }

  lemma TcpDiscV5Clash(c: Config)
    requires Plain(c) && MixedNear(c.baseTcp, c.baseDiscV5, |c.instances|)
    ensures !NoClash(AllPorts(c))
  {
    var n := |c.instances|;
    TwosMeetOnes(c.baseTcp, c.baseDiscV5, n);
    var i, j :| 0 <= i < n && 0 <= j < n && Twos(c.baseTcp, i) == Ones(c.baseDiscV5, j);
    PortsOf(c, i);
    PortsOf(c, j);
    MeetMeansClash(AllPorts(c), 3 * i, 3 * j + 2);
  }

  lemma QuicDiscV5Clash(c: Config)
    requires Plain(c) && MixedNear(c.baseQuic, c.baseDiscV5, |c.instances|)
    ensures !NoClash(AllPorts(c))
  {
    var n := |c.instances|;
    TwosMeetOnes(c.baseQuic, c.baseDiscV5, n);
    var i, j :| 0 <= i < n && 0 <= j < n && Twos(c.baseQuic, i) == Ones(c.baseDiscV5, j);
    PortsOf(c, i);
    PortsOf(c, j);
    MeetMeansClash(AllPorts(c), 3 * i + 1, 3 * j + 2);
  }

  lemma DiscV4MeansClash(c: Config)
    requires Plain(c) && c.discV4 != 0
    requires var n := |c.instances|;
             || OnTwos(c.discV4, c.baseTcp, n) || OnTwos(c.discV4, c.baseQuic, n)
             || c.baseDiscV5 <= c.discV4 < c.baseDiscV5 + n
    ensures !NoClash(AllPorts(c))
  {
    var n, ports := |c.instances|, AllPorts(c);
    if OnTwos(c.discV4, c.baseTcp, n) {
      PointOnTwos(c.discV4, c.baseTcp, n);
      var i :| 0 <= i < n && Twos(c.baseTcp, i) == c.discV4;
      PortsOf(c, i);
      MeetMeansClash(ports, 3 * i, 3 * n);
    } else if OnTwos(c.discV4, c.baseQuic, n) {
      PointOnTwos(c.discV4, c.baseQuic, n);
      var i :| 0 <= i < n && Twos(c.baseQuic, i) == c.discV4;
      PortsOf(c, i);
      MeetMeansClash(ports, 3 * i + 1, 3 * n);
    } else {
      var i := c.discV4 - c.baseDiscV5;
      PortsOf(c, i);
      MeetMeansClash(ports, 3 * i + 2, 3 * n);
    }
  }

  /** With nonzero bases and no wrap-around, the scan finds no collision iff the base ports pass an arithmetic test. */
  lemma PortScanIsArithmetic(c: Config)
    requires Plain(c) && c.instances != []
    ensures NoClash(AllPorts(c)) <==> ApartByArithmetic(c)
  {
    if ApartByArithmetic(c) {
      forall x, y ensures !Clash(AllPorts(c), x, y) {
        ApartMeansNoClash(c, x, y);
      }
    } else {
      NearMeansClash(c);
    }
  }
}
