/** One policy, two data planes: the iptables program and the eBPF hooks are configured from
    the same annotations. Here the pod's annotation lists are filled into the fixed-size
    arrays of the eBPF maps, and the two decisions are compared connection by connection. */
module Dataplanes {
  import opened Wrappers
  import opened Wire
  import opened Hooks
  import opened TcNat
  import opened Iptables

  /** The first entries of a list in an array of fixed size, zero behind them. */
  function FilledPorts(ports: seq<u16>): PortList {
    seq(MAX_ITEM_LEN, i requires 0 <= i < MAX_ITEM_LEN => if i < |ports| then ports[i] else 0)
  }

  /** A range as it comes out of parsing: only 0.0.0.0/0 has length zero. */
  type ParsedRange = r: Range | r.addr != 0 ==> r.len >= 1 witness Range(0, 0)

  function ToCidr(r: ParsedRange): Cidr {
    RawCidr(r.addr, r.len)
  }

  function FilledRanges(ranges: seq<ParsedRange>): RangeList {
    seq(MAX_ITEM_LEN, i requires 0 <= i < MAX_ITEM_LEN => if i < |ranges| then ToCidr(ranges[i]) else RawCidr(0, 0))
  }

  /** The filling loops of parsePodConfigFromAnnotations. */
  method FillPorts(ports: seq<u16>) returns (items: PortList)
    ensures items == FilledPorts(ports)
  {
    items := seq(MAX_ITEM_LEN, _ => 0);
    var i := 0;
    while i < |ports|
      invariant 0 <= i <= MAX_ITEM_LEN && i <= |ports|
      invariant forall j :: 0 <= j < MAX_ITEM_LEN ==> items[j] == if j < i then ports[j] else 0
    {
      if i >= MAX_ITEM_LEN {
        break;
      }
      items := items[i := ports[i]];
      i := i + 1;
    }
  }

  method FillRanges(ranges: seq<ParsedRange>) returns (items: RangeList)
    ensures items == FilledRanges(ranges)
  {
    items := seq(MAX_ITEM_LEN, _ => RawCidr(0, 0));
    var i := 0;
    while i < |ranges|
      invariant 0 <= i <= MAX_ITEM_LEN && i <= |ranges|
      invariant forall j :: 0 <= j < MAX_ITEM_LEN ==> items[j] == if j < i then ToCidr(ranges[j]) else RawCidr(0, 0)
    {
      if i >= MAX_ITEM_LEN {
        break;
      }
      items := items[i := ToCidr(ranges[i])];
      i := i + 1;
    }
  }

  /** What the hooks still see of a list: up to twenty entries, ending at the first zero. */
  function SeenPorts(ports: seq<u16>, from: nat := 0): (n: nat)
    requires from <= |ports| && from <= MAX_ITEM_LEN
    ensures from <= n <= |ports| && n <= MAX_ITEM_LEN
    ensures forall j :: from <= j < n ==> ports[j] != 0
    ensures n == |ports| || n == MAX_ITEM_LEN || ports[n] == 0
    decreases |ports| - from
  {
    if from == |ports| || from == MAX_ITEM_LEN || ports[from] == 0 then from else SeenPorts(ports, from + 1)
  }

  function SeenRanges(ranges: seq<ParsedRange>, from: nat := 0): (n: nat)
    requires from <= |ranges| && from <= MAX_ITEM_LEN
    ensures from <= n <= |ranges| && n <= MAX_ITEM_LEN
    ensures forall j :: from <= j < n ==> ranges[j].addr != 0
    ensures n == |ranges| || n == MAX_ITEM_LEN || ranges[n].addr == 0
    decreases |ranges| - from
  {
    if from == |ranges| || from == MAX_ITEM_LEN || ranges[from].addr == 0 then from else SeenRanges(ranges, from + 1)
  }

  lemma PortsSeen(ports: seq<u16>, p: u16)
    ensures PortListed(FilledPorts(ports), p) <==> p in ports[..SeenPorts(ports)]
    ensures FilledPorts(ports)[0] == 0 <==> ports[..SeenPorts(ports)] == []
  {
    var items, n := FilledPorts(ports), SeenPorts(ports);
    if p in ports[..n] {
      var i :| 0 <= i < n && ports[i] == p;
      assert items[i] == p;
    }
    if PortListed(items, p) {
      var i :| 0 <= i < MAX_ITEM_LEN && items[i] == p && forall j :: 0 <= j <= i ==> items[j] != 0;
      assert n == MAX_ITEM_LEN || items[n] == 0;
      assert i < n;
      assert ports[..n][i] == p;
    }
  }

  lemma RangesSeen(ranges: seq<ParsedRange>, ip: u32)
    ensures RangeListed(FilledRanges(ranges), ip) <==> InSome(ranges[..SeenRanges(ranges)], ip)
    ensures FilledRanges(ranges)[0].net == 0 <==> ranges[..SeenRanges(ranges)] == []
  {
    var items, n := FilledRanges(ranges), SeenRanges(ranges);
    var seen := ranges[..n];
    if InSome(seen, ip) {
      var i :| 0 <= i < |seen| && Contains(seen[i], ip);
      assert items[i] == ToCidr(ranges[i]) && Covers(items[i], ip);
    }
    if RangeListed(items, ip) {
      var i :| 0 <= i < MAX_ITEM_LEN && Covers(items[i], ip) && forall j :: 0 <= j <= i ==> items[j].net != 0;
      assert n == MAX_ITEM_LEN || items[n].net == 0;
      assert i < n;
      assert Contains(seen[i], ip);
    }
  }

  /** The outbound lists of a pod's annotations. */
  datatype Lists = Lists(ports: seq<u16>, excluded: seq<ParsedRange>, included: seq<ParsedRange>,
                         includedPorts: seq<u16>)

  /** The eBPF configuration of a pod whose annotations give these outbound lists. */
  predicate ConfiguredOut(pod: PodConfig, l: Lists) {
    && pod.excludeOutPorts == FilledPorts(l.ports)
    && pod.excludeOutRanges == FilledRanges(l.excluded)
    && pod.includeOutRanges == FilledRanges(l.included)
    && pod.includeOutPorts == FilledPorts(l.includedPorts)
  }

  /** What the port inclusion lists, which only the hooks read, let through. */
  predicate PortIncluded(ports: seq<u16>, port: int) {
    var seen := ports[..SeenPorts(ports)];
    seen == [] || port in seen
  }

  /** The packet that opens the connection a connect call asks for. */
  predicate OpeningPacket(p: Packet, c: Call) {
    p.proto == Iptables.Tcp && p.uid == c.uid && p.dst == c.ip && p.dport == Swap16(c.port)
  }

  /** The configuration with its outbound lists cut down to what the connect hook sees of them. */
  function Seen(cfg: Config, l: Lists): Config {
    cfg.(excludedOutPorts := l.ports[..SeenPorts(l.ports)],
    excludedRanges := l.excluded[..SeenRanges(l.excluded)],
    includedRanges := l.included[..SeenRanges(l.included)])
  }

  /** A connect that is sent to the outbound listener beside the application, from the address of
      its pod. */
  predicate ToSidecar(a: Answer, c: Call) {
    a == Answer(true, LOCALHOST, Swap16(OUTBOUND_LISTENER), Some(c.podIp))
  }

  lemma SamePolicy(cfg: Config, l: Lists, pod: PodConfig, c: Call, p: Packet)
    requires ConfiguredOut(pod, l)
    requires OpeningPacket(p, c) && c.uid != SIDECAR_USER_ID && !IsLoopback(c.ip)
    ensures OutboundCaptured(pod, c.ip, c.port) && p.outIface != "lo" && !OnSome(cfg.excludedIfaces, p.outIface) <==>
            CapturedOut(Seen(cfg, l), p) && PortIncluded(l.includedPorts, p.dport)
  {
    var hp, seen := Swap16(c.port), Seen(cfg, l);
    var a, b := PortListed(pod.excludeOutPorts, hp), RangeListed(pod.excludeOutRanges, c.ip);
    var i, j := pod.includeOutRanges[0].net == 0, RangeListed(pod.includeOutRanges, c.ip);
    var k := pod.includeOutPorts[0] == 0 || PortListed(pod.includeOutPorts, hp);
    var o := p.outIface != "lo" && !OnSome(cfg.excludedIfaces, p.outIface);
    assert a <==> p.dport in seen.excludedOutPorts by {
      PortsSeen(l.ports, hp);
    }
    assert b <==> InSome(seen.excludedRanges, p.dst) by {
      RangesSeen(l.excluded, c.ip);
    }
    assert (i <==> seen.includedRanges == []) && (j <==> InSome(seen.includedRanges, p.dst)) by {
      RangesSeen(l.included, c.ip);
    }
    assert k <==> PortIncluded(l.includedPorts, p.dport) by {
      PortsSeen(l.includedPorts, hp);
    }
    assert OutboundCaptured(pod, c.ip, c.port) <==> !a && !b && k && (i || j);
    assert CapturedOut(seen, p) <==> o && !a && !b && (i || j);
  }

  /** On the way out the planes differ in three things and in nothing else. The connect hook sends a
      connection to the sidecar, and it does not leave through the loopback or an excluded
      interface, which the hook does not look at, exactly when the iptables program for the
      lists the hook still sees redirects it, and the port inclusion list, which iptables does
      not look at, lets it through. Routing sends loopback addresses through `lo`. */
  lemma OutboundAgreement(cfg: Config, l: Lists, m: Maps, pods: map<u32, PodConfig>, c: Call, p: Packet)
    requires c.inMesh && c.podIp != 0 && c.podIp in pods && ConfiguredOut(pods[c.podIp], l)
    requires OpeningPacket(p, c) && (IsLoopback(c.ip) ==> p.outIface == "lo")
    ensures var seen := Seen(cfg, l);
            && Acyclic(Compile(seen))
            && (ToSidecar(ConnectAnswer(m, pods, c), c) && p.outIface != "lo" &&
                !OnSome(cfg.excludedIfaces, p.outIface) <==>
                && Evaluate(Compile(seen), Output, p) == RedirectedTo(OUTBOUND_LISTENER)
                && PortIncluded(l.includedPorts, p.dport))
  {
    CompilerCorrect(Seen(cfg, l), p);
    if c.uid != SIDECAR_USER_ID && !IsLoopback(c.ip) {
      SamePolicy(cfg, l, pods[c.podIp], c, p);
    }
  }

  /** They do differ: an application that connects to its own pod's address is redirected by the
      hook and left alone by iptables, whatever the configuration. */
  lemma OwnPodDiffers(cfg: Config, m: Maps, pods: map<u32, PodConfig>, c: Call, p: Packet)
    requires c.inMesh && c.uid != SIDECAR_USER_ID && !IsLoopback(c.ip) && c.ip == c.podIp != 0
    requires c.podIp in pods && ConfiguredOut(pods[c.podIp], Lists([], [], [], []))
    requires OpeningPacket(p, c) && p.outIface == "lo"
    ensures Acyclic(Compile(cfg))
    ensures ToSidecar(ConnectAnswer(m, pods, c), c) && Evaluate(Compile(cfg), Output, p) == FellOff
  {
    CompilerCorrect(cfg, p);
    PortsSeen([], Swap16(c.port));
    RangesSeen([], c.ip);
  }

  /** The whole list is seen if and only if it fits and has no zero entry. */
  lemma WholeListSeen(ports: seq<u16>, ranges: seq<ParsedRange>)
    ensures ports[..SeenPorts(ports)] == ports <==> |ports| <= MAX_ITEM_LEN && 0 !in ports
    ensures ranges[..SeenRanges(ranges)] == ranges <==>
            |ranges| <= MAX_ITEM_LEN && forall i :: 0 <= i < |ranges| ==> ranges[i].addr != 0
  {
    assert ports[..SeenPorts(ports)] == ports <==> SeenPorts(ports) == |ports|;
    assert ranges[..SeenRanges(ranges)] == ranges <==> SeenRanges(ranges) == |ranges|;
  }

  /** Ports that the pod watcher excludes on its own. */
  const WATCHER_PORTS: seq<u16> := [15000, 15001, 15003, 15010, 15021, 15050, 15128, 15901, 15902, 15903, 15904]

  /** Of these, the ones the iptables program does not spare. */
  predicate SparedByHooksOnly(port: int) {
    port in [15000, 15001, 15003, 15021, 15050, 15128]
  }

  /** What the hooks see of a pod's inbound list behind the watcher's own ports. */
  function SeenInbound(ports: seq<u16>): seq<u16> {
    var n := SeenPorts(WATCHER_PORTS + ports);
    (WATCHER_PORTS + ports)[|WATCHER_PORTS|..n]
  }

  function SeenIn(cfg: Config, ports: seq<u16>): Config {
    cfg.(excludedInPorts := SeenInbound(ports))
  }

  /** The whole inbound list is seen if and only if it has at most nine entries and no zero. */
  lemma WholeInboundSeen(ports: seq<u16>)
    ensures SeenInbound(ports) == ports <==> |ports| <= MAX_ITEM_LEN - |WATCHER_PORTS| && 0 !in ports
  {
    var all := WATCHER_PORTS + ports;
    WholeListSeen(all, []);
    assert all[|WATCHER_PORTS|..] == ports;
    assert SeenInbound(ports) == ports <==> SeenPorts(all) == |all|;
    assert 0 in all <==> 0 in ports;
  }

  /** On the way in the planes differ in a fixed set of control ports, the status port, the port
      inclusion list and the excluded interfaces, and in nothing else: traffic control opens a
      flow, and it does not come in on an excluded interface, exactly when the iptables program
      for the list the hooks still see redirects the packet and none of the others spares it. */
  lemma InboundAgreement(cfg: Config, ports: seq<u16>, included: seq<u16>, pods: map<u32, PodConfig>, g: Segment,
                         p: Packet)
    requires g.dip in pods && g.syn && !g.ack
    requires pods[g.dip].excludeInPorts == FilledPorts(WATCHER_PORTS + ports)
    requires pods[g.dip].includeInPorts == FilledPorts(included)
    requires p.proto == Iptables.Tcp && p.dport == Swap16(g.dport)
    ensures Acyclic(Compile(SeenIn(cfg, ports)))
    ensures OpensFlow(pods, g) && !OnSome(cfg.excludedIfaces, p.inIface) <==>
            && Evaluate(Compile(SeenIn(cfg, ports)), Prerouting, p) == RedirectedTo(INBOUND_LISTENER)
            && !SparedByHooksOnly(p.dport) && p.dport != pods[g.dip].statusPort
            && PortIncluded(included, p.dport)
  {
    CompilerCorrect(SeenIn(cfg, ports), p);
    var all := WATCHER_PORTS + ports;
    PortsSeen(all, Swap16(g.dport));
    PortsSeen(included, Swap16(g.dport));
    assert all[..SeenPorts(all)] == WATCHER_PORTS + SeenInbound(ports);
    assert Swap16(IN_PORT) == IN_REDIRECT_PORT;
    Swap16Involutive(g.dport);
  }
}
