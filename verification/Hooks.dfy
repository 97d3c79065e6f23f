/** The eBPF socket hooks. Each hook is written the way the C program runs, over the maps
    the programs share, and is proved against a declarative reading of the same decision.
    Ports inside `Pair` and `Origin` are in network order; ports in a pod's lists are in
    host order. An IPv4 address occupies the last word of the C arrays, so one word is kept. */
module Hooks {
  import opened Wrappers
  import opened Wire

  const OUT_REDIRECT_PORT: u16 := 15001
  const IN_REDIRECT_PORT: u16 := 15003
  const SIDECAR_USER_ID := 1500
  const MAX_ITEM_LEN := 20
  const SO_ORIGINAL_DST := 80
  const MAX_OPS_BUFF_LENGTH := 4096
  const SOCKADDR_IN_LENGTH := 16
  /** 127.0.0.1 and 127.0.0.6 in network order. */
  const LOCALHOST: u32 := 127 + 0x100_0000
  const SIDECAR_IP: u32 := 127 + 6 * 0x100_0000

  datatype RawCidr = RawCidr(net: u32, mask: u8)
  /** A zero net ends a list; every entry before it has a usable mask. */
  type Cidr = c: RawCidr | c.net != 0 ==> 1 <= c.mask <= 32 witness RawCidr(0, 0)
  type PortList = s: seq<u16> | |s| == MAX_ITEM_LEN witness seq(MAX_ITEM_LEN, _ => 0)
  type RangeList = s: seq<Cidr> | |s| == MAX_ITEM_LEN witness seq(MAX_ITEM_LEN, _ => RawCidr(0, 0))

  datatype PodConfig = PodConfig(
    statusPort: u16,
    excludeOutRanges: RangeList,
    includeOutRanges: RangeList,
    includeInPorts: PortList,
    includeOutPorts: PortList,
    excludeInPorts: PortList,
    excludeOutPorts: PortList)

  datatype Origin = Origin(ip: u32, pid: u32, port: u16, flags: u16)
  datatype Pair = Pair(sip: u32, dip: u32, sport: u16, dport: u16)

  function Reverse(p: Pair): Pair {
    Pair(p.dip, p.sip, p.dport, p.sport)
  }

  /** Bit 0 of the flags: the address of the process is known. */
  predicate ProcessKnown(o: Origin) {
    o.flags % 2 == 1
  }

  // ---------------------------------------------------------------- list macros

  /** The port stands in the list before its first zero entry. */
  ghost predicate PortListed(items: PortList, port: u16) {
    exists i :: 0 <= i < MAX_ITEM_LEN && items[i] == port && forall j :: 0 <= j <= i ==> items[j] != 0
  }

  /** Some range before the first zero entry shares its prefix with the address. */
  ghost predicate RangeListed(items: RangeList, ip: u32) {
    exists i :: 0 <= i < MAX_ITEM_LEN && Covers(items[i], ip) && forall j :: 0 <= j <= i ==> items[j].net != 0
  }

  ghost predicate Covers(c: Cidr, ip: u32) {
    c.net != 0 && SharePrefix(c.net, ip, c.mask)
  }

  predicate IsInCidr(c: Cidr, ip: u32)
    requires c.net != 0
    ensures IsInCidr(c, ip) <==> SharePrefix(c.net, ip, c.mask)
  {
    ShiftTestIsPrefixTest(c.net, ip, c.mask);
    ShiftedEqual(c.net, ip, c.mask)
  }

  method IsExcludePort(items: PortList, port: u16) returns (ret: bool)
    ensures ret <==> PortListed(items, Swap16(port))
  {
    ret := false;
    var i := 0;
    while i < MAX_ITEM_LEN && items[i] != 0
      invariant 0 <= i <= MAX_ITEM_LEN
      invariant forall j :: 0 <= j < i ==> items[j] != 0 && items[j] != Swap16(port)
    {
      if Swap16(port) == items[i] {
        ret := true;
        break;
      }
      i := i + 1;
    }
  }

  method IsExcludeIpRanges(items: RangeList, ip: u32) returns (ret: bool)
    ensures ret <==> RangeListed(items, ip)
  {
    ret := false;
    var i := 0;
    while i < MAX_ITEM_LEN && items[i].net != 0
      invariant 0 <= i <= MAX_ITEM_LEN
      invariant forall j :: 0 <= j < i ==> items[j].net != 0 && !Covers(items[j], ip)
    {
      if IsInCidr(items[i], ip) {
        assert Covers(items[i], ip);
        ret := true;
        break;
      }
      i := i + 1;
    }
  }

  method IsIncludePort(items: PortList, port: u16) returns (ret: bool)
    ensures ret <==> items[0] == 0 || PortListed(items, Swap16(port))
  {
    if items[0] != 0 {
      ret := IsExcludePort(items, port);
    } else {
      ret := true;
    }
  }

  method IsIncludeIpRanges(items: RangeList, ip: u32) returns (ret: bool)
    ensures ret <==> items[0].net == 0 || RangeListed(items, ip)
  {
    if items[0].net != 0 {
      ret := IsExcludeIpRanges(items, ip);
    } else {
      ret := true;
    }
  }

  // ------------------------------------------------------------------- policies

  /** What a pod's lists say about its own outgoing connections (port in network order). */
  ghost predicate OutboundCaptured(pod: PodConfig, ip: u32, port: u16) {
    && !PortListed(pod.excludeOutPorts, Swap16(port))
    && !RangeListed(pod.excludeOutRanges, ip)
    && (pod.includeOutPorts[0] == 0 || PortListed(pod.includeOutPorts, Swap16(port)))
    && (pod.includeOutRanges[0].net == 0 || RangeListed(pod.includeOutRanges, ip))
  }

  /** What a pod's lists say about connections coming in to it. */
  ghost predicate InboundCaptured(pod: PodConfig, port: u16) {
    && !PortListed(pod.excludeInPorts, Swap16(port))
    && (pod.includeInPorts[0] == 0 || PortListed(pod.includeInPorts, Swap16(port)))
  }

  method IsOutboundCaptured(pod: PodConfig, ip: u32, port: u16) returns (ret: bool)
    ensures ret <==> OutboundCaptured(pod, ip, port)
  {
    var excluded := IsExcludePort(pod.excludeOutPorts, port);
    if excluded {
      return false;
    }
    excluded := IsExcludeIpRanges(pod.excludeOutRanges, ip);
    if excluded {
      return false;
    }
    var included := IsIncludePort(pod.includeOutPorts, port);
    if !included {
      return false;
    }
    ret := IsIncludeIpRanges(pod.includeOutRanges, ip);
  }

  method IsInboundCaptured(pod: PodConfig, port: u16) returns (ret: bool)
    ensures ret <==> InboundCaptured(pod, port)
  {
    var excluded := IsExcludePort(pod.excludeInPorts, port);
    if excluded {
      return false;
    }
    ret := IsIncludePort(pod.includeInPorts, port);
  }

  // --------------------------------------------------------------- connect hook

  /** The shared maps and the one counter the programs keep. */
  datatype Maps = Maps(
    ckiFib: map<int, Origin>,
    natFib: map<Pair, Origin>,
    sockFib: map<Pair, int>,
    procFib: map<u32, u32>,
    outip: OutIp)

  type OutIp = x: int | 1 <= x < 0x10_0000 witness 1

  /** A connect call: who asks (cookie, cgroup, user, process) and for which address. */
  datatype Call = Call(cookie: int, inMesh: bool, podIp: u32, uid: int, pid: u32, ip: u32, port: u16)

  /** What the kernel is told: go on or fail, with which destination, bound to which address. */
  datatype Answer = Answer(allow: bool, ip: u32, port: u16, bindTo: Option<u32>)

  function Untouched(c: Call): Answer {
    Answer(true, c.ip, c.port, None)
  }

  predicate IsLoopback(ip: u32) {
    ip % 256 == 0x7f
  }

  /** The record a connect leaves for its socket, if it leaves one. */
  ghost function RecordOf(pods: map<u32, PodConfig>, c: Call): Option<Origin> {
    if !c.inMesh then None
    else if c.uid != SIDECAR_USER_ID then
      if IsLoopback(c.ip) then None else Some(Origin(c.ip, 0, c.port, 1))
    else if c.ip !in pods then None
    else if c.podIp == 0 then Some(Origin(c.ip, c.pid, c.port, 0))
    else if c.podIp != c.ip && !InboundCaptured(pods[c.ip], c.port) then None
    else Some(Origin(c.ip, 0, c.port, 1))
  }

  /** Whether an application's connect is sent to the outbound listener. */
  ghost predicate AppRedirected(pods: map<u32, PodConfig>, c: Call) {
    && c.inMesh
    && c.uid != SIDECAR_USER_ID
    && !IsLoopback(c.ip)
    && (c.podIp == 0 || c.podIp !in pods || OutboundCaptured(pods[c.podIp], c.ip, c.port))
  }

  /** Whether a sidecar's connect is sent to the inbound listener of the pod it calls. */
  ghost predicate SidecarRedirected(m: Maps, pods: map<u32, PodConfig>, c: Call) {
    && c.inMesh
    && c.uid == SIDECAR_USER_ID
    && c.ip in pods
    && (if c.podIp != 0 then c.podIp != c.ip && InboundCaptured(pods[c.ip], c.port)
        else c.pid !in m.procFib || m.procFib[c.pid] != c.ip)
  }

  /** A sidecar's socket is recorded only once. */
  ghost predicate Refused(m: Maps, pods: map<u32, PodConfig>, c: Call) {
    c.uid == SIDECAR_USER_ID && RecordOf(pods, c).Some? && c.cookie in m.ckiFib
  }

  ghost function ConnectAnswer(m: Maps, pods: map<u32, PodConfig>, c: Call): Answer {
    if AppRedirected(pods, c) then
      if c.podIp != 0 then Answer(true, LOCALHOST, Swap16(OUT_REDIRECT_PORT), Some(c.podIp))
      else Answer(true, Swap32(0x7f80_0000 + m.outip), Swap16(OUT_REDIRECT_PORT), None)
    else
      Answer(!Refused(m, pods, c), c.ip,
             if SidecarRedirected(m, pods, c) then Swap16(IN_REDIRECT_PORT) else c.port, None)
  }

  ghost function ConnectMaps(m: Maps, pods: map<u32, PodConfig>, c: Call): Maps {
    m.(
    ckiFib := if RecordOf(pods, c).Some? && !Refused(m, pods, c) then m.ckiFib[c.cookie := RecordOf(pods, c).value]
      else m.ckiFib,
    outip := if AppRedirected(pods, c) && c.podIp == 0 then m.outip % 0xf_ffff + 1 else m.outip)
  }

  // ----------------------------------------------------------- established hook

  /** The context of a sock_ops program. The remote port sits in the upper half of its word. */
  datatype SockOps = SockOps(cookie: int, localIp: u32, localPort: u16, remoteIp: u32, remotePort: u32)

  /** The key under which a socket files itself: its own end first. */
  function OwnKey(s: SockOps): Pair {
    Pair(s.localIp, s.remoteIp, Swap16(s.localPort), s.remotePort / 0x1_0000)
  }

  /** In the mode without pod addresses: a sidecar was sent to its own inbound listener. */
  predicate Misdirected(o: Origin, s: SockOps) {
    && !ProcessKnown(o)
    && (s.localIp == SIDECAR_IP || s.localIp == s.remoteIp)
    && s.remotePort / 0x1_0000 == Swap16(IN_REDIRECT_PORT)
  }

  /** Whether the hook hands the socket's record over to the 4-tuple. */
  predicate HandsOver(m: Maps, s: SockOps) {
    s.cookie in m.ckiFib && !Misdirected(m.ckiFib[s.cookie], s)
  }

  predicate EntersSockMap(m: Maps, s: SockOps) {
    if s.cookie in m.ckiFib then HandsOver(m, s)
    else s.localPort == OUT_REDIRECT_PORT || s.localPort == IN_REDIRECT_PORT || s.remoteIp == SIDECAR_IP
  }

  function EstablishedMaps(m: Maps, s: SockOps): Maps {
    m.(
    natFib := if HandsOver(m, s) then m.natFib[OwnKey(s) := m.ckiFib[s.cookie]] else m.natFib,
    sockFib := if EntersSockMap(m, s) && OwnKey(s) !in m.sockFib then m.sockFib[OwnKey(s) := s.cookie] else m.sockFib,
    procFib := if s.cookie in m.ckiFib && !ProcessKnown(m.ckiFib[s.cookie])
            then m.procFib[m.ckiFib[s.cookie].pid := if s.localIp == SIDECAR_IP || s.localIp == s.remoteIp
                           then s.remoteIp else s.localIp]
            else m.procFib)
  }

  // ------------------------------------------------- getsockopt and sk_msg hooks

  datatype SockAddr = SockAddr(family: int, ip: u32, port: u16)

  /** A getsockopt call in progress; the program edits it in place. */
  class SockOptCtx {
    const optname: int
    const family: int
    const srcIp: u32
    const srcPort: u16
    const dstIp: u32
    const dstPort: u16
    const room: nat
    var optlen: int
    var retval: int
    var optval: Option<SockAddr>

    constructor (optname: int, family: int, srcIp: u32, srcPort: u16, dstIp: u32, dstPort: u16, room: nat, optlen: int,
                 retval: int)
      ensures this.optname == optname && this.family == family && this.srcIp == srcIp && this.srcPort == srcPort
      ensures this.dstIp == dstIp && this.dstPort == dstPort && this.room == room
      ensures this.optlen == optlen && this.retval == retval && this.optval == None
    {
      this.optname, this.family, this.srcIp, this.srcPort := optname, family, srcIp, srcPort;
      this.dstIp, this.dstPort, this.room := dstIp, dstPort, room;
      this.optlen, this.retval, this.optval := optlen, retval, None;
    }
  }

  /** What SO_ORIGINAL_DST answers on a socket whose own key is `own`. */
  function OriginalDst(m: Maps, own: Pair): Option<SockAddr> {
    if Reverse(own) in m.natFib then Some(SockAddr(2, m.natFib[Reverse(own)].ip, m.natFib[Reverse(own)].port)) else None
  }

  /** The context of an sk_msg program. */
  datatype SkMsg = SkMsg(family: int, localIp: u32, localPort: u16, remoteIp: u32, remotePort: u32)

  // ------------------------------------------------------------ the C programs

  class Kernel {
    var ckiFib: map<int, Origin>
    var natFib: map<Pair, Origin>
    var sockFib: map<Pair, int>
    var procFib: map<u32, u32>
    var podFib: map<u32, PodConfig>
    var outip: OutIp

    constructor ()
      ensures State() == Maps(map[], map[], map[], map[], 1) && podFib == map[]
    {
      ckiFib, natFib, sockFib, procFib, podFib, outip := map[], map[], map[], map[], map[], 1;
    }

    ghost function State(): Maps
      reads this
    {
      Maps(ckiFib, natFib, sockFib, procFib, outip)
    }

    /** osm_cni_tcp_connect4. */
    method TcpConnect4(c: Call) returns (a: Answer)
      modifies `ckiFib, `outip
      ensures a == ConnectAnswer(old(State()), podFib, c)
      ensures State() == ConnectMaps(old(State()), podFib, c)
    {
      if !c.inMesh {
        return Untouched(c);
      }
      if c.uid != SIDECAR_USER_ID {
        a := ConnectFromApp(c);
      } else {
        a := ConnectFromSidecar(c);
      }
    }

    /** The branch for traffic from the application. */
    method ConnectFromApp(c: Call) returns (a: Answer)
      requires c.inMesh && c.uid != SIDECAR_USER_ID
      modifies `ckiFib, `outip
      ensures a == ConnectAnswer(old(State()), podFib, c)
      ensures State() == ConnectMaps(old(State()), podFib, c)
    {
      if c.ip % 256 == 0x7f {
        return Untouched(c);
      }
      ckiFib := ckiFib[c.cookie := Origin(c.ip, 0, c.port, 1)];
      if c.podIp != 0 {
        if c.podIp in podFib {
          var captured := IsOutboundCaptured(podFib[c.podIp], c.ip, c.port);
          if !captured {
            return Untouched(c);
          }
        }
        return Answer(true, LOCALHOST, Swap16(OUT_REDIRECT_PORT), Some(c.podIp));
      } else {
        var ip := Swap32(0x7f80_0000 + outip);
        outip := if (outip + 1) / 0x10_0000 != 0 then 1 else outip + 1;
        return Answer(true, ip, Swap16(OUT_REDIRECT_PORT), None);
      }
    }

    /** The branch for traffic from a sidecar. */
    method ConnectFromSidecar(c: Call) returns (a: Answer)
      requires c.inMesh && c.uid == SIDECAR_USER_ID
      modifies `ckiFib
      ensures a == ConnectAnswer(old(State()), podFib, c)
      ensures State() == ConnectMaps(old(State()), podFib, c)
    {
      if c.ip !in podFib {
        return Untouched(c);
      }
      var port, pid, flags := c.port, 0, 0;
      if c.podIp != 0 {
        if c.podIp != c.ip {
          var captured := IsInboundCaptured(podFib[c.ip], c.port);
          if !captured {
            return Untouched(c);
          }
          port := Swap16(IN_REDIRECT_PORT);
        }
        flags := 1;
      } else {
        if c.pid in procFib {
          if procFib[c.pid] != c.ip {
            port := Swap16(IN_REDIRECT_PORT);
          }
        } else {
          port := Swap16(IN_REDIRECT_PORT);
        }
        pid := c.pid;
      }
      if c.cookie in ckiFib {
        return Answer(false, c.ip, port, None);
      }
      ckiFib := ckiFib[c.cookie := Origin(c.ip, pid, c.port, flags)];
      return Answer(true, c.ip, port, None);
    }

    /** osm_cni_sockops_ipv4. */
    method SockOpsIpv4(s: SockOps) returns (ret: int)
      modifies `natFib, `sockFib, `procFib
      ensures State() == EstablishedMaps(old(State()), s)
      ensures ret == if s.cookie in ckiFib && Misdirected(ckiFib[s.cookie], s) then 1 else 0
    {
      var p := Pair(s.localIp, s.remoteIp, Swap16(s.localPort), s.remotePort / 0x1_0000);
      if s.cookie in ckiFib {
        var dd := ckiFib[s.cookie];
        if dd.flags % 2 != 1 {
          if s.localIp == SIDECAR_IP || s.localIp == s.remoteIp {
            procFib := procFib[dd.pid := s.remoteIp];
            if s.remotePort / 0x1_0000 == Swap16(IN_REDIRECT_PORT) {
              return 1;
            }
          } else {
            procFib := procFib[dd.pid := s.localIp];
          }
        }
        natFib := natFib[p := dd];
        if p !in sockFib {
          sockFib := sockFib[p := s.cookie];
        }
      } else if s.localPort == OUT_REDIRECT_PORT || s.localPort == IN_REDIRECT_PORT || s.remoteIp == SIDECAR_IP {
        if p !in sockFib {
          sockFib := sockFib[p := s.cookie];
        }
      }
      return 0;
    }

    /** osm_cni_sock_opt. */
    method SockOpt(ctx: SockOptCtx)
      modifies ctx
      ensures var own := OwnKey(SockOps(0, ctx.srcIp, ctx.srcPort, ctx.dstIp, ctx.dstPort * 0x1_0000));
              var answer := if ctx.optname == SO_ORIGINAL_DST && ctx.family == 2 then OriginalDst(State(), own)
                else None;
              if answer == None then
                && ctx.optlen == (if old(ctx.optlen) > MAX_OPS_BUFF_LENGTH then MAX_OPS_BUFF_LENGTH
                                  else old(ctx.optlen))
                && ctx.retval == old(ctx.retval) && ctx.optval == old(ctx.optval)
              else
                && ctx.optlen == SOCKADDR_IN_LENGTH
                && (ctx.room < SOCKADDR_IN_LENGTH ==> ctx.retval == old(ctx.retval) && ctx.optval == old(ctx.optval))
                && (ctx.room >= SOCKADDR_IN_LENGTH ==> ctx.retval == 0 && ctx.optval == answer)
    {
      if ctx.optlen > MAX_OPS_BUFF_LENGTH {
        ctx.optlen := MAX_OPS_BUFF_LENGTH;
      }
      if ctx.optname != SO_ORIGINAL_DST {
        return;
      }
      var p := Pair(0, 0, 0, 0);
      p := p.(dport := Swap16(ctx.srcPort));
      p := p.(sport := ctx.dstPort);
      if ctx.family == 2 {
        p := p.(dip := ctx.srcIp);
        p := p.(sip := ctx.dstIp);
        if p in natFib {
          var origin := natFib[p];
          ctx.optlen := SOCKADDR_IN_LENGTH;
          if ctx.room < SOCKADDR_IN_LENGTH {
            return;
          }
          ctx.retval := 0;
          ctx.optval := Some(SockAddr(ctx.family, origin.ip, origin.port));
        }
      }
    }

    /** osm_cni_msg_redirect: the socket the message is handed to. An IPv4 message is looked up
        under the reverse of the key its own socket would file itself under. */
    method MsgRedirect(msg: SkMsg) returns (target: Option<int>)
      ensures msg.family == 2 ==>
                var other := Reverse(OwnKey(SockOps(0, msg.localIp, msg.localPort, msg.remoteIp, msg.remotePort)));
                target == if other in sockFib then Some(sockFib[other]) else None
      ensures msg.family != 2 ==>
                var other := Pair(0, 0, msg.remotePort / 0x1_0000, Swap16(msg.localPort));
                target == if other in sockFib then Some(sockFib[other]) else None
    {
      var p := Pair(0, 0, 0, 0);
      p := p.(dport := Swap16(msg.localPort));
      p := p.(sport := msg.remotePort / 0x1_0000);
      if msg.family == 2 {
        p := p.(dip := msg.localIp);
        p := p.(sip := msg.remoteIp);
      }
      target := if p in sockFib then Some(sockFib[p]) else None;
    }
  }
}
