/** Frames written out byte by byte from the header layouts (section 3.1 of RFC 791, section 3.1
    of RFC 9293), and what the traffic-control programs make of them. Fields are in host order. */
module Frames {
  import opened Wrappers
  import opened Wire
  import opened Hooks
  import opened TcNat

  /** The two hardware addresses. */
  type Macs = s: seq<u8> | |s| == 12 witness seq(12, _ => 0)
  /** Options come in words of four bytes, ten of them at most. */
  type IpOptions = s: seq<u8> | |s| % 4 == 0 && |s| <= 40 witness []

  datatype IpHeader = IpHeader(tos: u8, length: u16, id: u16, fragment: u16, ttl: u8, check: u16, src: u32, dst: u32,
                               options: IpOptions)

  datatype TcpHeader = TcpHeader(srcPort: u16, dstPort: u16, seqNo: u32, ackNo: u32, offset: u8, cwr: bool, ece: bool,
                                 urg: bool, ack: bool, psh: bool, rst: bool, syn: bool, fin: bool, window: u16,
                                 check: u16, urgent: u16)

  /** A TCP packet, perhaps inside an IP-in-IP tunnel. */
  datatype Packet = Packet(macs: Macs, tunnel: Option<IpHeader>, ip: IpHeader, tcp: TcpHeader, payload: seq<u8>)

  function Hi(x: u16): u8 { x / 256 }

  function Lo(x: u16): u8 { x % 256 }

  function Upper(x: u32): u16 { x / 0x1_0000 }

  function Lower(x: u32): u16 { x % 0x1_0000 }

  /** A bit of the flag byte. */
  function Bit(b: bool, value: int): int {
    if b then value else 0
  }

  function FlagByte(t: TcpHeader): u8 {
    Bit(t.cwr, 128) + Bit(t.ece, 64) + Bit(t.urg, 32) + Bit(t.ack, 16) + Bit(t.psh, 8) + Bit(t.rst, 4) + Bit(t.syn, 2)
    + Bit(t.fin, 1)
  }

  function IpFixed(h: IpHeader, protocol: u8): (r: seq<u8>)
    ensures |r| == 20
  {
    [0x45 + |h.options| / 4, h.tos, Hi(h.length), Lo(h.length), Hi(h.id), Lo(h.id), Hi(h.fragment), Lo(h.fragment),
     h.ttl, protocol, Hi(h.check), Lo(h.check),
     Hi(Upper(h.src)), Lo(Upper(h.src)), Hi(Lower(h.src)), Lo(Lower(h.src)),
     Hi(Upper(h.dst)), Lo(Upper(h.dst)), Hi(Lower(h.dst)), Lo(Lower(h.dst))]
  }

  function IpBytes(h: IpHeader, protocol: u8): seq<u8> {
    IpFixed(h, protocol) + h.options
  }

  function Be16(x: u16): (r: seq<u8>)
    ensures |r| == 2
  {
    [Hi(x), Lo(x)]
  }

  function TcpMiddle(t: TcpHeader): (r: seq<u8>)
    ensures |r| == 12
  {
    [Hi(Upper(t.seqNo)), Lo(Upper(t.seqNo)), Hi(Lower(t.seqNo)), Lo(Lower(t.seqNo)),
     Hi(Upper(t.ackNo)), Lo(Upper(t.ackNo)), Hi(Lower(t.ackNo)), Lo(Lower(t.ackNo)),
     t.offset, FlagByte(t), Hi(t.window), Lo(t.window)]
  }

  function TcpBytes(t: TcpHeader): (r: seq<u8>)
    ensures |r| == 20
  {
    Be16(t.srcPort) + Be16(t.dstPort) + TcpMiddle(t) + Be16(t.check) + Be16(t.urgent)
  }

  /** What stands in front of the packet's own IP header. */
  function Front(p: Packet): seq<u8> {
    p.macs + [0x08, 0x00] + if p.tunnel.Some? then IpBytes(p.tunnel.value, 4) else []
  }

  function Built(p: Packet): Frame {
    Front(p) + IpBytes(p.ip, 6) + (TcpBytes(p.tcp) + p.payload)
  }

  /** The fields as the programs should see them. */
  function SegmentOf(p: Packet): Segment {
    Segment(Swap32(p.ip.src), Swap32(p.ip.dst), Swap16(p.tcp.srcPort), Swap16(p.tcp.dstPort), p.tcp.syn, p.tcp.ack,
            p.tcp.fin)
  }

  lemma Middle<T>(a: seq<T>, b: seq<T>, c: seq<T>)
    ensures forall i :: 0 <= i < |a| ==> (a + b + c)[i] == a[i]
    ensures forall i :: 0 <= i < |b| ==> (a + b + c)[|a| + i] == b[i]
    ensures forall i :: 0 <= i < |c| ==> (a + b + c)[|a| + |b| + i] == c[i]
  {
  }

  lemma Halved(x: nat, b: bool)
    ensures (2 * x + Bit(b, 1)) / 2 == x && ((2 * x + Bit(b, 1)) % 2 == 1 <==> b)
  {
  }

  lemma FlagBits(t: TcpHeader)
    ensures FlagByte(t) / 2 % 2 == 1 <==> t.syn
    ensures FlagByte(t) / 16 % 2 == 1 <==> t.ack
    ensures FlagByte(t) % 2 == 1 <==> t.fin
  {
    var upper := Bit(t.cwr, 4) + Bit(t.ece, 2) + Bit(t.urg, 1);
    var middle := 2 * upper + Bit(t.ack, 1);
    var lower := 4 * middle + Bit(t.psh, 2) + Bit(t.rst, 1);
    var flags := FlagByte(t);
    assert flags == 2 * (2 * lower + Bit(t.syn, 1)) + Bit(t.fin, 1);
    Halved(2 * lower + Bit(t.syn, 1), t.fin);
    Halved(lower, t.syn);
    DivUnique(flags, 16, middle, Bit(t.psh, 8) + Bit(t.rst, 4) + Bit(t.syn, 2) + Bit(t.fin, 1));
    Halved(upper, t.ack);
  }

  lemma WordsOfWire(x: u32)
    ensures Hi(Upper(x)) + 0x100 * Lo(Upper(x)) + 0x1_0000 * Hi(Lower(x)) + 0x100_0000 * Lo(Lower(x)) == Swap32(x)
  {
    var a: int, b: int, c: int, d: int := Hi(Upper(x)), Lo(Upper(x)), Hi(Lower(x)), Lo(Lower(x));
    assert Upper(x) == 256 * a + b && Lower(x) == 256 * c + d;
    assert x == 0x1_0000 * Upper(x) + Lower(x);
    assert x == 0x100_0000 * a + 0x1_0000 * b + 0x100 * c + d;
    FromOctets(x);
    ByteDigits(a, b, c, d, Octet(x, 3), Octet(x, 2), Octet(x, 1), Octet(x, 0));
  }

  lemma Halves(x: u16)
    ensures Be16(x) == [Swap16(x) % 256, Swap16(x) / 256]
  {
  }

  lemma HeaderBytes(h: IpHeader, protocol: u8)
    ensures var b := IpBytes(h, protocol);
            |b| == 20 + |h.options| && b[0] == 0x45 + |h.options| / 4 && b[9] == protocol
  {
    assert IpBytes(h, protocol)[0] == IpFixed(h, protocol)[0];
    assert IpBytes(h, protocol)[9] == IpFixed(h, protocol)[9];
  }

  /** Where the inner IP header is found. */
  lemma FrontOf(p: Packet)
    ensures |Front(p)| >= 14 && Front(p)[12] == 8 && Front(p)[13] == 0
    ensures p.tunnel.None? ==> |Front(p)| == 14
    ensures p.tunnel.Some? ==> |Front(p)| == 34 + |p.tunnel.value.options|
    ensures p.tunnel.Some? ==> Front(p)[14] == 0x45 + |p.tunnel.value.options| / 4 && Front(p)[23] == 4
  {
    if p.tunnel.Some? {
      HeaderBytes(p.tunnel.value, 4);
      Middle(p.macs, [0x08, 0x00], IpBytes(p.tunnel.value, 4));
      assert Front(p)[14 + 0] == IpBytes(p.tunnel.value, 4)[0];
      assert Front(p)[14 + 9] == IpBytes(p.tunnel.value, 4)[9];
    }
  }

  /** The bytes the programs load, where they load them. */
  lemma BuiltBytes(p: Packet)
    requires p.ip.options == []
    ensures var b, at := Built(p), |Front(p)|;
            && |b| == at + 40 + |p.payload|
            && (forall i :: 0 <= i < at ==> b[i] == Front(p)[i])
            && (forall i :: 0 <= i < 20 ==> b[at + i] == IpFixed(p.ip, 6)[i])
            && (forall i :: 0 <= i < 20 ==> b[at + 20 + i] == TcpBytes(p.tcp)[i])
  {
    assert IpBytes(p.ip, 6) == IpFixed(p.ip, 6);
    Middle(Front(p), IpBytes(p.ip, 6), TcpBytes(p.tcp) + p.payload);
  }

  /** The programs look for the IP header where it is, with or without tunnel. */
  lemma FoundAt(p: Packet)
    requires p.ip.options == []
    ensures var b, at := Built(p), |Front(p)|;
            && |b| == at + 40 + |p.payload| && (if p.tunnel.None? then at == 14 else at >= 34)
            && b[12] == 8 && b[13] == 0 && b[at + 9] == 6 && IpOffset(b) == at
  {
    FrontOf(p);
    BuiltBytes(p);
  }

  lemma AddressesRead(p: Packet)
    requires p.ip.options == []
    ensures var b, at := Built(p), |Front(p)|;
            |b| >= at + 40 && Word32(b, at + 12) == Swap32(p.ip.src) && Word32(b, at + 16) == Swap32(p.ip.dst)
  {
    BuiltBytes(p);
    WordsOfWire(p.ip.src);
    WordsOfWire(p.ip.dst);
  }

  lemma PortsRead(p: Packet)
    requires p.ip.options == []
    ensures var b, at := Built(p), |Front(p)| + 20;
            && |b| >= at + 20 && Word(b, at) == Swap16(p.tcp.srcPort) && Word(b, at + 2) == Swap16(p.tcp.dstPort)
            && b[at + 13] == FlagByte(p.tcp) && Word(b, at + 16) == Swap16(p.tcp.check)
  {
    BuiltBytes(p);
  }

  lemma ParseAt(b: Frame, at: int)
    requires 14 <= at <= |b| - 40 && b[12] == 8 && b[13] == 0 && IpOffset(b) == at && b[at + 9] == 6
    ensures var flags := b[at + 33];
            Parse(b) == Tcp(Segment(Word32(b, at + 12), Word32(b, at + 16), Word(b, at + 20), Word(b, at + 22),
                                    flags / 2 % 2 == 1, flags / 16 % 2 == 1, flags % 2 == 1))
  {
  }

  /** A packet without IP options is read as it was written, whatever the rest of it says. */
  lemma ParseBuilt(p: Packet)
    requires p.ip.options == []
    ensures Parse(Built(p)) == Tcp(SegmentOf(p))
  {
    FoundAt(p);
    AddressesRead(p);
    PortsRead(p);
    FlagBits(p.tcp);
    ParseAt(Built(p), |Front(p)|);
  }

  /** A frame is decided by what it holds of the headers. */
  lemma ParsePrefix(b: Frame, n: nat, at: int)
    requires 34 <= |b| && n <= |b| && b[12] == 8 && b[13] == 0 && IpOffset(b) == at >= 14
    requires |b| >= at + 40 && b[at + 9] == 6 && (b[23] == 4 || at == 14)
    ensures Parse(b[..n]) ==
            if n >= at + 40 then Parse(b) else if 34 <= n < at + 20 then Bypass else Drop
  {
    var c := b[..n];
    if n >= 34 {
      assert IpOffset(c) == at;
    }
  }

  /** Where a frame ends too early it is dropped, except that a tunnel without a whole inner
      header is let through. */
  lemma Truncated(p: Packet, n: nat)
    requires p.ip.options == [] && n <= |Built(p)|
    ensures Parse(Built(p)[..n]) ==
            if n >= |Front(p)| + 40 then Tcp(SegmentOf(p))
            else if p.tunnel.Some? && 34 <= n < |Front(p)| + 20 then Bypass
            else Drop
  {
    FoundAt(p);
    ParseBuilt(p);
    ParsePrefix(Built(p), n, |Front(p)|);
  }

  /** Whatever is not IPv4 passes, and so does every other protocol, in a tunnel or not. */
  lemma OtherKindPasses(macs: Macs, kind: u16, rest: seq<u8>)
    requires kind != 0x0800
    ensures Parse(macs + Be16(kind) + rest) == Bypass
  {
    var b := macs + Be16(kind) + rest;
    Middle(macs, Be16(kind), rest);
    Halves(kind);
    assert b[12 + 0] == Be16(kind)[0] && b[12 + 1] == Be16(kind)[1];
    assert Word(b, 12) == Swap16(kind);
    Swap16Involutive(kind);
  }

  /** An IPv4 frame with whatever behind its header. */
  function Ipv4(macs: Macs, h: IpHeader, protocol: u8, rest: seq<u8>): Frame {
    macs + [0x08, 0x00] + (IpBytes(h, protocol) + rest)
  }

  lemma BytesBehind(macs: Macs, header: seq<u8>, rest: seq<u8>)
    requires |header| >= 20
    ensures var b := macs + [0x08, 0x00] + (header + rest);
            && |b| == 14 + |header| + |rest| && b[12] == 8 && b[13] == 0 && b[14] == header[0] && b[23] == header[9]
            && (|header| > 20 ==> b[34] == header[20])
            && forall i :: 0 <= i < |rest| ==> b[14 + |header| + i] == rest[i]
  {
  }

  lemma BypassAt(b: Frame, at: int)
    requires 14 <= at <= |b| - 20 && |b| >= 34 && b[12] == 8 && b[13] == 0 && IpOffset(b) == at && b[at + 9] != 6
    ensures Parse(b) == Bypass
  {
  }

  lemma TunnelOffset(b: Frame, words: int)
    requires |b| >= 34 && b[23] == 4 && b[14] == 0x45 + words && 0 <= words <= 10
    ensures IpOffset(b) == 34 + 4 * words
  {
  }

  lemma OtherProtocolPasses(macs: Macs, h: IpHeader, protocol: u8, rest: seq<u8>)
    requires protocol != 6 && protocol != 4
    ensures Parse(Ipv4(macs, h, protocol, rest)) == Bypass
  {
    HeaderBytes(h, protocol);
    BytesBehind(macs, IpBytes(h, protocol), rest);
    BypassAt(Ipv4(macs, h, protocol, rest), 14);
  }

  lemma OtherTunnelledPasses(macs: Macs, outer: IpHeader, inner: IpHeader, protocol: u8, rest: seq<u8>)
    requires protocol != 6
    ensures Parse(Ipv4(macs, outer, 4, IpBytes(inner, protocol) + rest)) == Bypass
  {
    var tail := IpBytes(inner, protocol) + rest;
    HeaderBytes(outer, 4);
    HeaderBytes(inner, protocol);
    BytesBehind(macs, IpBytes(outer, 4), tail);
    assert tail[9] == IpBytes(inner, protocol)[9];
    var b, words := Ipv4(macs, outer, 4, tail), |outer.options| / 4;
    assert b[34 + 4 * words + 9] == tail[9];
    TunnelOffset(b, words);
    BypassAt(b, 34 + 4 * words);
  }

  /** The programs read every packet with these options as it was written. */
  ghost predicate AlwaysRead(options: IpOptions) {
    forall p: Packet :: p.ip.options == options ==> Parse(Built(p)) == Tcp(SegmentOf(p))
  }

  /** A packet with options whose ports differ from the bytes of the first option. */
  function Misread(options: IpOptions): Packet
    requires |options| >= 4
  {
    var port := if options[0] == 0 then 0x100 else 0;
    Packet(seq(12, _ => 0), None, IpHeader(0, 0, 0, 0, 0, 0, 0, 0, options),
           TcpHeader(port, 0, 0, 0, 0, false, false, false, false, false, false, true, false, 0, 0, 0), [])
  }

  lemma BuiltIsIpv4(p: Packet)
    requires p.tunnel.None?
    ensures Built(p) == Ipv4(p.macs, p.ip, 6, TcpBytes(p.tcp) + p.payload)
  {
    var front, header, rest := p.macs + [0x08, 0x00], IpBytes(p.ip, 6), TcpBytes(p.tcp) + p.payload;
    assert Front(p) == front;
    assert front + header + rest == front + (header + rest);
  }

  lemma OptionsRead(p: Packet)
    requires p.tunnel.None? && |p.ip.options| >= 4
    ensures Parse(Built(p)).Tcp? && Parse(Built(p)).g.sport % 256 == p.ip.options[0]
  {
    var header, rest := IpBytes(p.ip, 6), TcpBytes(p.tcp) + p.payload;
    HeaderBytes(p.ip, 6);
    assert header[20] == p.ip.options[0];
    BuiltIsIpv4(p);
    BytesBehind(p.macs, header, rest);
    ParseAt(Ipv4(p.macs, p.ip, 6, rest), 14);
  }

  /** The header length of the packet itself is not looked at, so packets are read as they were
      written exactly if they have no IP options. */
  lemma AlwaysReadIff(options: IpOptions)
    ensures AlwaysRead(options) <==> options == []
  {
    if options == [] {
      forall p: Packet | p.ip.options == options
        ensures Parse(Built(p)) == Tcp(SegmentOf(p))
      {
        ParseBuilt(p);
      }
    } else {
      var p := Misread(options);
      OptionsRead(p);
      assert Built(p) == Built(p) && SegmentOf(p).sport % 256 != options[0];
    }
  }

  // ------------------------------------------------------------------------- rewriting

  predicate IsPlain(p: Packet) {
    p.tunnel.None? && p.ip.options == []
  }

  /** The same packet to another port, its checksum brought up to date. */
  function ToPort(p: Packet, port: u16): Packet {
    var check := UpdatedChecksum(Swap16(p.tcp.check), Swap16(p.tcp.dstPort), Swap16(port));
    p.(tcp := p.tcp.(dstPort := port, check := Swap16(check)))
  }

  function FromPort(p: Packet, port: u16): Packet {
    var check := UpdatedChecksum(Swap16(p.tcp.check), Swap16(p.tcp.srcPort), Swap16(port));
    p.(tcp := p.tcp.(srcPort := port, check := Swap16(check)))
  }

  /** A frame is what stands before, in and behind its TCP header. */
  lemma Parts(p: Packet)
    requires IsPlain(p)
    ensures var b := Built(p);
            && |b| >= 54 && b[..34] == Front(p) + IpBytes(p.ip, 6)
            && b[34..54] == TcpBytes(p.tcp) && b[54..] == p.payload
  {
    FrontOf(p);
    assert IpBytes(p.ip, 6) == IpFixed(p.ip, 6);
    var head := Front(p) + IpBytes(p.ip, 6);
    assert Built(p) == head + (TcpBytes(p.tcp) + p.payload) && |head| == 34;
  }

  lemma PartsJoined(p: Packet, t: TcpHeader, r: Frame)
    requires IsPlain(p) && |r| >= 54
    requires r[..34] == Built(p)[..34] && r[34..54] == TcpBytes(t) && r[54..] == Built(p)[54..]
    ensures r == Built(p.(tcp := t))
  {
    Parts(p);
    assert r == r[..34] + (r[34..54] + r[54..]);
  }

  lemma StoreInside(b: Frame, off: int, w: u16)
    requires |b| >= 54 && 34 <= off < 53
    ensures Store(b, off, w)[..34] == b[..34] && Store(b, off, w)[54..] == b[54..]
    ensures Store(b, off, w)[34..54] == Store(b[34..54], off - 34, w)
  {
  }

  /** Storing one of the five parts of a TCP header. */
  lemma PartStored(a: Frame, b: Frame, c: Frame, d: Frame, e: Frame, w: u16)
    requires |a| == 2 && |b| == 2 && |c| == 12 && |d| == 2 && |e| == 2
    ensures var w2 := [w % 256, w / 256];
            && Store(a + b + c + d + e, 0, w) == w2 + b + c + d + e
            && Store(a + b + c + d + e, 2, w) == a + w2 + c + d + e
            && Store(a + b + c + d + e, 16, w) == a + b + c + w2 + e
  {
  }

  lemma DstPortStored(t: TcpHeader, check: u16, port: u16)
    ensures Store(Store(TcpBytes(t), 16, Swap16(check)), 2, Swap16(port)) ==
            TcpBytes(t.(dstPort := port, check := check))
  {
    Halves(check);
    Halves(port);
    var a, b, c, d, e := Be16(t.srcPort), Be16(t.dstPort), TcpMiddle(t), Be16(t.check), Be16(t.urgent);
    PartStored(a, b, c, d, e, Swap16(check));
    PartStored(a, b, c, Be16(check), e, Swap16(port));
  }

  lemma SrcPortStored(t: TcpHeader, check: u16, port: u16)
    ensures Store(Store(TcpBytes(t), 16, Swap16(check)), 0, Swap16(port)) ==
            TcpBytes(t.(srcPort := port, check := check))
  {
    Halves(check);
    Halves(port);
    var a, b, c, d, e := Be16(t.srcPort), Be16(t.dstPort), TcpMiddle(t), Be16(t.check), Be16(t.urgent);
    PartStored(a, b, c, d, e, Swap16(check));
    PartStored(a, b, c, Be16(check), e, Swap16(port));
  }

  lemma RewriteInside(b: Frame, off: int, from: u16, to: u16)
    requires |b| >= 54 && (off == SPORT_OFF || off == DPORT_OFF)
    ensures var r, check := Rewrite(b, off, from, to), UpdatedChecksum(Word(b, CSUM_OFF), from, to);
            && r[..34] == b[..34] && r[54..] == b[54..]
            && r[34..54] == Store(Store(b[34..54], 16, check), off - 34, to)
  {
    var check := UpdatedChecksum(Word(b, CSUM_OFF), from, to);
    StoreInside(b, CSUM_OFF, check);
    StoreInside(Store(b, CSUM_OFF, check), off, to);
  }

  lemma RewrittenTcp(p: Packet, t: TcpHeader, off: int, from: u16, to: u16)
    requires IsPlain(p) && (off == SPORT_OFF || off == DPORT_OFF)
    requires Store(Store(TcpBytes(p.tcp), 16, UpdatedChecksum(Swap16(p.tcp.check), from, to)), off - 34, to) ==
             TcpBytes(t)
    ensures |Built(p)| >= CSUM_OFF + 2 && Rewrite(Built(p), off, from, to) == Built(p.(tcp := t))
  {
    Parts(p);
    FrontOf(p);
    PortsRead(p);
    RewriteInside(Built(p), off, from, to);
    PartsJoined(p, t, Rewrite(Built(p), off, from, to));
  }

  /** Storing a checksum and a port is writing the packet out again. */
  lemma StoredToPort(p: Packet, port: u16)
    requires IsPlain(p)
    ensures |Built(p)| >= CSUM_OFF + 2
    ensures Rewrite(Built(p), DPORT_OFF, Swap16(p.tcp.dstPort), Swap16(port)) == Built(ToPort(p, port))
  {
    var t, from, to := ToPort(p, port).tcp, Swap16(p.tcp.dstPort), Swap16(port);
    Swap16Involutive(UpdatedChecksum(Swap16(p.tcp.check), from, to));
    DstPortStored(p.tcp, t.check, port);
    RewrittenTcp(p, t, DPORT_OFF, from, to);
  }

  lemma StoredFromPort(p: Packet, port: u16)
    requires IsPlain(p)
    ensures |Built(p)| >= CSUM_OFF + 2
    ensures Rewrite(Built(p), SPORT_OFF, Swap16(p.tcp.srcPort), Swap16(port)) == Built(FromPort(p, port))
  {
    var t, from, to := FromPort(p, port).tcp, Swap16(p.tcp.srcPort), Swap16(port);
    Swap16Involutive(UpdatedChecksum(Swap16(p.tcp.check), from, to));
    SrcPortStored(p.tcp, t.check, port);
    RewrittenTcp(p, t, SPORT_OFF, from, to);
  }

  // ------------------------------------------------------------------------- the programs

  /** The entry of a flow, filed by client, pod and the inbound listener. */
  function EntryKey(client: u32, pod: u32, clientPort: u16): Pair {
    Pair(Swap32(client), Swap32(pod), Swap16(clientPort), Swap16(15003))
  }

  predicate TcEntry(natFib: map<Pair, Origin>, k: Pair) {
    k in natFib && natFib[k].flags / 8 % 2 == 1
  }

  /** A first packet is intercepted if the pod is known and its lists ask for it, every other
      packet if the flow has an entry of these programs. */
  ghost predicate Intercepted(natFib: map<Pair, Origin>, pods: map<u32, PodConfig>, p: Packet) {
    if p.tcp.syn && !p.tcp.ack then
      var dst, port := Swap32(p.ip.dst), p.tcp.dstPort;
      && port != 15003 && dst in pods && port != pods[dst].statusPort
      && !PortListed(pods[dst].excludeInPorts, port)
      && (pods[dst].includeInPorts[0] == 0 || PortListed(pods[dst].includeInPorts, port))
    else TcEntry(natFib, EntryKey(p.ip.src, p.ip.dst, p.tcp.srcPort))
  }

  /** Where an intercepted first packet leaves its entry, and what it says. */
  ghost function EntriesAfter(natFib: map<Pair, Origin>, pods: map<u32, PodConfig>, p: Packet): map<Pair, Origin> {
    var key := EntryKey(p.ip.src, p.ip.dst, p.tcp.srcPort);
    if p.tcp.syn && !p.tcp.ack && Intercepted(natFib, pods, p) && key !in natFib
    then natFib[key := Origin(Swap32(p.ip.dst), 0, Swap16(p.tcp.dstPort), 8)] else natFib
  }

  /** The decision on the header fields is the one on the packet. */
  lemma SameDecision(natFib: map<Pair, Origin>, pods: map<u32, PodConfig>, p: Packet)
    ensures IngressRewrites(natFib, pods, SegmentOf(p)) <==> Intercepted(natFib, pods, p)
    ensures IngressNat(natFib, pods, SegmentOf(p)) == EntriesAfter(natFib, pods, p)
  {
    Swap16Involutive(p.tcp.dstPort);
  }

  lemma ToPortKeepsChecksum(p: Packet, port: u16)
    requires IsPlain(p)
    ensures |Built(p)| >= 34 && |Built(ToPort(p, port))| >= 34
    ensures ChecksumValid(Built(ToPort(p, port))) <==> ChecksumValid(Built(p))
  {
    StoredToPort(p, port);
    PortsRead(p);
    FrontOf(p);
    RewriteKeepsChecksum(Built(p), DPORT_OFF, Swap16(p.tcp.dstPort), Swap16(port));
  }

  lemma FromPortKeepsChecksum(p: Packet, port: u16)
    requires IsPlain(p)
    ensures |Built(p)| >= 34 && |Built(FromPort(p, port))| >= 34
    ensures ChecksumValid(Built(FromPort(p, port))) <==> ChecksumValid(Built(p))
  {
    StoredFromPort(p, port);
    PortsRead(p);
    FrontOf(p);
    RewriteKeepsChecksum(Built(p), SPORT_OFF, Swap16(p.tcp.srcPort), Swap16(port));
  }

  /** The ingress program on a packet, in the packet's own terms: exactly the intercepted ones go
      to the inbound listener, nothing else of the packet changes but its checksum, which is as
      valid as before, and only a first packet leaves an entry. */
  lemma DnatOfPacket(natFib: map<Pair, Origin>, pods: map<u32, PodConfig>, p: Packet)
    requires IsPlain(p)
    ensures IngressFrame(natFib, pods, Built(p)) ==
            Built(if Intercepted(natFib, pods, p) then ToPort(p, 15003) else p)
    ensures IngressEntries(natFib, pods, Built(p)) == EntriesAfter(natFib, pods, p)
    ensures |Built(p)| >= 34 && |Built(ToPort(p, 15003))| >= 34
    ensures ChecksumValid(Built(ToPort(p, 15003))) <==> ChecksumValid(Built(p))
  {
    ParseBuilt(p);
    SameDecision(natFib, pods, p);
    StoredToPort(p, 15003);
    ToPortKeepsChecksum(p, 15003);
  }

  /** A reply is restored if it leaves the inbound listener and its flow has an entry. */
  predicate Restored(natFib: map<Pair, Origin>, p: Packet) {
    p.tcp.srcPort == 15003 && TcEntry(natFib, EntryKey(p.ip.dst, p.ip.src, p.tcp.dstPort))
  }

  function EntriesLeft(natFib: map<Pair, Origin>, p: Packet): map<Pair, Origin> {
    if Restored(natFib, p) && p.tcp.fin && p.tcp.ack
    then natFib - {EntryKey(p.ip.dst, p.ip.src, p.tcp.dstPort)} else natFib
  }

  /** The packet as it leaves. */
  function Departing(natFib: map<Pair, Origin>, p: Packet): Packet {
    if Restored(natFib, p) then FromPort(p, Swap16(natFib[EntryKey(p.ip.dst, p.ip.src, p.tcp.dstPort)].port)) else p
  }

  lemma SameReplyDecision(natFib: map<Pair, Origin>, p: Packet)
    ensures EgressRewrites(natFib, SegmentOf(p)) <==> Restored(natFib, p)
    ensures EgressNat(natFib, SegmentOf(p)) == EntriesLeft(natFib, p)
    ensures Restored(natFib, p) ==>
              EgressPort(natFib, SegmentOf(p)) == natFib[EntryKey(p.ip.dst, p.ip.src, p.tcp.dstPort)].port
  {
    Swap16Involutive(p.tcp.srcPort);
    if p.tcp.srcPort == 15003 {
      assert EgressKey(SegmentOf(p)) == EntryKey(p.ip.dst, p.ip.src, p.tcp.dstPort);
    }
  }

  /** The egress program likewise: exactly the restored replies get the port of the entry back,
      and a reply with FIN and ACK removes the entry. */
  lemma SnatOfPacket(natFib: map<Pair, Origin>, p: Packet)
    requires IsPlain(p)
    ensures EgressFrame(natFib, Built(p)) == Built(Departing(natFib, p))
    ensures EgressEntries(natFib, Built(p)) == EntriesLeft(natFib, p)
    ensures |Built(p)| >= 34 && |Built(Departing(natFib, p))| >= 34
    ensures ChecksumValid(Built(Departing(natFib, p))) <==> ChecksumValid(Built(p))
  {
    ParseBuilt(p);
    SameReplyDecision(natFib, p);
    FoundAt(p);
    if Restored(natFib, p) {
      var port := natFib[EntryKey(p.ip.dst, p.ip.src, p.tcp.dstPort)].port;
      Swap16Involutive(port);
      StoredFromPort(p, Swap16(port));
      FromPortKeepsChecksum(p, Swap16(port));
    }
  }

  /** What a reply to this packet looks like when the inbound listener sends it. */
  predicate Answers(q: Packet, p: Packet) {
    && q.ip.src == p.ip.dst && q.ip.dst == p.ip.src
    && q.tcp.srcPort == 15003 && q.tcp.dstPort == p.tcp.srcPort
  }

  lemma DepartsWith(natFib: map<Pair, Origin>, q: Packet, key: Pair, port: u16)
    requires key == EntryKey(q.ip.dst, q.ip.src, q.tcp.dstPort) && key in natFib && q.tcp.srcPort == 15003
    requires natFib[key].flags == 8 && natFib[key].port == Swap16(port)
    ensures Departing(natFib, q) == FromPort(q, port)
  {
    var back := Swap16(natFib[key].port);
    assert back == port by {
      Swap16Involutive(port);
    }
    assert Restored(natFib, q) by {
      assert 8 / 8 % 2 == 1;
    }
    assert Departing(natFib, q) == FromPort(q, back);
  }

  /** Round trip in bytes: whatever first packet is intercepted on a flow without entry, every
      reply leaves with the port the client asked for, and only that port and the checksum are
      touched. */
  lemma ReplyBearsAskedPort(natFib: map<Pair, Origin>, pods: map<u32, PodConfig>, p: Packet, q: Packet)
    requires IsPlain(p) && IsPlain(q) && Answers(q, p)
    requires p.tcp.syn && !p.tcp.ack && Intercepted(natFib, pods, p)
    requires EntryKey(p.ip.src, p.ip.dst, p.tcp.srcPort) !in natFib
    ensures EgressFrame(IngressEntries(natFib, pods, Built(p)), Built(q)) == Built(FromPort(q, p.tcp.dstPort))
  {
    DepartsWith(EntriesAfter(natFib, pods, p), q, EntryKey(p.ip.src, p.ip.dst, p.tcp.srcPort), p.tcp.dstPort);
    SnatOfPacket(EntriesAfter(natFib, pods, p), q);
    DnatOfPacket(natFib, pods, p);
  }

  // -------------------------------------------------------------------------- tunnels

  /** The port is stored at a fixed place, so it reaches the packet's TCP header exactly if there is
      no tunnel around it; inside a tunnel the header and the payload stay as they were, and the
      bytes that change belong to the IP headers. */
  lemma TunnelKeepsPort(p: Packet, to: u16)
    requires p.ip.options == [] && p.tunnel.Some?
    ensures |Built(p)| >= 74
    ensures Rewrite(Built(p), DPORT_OFF, Swap16(p.tcp.dstPort), to)[54..] == Built(p)[54..]
    ensures |Front(p)| + 20 >= 54
  {
    FoundAt(p);
    RewriteInside(Built(p), DPORT_OFF, Swap16(p.tcp.dstPort), to);
  }

  lemma PortReachedIff(p: Packet, to: u16)
    requires p.ip.options == []
    ensures var at := |Front(p)| + 22;
            && |Built(p)| >= at + 18
            && (Word(Rewrite(Built(p), DPORT_OFF, Swap16(p.tcp.dstPort), to), at) == to <==>
                p.tunnel.None? || p.tcp.dstPort == Swap16(to))
  {
    FoundAt(p);
    PortsRead(p);
    Swap16Involutive(to);
    Swap16Involutive(p.tcp.dstPort);
    var b, at := Built(p), |Front(p)| + 22;
    var r := Rewrite(b, DPORT_OFF, Swap16(p.tcp.dstPort), to);
    if p.tunnel.Some? {
      TunnelKeepsPort(p, to);
      assert r[at] == r[54..][at - 54] && r[at + 1] == r[54..][at + 1 - 54];
      assert b[at] == b[54..][at - 54] && b[at + 1] == b[54..][at + 1 - 54];
    }
  }
}
