/** The traffic-control programs: port NAT on whole frames, byte by byte. The decision is
    stated on the header fields; the frame edit is proved to keep the TCP checksum valid. */
module TcNat {
  import opened Wire
  import opened Hooks

  const ETH_HLEN := 14
  const IP_HLEN := 20
  const TCP_HLEN := 20
  const ETH_P_IP := 0x0800
  const IPPROTO_TCP := 6
  const IPPROTO_IPIP := 4
  const CSUM_OFF := ETH_HLEN + IP_HLEN + 16
  const SPORT_OFF := ETH_HLEN + IP_HLEN
  const DPORT_OFF := ETH_HLEN + IP_HLEN + 2
  const TC_ORIGIN_FLAG: u16 := 8

  datatype Action = Ok | Shot

  type Frame = seq<u8>

  /** A 16-bit field as a little-endian host loads it. */
  function Word(b: Frame, off: int): u16
    requires 0 <= off < |b| - 1
  {
    b[off] as int + 256 * b[off + 1] as int
  }

  function Word32(b: Frame, off: int): u32
    requires 0 <= off < |b| - 3
  {
    b[off] as int + 0x100 * b[off + 1] as int + 0x1_0000 * b[off + 2] as int + 0x100_0000 * b[off + 3] as int
  }

  function Store(b: Frame, off: int, w: u16): (r: Frame)
    requires 0 <= off < |b| - 1
    ensures |r| == |b| && Word(r, off) == w
    ensures forall i :: 0 <= i < |b| && i != off && i != off + 1 ==> r[i] == b[i]
  {
    b[off := w % 256][off + 1 := w / 256]
  }

  // ------------------------------------------------------------ header decision

  datatype Segment = Segment(sip: u32, dip: u32, sport: u16, dport: u16, syn: bool, ack: bool, fin: bool)

  predicate TcOrigin(o: Origin) {
    o.flags / 8 % 2 == 1
  }

  const IN_PORT: u16 := Swap16(IN_REDIRECT_PORT)

  /** A flow's entry is filed from the client's side, with the inbound listener as target. */
  function IngressKey(g: Segment): Pair {
    Pair(g.sip, g.dip, g.sport, IN_PORT)
  }

  /** The first segment of a connection that the pod's lists hand to the sidecar. */
  ghost predicate OpensFlow(pods: map<u32, PodConfig>, g: Segment) {
    && g.syn && !g.ack
    && g.dport != IN_PORT
    && g.dip in pods
    && Swap16(g.dport) != pods[g.dip].statusPort
    && InboundCaptured(pods[g.dip], g.dport)
  }

  ghost predicate IngressRewrites(natFib: map<Pair, Origin>, pods: map<u32, PodConfig>, g: Segment) {
    if g.syn && !g.ack then OpensFlow(pods, g)
    else IngressKey(g) in natFib && TcOrigin(natFib[IngressKey(g)])
  }

  ghost function IngressNat(natFib: map<Pair, Origin>, pods: map<u32, PodConfig>, g: Segment): map<Pair, Origin> {
    if OpensFlow(pods, g) && IngressKey(g) !in natFib
    then natFib[IngressKey(g) := Origin(g.dip, 0, g.dport, TC_ORIGIN_FLAG)]
    else natFib
  }

  /** A reply is looked up under the flow it answers. */
  function EgressKey(g: Segment): Pair {
    Pair(g.dip, g.sip, g.dport, g.sport)
  }

  predicate EgressRewrites(natFib: map<Pair, Origin>, g: Segment) {
    g.sport == IN_PORT && EgressKey(g) in natFib && TcOrigin(natFib[EgressKey(g)])
  }

  function EgressPort(natFib: map<Pair, Origin>, g: Segment): u16 {
    if EgressRewrites(natFib, g) then natFib[EgressKey(g)].port else g.sport
  }

  function EgressNat(natFib: map<Pair, Origin>, g: Segment): map<Pair, Origin> {
    if EgressRewrites(natFib, g) && g.fin && g.ack then natFib - {EgressKey(g)} else natFib
  }

  // ------------------------------------------------------------------- checksum

  function Complement(x: u16): u16 {
    0xffff - x
  }

  /** 16-bit addition with end-around carry. */
  function Add1c(x: u16, y: u16): u16 {
    if x + y > 0xffff then x + y - 0xffff else x + y
  }

  /** Equation 3 of RFC 1624: the checksum after a field changes from `from` to `to`. */
  function UpdatedChecksum(check: u16, from: u16, to: u16): u16 {
    Complement(Add1c(Add1c(Complement(check), Complement(from)), to))
  }

  /** The sum of the 16-bit words from offset i on; a last odd byte is padded with zero. */
  function Words(b: Frame, i: int): int
    requires 0 <= i
    decreases |b| - i
  {
    if i >= |b| then 0
    else if i == |b| - 1 then b[i]
    else Word(b, i) + Words(b, i + 2)
  }

  /** Addresses, protocol and length of the TCP part, as summed ahead of the segment. */
  function PseudoHeader(b: Frame): int
    requires |b| >= ETH_HLEN + IP_HLEN
  {
    Word(b, 26) + Word(b, 28) + Word(b, 30) + Word(b, 32)
    + 256 * IPPROTO_TCP + (|b| - ETH_HLEN - IP_HLEN) / 256 + 256 * (|b| - ETH_HLEN - IP_HLEN)
  }

  /** The one's complement sum over pseudo header and segment is zero. */
  predicate ChecksumValid(b: Frame)
    requires |b| >= ETH_HLEN + IP_HLEN
  {
    (PseudoHeader(b) + Words(b, SPORT_OFF)) % 0xffff == 0
  }

  lemma UpdatedChecksumResidue(check: u16, from: u16, to: u16)
    ensures exists k: int :: UpdatedChecksum(check, from, to) + to == check + from + k * 0xffff
  {
    var d := UpdatedChecksum(check, from, to) + to - check - from;
    assert d == 0 * 0xffff || d == (-1) * 0xffff || d == 1 * 0xffff;
    if d == 0 {
      assert UpdatedChecksum(check, from, to) + to == check + from + 0 * 0xffff;
    } else if d == 0xffff {
      assert UpdatedChecksum(check, from, to) + to == check + from + 1 * 0xffff;
    } else {
      assert UpdatedChecksum(check, from, to) + to == check + from + (-1) * 0xffff;
    }
  }

  lemma {:induction false} WordsAfterStore(b: Frame, i: int, off: int, w: u16)
    requires 0 <= i <= off < |b| - 1 && (off - i) % 2 == 0
    ensures Words(Store(b, off, w), i) == Words(b, i) - Word(b, off) + w
    decreases off - i
  {
    var r := Store(b, off, w);
    if i == off {
      WordsUnchanged(b, r, i + 2);
    } else {
      WordsAfterStore(b, i + 2, off, w);
    }
  }

  lemma {:induction false} WordsUnchanged(b: Frame, r: Frame, i: int)
    requires |b| == |r| && 0 <= i && forall j :: i <= j < |b| ==> b[j] == r[j]
    ensures Words(b, i) == Words(r, i)
    decreases |b| - i
  {
    if i < |b| - 1 {
      WordsUnchanged(b, r, i + 2);
    }
  }

  /** What both programs do to a frame: repair the checksum, then store the new port. */
  function Rewrite(b: Frame, off: int, from: u16, to: u16): (r: Frame)
    requires |b| >= CSUM_OFF + 2 && (off == SPORT_OFF || off == DPORT_OFF)
    ensures |r| == |b|
  {
    Store(Store(b, CSUM_OFF, UpdatedChecksum(Word(b, CSUM_OFF), from, to)), off, to)
  }

  /** If the checksum helper is told the value the field really had, validity is kept in both
      directions: a valid checksum stays valid and an invalid one stays invalid. */
  lemma RewriteKeepsChecksum(b: Frame, off: int, from: u16, to: u16)
    requires |b| >= CSUM_OFF + 2 && (off == SPORT_OFF || off == DPORT_OFF)
    requires from == Word(b, off)
    ensures ChecksumValid(Rewrite(b, off, from, to)) <==> ChecksumValid(b)
  {
    var check := Word(b, CSUM_OFF);
    var check' := UpdatedChecksum(check, from, to);
    var b1 := Store(b, CSUM_OFF, check');
    var b2 := Store(b1, off, to);
    WordsAfterStore(b, SPORT_OFF, CSUM_OFF, check');
    WordsAfterStore(b1, SPORT_OFF, off, to);
    assert Word(b1, off) == from;
    UpdatedChecksumResidue(check, from, to);
    var k: int :| check' + to == check + from + k * 0xffff;
    assert PseudoHeader(b2) == PseudoHeader(b);
    assert Words(b2, SPORT_OFF) == Words(b, SPORT_OFF) + k * 0xffff;
    SameResidue(PseudoHeader(b) + Words(b, SPORT_OFF), k);
  }

  lemma SameResidue(x: int, k: int)
    ensures (x + k * 0xffff) % 0xffff == x % 0xffff
  {
  }

  // ------------------------------------------------------------ frames to fields

  datatype Parsed = Drop | Bypass | Tcp(g: Segment)

  /** Where the programs look for the (inner) IP header. */
  function IpOffset(b: Frame): int
    requires |b| >= ETH_HLEN + IP_HLEN
  {
    if b[ETH_HLEN + 9] == IPPROTO_IPIP then ETH_HLEN + b[ETH_HLEN] % 16 * 4 else ETH_HLEN
  }

  /** The checks and loads that both programs start with. */
  function Parse(b: Frame): (r: Parsed)
    ensures r.Tcp? ==> |b| >= CSUM_OFF + 2
  {
    if |b| < ETH_HLEN then Drop
    else if Swap16(Word(b, 12)) != ETH_P_IP then Bypass
    else if |b| < ETH_HLEN + IP_HLEN then Drop
    else
      var iph := IpOffset(b);
      if |b| < iph + IP_HLEN || b[iph + 9] != IPPROTO_TCP then Bypass
      else if |b| < iph + IP_HLEN + TCP_HLEN then Drop
      else
        var tcph := iph + IP_HLEN;
        Tcp(Segment(Word32(b, iph + 12), Word32(b, iph + 16), Word(b, tcph), Word(b, tcph + 2),
                    b[tcph + 13] / 2 % 2 == 1, b[tcph + 13] / 16 % 2 == 1, b[tcph + 13] % 2 == 1))
  }

  /** A frame whose TCP header stands where the fixed offsets point. */
  predicate Plain(b: Frame) {
    Parse(b).Tcp? && IpOffset(b) == ETH_HLEN
  }

  /** What the ingress program makes of a frame and of the entries. */
  ghost function IngressFrame(natFib: map<Pair, Origin>, pods: map<u32, PodConfig>, b: Frame): Frame {
    if Parse(b).Tcp? && IngressRewrites(natFib, pods, Parse(b).g)
    then Rewrite(b, DPORT_OFF, Parse(b).g.dport, IN_PORT) else b
  }

  ghost function IngressEntries(natFib: map<Pair, Origin>, pods: map<u32, PodConfig>, b: Frame): map<Pair, Origin> {
    if Parse(b).Tcp? then IngressNat(natFib, pods, Parse(b).g) else natFib
  }

  /** What the egress program makes of them. */
  function EgressFrame(natFib: map<Pair, Origin>, b: Frame): Frame {
    if Parse(b).Tcp? && EgressRewrites(natFib, Parse(b).g)
    then Rewrite(b, SPORT_OFF, IN_PORT, EgressPort(natFib, Parse(b).g)) else b
  }

  function EgressEntries(natFib: map<Pair, Origin>, b: Frame): map<Pair, Origin> {
    if Parse(b).Tcp? then EgressNat(natFib, Parse(b).g) else natFib
  }

  /** bpf_l4_csum_replace on the packet buffer. */
  method L4CsumReplace(skb: array<u8>, from: u16, to: u16)
    requires skb.Length >= CSUM_OFF + 2
    modifies skb
    ensures skb[..] == Store(old(skb[..]), CSUM_OFF, UpdatedChecksum(Word(old(skb[..]), CSUM_OFF), from, to))
  {
    var check := Word(skb[..], CSUM_OFF);
    var check' := UpdatedChecksum(check, from, to);
    skb[CSUM_OFF] := check' % 256;
    skb[CSUM_OFF + 1] := check' / 256;
  }

  /** bpf_skb_store_bytes of one 16-bit field. */
  method StoreBytes(skb: array<u8>, off: int, w: u16)
    requires 0 <= off < skb.Length - 1
    modifies skb
    ensures skb[..] == Store(old(skb[..]), off, w)
  {
    skb[off] := w % 256;
    skb[off + 1] := w / 256;
  }

  /** The bounds checks and header loads at the top of both programs. */
  method LoadHeaders(skb: array<u8>) returns (r: Parsed)
    ensures r == Parse(skb[..])
  {
    if skb.Length < ETH_HLEN {
      return Drop;
    }
    if Swap16(Word(skb[..], 12)) != ETH_P_IP {
      return Bypass;
    }
    if skb.Length < ETH_HLEN + IP_HLEN {
      return Drop;
    }
    var iph := ETH_HLEN;
    if skb[iph + 9] == IPPROTO_IPIP {
      iph := iph + skb[iph] % 16 * 4;
      if skb.Length < iph + IP_HLEN {
        return Bypass;
      }
    }
    if skb[iph + 9] != IPPROTO_TCP {
      return Bypass;
    }
    var tcph := iph + IP_HLEN;
    if skb.Length < tcph + TCP_HLEN {
      return Drop;
    }
    var flags := skb[tcph + 13];
    r := Tcp(Segment(Word32(skb[..], iph + 12), Word32(skb[..], iph + 16), Word(skb[..], tcph), Word(skb[..], tcph + 2),
                     flags / 2 % 2 == 1, flags / 16 % 2 == 1, flags % 2 == 1));
  }

  /** osm_cni_tc_dnat. */
  method TcDnat(k: Kernel, skb: array<u8>) returns (action: Action)
    modifies k`natFib, skb
    ensures action == if Parse(old(skb[..])).Drop? then Shot else Ok
    ensures k.natFib == IngressEntries(old(k.natFib), k.podFib, old(skb[..]))
    ensures skb[..] == IngressFrame(old(k.natFib), k.podFib, old(skb[..]))
  {
    var headers := LoadHeaders(skb);
    if !headers.Tcp? {
      return if headers.Drop? then Shot else Ok;
    }
    var tcph := headers.g;
    var p := Pair(tcph.sip, tcph.dip, tcph.sport, IN_PORT);
    if tcph.syn && !tcph.ack {
      if tcph.dport == IN_PORT {
        return Ok;
      }
      if tcph.dip !in k.podFib {
        return Ok;
      }
      var pod := k.podFib[tcph.dip];
      if Swap16(tcph.dport) == pod.statusPort {
        return Ok;
      }
      var excluded := IsExcludePort(pod.excludeInPorts, tcph.dport);
      if excluded {
        return Ok;
      }
      var included := IsIncludePort(pod.includeInPorts, tcph.dport);
      if !included {
        return Ok;
      }
      if p !in k.natFib {
        k.natFib := k.natFib[p := Origin(tcph.dip, 0, tcph.dport, TC_ORIGIN_FLAG)];
      }
    } else {
      if p !in k.natFib {
        return Ok;
      }
      if k.natFib[p].flags / 8 % 2 != 1 {
        return Ok;
      }
    }
    L4CsumReplace(skb, tcph.dport, IN_PORT);
    StoreBytes(skb, DPORT_OFF, IN_PORT);
    return Ok;
  }

  /** osm_cni_tc_snat. */
  method TcSnat(k: Kernel, skb: array<u8>) returns (action: Action)
    modifies k`natFib, skb
    ensures action == if Parse(old(skb[..])).Drop? then Shot else Ok
    ensures k.natFib == EgressEntries(old(k.natFib), old(skb[..]))
    ensures skb[..] == EgressFrame(old(k.natFib), old(skb[..]))
  {
    var headers := LoadHeaders(skb);
    if !headers.Tcp? {
      return if headers.Drop? then Shot else Ok;
    }
    var tcph := headers.g;
    if tcph.sport != IN_PORT {
      return Ok;
    }
    var p := Pair(tcph.dip, tcph.sip, tcph.dport, tcph.sport);
    if p !in k.natFib {
      return Ok;
    }
    var origin := k.natFib[p];
    if origin.flags / 8 % 2 != 1 {
      return Ok;
    }
    if tcph.fin && tcph.ack {
      k.natFib := k.natFib - {p};
    }
    L4CsumReplace(skb, IN_PORT, origin.port);
    StoreBytes(skb, SPORT_OFF, origin.port);
    return Ok;
  }

  // -------------------------------------------------------- what a frame becomes

  /** Rewriting the destination of a plain frame changes that field and nothing else the
      programs read, and leaves the checksum as valid as it was. */
  lemma DnatOnPlainFrame(b: Frame, to: u16)
    requires Plain(b)
    ensures var r := Rewrite(b, DPORT_OFF, Parse(b).g.dport, to);
            && Plain(r) && Parse(r).g == Parse(b).g.(dport := to)
            && (ChecksumValid(r) <==> ChecksumValid(b))
  {
    RewriteKeepsChecksum(b, DPORT_OFF, Parse(b).g.dport, to);
  }

  /** The same for the source port of a reply that leaves the inbound listener. */
  lemma SnatOnPlainFrame(b: Frame, to: u16)
    requires Plain(b) && Parse(b).g.sport == IN_PORT
    ensures var r := Rewrite(b, SPORT_OFF, IN_PORT, to);
            && Plain(r) && Parse(r).g == Parse(b).g.(sport := to)
            && (ChecksumValid(r) <==> ChecksumValid(b))
  {
    RewriteKeepsChecksum(b, SPORT_OFF, IN_PORT, to);
  }
}
