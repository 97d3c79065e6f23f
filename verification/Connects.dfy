/** What the connect hook does for each kind of caller, in terms of the call alone: sidecars and
    applications, of pods whose address is known and of pods whose address is not. */
module Connects {
  import opened Wrappers
  import opened Wire
  import opened Hooks
  import opened TcNat

  predicate FromSidecar(c: Call) {
    c.inMesh && c.uid == 1500
  }

  // ------------------------------------------------------------ sidecars of known pods

  /** A pod of this node that wants connections to this port brought to its sidecar. */
  ghost predicate Wanted(pods: map<u32, PodConfig>, ip: u32, port: u16) {
    && ip in pods
    && !PortListed(pods[ip].excludeInPorts, Swap16(port))
    && (pods[ip].includeInPorts[0] == 0 || PortListed(pods[ip].includeInPorts, Swap16(port)))
  }

  /** A sidecar that calls its own pod, its application, gets the port it asked for; one that calls
      another pod gets the inbound listener exactly if it asked for it or that pod wants it. The
      address never changes. The call fails exactly if it ought to be recorded and its socket
      already has a record. */
  lemma SidecarCall(m: Maps, pods: map<u32, PodConfig>, c: Call)
    requires FromSidecar(c) && c.podIp != 0
    ensures var a, m' := ConnectAnswer(m, pods, c), ConnectMaps(m, pods, c);
            var ours := if c.ip == c.podIp then c.ip in pods else Wanted(pods, c.ip, c.port);
            && a.ip == c.ip && a.bindTo == None
            && (c.ip == c.podIp ==> a.port == c.port)
            && (c.ip != c.podIp ==> (a.port == Swap16(15003) <==>
                                     c.port == Swap16(15003) || Wanted(pods, c.ip, c.port)))
            && (a.port == c.port || a.port == Swap16(15003))
            && (a.allow <==> !(ours && c.cookie in m.ckiFib))
            && m' == m.(ckiFib := if ours && a.allow then m.ckiFib[c.cookie := Origin(c.ip, 0, c.port, 1)]
                                  else m.ckiFib)
  {
  }

  /** Where a first segment from outside arrives. */
  ghost function ArrivalPort(natFib: map<Pair, Origin>, pods: map<u32, PodConfig>, g: Segment): u16 {
    if IngressRewrites(natFib, pods, g) then Swap16(15003) else g.dport
  }

  /** The two ways into a pod agree: a sidecar of this node that calls it arrives at the port at
      which the same connection from another node arrives, except exactly that the status port
      is spared on the way from outside only. */
  lemma BothWaysIn(m: Maps, pods: map<u32, PodConfig>, c: Call, g: Segment)
    requires FromSidecar(c) && c.podIp != 0 && c.ip != c.podIp
    requires g.syn && !g.ack && g.dip == c.ip && g.dport == c.port
    ensures ConnectAnswer(m, pods, c).port == ArrivalPort(m.natFib, pods, g) <==>
            !(Wanted(pods, c.ip, c.port) && Swap16(c.port) == pods[c.ip].statusPort && Swap16(c.port) != 15003)
  {
    SidecarCall(m, pods, c);
    Swap16Involutive(c.port);
    Swap16Involutive(15003);
  }

  // ------------------------------------------------------------------- applications

  /** What a pod's lists let out through its sidecar. */
  ghost predicate LetOut(pod: PodConfig, ip: u32, port: u16) {
    && !PortListed(pod.excludeOutPorts, port) && !RangeListed(pod.excludeOutRanges, ip)
    && (pod.includeOutPorts[0] == 0 || PortListed(pod.includeOutPorts, port))
    && (pod.includeOutRanges[0].net == 0 || RangeListed(pod.includeOutRanges, ip))
  }

  /** An application of a pod whose address is known: a call inside the pod goes its way unnoticed;
      every other one is recorded with what it asked for, and goes to the sidecar's outbound
      listener from the pod's address unless the pod has lists and they spare it. */
  lemma ApplicationCall(m: Maps, pods: map<u32, PodConfig>, c: Call)
    requires c.inMesh && c.uid != 1500 && c.podIp != 0
    ensures var a, m' := ConnectAnswer(m, pods, c), ConnectMaps(m, pods, c);
            if Octet(c.ip, 0) == 127 then a == Answer(true, c.ip, c.port, None) && m' == m
            else
              && m' == m.(ckiFib := m.ckiFib[c.cookie := Origin(c.ip, 0, c.port, 1)])
              && a == if c.podIp in pods && !LetOut(pods[c.podIp], c.ip, Swap16(c.port))
                      then Answer(true, c.ip, c.port, None)
                      else Answer(true, LOCALHOST, Swap16(15001), Some(c.podIp))
  {
  }

  /** Whoever is not in the mesh is left alone. */
  lemma OutsideMesh(m: Maps, pods: map<u32, PodConfig>, c: Call)
    requires !c.inMesh
    ensures ConnectAnswer(m, pods, c) == Answer(true, c.ip, c.port, None) && ConnectMaps(m, pods, c) == m
  {
  }

  // ------------------------------------------------------- callers of pods not known

  /** An established socket of this connect, at the inbound listener of the pod it called, whose
      two ends turn out to be the same pod. */
  predicate AtOwnListener(s: SockOps, c: Call) {
    && s.cookie == c.cookie && s.remoteIp == c.ip && s.remotePort / 0x1_0000 == Swap16(15003)
    && (s.localIp == s.remoteIp || s.localIp == SIDECAR_IP)
  }

  /** Without pod addresses a sidecar's first call to its own pod goes astray, is turned away when
      it is established, and leaves no trace but the address of its process; whatever the
      process asks of that address next, on a new socket, gets through as it asks. */
  lemma SecondCallGetsThrough(m: Maps, pods: map<u32, PodConfig>, c: Call, s: SockOps, again: Call)
    requires FromSidecar(c) && c.podIp == 0 && c.ip in pods && ConnectAnswer(m, pods, c).allow
    requires AtOwnListener(s, c)
    requires FromSidecar(again) && again.podIp == 0 && again.ip == c.ip && again.pid == c.pid
    requires again.cookie !in m.ckiFib && again.cookie != c.cookie
    ensures var m1 := ConnectMaps(m, pods, c);
            var m2 := EstablishedMaps(m1, s);
            && Misdirected(m1.ckiFib[s.cookie], s)
            && m2 == m1.(procFib := m.procFib[c.pid := c.ip])
            && ConnectAnswer(m2, pods, again) == Answer(true, again.ip, again.port, None)
  {
  }

  /** And a first call to another pod teaches the hook the caller's own address: from then on the
      process gets through to that address as it asks. */
  lemma CallsTeachAddress(m: Maps, pods: map<u32, PodConfig>, c: Call, s: SockOps, again: Call)
    requires FromSidecar(c) && c.podIp == 0 && c.ip in pods && ConnectAnswer(m, pods, c).allow
    requires s.cookie == c.cookie && s.localIp != s.remoteIp && s.localIp != SIDECAR_IP
    requires FromSidecar(again) && again.podIp == 0 && again.ip == s.localIp && again.pid == c.pid
    requires again.cookie !in m.ckiFib && again.cookie != c.cookie
    ensures var m2 := EstablishedMaps(ConnectMaps(m, pods, c), s);
            && OwnKey(s) in m2.natFib && m2.natFib[OwnKey(s)].ip == c.ip && m2.natFib[OwnKey(s)].port == c.port
            && ConnectAnswer(m2, pods, again) == Answer(true, again.ip, again.port, None)
  {
  }

  /** A sidecar whose address is known that way is sent to the inbound listener of every other pod,
      whatever that pod's lists say, and one whose address is not known to that of every pod. */
  lemma LegacySidecarCall(m: Maps, pods: map<u32, PodConfig>, c: Call)
    requires FromSidecar(c) && c.podIp == 0 && c.ip in pods && c.port != Swap16(15003)
    ensures ConnectAnswer(m, pods, c).ip == c.ip
    ensures ConnectAnswer(m, pods, c).port == Swap16(15003) <==> !(c.pid in m.procFib && m.procFib[c.pid] == c.ip)
    ensures ConnectAnswer(m, pods, c).port in {c.port, Swap16(15003)}
  {
  }

  // -------------------------------------- addresses for applications of pods not known

  predicate LegacyApp(c: Call) {
    c.inMesh && c.uid != 1500 && c.podIp == 0 && !IsLoopback(c.ip)
  }

  /** The maps after a sequence of connects. */
  ghost function AfterCalls(m: Maps, pods: map<u32, PodConfig>, calls: seq<Call>): Maps {
    if calls == [] then m
    else ConnectMaps(AfterCalls(m, pods, calls[..|calls| - 1]), pods, calls[|calls| - 1])
  }

  /** What the k-th call is told. */
  ghost function GivenTo(m: Maps, pods: map<u32, PodConfig>, calls: seq<Call>, k: int): Answer
    requires 0 <= k < |calls|
  {
    ConnectAnswer(AfterCalls(m, pods, calls[..k]), pods, calls[k])
  }

  /** How many of them are calls of such applications. */
  function LegacyCalls(calls: seq<Call>): nat {
    if calls == [] then 0
    else LegacyCalls(calls[..|calls| - 1]) + if LegacyApp(calls[|calls| - 1]) then 1 else 0
  }

  lemma {:induction false} CounterAfter(m: Maps, pods: map<u32, PodConfig>, calls: seq<Call>)
    ensures AfterCalls(m, pods, calls).outip == (m.outip - 1 + LegacyCalls(calls)) % 0xf_ffff + 1
  {
    if calls != [] {
      var n := |calls| - 1;
      CounterAfter(m, pods, calls[..n]);
      CounterStep(m.outip - 1 + LegacyCalls(calls[..n]));
    }
  }

  lemma CounterStep(x: nat)
    ensures (x % 0xf_ffff + 1) % 0xf_ffff + 1 == (x + 1) % 0xf_ffff + 1
  {
  }

  lemma {:induction false} CountGrows(calls: seq<Call>, i: nat, j: nat)
    requires i < j <= |calls| && LegacyApp(calls[i])
    ensures LegacyCalls(calls[..i]) < LegacyCalls(calls[..j])
  {
    assert calls[..j][..j - 1] == calls[..j - 1];
    if i < j - 1 {
      CountGrows(calls, i, j - 1);
    }
  }

  /** Residues of numbers less than a whole round apart. */
  lemma Apart(x: int, y: int)
    requires x < y < x + 0xf_ffff
    ensures x % 0xf_ffff != y % 0xf_ffff
  {
  }

  /** Such a call is always sent to the outbound listener, on an address of 127.128.0.0/12. */
  lemma LegacyAnswer(m: Maps, pods: map<u32, PodConfig>, c: Call)
    requires LegacyApp(c)
    ensures var a := ConnectAnswer(m, pods, c);
            && a == Answer(true, Swap32(0x7f80_0000 + m.outip as int), Swap16(15001), None)
            && Octet(a.ip, 0) == 127 && Octet(a.ip, 1) / 16 == 8
  {
    LeadingOctets(m.outip);
  }

  /** Without pod addresses, whatever other calls come between, no two of 1048575 calls of
      applications in a row get the same address, which is what keeps the connections of
      different pods apart. */
  lemma LegacyAddressesDiffer(m: Maps, pods: map<u32, PodConfig>, calls: seq<Call>, i: nat, j: nat)
    requires i < j < |calls| && LegacyApp(calls[i]) && LegacyApp(calls[j])
    requires LegacyCalls(calls[..j]) - LegacyCalls(calls[..i]) < 0xf_ffff
    ensures GivenTo(m, pods, calls, i).ip != GivenTo(m, pods, calls, j).ip
  {
    CounterAfter(m, pods, calls[..i]);
    CounterAfter(m, pods, calls[..j]);
    CountGrows(calls, i, j);
    Apart(m.outip - 1 + LegacyCalls(calls[..i]), m.outip - 1 + LegacyCalls(calls[..j]));
    var a, b := AfterCalls(m, pods, calls[..i]), AfterCalls(m, pods, calls[..j]);
    LegacyAnswer(a, pods, calls[i]);
    LegacyAnswer(b, pods, calls[j]);
    AddressesDiffer(a.outip, b.outip);
  }

  lemma AddressesDiffer(x: int, y: int)
    requires 0 <= x < 0x10_0000 && 0 <= y < 0x10_0000 && x != y
    ensures Swap32(0x7f80_0000 + x) != Swap32(0x7f80_0000 + y)
  {
    if Swap32(0x7f80_0000 + x) == Swap32(0x7f80_0000 + y) {
      Swap32Injective(0x7f80_0000 + x, 0x7f80_0000 + y);
    }
  }

  lemma LeadingOctets(x: int)
    requires 0 <= x < 0x10_0000
    ensures Octet(Swap32(0x7f80_0000 + x), 0) == 127 && Octet(Swap32(0x7f80_0000 + x), 1) / 16 == 8
  {
    var w: u32 := 0x7f80_0000 + x;
    var r := Swap32(w);
    FromOctets(r);
    ByteDigits(Octet(w, 0), Octet(w, 1), Octet(w, 2), Octet(w, 3), Octet(r, 3), Octet(r, 2), Octet(r, 1), Octet(r, 0));
    DivUnique(w, 0x100_0000, 127, 0x80_0000 + x);
    assert w / 0x1_0000 == 0x7f80 + x / 0x1_0000;
  }
}
