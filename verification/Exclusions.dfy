/** Merging the pod's lists with the mesh-wide ones, and the laws of interception. */
module Exclusions {
  import opened Hooks
  import opened Wire
  import opened Iptables

  /** The list with every repetition of an earlier element dropped. */
  function Unique<T(==)>(s: seq<T>): seq<T> {
    if s == [] then []
    else
      var rest, last := s[..|s| - 1], s[|s| - 1];
      if last in rest then Unique(rest) else Unique(rest) + [last]
  }

  lemma {:induction false} UniqueMembers<T>(s: seq<T>)
    ensures forall x :: x in Unique(s) <==> x in s
    ensures forall i, j :: 0 <= i < j < |Unique(s)| ==> Unique(s)[i] != Unique(s)[j]
  {
    if s != [] {
      var rest, last := s[..|s| - 1], s[|s| - 1];
      UniqueMembers(rest);
      assert s == rest + [last];
    }
  }

  /** Both merges: walk one list, then the other, keeping what the set has not seen. */
  method MergeUnique<T(==)>(first: seq<T>, second: seq<T>) returns (merged: seq<T>)
    ensures merged == Unique(first + second)
  {
    var seen: set<T> := {};
    merged := [];
    for i := 0 to |first|
      invariant merged == Unique(first[..i])
      invariant forall x :: x in seen <==> x in first[..i]
    {
      assert first[..i + 1] == first[..i] + [first[i]];
      if first[i] !in seen {
        seen := seen + {first[i]};
        merged := merged + [first[i]];
      }
    }
    assert first[..|first|] == first == first + second[..0];
    for i := 0 to |second|
      invariant merged == Unique(first + second[..i])
      invariant forall x :: x in seen <==> x in first + second[..i]
    {
      assert first + second[..i + 1] == (first + second[..i]) + [second[i]];
      if second[i] !in seen {
        seen := seen + {second[i]};
        merged := merged + [second[i]];
      }
    }
    assert first + second[..|second|] == first + second;
  }

  /** MergePortExclusionLists puts the mesh-wide ports first. */
  method MergePortExclusionLists(pod: seq<int>, global: seq<int>) returns (merged: seq<int>)
    ensures merged == Unique(global + pod)
  {
    merged := MergeUnique(global, pod);
  }

  /** MergeIPRangeLists puts the pod's own ranges first. */
  method MergeIpRangeLists(pod: seq<Range>, global: seq<Range>) returns (merged: seq<Range>)
    ensures merged == Unique(pod + global)
  {
    merged := MergeUnique(pod, global);
  }

  predicate SameMembers<T(==)>(s: seq<T>, t: seq<T>) {
    (forall x :: x in s ==> x in t) && (forall x :: x in t ==> x in s)
  }

  /** Two configurations whose lists have the same members. */
  predicate SameLists(a: Config, b: Config) {
    && a.podIpMode == b.podIpMode && a.dnsProxy == b.dnsProxy
    && SameMembers(a.excludedRanges, b.excludedRanges)
    && SameMembers(a.includedRanges, b.includedRanges)
    && SameMembers(a.excludedOutPorts, b.excludedOutPorts)
    && SameMembers(a.excludedInPorts, b.excludedInPorts)
    && SameMembers(a.excludedIfaces, b.excludedIfaces)
  }

  lemma InSomeOfSame(a: seq<Range>, b: seq<Range>, ip: u32)
    requires SameMembers(a, b) && InSome(a, ip)
    ensures InSome(b, ip)
  {
    var i :| 0 <= i < |a| && Contains(a[i], ip);
    assert a[i] in b;
  }

  lemma OnSomeOfSame(a: seq<string>, b: seq<string>, iface: string)
    requires SameMembers(a, b) && OnSome(a, iface)
    ensures OnSome(b, iface)
  {
    var i :| 0 <= i < |a| && IfaceMatches(a[i], iface);
    assert a[i] in b;
  }

  lemma SameListsCapture(a: Config, b: Config, p: Packet)
    requires SameLists(a, b)
    ensures CapturedOut(a, p) ==> CapturedOut(b, p)
    ensures CapturedIn(a, p) ==> CapturedIn(b, p)
  {
    if InSome(b.excludedRanges, p.dst) { InSomeOfSame(b.excludedRanges, a.excludedRanges, p.dst); }
    if InSome(a.includedRanges, p.dst) { InSomeOfSame(a.includedRanges, b.includedRanges, p.dst); }
    if OnSome(b.excludedIfaces, p.outIface) { OnSomeOfSame(b.excludedIfaces, a.excludedIfaces, p.outIface); }
    if OnSome(b.excludedIfaces, p.inIface) { OnSomeOfSame(b.excludedIfaces, a.excludedIfaces, p.inIface); }
    if b.includedRanges != [] {
      assert b.includedRanges[0] in a.includedRanges;
    }
  }

  /** The generated programs of two configurations treat a packet alike, on both hooks. */
  ghost predicate SameVerdicts(a: Config, b: Config, p: Packet) {
    && Acyclic(Compile(a)) && Acyclic(Compile(b))
    && Evaluate(Compile(a), Output, p) == Evaluate(Compile(b), Output, p)
    && Evaluate(Compile(a), Prerouting, p) == Evaluate(Compile(b), Prerouting, p)
  }

  /** Neither the order of a list nor repetitions in it change any verdict. */
  lemma SameListsSameVerdict(a: Config, b: Config, p: Packet)
    requires SameLists(a, b)
    ensures SameVerdicts(a, b, p)
  {
    CompilerCorrect(a, p);
    CompilerCorrect(b, p);
    SameListsCapture(a, b, p);
    SameListsCapture(b, a, p);
  }

  lemma MembersAgree<T>(s: seq<T>, t: seq<T>)
    requires forall x :: x in s <==> x in t
    ensures SameMembers(s, t)
  {
  }

  lemma UniqueSameMembers<T>(s: seq<T>, t: seq<T>)
    ensures SameMembers(Unique(s + t), s + t)
    ensures SameMembers(Unique(t + s), s + t)
  {
    var st, ts := s + t, t + s;
    UniqueMembers(st);
    MembersAgree(Unique(st), st);
    UniqueMembers(ts);
    assert forall x :: x in ts <==> x in st;
    MembersAgree(Unique(ts), st);
  }

  /** Merging with deduplication, in either order, decides every packet the way plain
      concatenation does. */
  lemma MergeKeepsVerdicts(cfg: Config, podPorts: seq<int>, ports: seq<int>, podRanges: seq<Range>, ranges: seq<Range>,
                           p: Packet)
    ensures var plain := cfg.(excludedOutPorts := podPorts + ports, excludedRanges := podRanges + ranges);
            var merged := cfg.(excludedOutPorts := Unique(ports + podPorts),
                               excludedRanges := Unique(podRanges + ranges));
            var swapped := cfg.(excludedOutPorts := Unique(podPorts + ports),
                                excludedRanges := Unique(ranges + podRanges));
            SameVerdicts(merged, plain, p) && SameVerdicts(swapped, plain, p)
  {
    UniqueSameMembers(podPorts, ports);
    UniqueSameMembers(podRanges, ranges);
    var plain := cfg.(excludedOutPorts := podPorts + ports, excludedRanges := podRanges + ranges);
    SameListsSameVerdict(cfg.(excludedOutPorts := Unique(ports + podPorts),
                              excludedRanges := Unique(podRanges + ranges)), plain, p);
    SameListsSameVerdict(cfg.(excludedOutPorts := Unique(podPorts + ports),
                              excludedRanges := Unique(ranges + podRanges)), plain, p);
  }

  /** The same for the inclusion lists and the inbound port lists, on both hooks. */
  lemma MergeKeepsInclusions(cfg: Config, podRanges: seq<Range>, ranges: seq<Range>, podPorts: seq<int>,
                             ports: seq<int>, p: Packet)
    ensures var plain := cfg.(includedRanges := podRanges + ranges, excludedInPorts := podPorts + ports);
            var merged := cfg.(includedRanges := Unique(podRanges + ranges),
                               excludedInPorts := Unique(ports + podPorts));
            var swapped := cfg.(includedRanges := Unique(ranges + podRanges),
                                excludedInPorts := Unique(podPorts + ports));
            SameVerdicts(merged, plain, p) && SameVerdicts(swapped, plain, p)
  {
    UniqueSameMembers(podPorts, ports);
    UniqueSameMembers(podRanges, ranges);
    var plain := cfg.(includedRanges := podRanges + ranges, excludedInPorts := podPorts + ports);
    SameListsSameVerdict(plain.(includedRanges := Unique(podRanges + ranges),
                                excludedInPorts := Unique(ports + podPorts)), plain, p);
    SameListsSameVerdict(plain.(includedRanges := Unique(ranges + podRanges),
                                excludedInPorts := Unique(podPorts + ports)), plain, p);
  }

  // ------------------------------------------------------------------------- laws

  /** What the sidecar itself sends is never handed to the outbound listener, whatever the
      configuration; and no packet at all reaches the rule that spares the admin port, so
      application traffic to that port is captured like any other. */
  lemma SidecarNeverLoops(cfg: Config, p: Packet)
    ensures Acyclic(Compile(cfg))
    ensures p.uid == SIDECAR_UID ==> Evaluate(Compile(cfg), Output, p) != RedirectedTo(OUTBOUND_LISTENER)
    ensures Evaluate(Compile(cfg), Output, p) != Accepted && Evaluate(Compile(cfg), Prerouting, p) != Accepted
    ensures p.dport == ADMIN_PORT && CapturedOut(cfg, p) ==>
            Evaluate(Compile(cfg), Output, p) == RedirectedTo(OUTBOUND_LISTENER)
  {
    CompilerCorrect(cfg, p);
  }

  /** The way of the sidecar's own TCP packets, whatever the lists say: to the pod's other addresses
      over the loopback interface they go to the inbound listener, so that an application that
      calls its own service passes the sidecar on the way out and on the way in; to 127.0.0.1,
      where the application listens, they go through, or to the pod's address where that is
      configured; and they leave the pod untouched. */
  lemma SidecarTraffic(cfg: Config, p: Packet)
    requires p.proto == Tcp && p.uid == 1500
    ensures Acyclic(Compile(cfg))
    ensures p.outIface == "lo" && p.dst != LOCALHOST ==> Evaluate(Compile(cfg), Output, p) == RedirectedTo(15003)
    ensures p.outIface == "lo" && p.dst == LOCALHOST ==>
              Evaluate(Compile(cfg), Output, p) == if cfg.podIpMode then DnatedToPodIp else FellOff
    ensures p.outIface != "lo" ==> Evaluate(Compile(cfg), Output, p) == FellOff
  {
    CompilerCorrect(cfg, p);
  }

  /** Traffic that never leaves the pod is left alone, and so is everything that is not TCP, save
      for name queries to the sidecar's resolver where that is configured. */
  lemma UntouchedTraffic(cfg: Config, p: Packet)
    requires p.uid != 1500
    ensures Acyclic(Compile(cfg))
    ensures p.proto == Tcp && (p.outIface == "lo" || p.dst == LOCALHOST) ==>
              Evaluate(Compile(cfg), Output, p) == FellOff
    ensures p.proto != Tcp ==> Evaluate(Compile(cfg), Prerouting, p) == FellOff
    ensures p.proto == Other ==> Evaluate(Compile(cfg), Output, p) == FellOff
    ensures p.proto == Udp ==>
              Evaluate(Compile(cfg), Output, p) ==
              if cfg.dnsProxy && p.dport == 53 && p.dst == DNS_PROXY_IP then DnatedTo(p.dst, 5300) else FellOff
  {
    CompilerCorrect(cfg, p);
  }

  /** With no lists at all, everything else that leaves goes out through the sidecar, and everything
      that arrives comes in through it, save for its own probe and metrics ports. */
  lemma DefaultTraffic(cfg: Config, p: Packet)
    requires cfg.excludedRanges == [] && cfg.includedRanges == [] && cfg.excludedOutPorts == []
    requires cfg.excludedInPorts == [] && cfg.excludedIfaces == [] && p.proto == Tcp
    ensures Acyclic(Compile(cfg))
    ensures p.uid != 1500 && p.outIface != "lo" && p.dst != LOCALHOST ==>
              Evaluate(Compile(cfg), Output, p) == RedirectedTo(15001)
    ensures Evaluate(Compile(cfg), Prerouting, p) ==
            if p.dport == 15010 || 15901 <= p.dport <= 15904 then FellOff else RedirectedTo(15003)
  {
    CompilerCorrect(cfg, p);
  }

  /** An interface in a list stands for itself, and with a plus sign for all that begin like it. */
  lemma IfacePatterns(name: string, rest: string)
    ensures IfaceMatches(name + "+", name + rest)
    ensures (name == "" || name[|name| - 1] != '+') && rest != "" ==>
              IfaceMatches(name, name) && !IfaceMatches(name, name + rest)
  {
    assert (name + "+")[..|name + "+"| - 1] == name;
  }

  /** A range excluded and included at once is excluded. */
  lemma ExclusionBeatsInclusion(cfg: Config, p: Packet)
    requires InSome(cfg.excludedRanges, p.dst) || p.dport in cfg.excludedOutPorts
    ensures Acyclic(Compile(cfg))
    ensures Evaluate(Compile(cfg), Output, p) != RedirectedTo(OUTBOUND_LISTENER)
  {
    CompilerCorrect(cfg, p);
  }

  /** `b` excludes everything `a` excludes and differs from it in nothing else. */
  predicate MoreExclusions(a: Config, b: Config) {
    && b == a.(excludedRanges := b.excludedRanges, excludedOutPorts := b.excludedOutPorts,
               excludedInPorts := b.excludedInPorts, excludedIfaces := b.excludedIfaces)
    && (forall x :: x in a.excludedRanges ==> x in b.excludedRanges)
    && (forall x :: x in a.excludedOutPorts ==> x in b.excludedOutPorts)
    && (forall x :: x in a.excludedInPorts ==> x in b.excludedInPorts)
    && (forall x :: x in a.excludedIfaces ==> x in b.excludedIfaces)
  }

  /** Adding exclusions only ever removes redirection: a verdict either stays or becomes none. */
  lemma ExclusionsOnlyRemove(a: Config, b: Config, p: Packet)
    requires MoreExclusions(a, b)
    ensures Acyclic(Compile(a)) && Acyclic(Compile(b))
    ensures Evaluate(Compile(b), Output, p) == Evaluate(Compile(a), Output, p) ||
            Evaluate(Compile(b), Output, p) == FellOff
    ensures Evaluate(Compile(b), Prerouting, p) == Evaluate(Compile(a), Prerouting, p) ||
            Evaluate(Compile(b), Prerouting, p) == FellOff
  {
    CompilerCorrect(a, p);
    CompilerCorrect(b, p);
    if InSome(a.excludedRanges, p.dst) {
      var i :| 0 <= i < |a.excludedRanges| && Contains(a.excludedRanges[i], p.dst);
      assert a.excludedRanges[i] in b.excludedRanges;
    }
    if OnSome(a.excludedIfaces, p.outIface) {
      var i :| 0 <= i < |a.excludedIfaces| && IfaceMatches(a.excludedIfaces[i], p.outIface);
      assert a.excludedIfaces[i] in b.excludedIfaces;
    }
    if OnSome(a.excludedIfaces, p.inIface) {
      var i :| 0 <= i < |a.excludedIfaces| && IfaceMatches(a.excludedIfaces[i], p.inIface);
      assert a.excludedIfaces[i] in b.excludedIfaces;
    }
    assert CapturedOut(b, p) ==> CapturedOut(a, p);
    assert CapturedIn(b, p) ==> CapturedIn(a, p);
  }
}
