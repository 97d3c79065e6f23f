/** All eBPF programs of a node working together: a state machine whose steps are the hook
    calls the kernel makes. The hooks share nothing but their maps, and the maps are shared by
    all pods of the node, while TCP keeps 4-tuples apart only inside one network namespace. */
module NodeRun {
  import opened Wrappers
  import opened Wire
  import opened Hooks
  import opened TcNat

  /** A connect that was let through and is not yet established. A network namespace is
      known by the address of its pod or host. */
  datatype Attempt = Attempt(ns: u32, call: Call, answer: Answer)

  /** A live connection: its client's namespace, and the client's end as the server sees it. */
  datatype Conn = Conn(ns: u32, key: Pair)

  /** `ip` and `port` are what the client asked for. `recorded` says that the map entry of
      this connection was written and not deleted since; `clean` that no entry of an earlier
      connection was in its way. */
  datatype Flow = Flow(id: nat, ip: u32, port: u16, viaTc: bool, redirected: bool, clean: bool, recorded: bool)

  /** An open socket: its own key and the connection it is an end of. */
  datatype End = End(own: Pair, ns: u32, flow: nat)

  datatype State = State(
    maps: Maps,
    pods: map<u32, PodConfig>,
    cookies: set<int>,
    attempts: map<int, Attempt>,
    flows: map<Conn, Flow>,
    ends: map<int, End>,
    nextId: nat)

  const BOOT := State(Maps(map[], map[], map[], map[], 1), map[], {}, map[], map[], map[], 0)

  datatype Step =
    | PodsChange(pods: map<u32, PodConfig>)
    | Connect(ns: u32, c: Call)
    | ActiveEstablished(o: SockOps)
    | PassiveEstablished(ns: u32, o: SockOps)
    | Ingress(g: Segment)
    | Egress(g: Segment)
    | Close(conn: Conn)

  /** Sent somewhere else than it asked for. */
  predicate Moved(a: Attempt) {
    a.answer.ip != a.call.ip || a.answer.port != a.call.port
  }

  /** A connect of a pod whose address is known that was sent somewhere else. */
  predicate Redirected(a: Attempt) {
    a.call.podIp != 0 && Moved(a)
  }

  /** The mode without pod addresses: the source is not bound. */
  predicate Legacy(a: Attempt) {
    a.call.podIp == 0 && Moved(a)
  }

  /** Both ends on loopback addresses: such a key can be in use in many namespaces at once. */
  predicate Loopback(k: Pair) {
    IsLoopback(k.sip) && IsLoopback(k.dip)
  }

  /** Routing: a source is the namespace's own address, or a loopback address that goes no
      further than the namespace itself. */
  predicate Routable(c: Conn) {
    || c.key.sip == c.ns
    || (IsLoopback(c.key.sip) && (IsLoopback(c.key.dip) || c.key.dip == c.ns))
  }

  /** The namespace the server lives in. */
  function ServerOf(c: Conn): u32 {
    if IsLoopback(c.key.dip) then c.ns else c.key.dip
  }

  /** TCP: neither the client's nor the server's namespace has another connection, in either
      direction, on this 4-tuple. */
  predicate Fresh(s: State, c: Conn) {
    && c !in s.flows
    && Conn(c.ns, Reverse(c.key)) !in s.flows
    && Conn(ServerOf(c), Reverse(c.key)) !in s.flows
  }

  function ConnOf(a: Attempt, o: SockOps): Conn {
    Conn(a.ns, OwnKey(o))
  }

  function TcConn(g: Segment): Conn {
    Conn(g.sip, IngressKey(g))
  }

  /** What the kernel and TCP guarantee: a socket has one cookie and connects once; the active
      end is established first, from the address it was bound to; destination NAT makes no two
      live 4-tuples of a client equal; pod addresses and packets are not on loopback. Without
      pod addresses the keys of redirected connections are taken to be distinct. */
  ghost predicate Enabled(s: State, step: Step) {
    match step
    case PodsChange(pods) => forall ip :: ip in pods ==> !IsLoopback(ip)
    case Connect(ns, c) => c.cookie !in s.cookies && !IsLoopback(ns) && (c.inMesh && c.podIp != 0 ==> ns == c.podIp)
    case ActiveEstablished(o) =>
      && o.cookie in s.attempts
      && var a := s.attempts[o.cookie];
      && OwnKey(o).dip == a.answer.ip && OwnKey(o).dport == a.answer.port
      && (a.answer.bindTo.Some? ==> OwnKey(o).sip == a.answer.bindTo.value)
      && Routable(ConnOf(a, o)) && Fresh(s, ConnOf(a, o))
      && (Legacy(a) ==> forall c :: c in s.flows ==> c.key != OwnKey(o))
    case PassiveEstablished(ns, o) =>
      && o.cookie !in s.cookies
      && Conn(ns, Reverse(OwnKey(o))) in s.flows
      && forall c :: c in s.ends ==> s.ends[c].ns != ns || s.ends[c].own != OwnKey(o)
    case Ingress(g) =>
      OpensFlow(s.pods, g) ==>
        && !IsLoopback(g.sip)
        && (Fresh(s, TcConn(g)) ||
            (TcConn(g) in s.flows && s.flows[TcConn(g)].viaTc && s.flows[TcConn(g)].port == g.dport))
    case Egress(_) => true
    case Close(conn) => conn in s.flows
  }

  predicate EndOf(e: End, c: Conn) {
    e.ns == c.ns && (e.own == c.key || e.own == Reverse(c.key))
  }

  ghost function Apply(s: State, step: Step): State
    requires Enabled(s, step)
  {
    match step
    case PodsChange(pods) => s.(pods := pods)
    case Connect(ns, c) =>
      var a := ConnectAnswer(s.maps, s.pods, c);
      s.(maps := ConnectMaps(s.maps, s.pods, c), cookies := s.cookies + {c.cookie},
      attempts := if a.allow then s.attempts[c.cookie := Attempt(ns, c, a)] else s.attempts)
    case ActiveEstablished(o) =>
      var a := s.attempts[o.cookie];
      var f := Flow(s.nextId, a.call.ip, a.call.port, false, Redirected(a), true, HandsOver(s.maps, o));
      s.(maps := EstablishedMaps(s.maps, o), attempts := s.attempts - {o.cookie}, flows := s.flows[ConnOf(a, o) := f],
      ends := s.ends[o.cookie := End(OwnKey(o), a.ns, s.nextId)], nextId := s.nextId + 1)
    case PassiveEstablished(ns, o) =>
      s.(maps := EstablishedMaps(s.maps, o), cookies := s.cookies + {o.cookie},
      ends := s.ends[o.cookie := End(OwnKey(o), ns, s.flows[Conn(ns, Reverse(OwnKey(o)))].id)])
    case Ingress(g) =>
      var c, written := TcConn(g), IngressKey(g) !in s.maps.natFib;
      var s' := s.(maps := s.maps.(natFib := IngressNat(s.maps.natFib, s.pods, g)));
      if !OpensFlow(s.pods, g) then s'
      else if c in s.flows then s'.(flows := s.flows[c := s.flows[c].(recorded := s.flows[c].recorded || written)])
      else s'.(flows := s.flows[c := Flow(s.nextId, g.dip, g.dport, true, true, written, written)],
               nextId := s.nextId + 1)
    case Egress(g) =>
      var c := Conn(g.dip, EgressKey(g));
      s.(maps := s.maps.(natFib := EgressNat(s.maps.natFib, g)),
      flows := if EgressRewrites(s.maps.natFib, g) && g.fin && g.ack && c in s.flows
               then s.flows[c := s.flows[c].(recorded := false)] else s.flows)
    case Close(conn) =>
      var ends := map c | c in s.ends && !EndOf(s.ends[c], conn) :: s.ends[c];
      s.(maps := s.maps.(sockFib := map k | k in s.maps.sockFib && s.maps.sockFib[k] in ends :: s.maps.sockFib[k]),
      flows := s.flows - {conn}, ends := ends)
  }

  /** The state after a run, if every step of it was possible when it was taken. */
  ghost function After(steps: seq<Step>): Option<State> {
    if steps == [] then Some(BOOT)
    else
      var s := After(steps[..|steps| - 1]);
      if s.Some? && Enabled(s.value, steps[|steps| - 1]) then Some(Apply(s.value, steps[|steps| - 1])) else None
  }

  // ------------------------------------------------------------------ invariant

  /** A pending connect's record, if there is one, is the address it asked for; and a recorded
      connect to a loopback address is bound to the pod's own address. */
  ghost predicate AttemptOk(s: State, c: int, a: Attempt) {
    && c in s.cookies && c !in s.ends && !IsLoopback(a.ns)
    && (a.answer.bindTo.Some? ==> a.answer.bindTo.value == a.ns)
    && (c in s.maps.ckiFib ==>
         && s.maps.ckiFib[c].ip == a.call.ip
         && s.maps.ckiFib[c].port == a.call.port
         && (IsLoopback(a.answer.ip) ==> a.answer.bindTo.Some? || Legacy(a)))
    && (Redirected(a) ==> c in s.maps.ckiFib && s.maps.ckiFib[c].flags == 1)
  }

  ghost predicate AttemptsOk(s: State) {
    && (forall ip :: ip in s.pods ==> !IsLoopback(ip))
    && (forall c :: c in s.maps.ckiFib ==> c in s.cookies && s.maps.ckiFib[c].flags <= 1)
    && (forall c :: c in s.attempts ==> AttemptOk(s, c, s.attempts[c]))
  }

  /** A recorded connection's entry holds what its client asked for, in the style of the
      program that wrote it; a clean connection has an entry exactly while it is recorded. */
  ghost predicate EntryOk(natFib: map<Pair, Origin>, k: Pair, f: Flow) {
    && (f.recorded ==>
         && k in natFib
         && natFib[k].ip == f.ip
         && natFib[k].port == f.port
         && (TcOrigin(natFib[k]) <==> f.viaTc))
    && (f.viaTc ==> k.dport == IN_PORT && k.dip == f.ip && (f.clean && !f.recorded ==> k !in natFib))
    && (!f.viaTc && f.redirected ==> f.recorded)
    && (f.viaTc || f.redirected ==> !Loopback(k))
  }

  ghost predicate FlowsOk(s: State) {
    && (forall c :: c in s.flows ==> !IsLoopback(c.ns) && Routable(c) && EntryOk(s.maps.natFib, c.key, s.flows[c]))
    && (forall k :: k in s.maps.natFib && TcOrigin(s.maps.natFib[k]) ==> !IsLoopback(k.sip) && k.dport == IN_PORT)
  }

  /** No connection runs against another one, inside a namespace or between the two. */
  ghost predicate OneWay(s: State) {
    forall c, d :: c in s.flows && d in s.flows && d.key == Reverse(c.key) && (d.ns == c.ns || d.ns == ServerOf(c)) ==>
      d == c
  }

  ghost predicate IdsOk(s: State) {
    && (forall c :: c in s.flows ==> s.flows[c].id < s.nextId)
    && (forall c, d :: c in s.flows && d in s.flows && s.flows[c].id == s.flows[d].id ==> c == d)
  }

  ghost predicate Belongs(s: State, e: End) {
    || (Conn(e.ns, e.own) in s.flows && s.flows[Conn(e.ns, e.own)].id == e.flow)
    || (Conn(e.ns, Reverse(e.own)) in s.flows && s.flows[Conn(e.ns, Reverse(e.own))].id == e.flow)
  }

  /** Open sockets are ends of live connections, one socket per end, and the socket map
      holds only open sockets, each under its own key. */
  ghost predicate EndsOk(s: State) {
    && (forall c :: c in s.ends ==> c in s.cookies && Belongs(s, s.ends[c]))
    && (forall c, d :: c in s.ends && d in s.ends && s.ends[c].own == s.ends[d].own && s.ends[c].ns == s.ends[d].ns ==>
        c == d)
    && (forall k :: k in s.maps.sockFib ==> s.maps.sockFib[k] in s.ends && s.ends[s.maps.sockFib[k]].own == k)
  }

  ghost predicate Inv(s: State) {
    AttemptsOk(s) && FlowsOk(s) && OneWay(s) && IdsOk(s) && EndsOk(s)
  }

  /** Routing alone: a key used in two namespaces is on loopback at both ends. */
  lemma SharedKeyIsLoopback(c: Conn, d: Conn)
    requires Routable(c) && Routable(d) && !IsLoopback(c.ns) && !IsLoopback(d.ns)
    requires c.key == d.key && c.ns != d.ns
    ensures Loopback(c.key)
  {
  }

  /** Routing and TCP: off loopback, no two connections run against each other. */
  lemma OppositeKeys(s: State, c: Conn, d: Conn)
    requires FlowsOk(s) && OneWay(s) && c in s.flows && d in s.flows
    requires d.key == Reverse(c.key) && !Loopback(c.key)
    ensures d == c
  {
  }

  lemma ConnectKeepsInv(s: State, ns: u32, c: Call)
    requires Inv(s) && Enabled(s, Connect(ns, c))
    ensures Inv(Apply(s, Connect(ns, c)))
  {
    var s' := Apply(s, Connect(ns, c));
    var a := Attempt(ns, c, ConnectAnswer(s.maps, s.pods, c));
    assert a.answer.allow ==> AttemptOk(s', c.cookie, a);
    assert forall d :: d in s.attempts ==> AttemptOk(s, d, s.attempts[d]) && AttemptOk(s', d, s.attempts[d]);
    assert AttemptsOk(s');
    assert forall e :: Belongs(s, e) ==> Belongs(s', e);
  }

  /** What the hook hands over, it files under a key that no other connection has. */
  lemma HandedOverKeyIsOwn(s: State, o: SockOps, c: Conn)
    requires AttemptsOk(s) && FlowsOk(s) && Enabled(s, ActiveEstablished(o)) && HandsOver(s.maps, o) && c in s.flows
    ensures c.key != OwnKey(o)
  {
    var a := s.attempts[o.cookie];
    assert AttemptOk(s, o.cookie, a);
    if c.key == OwnKey(o) && !Legacy(a) {
      SharedKeyIsLoopback(c, ConnOf(a, o));
    }
  }

  lemma ActiveKeepsFlows(s: State, o: SockOps)
    requires AttemptsOk(s) && FlowsOk(s) && Enabled(s, ActiveEstablished(o))
    ensures FlowsOk(Apply(s, ActiveEstablished(o)))
  {
    var s', a := Apply(s, ActiveEstablished(o)), s.attempts[o.cookie];
    assert AttemptOk(s, o.cookie, a);
    assert EntryOk(s'.maps.natFib, OwnKey(o), s'.flows[ConnOf(a, o)]);
    forall c | c in s.flows
      ensures EntryOk(s'.maps.natFib, c.key, s'.flows[c])
    {
      if HandsOver(s.maps, o) {
        HandedOverKeyIsOwn(s, o, c);
      }
    }
  }

  lemma NewKeepsOneWay(s: State, n: Conn, s': State)
    requires FlowsOk(s) && OneWay(s) && Fresh(s, n) && Routable(n) && !IsLoopback(n.ns)
    requires forall c :: c in s'.flows <==> c in s.flows || c == n
    ensures OneWay(s')
  {
  }

  lemma ActiveKeepsAttempts(s: State, o: SockOps)
    requires AttemptsOk(s) && Enabled(s, ActiveEstablished(o))
    ensures AttemptsOk(Apply(s, ActiveEstablished(o)))
  {
    var s' := Apply(s, ActiveEstablished(o));
    assert forall d :: d in s'.attempts ==> AttemptOk(s, d, s.attempts[d]) && AttemptOk(s', d, s'.attempts[d]);
  }

  lemma ActiveKeepsEnds(s: State, o: SockOps)
    requires AttemptsOk(s) && EndsOk(s) && Enabled(s, ActiveEstablished(o))
    ensures EndsOk(Apply(s, ActiveEstablished(o)))
  {
    var s', a := Apply(s, ActiveEstablished(o)), s.attempts[o.cookie];
    assert AttemptOk(s, o.cookie, a);
    assert forall e :: Belongs(s, e) ==> Belongs(s', e);
    assert Belongs(s', s'.ends[o.cookie]);
    assert forall c :: c in s.ends ==> s.ends[c].own != OwnKey(o) || s.ends[c].ns != a.ns;
  }

  lemma ActiveKeepsInv(s: State, o: SockOps)
    requires Inv(s) && Enabled(s, ActiveEstablished(o))
    ensures Inv(Apply(s, ActiveEstablished(o)))
  {
    ActiveKeepsAttempts(s, o);
    ActiveKeepsFlows(s, o);
    var s', c := Apply(s, ActiveEstablished(o)), ConnOf(s.attempts[o.cookie], o);
    assert AttemptOk(s, o.cookie, s.attempts[o.cookie]);
    NewKeepsOneWay(s, c, s');
    NewIdOk(s, s', c, s'.flows[c]);
    ActiveKeepsEnds(s, o);
  }

  lemma PassiveKeepsInv(s: State, ns: u32, o: SockOps)
    requires Inv(s) && Enabled(s, PassiveEstablished(ns, o))
    ensures Inv(Apply(s, PassiveEstablished(ns, o)))
  {
    var s' := Apply(s, PassiveEstablished(ns, o));
    assert o.cookie !in s.maps.ckiFib;
    assert s'.maps.natFib == s.maps.natFib;
    assert forall d :: d in s.attempts ==> AttemptOk(s, d, s.attempts[d]) && AttemptOk(s', d, s'.attempts[d]);
    assert forall e :: Belongs(s, e) ==> Belongs(s', e);
    assert Belongs(s', s'.ends[o.cookie]);
  }

  /** Traffic control touches neither attempts nor sockets, and ends no connection. */
  lemma TrafficKeepsSockets(s: State, s': State)
    requires AttemptsOk(s) && EndsOk(s)
    requires s' == s.(maps := s.maps.(natFib := s'.maps.natFib), flows := s'.flows, nextId := s'.nextId)
    requires forall c :: c in s.flows ==> c in s'.flows && s'.flows[c].id == s.flows[c].id
    ensures AttemptsOk(s') && EndsOk(s')
  {
    assert forall d :: d in s.attempts ==> AttemptOk(s, d, s.attempts[d]) && AttemptOk(s', d, s'.attempts[d]);
    assert forall e :: Belongs(s, e) ==> Belongs(s', e);
  }

  lemma IngressKeepsFlows(s: State, g: Segment)
    requires FlowsOk(s) && Enabled(s, Ingress(g))
    ensures FlowsOk(Apply(s, Ingress(g)))
  {
    var s', n := Apply(s, Ingress(g)), TcConn(g);
    forall c | c in s.flows && c != n
      ensures c in s'.flows && EntryOk(s'.maps.natFib, c.key, s'.flows[c])
    {
      if OpensFlow(s.pods, g) && c.key == n.key {
        SharedKeyIsLoopback(c, n);
      }
    }
    if OpensFlow(s.pods, g) {
      assert EntryOk(s'.maps.natFib, n.key, s'.flows[n]);
    }
  }

  lemma SameConnsApart(s: State, s': State)
    requires OneWay(s) && IdsOk(s) && s'.flows.Keys == s.flows.Keys && s'.nextId == s.nextId
    requires forall c :: c in s.flows ==> s'.flows[c].id == s.flows[c].id
    ensures OneWay(s') && IdsOk(s')
  {
    assert forall c :: c in s'.flows <==> c in s.flows;
  }

  lemma NewIdOk(s: State, s': State, n: Conn, f: Flow)
    requires IdsOk(s) && f.id == s.nextId && s'.flows == s.flows[n := f] && s'.nextId == s.nextId + 1
    ensures IdsOk(s')
  {
  }

  lemma IngressKeepsApart(s: State, g: Segment)
    requires FlowsOk(s) && OneWay(s) && IdsOk(s) && Enabled(s, Ingress(g))
    ensures OneWay(Apply(s, Ingress(g))) && IdsOk(Apply(s, Ingress(g)))
  {
    var s', c := Apply(s, Ingress(g)), TcConn(g);
    if OpensFlow(s.pods, g) && c !in s.flows {
      NewKeepsOneWay(s, c, s');
      NewIdOk(s, s', c, s'.flows[c]);
    } else {
      assert s'.flows.Keys == s.flows.Keys;
      SameConnsApart(s, s');
    }
  }

  lemma IngressKeepsInv(s: State, g: Segment)
    requires Inv(s) && Enabled(s, Ingress(g))
    ensures Inv(Apply(s, Ingress(g)))
  {
    IngressKeepsFlows(s, g);
    IngressKeepsApart(s, g);
    TrafficKeepsSockets(s, Apply(s, Ingress(g)));
  }

  lemma EgressKeepsFlows(s: State, g: Segment)
    requires FlowsOk(s) && Enabled(s, Egress(g))
    ensures FlowsOk(Apply(s, Egress(g)))
  {
    var s', k := Apply(s, Egress(g)), EgressKey(g);
    forall c | c in s.flows
      ensures c in s'.flows && EntryOk(s'.maps.natFib, c.key, s'.flows[c])
    {
      if EgressRewrites(s.maps.natFib, g) && c.key == k {
        assert c == Conn(g.dip, k);
      }
    }
  }

  lemma EgressKeepsInv(s: State, g: Segment)
    requires Inv(s) && Enabled(s, Egress(g))
    ensures Inv(Apply(s, Egress(g)))
  {
    var s' := Apply(s, Egress(g));
    EgressKeepsFlows(s, g);
    assert s'.flows.Keys == s.flows.Keys;
    SameConnsApart(s, s');
    TrafficKeepsSockets(s, s');
  }

  lemma CloseKeepsInv(s: State, conn: Conn)
    requires Inv(s) && Enabled(s, Close(conn))
    ensures Inv(Apply(s, Close(conn)))
  {
    var s' := Apply(s, Close(conn));
    assert forall d :: d in s.attempts ==> AttemptOk(s, d, s.attempts[d]) && AttemptOk(s', d, s'.attempts[d]);
    forall c | c in s'.ends
      ensures Belongs(s', s'.ends[c])
    {
      assert Belongs(s, s.ends[c]);
    }
    assert EndsOk(s');
  }

  lemma PodsChangeKeepsInv(s: State, pods: map<u32, PodConfig>)
    requires Inv(s) && Enabled(s, PodsChange(pods))
    ensures Inv(Apply(s, PodsChange(pods)))
  {
    var s' := s.(pods := pods);
    assert forall d :: d in s.attempts ==> AttemptOk(s, d, s.attempts[d]) && AttemptOk(s', d, s'.attempts[d]);
    assert forall e :: Belongs(s, e) ==> Belongs(s', e);
  }

  /** Every hook call keeps the invariant. */
  lemma StepKeepsInv(s: State, step: Step)
    requires Inv(s) && Enabled(s, step)
    ensures Inv(Apply(s, step))
  {
    match step {
      case PodsChange(pods) => PodsChangeKeepsInv(s, pods);
      case Connect(ns, c) => ConnectKeepsInv(s, ns, c);
      case ActiveEstablished(o) => ActiveKeepsInv(s, o);
      case PassiveEstablished(ns, o) => PassiveKeepsInv(s, ns, o);
      case Ingress(g) => IngressKeepsInv(s, g);
      case Egress(g) => EgressKeepsInv(s, g);
      case Close(conn) => CloseKeepsInv(s, conn);
    }
  }

  /** So every reachable state has it. */
  lemma {:induction false} ReachableInv(steps: seq<Step>)
    requires After(steps).Some?
    ensures Inv(After(steps).value)
  {
    if steps != [] {
      ReachableInv(steps[..|steps| - 1]);
      StepKeepsInv(After(steps[..|steps| - 1]).value, steps[|steps| - 1]);
    }
  }

  /** What each step does to the entries. */
  lemma EntriesAfter(s: State, step: Step)
    requires AttemptsOk(s) && Enabled(s, step)
    ensures Apply(s, step).maps.natFib ==
            match step {
              case Ingress(g) => IngressNat(s.maps.natFib, s.pods, g)
              case Egress(g) => EgressNat(s.maps.natFib, g)
              case ActiveEstablished(o) =>
                if HandsOver(s.maps, o) then s.maps.natFib[OwnKey(o) := s.maps.ckiFib[o.cookie]] else s.maps.natFib
              case _ => s.maps.natFib
            }
    ensures step.ActiveEstablished? && HandsOver(s.maps, step.o) ==> !TcOrigin(s.maps.ckiFib[step.o.cookie])
  {
  }

  // ------------------------------------------------------------------------- runs

  lemma AfterSnoc(steps: seq<Step>, step: Step)
    requires After(steps).Some? && Enabled(After(steps).value, step)
    ensures After(steps + [step]) == Some(Apply(After(steps).value, step))
  {
    assert (steps + [step])[..|steps|] == steps;
  }

  /** The states of a run, one after the other. */
  ghost function Trace(steps: seq<Step>): (t: seq<State>)
    requires After(steps).Some?
    ensures |t| == |steps| + 1 && t[|steps|] == After(steps).value
  {
    if steps == [] then [BOOT] else Trace(steps[..|steps| - 1]) + [After(steps).value]
  }

  ghost predicate Linked(t: seq<State>, steps: seq<Step>, i: int) {
    && 0 <= i < |steps| == |t| - 1
    && Inv(t[i]) && Enabled(t[i], steps[i]) && t[i + 1] == Apply(t[i], steps[i])
  }

  ghost predicate Chain(t: seq<State>, steps: seq<Step>) {
    |t| == |steps| + 1 && t[0] == BOOT && forall i :: 0 <= i < |steps| ==> Linked(t, steps, i)
  }

  lemma {:induction false} TraceIsChain(steps: seq<Step>)
    requires After(steps).Some?
    ensures Chain(Trace(steps), steps)
  {
    if steps != [] {
      var n := |steps| - 1;
      TraceIsChain(steps[..n]);
      ReachableInv(steps[..n]);
      ChainSnoc(Trace(steps[..n]), steps[..n], steps[n]);
      assert steps == steps[..n] + [steps[n]];
    }
  }

  lemma ChainSnoc(t: seq<State>, steps: seq<Step>, step: Step)
    requires Chain(t, steps) && Inv(t[|steps|]) && Enabled(t[|steps|], step)
    ensures Chain(t + [Apply(t[|steps|], step)], steps + [step])
  {
    var t', steps' := t + [Apply(t[|steps|], step)], steps + [step];
    forall i | 0 <= i < |steps'|
      ensures Linked(t', steps', i)
    {
      assert i < |steps| ==> Linked(t, steps, i);
    }
  }

  /** The state a run was in after its first `m` steps. */
  ghost function At(steps: seq<Step>, m: int): State
    requires After(steps).Some? && 0 <= m <= |steps|
  {
    Trace(steps)[m]
  }

  /** The connect that step `m` establishes. */
  ghost function AttemptAt(steps: seq<Step>, m: int): Attempt
    requires After(steps).Some? && 0 <= m < |steps| && steps[m].ActiveEstablished?
  {
    TraceIsChain(steps);
    assert Linked(Trace(steps), steps, m);
    At(steps, m).attempts[steps[m].o.cookie]
  }
}
