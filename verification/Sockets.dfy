/** The socket map over every run: which sockets it holds, so that messages are handed from one end
    of an intercepted connection to the other without passing through the network stack. */
module Sockets {
  import opened Wrappers
  import opened Wire
  import opened Hooks
  import opened TcNat
  import opened NodeRun

  predicate IsListener(port: u16) {
    port == Swap16(15001) || port == Swap16(15003)
  }

  /** The client's end of a connection whose record was handed over. */
  predicate RecordedEnd(s: State, e: End) {
    var c := Conn(e.ns, e.own);
    && c in s.flows && s.flows[c].id == e.flow && e.own != Reverse(e.own)
    && !s.flows[c].viaTc && s.flows[c].recorded
  }

  /** A server's end at one of the sidecar's listeners, or called from the sidecar's own address. */
  predicate ServedEnd(s: State, e: End) {
    var c := Conn(e.ns, Reverse(e.own));
    && c in s.flows && s.flows[c].id == e.flow && e.own != Reverse(e.own)
    && (IsListener(e.own.sport) || e.own.dip == SIDECAR_IP)
  }

  /** Off loopback the socket map holds every such end, under its own key. */
  ghost predicate Filed(s: State) {
    forall c :: c in s.ends && !Loopback(s.ends[c].own) && (RecordedEnd(s, s.ends[c]) || ServedEnd(s, s.ends[c])) ==>
      s.ends[c].own in s.maps.sockFib && s.maps.sockFib[s.ends[c].own] == c
  }

  /** Connections that were sent elsewhere were sent to a listener. */
  ghost predicate Directed(s: State) {
    && (forall c :: c in s.attempts && Redirected(s.attempts[c]) ==> IsListener(s.attempts[c].answer.port))
    && (forall c :: c in s.flows && s.flows[c].redirected ==> IsListener(c.key.dport))
  }

  /** A key off loopback that is new in its namespace is not in the socket map. */
  lemma KeyNotTaken(s: State, t: State, k: Pair, n: Conn)
    requires EndsOk(s) && FlowsOk(t) && OneWay(t) && forall c :: c in s.flows ==> c in t.flows
    requires n in t.flows && !Loopback(k) && (k == n.key || k == Reverse(n.key))
    requires forall d :: d in s.ends ==> s.ends[d].ns != n.ns || s.ends[d].own != k
    ensures k !in s.maps.sockFib
  {
    if k in s.maps.sockFib {
      var d := s.maps.sockFib[k];
      assert d in s.ends && s.ends[d].own == k && Belongs(s, s.ends[d]);
      var ns := s.ends[d].ns;
      var c := if Conn(ns, k) in s.flows then Conn(ns, k) else Conn(ns, Reverse(k));
      assert c in t.flows && c.ns != n.ns;
      if c.key == n.key {
        SharedKeyIsLoopback(c, n);
      } else {
        OppositeKeys(t, n, c);
      }
    }
  }

  lemma StepKeepsDirected(s: State, step: Step)
    requires Inv(s) && Enabled(s, step) && Directed(s)
    ensures Directed(Apply(s, step))
  {
  }

  /** Steps that add no socket. */
  lemma OthersKeepFiled(s: State, s': State)
    requires EndsOk(s) && IdsOk(s) && Filed(s)
    requires forall c :: c in s'.ends ==> c in s.ends && s'.ends[c] == s.ends[c]
    requires forall k :: k in s.maps.sockFib && s.maps.sockFib[k] in s'.ends ==>
               k in s'.maps.sockFib && s'.maps.sockFib[k] == s.maps.sockFib[k]
    requires forall c :: c in s'.flows && s'.flows[c].id < s.nextId ==>
               && c in s.flows && s'.flows[c].id == s.flows[c].id && s'.flows[c].viaTc == s.flows[c].viaTc
               && (!s.flows[c].viaTc && s'.flows[c].recorded ==> s.flows[c].recorded)
    ensures Filed(s')
  {
    forall c | c in s'.ends && !Loopback(s'.ends[c].own) && (RecordedEnd(s', s'.ends[c]) || ServedEnd(s', s'.ends[c]))
      ensures s'.ends[c].own in s'.maps.sockFib && s'.maps.sockFib[s'.ends[c].own] == c
    {
      assert Belongs(s, s.ends[c]);
    }
  }

  ghost predicate FiledEnd(s: State, c: int, e: End) {
    !Loopback(e.own) && (RecordedEnd(s, e) || ServedEnd(s, e)) ==>
      e.own in s.maps.sockFib && s.maps.sockFib[e.own] == c
  }

  /** One more socket. */
  lemma OneMoreFiled(s: State, c: int, e: End)
    requires Filed(s) && FiledEnd(s, c, e)
    ensures Filed(s.(ends := s.ends[c := e]))
  {
    var s' := s.(ends := s.ends[c := e]);
    assert forall d :: d in s.ends && d != c ==> FiledEnd(s, d, s.ends[d]);
    assert forall d :: d in s'.ends ==> FiledEnd(s', d, s'.ends[d]);
  }

  lemma ActiveOthers(s: State, o: SockOps)
    requires Inv(s) && Enabled(s, ActiveEstablished(o)) && Filed(s)
    ensures Filed(Apply(s, ActiveEstablished(o)).(ends := s.ends))
  {
    OthersKeepFiled(s, Apply(s, ActiveEstablished(o)).(ends := s.ends));
  }

  lemma ActiveFiled(s: State, o: SockOps)
    requires Inv(s) && Enabled(s, ActiveEstablished(o))
    ensures var s' := Apply(s, ActiveEstablished(o)).(ends := s.ends);
            FiledEnd(s', o.cookie, End(OwnKey(o), s.attempts[o.cookie].ns, s.nextId))
  {
    var s', a, k := Apply(s, ActiveEstablished(o)), s.attempts[o.cookie], OwnKey(o);
    ActiveKeepsFlows(s, o);
    assert AttemptOk(s, o.cookie, a);
    NewKeepsOneWay(s, ConnOf(a, o), s');
    assert forall d :: d in s.ends && Belongs(s, s.ends[d]) ==> s.ends[d].own != k || s.ends[d].ns != a.ns;
    if !Loopback(k) && HandsOver(s.maps, o) {
      KeyNotTaken(s, s', k, ConnOf(a, o));
    }
  }

  lemma ActiveKeepsFiled(s: State, o: SockOps)
    requires Inv(s) && Enabled(s, ActiveEstablished(o)) && Filed(s)
    ensures Filed(Apply(s, ActiveEstablished(o)))
  {
    ActiveOthers(s, o);
    ActiveFiled(s, o);
    var s', e := Apply(s, ActiveEstablished(o)), End(OwnKey(o), s.attempts[o.cookie].ns, s.nextId);
    OneMoreFiled(s'.(ends := s.ends), o.cookie, e);
    assert s' == s'.(ends := s.ends[o.cookie := e]);
  }

  lemma PassiveFiled(s: State, ns: u32, o: SockOps)
    requires Inv(s) && Enabled(s, PassiveEstablished(ns, o))
    ensures var s', c := Apply(s, PassiveEstablished(ns, o)).(ends := s.ends), Conn(ns, Reverse(OwnKey(o)));
            FiledEnd(s', o.cookie, End(OwnKey(o), ns, s.flows[c].id))
  {
    assert o.cookie !in s.maps.ckiFib;
    var k := OwnKey(o);
    if !Loopback(k) {
      Swap16Involutive(o.localPort);
      KeyNotTaken(s, s, k, Conn(ns, Reverse(k)));
    }
  }

  lemma PassiveKeepsFiled(s: State, ns: u32, o: SockOps)
    requires Inv(s) && Enabled(s, PassiveEstablished(ns, o)) && Filed(s)
    ensures Filed(Apply(s, PassiveEstablished(ns, o)))
  {
    var s', k := Apply(s, PassiveEstablished(ns, o)), OwnKey(o);
    var e := End(k, ns, s.flows[Conn(ns, Reverse(k))].id);
    OthersKeepFiled(s, s'.(ends := s.ends));
    PassiveFiled(s, ns, o);
    OneMoreFiled(s'.(ends := s.ends), o.cookie, e);
    assert s' == s'.(ends := s.ends[o.cookie := e]);
  }

  lemma IngressKeepsFiled(s: State, g: Segment)
    requires Inv(s) && Enabled(s, Ingress(g)) && Filed(s)
    ensures Filed(Apply(s, Ingress(g)))
  {
    OthersKeepFiled(s, Apply(s, Ingress(g)));
  }

  lemma CloseKeepsFiled(s: State, c: Conn)
    requires Inv(s) && Enabled(s, Close(c)) && Filed(s)
    ensures Filed(Apply(s, Close(c)))
  {
    OthersKeepFiled(s, Apply(s, Close(c)));
  }

  lemma StepKeepsFiled(s: State, step: Step)
    requires Inv(s) && Enabled(s, step) && Filed(s)
    ensures Filed(Apply(s, step))
  {
    match step {
      case ActiveEstablished(o) => ActiveKeepsFiled(s, o);
      case PassiveEstablished(ns, o) => PassiveKeepsFiled(s, ns, o);
      case Ingress(g) => IngressKeepsFiled(s, g);
      case Close(c) => CloseKeepsFiled(s, c);
      case _ =>
        var s' := Apply(s, step);
        assert s'.ends == s.ends && s'.maps.sockFib == s.maps.sockFib;
        OthersKeepFiled(s, s');
    }
  }

  lemma {:induction false} ReachableFiled(steps: seq<Step>)
    requires After(steps).Some?
    ensures Filed(After(steps).value) && Directed(After(steps).value)
  {
    if steps != [] {
      var n := |steps| - 1;
      ReachableFiled(steps[..n]);
      ReachableInv(steps[..n]);
      StepKeepsFiled(After(steps[..n]).value, steps[n]);
      StepKeepsDirected(After(steps[..n]).value, steps[n]);
    }
  }

  /** The two sockets of a connection: the client's and the server's. */
  predicate EndsOf(s: State, c: Conn, client: int, server: int) {
    && c in s.flows && client in s.ends && server in s.ends
    && s.ends[client] == End(c.key, c.ns, s.flows[c].id)
    && s.ends[server] == End(Reverse(c.key), c.ns, s.flows[c].id)
  }

  /** In every reachable state: once both ends of a connection that the connect hook sent to a
      listener are established, each finds the other in the socket map. */
  lemma RedirectFindsPeer(steps: seq<Step>, c: Conn, client: int, server: int)
    requires After(steps).Some? && EndsOf(After(steps).value, c, client, server) && client != server
    requires After(steps).value.flows[c].redirected && !After(steps).value.flows[c].viaTc
    ensures var sockFib := After(steps).value.maps.sockFib;
            && Reverse(c.key) in sockFib && sockFib[Reverse(c.key)] == server
            && c.key in sockFib && sockFib[c.key] == client
  {
    ReachableInv(steps);
    ReachableFiled(steps);
    var s := After(steps).value;
    assert EntryOk(s.maps.natFib, c.key, s.flows[c]);
    assert RecordedEnd(s, s.ends[client]) && ServedEnd(s, s.ends[server]);
  }

  /** The same for a sidecar's call to its own application: the record was handed over, and the
      server sees the sidecar's address. */
  lemma OwnCallFindsPeer(steps: seq<Step>, c: Conn, client: int, server: int)
    requires After(steps).Some? && EndsOf(After(steps).value, c, client, server) && client != server
    requires After(steps).value.flows[c].recorded && !After(steps).value.flows[c].viaTc
    requires c.key.sip == SIDECAR_IP && !IsLoopback(c.key.dip)
    ensures var sockFib := After(steps).value.maps.sockFib;
            && Reverse(c.key) in sockFib && sockFib[Reverse(c.key)] == server
            && c.key in sockFib && sockFib[c.key] == client
  {
    ReachableInv(steps);
    ReachableFiled(steps);
    var s := After(steps).value;
    assert RecordedEnd(s, s.ends[client]) && ServedEnd(s, s.ends[server]);
  }
}
