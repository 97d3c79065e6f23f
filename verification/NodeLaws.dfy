/** What holds over every run of a node's eBPF programs, of any length, in any interleaving, with
    pods coming and going. */
module NodeLaws {
  import opened Histories
  import opened Wrappers
  import opened Wire
  import opened Hooks
  import opened TcNat
  import opened NodeRun

  // -------------------------------------------------------------- keys of different pods

  /** In every reachable state a redirected connection shares its key with no connection of
      another namespace, in either direction: the source was bound to the pod's own address. */
  lemma RedirectedPodsAreDistinct(steps: seq<Step>, c: Conn, d: Conn)
    requires After(steps).Some? && c in After(steps).value.flows && d in After(steps).value.flows
    requires After(steps).value.flows[c].redirected && d.ns != c.ns
    ensures d.key != c.key && d.key != Reverse(c.key)
  {
    ReachableInv(steps);
    var s := After(steps).value;
    assert EntryOk(s.maps.natFib, c.key, s.flows[c]);
    if d.key == c.key {
      SharedKeyIsLoopback(c, d);
    } else if d.key == Reverse(c.key) {
      OppositeKeys(s, c, d);
    }
  }

  // --------------------------------------------------------------- original destination

  function Asked(f: Flow): Option<SockAddr> {
    Some(SockAddr(2, f.ip, f.port))
  }

  /** In every reachable state: the accepting end of a recorded connection is told exactly
      the address its client asked for, whichever program intercepted it; and no connection
      redirected by the connect hook is ever unrecorded. */
  lemma OriginalDstExact(steps: seq<Step>, c: Conn)
    requires After(steps).Some? && c in After(steps).value.flows
    ensures var s := After(steps).value;
            var f := s.flows[c];
            f.recorded || (f.redirected && !f.viaTc) ==> OriginalDst(s.maps, Reverse(c.key)) == Asked(f)
  {
    ReachableInv(steps);
    var s := After(steps).value;
    assert EntryOk(s.maps.natFib, c.key, s.flows[c]);
  }

  /** A reply that ends the connection filed under this key. */
  predicate FinAckOf(step: Step, k: Pair) {
    step.Egress? && EgressKey(step.g) == k && step.g.fin && step.g.ack
  }

  predicate Finished(steps: seq<Step>, from: int, k: Pair) {
    exists j :: 0 <= j < |steps| && from < j && FinAckOf(steps[j], k)
  }

  predicate StaysOpen(steps: seq<Step>, from: int, c: Conn) {
    forall j :: 0 <= j < |steps| && from < j ==> steps[j] != Close(c)
  }

  /** What an entry becomes while a connection of the connect side is open: it stays, unless it
      is a left-over of traffic control and a FIN+ACK reply goes by. */
  ghost predicate EntryFollows(before: map<Pair, Origin>, now: map<Pair, Origin>, k: Pair, fin: bool) {
    if k in before && !(TcOrigin(before[k]) && fin) then k in now && now[k] == before[k] else k !in now
  }

  /** The same flow, up to whether it is recorded. */
  predicate SameFlow(s: State, s': State, c: Conn) {
    c in s.flows && c in s'.flows && s'.flows[c] == s.flows[c].(recorded := s'.flows[c].recorded)
  }

  lemma FlowStays(s: State, step: Step, c: Conn)
    requires Enabled(s, step) && c in s.flows && step != Close(c)
    ensures SameFlow(s, Apply(s, step), c)
  {
  }

  lemma EntryStays(s: State, step: Step, c: Conn)
    requires Inv(s) && Enabled(s, step) && c in s.flows && !s.flows[c].viaTc
    ensures EntryFollows(s.maps.natFib, Apply(s, step).maps.natFib, c.key, FinAckOf(step, c.key))
  {
    EntriesAfter(s, step);
    if step.ActiveEstablished? && HandsOver(s.maps, step.o) {
      HandedOverKeyIsOwn(s, step.o, c);
    } else if step.Ingress? && OpensFlow(s.pods, step.g) && c.key == IngressKey(step.g) {
      SharedKeyOfTraffic(s, step.g, c);
    }
  }

  /** A segment never opens a flow on the key of a connection of the connect side. */
  lemma SharedKeyOfTraffic(s: State, g: Segment, c: Conn)
    requires Inv(s) && Enabled(s, Ingress(g)) && OpensFlow(s.pods, g) && c in s.flows && c.key == IngressKey(g)
    ensures s.flows[c].viaTc
  {
    if c != TcConn(g) {
      SharedKeyIsLoopback(c, TcConn(g));
    }
  }

  lemma FollowsOn(a: map<Pair, Origin>, b: map<Pair, Origin>, c: map<Pair, Origin>, k: Pair, f: bool, g: bool)
    requires EntryFollows(a, b, k, f) && EntryFollows(b, c, k, g)
    ensures EntryFollows(a, c, k, f || g)
  {
  }

  /** One more step. */
  lemma HistoryStep(before: State, s: State, step: Step, c: Conn, fin: bool)
    requires Inv(s) && Enabled(s, step) && step != Close(c) && SameFlow(before, s, c) && !s.flows[c].viaTc
    requires EntryFollows(before.maps.natFib, s.maps.natFib, c.key, fin)
    ensures SameFlow(before, Apply(s, step), c)
    ensures EntryFollows(before.maps.natFib, Apply(s, step).maps.natFib, c.key, fin || FinAckOf(step, c.key))
  {
    FlowStays(s, step, c);
    EntryStays(s, step, c);
    FollowsOn(before.maps.natFib, s.maps.natFib, Apply(s, step).maps.natFib, c.key, fin, FinAckOf(step, c.key));
  }

  predicate FinishedBy(steps: seq<Step>, from: int, n: int, k: Pair) {
    exists j :: 0 <= j < n <= |steps| && from < j && FinAckOf(steps[j], k)
  }

  lemma FinishedByNext(steps: seq<Step>, from: int, n: int, k: Pair)
    requires 0 <= from < n < |steps|
    ensures FinishedBy(steps, from, n + 1, k) <==> FinishedBy(steps, from, n, k) || FinAckOf(steps[n], k)
  {
  }

  /** A connection established at step `m` and open until moment `n`: its flow, and its entry. */
  lemma {:induction false} EntryHistory(t: seq<State>, steps: seq<Step>, m: int, c: Conn, n: int)
    requires Chain(t, steps) && 0 <= m < n <= |steps| && StaysOpen(steps, m, c)
    requires c in t[m + 1].flows && !t[m + 1].flows[c].viaTc
    ensures SameFlow(t[m + 1], t[n], c)
    ensures EntryFollows(t[m + 1].maps.natFib, t[n].maps.natFib, c.key, FinishedBy(steps, m, n, c.key))
    decreases n
  {
    if m + 1 < n {
      EntryHistory(t, steps, m, c, n - 1);
      assert Linked(t, steps, n - 1);
      FinishedByNext(steps, m, n - 1, c.key);
      HistoryStep(t[m + 1], t[n - 1], steps[n - 1], c, FinishedBy(steps, m, n - 1, c.key));
    }
  }

  /** The left-over entry that a connection established at step `m` meets, if it still matters. */
  ghost predicate LeftOver(steps: seq<Step>, m: int, k: Pair)
    requires After(steps).Some? && 0 <= m < |steps|
  {
    var natFib := At(steps, m).maps.natFib;
    k in natFib && !(TcOrigin(natFib[k]) && Finished(steps, m, k))
  }

  /** What establishing a connection does to its flow and its entry. */
  lemma Establishing(s: State, o: SockOps)
    requires Inv(s) && Enabled(s, ActiveEstablished(o))
    ensures var s', a := Apply(s, ActiveEstablished(o)), s.attempts[o.cookie];
            var c := ConnOf(a, o);
            && c in s'.flows && !s'.flows[c].viaTc && s'.flows[c].ip == a.call.ip && s'.flows[c].port == a.call.port
            && (if HandsOver(s.maps, o)
                then c.key in s'.maps.natFib && s'.maps.natFib[c.key].ip == a.call.ip &&
                  s'.maps.natFib[c.key].port == a.call.port
                     && !TcOrigin(s'.maps.natFib[c.key])
                else s'.maps.natFib == s.maps.natFib)
  {
    assert AttemptOk(s, o.cookie, s.attempts[o.cookie]);
  }

  /** Exactly what SO_ORIGINAL_DST answers, over every run, on a connection established at step
      `m` and still open: the address asked for if the hook handed a record over; otherwise
      what an earlier connection left behind, if it left something. So a wrong answer is given
      if and only if no record was handed over and the key holds another address or port. */
  lemma AnswerExact(steps: seq<Step>, m: int)
    requires After(steps).Some? && 0 <= m < |steps| && steps[m].ActiveEstablished?
    requires StaysOpen(steps, m, ConnOf(AttemptAt(steps, m), steps[m].o))
    ensures var s, o, a := At(steps, m), steps[m].o, AttemptAt(steps, m);
            var c := ConnOf(a, o);
            var answer := OriginalDst(After(steps).value.maps, Reverse(c.key));
            && c in After(steps).value.flows
            && var f := After(steps).value.flows[c];
            && f.ip == a.call.ip && f.port == a.call.port
            && answer == (if HandsOver(s.maps, o) then Asked(f)
                          else if LeftOver(steps, m, c.key) then OriginalDst(s.maps, Reverse(c.key)) else None)
            && (answer.Some? && answer != Asked(f) <==>
                && !HandsOver(s.maps, o)
                && LeftOver(steps, m, c.key)
                && (s.maps.natFib[c.key].ip != f.ip || s.maps.natFib[c.key].port != f.port))
  {
    var s, o := At(steps, m), steps[m].o;
    var c := ConnOf(AttemptAt(steps, m), o);
    TraceIsChain(steps);
    assert Linked(Trace(steps), steps, m);
    Establishing(s, o);
    EntryHistory(Trace(steps), steps, m, c, |steps|);
    assert Finished(steps, m, c.key) <==> FinishedBy(steps, m, |steps|, c.key);
  }

  const APP_CALL := Call(1, true, 10, 0, 0, 5, 7)
  const APP_SOCKET := SockOps(1, 10, 4000, LOCALHOST, Swap16(OUT_REDIRECT_PORT) * 0x1_0000)

  /** A run with one connection, redirected and closed again: its record is still there. */
  lemma ClosedRun() returns (steps: seq<Step>)
    ensures After(steps).Some?
    ensures var s := After(steps).value;
            && s.flows == map[] && s.ends == map[] && s.attempts == map[] && s.cookies == {1}
            && s.maps.ckiFib.Keys == {1} && s.maps.natFib == map[OwnKey(APP_SOCKET) := Origin(5, 0, 7, 1)]
  {
    steps := [];
    AfterSnoc(steps, Connect(10, APP_CALL));
    steps := steps + [Connect(10, APP_CALL)];
    AfterSnoc(steps, ActiveEstablished(APP_SOCKET));
    steps := steps + [ActiveEstablished(APP_SOCKET)];
    AfterSnoc(steps, Close(Conn(10, OwnKey(APP_SOCKET))));
    steps := steps + [Close(Conn(10, OwnKey(APP_SOCKET)))];
  }

  /** Entries outlive their connections: on a later connection of the pod to the listener itself
      that has the 4-tuple of a closed, redirected one, the server is told the old destination. */
  lemma StaleAnswer() returns (steps: seq<Step>, c: Conn)
    ensures After(steps).Some? && c in After(steps).value.flows
    ensures OriginalDst(After(steps).value.maps, Reverse(c.key)) == Some(SockAddr(2, 5, 7))
    ensures Asked(After(steps).value.flows[c]) == Some(SockAddr(2, LOCALHOST, Swap16(OUT_REDIRECT_PORT)))
  {
    var direct := Call(2, true, 10, 0, 0, LOCALHOST, Swap16(OUT_REDIRECT_PORT));
    var second := APP_SOCKET.(cookie := 2);
    c := Conn(10, OwnKey(second));
    steps := ClosedRun();
    AfterSnoc(steps, Connect(10, direct));
    steps := steps + [Connect(10, direct)];
    AfterSnoc(steps, ActiveEstablished(second));
    steps := steps + [ActiveEstablished(second)];
  }

  // ---------------------------------------------------------------------- port NAT

  ghost predicate Opening(s: State, step: Step, c: Conn) {
    step.Ingress? && TcConn(step.g) == c && OpensFlow(s.pods, step.g)
  }

  /** A connection that traffic control opened on a free key loses its record exactly with its
      own FIN+ACK reply, and gets it back exactly with another SYN. */
  lemma TrafficStep(s: State, step: Step, c: Conn)
    requires Inv(s) && Enabled(s, step) && c in s.flows && s.flows[c].viaTc && s.flows[c].clean && step != Close(c)
    ensures var s' := Apply(s, step);
            && SameFlow(s, s', c)
            && (s'.flows[c].recorded <==> Opening(s, step, c) || (s.flows[c].recorded && !FinAckOf(step, c.key)))
  {
    FlowStays(s, step, c);
    assert EntryOk(s.maps.natFib, c.key, s.flows[c]);
  }

  /** The moments at which a run opens the connection, and at which its FIN+ACK replies leave. */
  ghost function Openings(t: seq<State>, steps: seq<Step>, c: Conn): int -> bool {
    i => 0 <= i < |steps| < |t| && Opening(t[i], steps[i], c)
  }

  ghost function FinAcks(steps: seq<Step>, k: Pair): int -> bool {
    j => 0 <= j < |steps| && FinAckOf(steps[j], k)
  }

  /** Since `from`, the connection was opened and no FIN+ACK reply has left after that. */
  ghost predicate OpenSince(steps: seq<Step>, from: int, c: Conn)
    requires After(steps).Some?
  {
    Since(Openings(Trace(steps), steps, c), FinAcks(steps, c.key), from, |steps|)
  }

  /** `steps[m]` opens the connection `c`, on a key without an entry, and it is not closed. */
  ghost predicate OpenedIn(t: seq<State>, steps: seq<Step>, m: int, c: Conn) {
    && 0 <= m < |steps| < |t|
    && Opening(t[m], steps[m], c)
    && c !in t[m].flows && c.key !in t[m].maps.natFib
    && StaysOpen(steps, m, c)
  }

  ghost predicate OpenedCleanly(steps: seq<Step>, m: int, c: Conn)
    requires After(steps).Some?
  {
    OpenedIn(Trace(steps), steps, m, c)
  }

  /** A flow that traffic control opened on a free key for this port. */
  predicate CleanFlow(s: State, c: Conn, port: u16) {
    c in s.flows && s.flows[c].viaTc && s.flows[c].clean && s.flows[c].port == port
  }

  lemma OpeningStep(s: State, step: Step, c: Conn)
    requires Enabled(s, step) && Opening(s, step, c) && c !in s.flows && c.key !in s.maps.natFib
    ensures CleanFlow(Apply(s, step), c, step.g.dport) && Apply(s, step).flows[c].recorded
  {
  }

  lemma TrafficBegins(t: seq<State>, steps: seq<Step>, m: int, c: Conn)
    requires Chain(t, steps) && OpenedIn(t, steps, m, c)
    ensures CleanFlow(t[m + 1], c, steps[m].g.dport) && t[m + 1].flows[c].recorded
  {
    assert Linked(t, steps, m);
    OpeningStep(t[m], steps[m], c);
  }

  lemma TrafficNext(t: seq<State>, steps: seq<Step>, i: int, c: Conn, port: u16)
    requires Chain(t, steps) && 0 <= i < |steps| && steps[i] != Close(c) && CleanFlow(t[i], c, port)
    ensures CleanFlow(t[i + 1], c, port)
    ensures t[i + 1].flows[c].recorded <==>
            Opening(t[i], steps[i], c) || (t[i].flows[c].recorded && !FinAckOf(steps[i], c.key))
  {
    assert Linked(t, steps, i);
    TrafficStep(t[i], steps[i], c);
  }

  lemma {:induction false} TrafficHistory(t: seq<State>, steps: seq<Step>, m: int, c: Conn, n: int)
    requires Chain(t, steps) && OpenedIn(t, steps, m, c) && m < n <= |steps|
    ensures CleanFlow(t[n], c, steps[m].g.dport)
    ensures t[n].flows[c].recorded <==> Since(Openings(t, steps, c), FinAcks(steps, c.key), m, n)
    decreases n
  {
    SinceNext(Openings(t, steps, c), FinAcks(steps, c.key), m, n - 1);
    if m == n - 1 {
      TrafficBegins(t, steps, m, c);
    } else {
      TrafficHistory(t, steps, m, c, n - 1);
      TrafficNext(t, steps, n - 1, c, steps[m].g.dport);
    }
  }

  /** The round trip, over every run, for a connection that a SYN opened on a free key: at any
      later time segments are sent to the inbound listener, and replies leave under the port the
      client dialled, if and only if no FIN+ACK reply has left since its last SYN. */
  lemma TcRoundTrip(steps: seq<Step>, m: int, c: Conn, g: Segment, reply: Segment)
    requires After(steps).Some? && 0 <= m < |steps| && OpenedCleanly(steps, m, c)
    requires IngressKey(g) == c.key && !(g.syn && !g.ack)
    requires EgressKey(reply) == c.key
    ensures var s := After(steps).value;
            && (IngressRewrites(s.maps.natFib, s.pods, g) <==> OpenSince(steps, m, c))
            && (EgressRewrites(s.maps.natFib, reply) && EgressPort(s.maps.natFib, reply) == steps[m].g.dport <==>
                OpenSince(steps, m, c))
  {
    TraceIsChain(steps);
    TrafficHistory(Trace(steps), steps, m, c, |steps|);
    ReachableInv(steps);
    var s := After(steps).value;
    assert EntryOk(s.maps.natFib, c.key, s.flows[c]);
  }

  /** In particular everything up to and including the first FIN+ACK reply is rewritten. */
  lemma RewrittenUntilFinAck(steps: seq<Step>, m: int, c: Conn, g: Segment, reply: Segment)
    requires After(steps).Some? && 0 <= m < |steps| && OpenedCleanly(steps, m, c) && !Finished(steps, m, c.key)
    requires IngressKey(g) == c.key && !(g.syn && !g.ack)
    requires EgressKey(reply) == c.key
    ensures var s := After(steps).value;
            && IngressRewrites(s.maps.natFib, s.pods, g)
            && EgressRewrites(s.maps.natFib, reply) && EgressPort(s.maps.natFib, reply) == steps[m].g.dport
  {
    assert Openings(Trace(steps), steps, c)(m) && Quiet(FinAcks(steps, c.key), m, |steps|);
    TcRoundTrip(steps, m, c, g, reply);
  }

  /** Only a FIN+ACK reply of the connection itself ends its recording. */
  lemma OnlyFinAckForgets(s: State, step: Step, c: Conn)
    requires Inv(s) && Enabled(s, step) && c in s.flows && s.flows[c].recorded && step != Close(c)
    ensures c in Apply(s, step).flows
    ensures Apply(s, step).flows[c].recorded <==> !(s.flows[c].viaTc && FinAckOf(step, c.key))
  {
    assert EntryOk(s.maps.natFib, c.key, s.flows[c]);
  }

  /** Opening on a used key: the replies carry the dialled port if and only if the key was
      free or already held a traffic-control entry for that very port. */
  lemma OpeningAnswerExact(natFib: map<Pair, Origin>, pods: map<u32, PodConfig>, g: Segment, reply: Segment)
    requires OpensFlow(pods, g) && EgressKey(reply) == IngressKey(g)
    ensures EgressRewrites(IngressNat(natFib, pods, g), reply) &&
            EgressPort(IngressNat(natFib, pods, g), reply) == g.dport <==>
            (IngressKey(g) !in natFib || (TcOrigin(natFib[IngressKey(g)]) && natFib[IngressKey(g)].port == g.dport))
  {
    assert reply.sport == IN_PORT;
  }

  /** Entries written on the connect side never make traffic control rewrite anything. */
  lemma ConnectSideNeverRewritten(steps: seq<Step>, c: Conn, g: Segment, reply: Segment)
    requires After(steps).Some? && c in After(steps).value.flows
    requires After(steps).value.flows[c].recorded && !After(steps).value.flows[c].viaTc
    requires IngressKey(g) == c.key && !(g.syn && !g.ack)
    requires EgressKey(reply) == c.key
    ensures var s := After(steps).value;
            && !IngressRewrites(s.maps.natFib, s.pods, g)
            && !EgressRewrites(s.maps.natFib, reply)
            && Apply(s, Egress(reply)) == s && Apply(s, Ingress(g)) == s
  {
    ReachableInv(steps);
    var s := After(steps).value;
    assert EntryOk(s.maps.natFib, c.key, s.flows[c]);
  }

  /** The steps that write a traffic-control entry, and those that take it away. */
  ghost predicate Marks(s: State, step: Step, k: Pair) {
    step.Ingress? && IngressKey(step.g) == k && OpensFlow(s.pods, step.g) && k !in s.maps.natFib
  }

  ghost predicate Clears(s: State, step: Step, k: Pair) {
    FinAckOf(step, k) || (step.ActiveEstablished? && OwnKey(step.o) == k && HandsOver(s.maps, step.o))
  }

  ghost function Markings(t: seq<State>, steps: seq<Step>, k: Pair): int -> bool {
    i => 0 <= i < |steps| < |t| && Marks(t[i], steps[i], k)
  }

  ghost function Clearings(t: seq<State>, steps: seq<Step>, k: Pair): int -> bool {
    i => 0 <= i < |steps| < |t| && Clears(t[i], steps[i], k)
  }

  /** Some SYN wrote an entry of traffic control, and nothing has taken it away since. */
  ghost predicate Marked(steps: seq<Step>, k: Pair)
    requires After(steps).Some?
  {
    Since(Markings(Trace(steps), steps, k), Clearings(Trace(steps), steps, k), 0, |steps|)
  }

  lemma MarkStep(s: State, step: Step, k: Pair)
    requires Inv(s) && Enabled(s, step)
    ensures var now := Apply(s, step).maps.natFib;
            k in now && TcOrigin(now[k]) <==>
            Marks(s, step, k) || (k in s.maps.natFib && TcOrigin(s.maps.natFib[k]) && !Clears(s, step, k))
  {
    EntriesAfter(s, step);
  }

  lemma MarkNext(t: seq<State>, steps: seq<Step>, k: Pair, i: int)
    requires Chain(t, steps) && 0 <= i < |steps|
    ensures k in t[i + 1].maps.natFib && TcOrigin(t[i + 1].maps.natFib[k]) <==>
            || Marks(t[i], steps[i], k)
            || (k in t[i].maps.natFib && TcOrigin(t[i].maps.natFib[k]) && !Clears(t[i], steps[i], k))
  {
    assert Linked(t, steps, i);
    MarkStep(t[i], steps[i], k);
  }

  lemma {:induction false} MarkHistory(t: seq<State>, steps: seq<Step>, k: Pair, n: nat)
    requires Chain(t, steps) && n <= |steps|
    ensures k in t[n].maps.natFib && TcOrigin(t[n].maps.natFib[k]) <==>
            Since(Markings(t, steps, k), Clearings(t, steps, k), 0, n)
  {
    if n > 0 {
      MarkHistory(t, steps, k, n - 1);
      MarkNext(t, steps, k, n - 1);
      SinceNext(Markings(t, steps, k), Clearings(t, steps, k), 0, n - 1);
    }
  }

  /** Over every run a traffic-control entry is there if and only if some SYN wrote it and neither
      a FIN+ACK reply on the key nor a connection of the connect side has replaced it since. */
  lemma MarkedIff(steps: seq<Step>, k: Pair)
    requires After(steps).Some?
    ensures var natFib := After(steps).value.maps.natFib;
            k in natFib && TcOrigin(natFib[k]) <==> Marked(steps, k)
  {
    TraceIsChain(steps);
    MarkHistory(Trace(steps), steps, k, |steps|);
  }

  /** So exactly when a reply is rewritten, also one of a handshake on the connect side, for which
      nothing is recorded yet: if and only if an entry of traffic control is left on its key. */
  lemma ReplyRewrittenIff(steps: seq<Step>, reply: Segment)
    requires After(steps).Some?
    ensures var k := EgressKey(reply);
            EgressRewrites(After(steps).value.maps.natFib, reply) <==> Marked(steps, k)
  {
    ReachableInv(steps);
    MarkedIff(steps, EgressKey(reply));
  }

  // -------------------------------------------------------------------- socket map

  /** In every reachable state: a message is looked up under the reverse of its sender's key, and
      a socket found there is the other end of the very same connection if and only if the key
      is not on loopback at both ends or the two sockets are of one namespace. */
  lemma RedirectReachesPeer(steps: seq<Step>, c: int)
    requires After(steps).Some? && c in After(steps).value.ends
    ensures var s := After(steps).value;
            var e := s.ends[c];
            var other := Reverse(e.own);
            && Reverse(other) == e.own
            && (other in s.maps.sockFib ==>
                 && s.maps.sockFib[other] in s.ends
                 && var d := s.ends[s.maps.sockFib[other]];
                 && d.own == other
                 && (d.flow == e.flow <==> !Loopback(e.own) || d.ns == e.ns))
  {
    ReachableInv(steps);
    var s := After(steps).value;
    var e := s.ends[c];
    if Reverse(e.own) in s.maps.sockFib {
      var d := s.maps.sockFib[Reverse(e.own)];
      assert d in s.ends && Belongs(s, s.ends[d]);
      SameConnection(s, e, s.ends[d]);
    }
  }

  lemma SameConnection(s: State, e: End, d: End)
    requires Inv(s) && Belongs(s, e) && Belongs(s, d) && d.own == Reverse(e.own)
    ensures d.flow == e.flow <==> !Loopback(e.own) || d.ns == e.ns
  {
    var ce := if Conn(e.ns, e.own) in s.flows && s.flows[Conn(e.ns, e.own)].id == e.flow then Conn(e.ns, e.own)
      else Conn(e.ns, d.own);
    var cd := if Conn(d.ns, d.own) in s.flows && s.flows[Conn(d.ns, d.own)].id == d.flow then Conn(d.ns, d.own)
      else Conn(d.ns, e.own);
    assert s.flows[ce].id == e.flow && s.flows[cd].id == d.flow;
    if ce.key == cd.key && ce.ns != cd.ns {
      SharedKeyIsLoopback(ce, cd);
    } else if cd.key == Reverse(ce.key) && !Loopback(ce.key) {
      OppositeKeys(s, ce, cd);
    }
  }

  const SIDECAR_KEY := Swap16(OUT_REDIRECT_PORT) * 0x1_0000

  function Caller(cookie: int): Call {
    Call(cookie, false, 0, 0, 0, SIDECAR_IP, Swap16(OUT_REDIRECT_PORT))
  }

  function CallerSocket(cookie: int): SockOps {
    SockOps(cookie, LOCALHOST, 4000, SIDECAR_IP, SIDECAR_KEY)
  }

  /** Two connections inside two namespaces on one loopback key: the socket map holds the
      client's end of the first and the server's end of the second. */
  lemma LoopbackKeysCollide() returns (steps: seq<Step>)
    ensures After(steps).Some? && 1 in After(steps).value.ends && 3 in After(steps).value.ends
    ensures var s := After(steps).value;
            && Reverse(s.ends[1].own) in s.maps.sockFib && s.maps.sockFib[Reverse(s.ends[1].own)] == 3
            && s.ends[3].flow != s.ends[1].flow
  {
    var server := SockOps(3, SIDECAR_IP, OUT_REDIRECT_PORT, LOCALHOST, Swap16(4000) * 0x1_0000);
    assert OwnKey(server) == Reverse(OwnKey(CallerSocket(2)));
    steps := TwoLoopbackCallers();
    AfterSnoc(steps, PassiveEstablished(11, server));
    steps := steps + [PassiveEstablished(11, server)];
  }

  /** The state with the first connection alone. */
  ghost predicate OneCaller(s: State) {
    var k := OwnKey(CallerSocket(1));
    && s.cookies == {1} && s.attempts == map[] && s.maps.ckiFib == map[] && s.maps.sockFib == map[k := 1]
    && s.ends == map[1 := End(k, 10, 0)] && s.flows.Keys == {Conn(10, k)} && s.flows[Conn(10, k)].id == 0 &&
         s.nextId == 1
  }

  /** A second namespace connects on the same key. */
  lemma SecondCaller(s: State)
    requires OneCaller(s)
    ensures Enabled(s, Connect(11, Caller(2)))
    ensures var t, k := Apply(s, Connect(11, Caller(2))), OwnKey(CallerSocket(1));
            && t == s.(cookies := {1, 2}, attempts := map[2 := Attempt(11, Caller(2), Untouched(Caller(2)))])
            && Enabled(t, ActiveEstablished(CallerSocket(2)))
  {
  }

  lemma TwoLoopbackCallers() returns (steps: seq<Step>)
    ensures After(steps).Some?
    ensures var s, k := After(steps).value, OwnKey(CallerSocket(1));
            && s.cookies == {1, 2} && s.maps.ckiFib == map[] && s.maps.sockFib == map[k := 1]
            && s.ends == map[1 := End(k, 10, 0), 2 := End(k, 11, 1)]
            && Conn(11, k) in s.flows && s.flows[Conn(11, k)].id == 1
  {
    steps := OneLoopbackCaller();
    SecondCaller(After(steps).value);
    AfterSnoc(steps, Connect(11, Caller(2)));
    steps := steps + [Connect(11, Caller(2))];
    AfterSnoc(steps, ActiveEstablished(CallerSocket(2)));
    steps := steps + [ActiveEstablished(CallerSocket(2))];
  }

  lemma OneLoopbackCaller() returns (steps: seq<Step>)
    ensures After(steps).Some? && OneCaller(After(steps).value)
  {
    steps := [];
    AfterSnoc(steps, Connect(10, Caller(1)));
    steps := steps + [Connect(10, Caller(1))];
    AfterSnoc(steps, ActiveEstablished(CallerSocket(1)));
    steps := steps + [ActiveEstablished(CallerSocket(1))];
  }
}
