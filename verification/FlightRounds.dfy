/** What the callers of a singleflight group are told, over every interleaving, measured against the
    one operation all of them asked for: the manager's issuing round. */
module FlightRounds {
  import opened Wrappers
  import opened Certificates
  import opened Flights
  import Manager

  /** What a leader could see when it ran one of its statements. */
  datatype Moment = Moment(cached: Option<Certificate>, signing: Issuer, validating: Issuer, now: int, noise: Noise,
                           answer: Result<int>, validity: int)

  /** The log of a flight: who led it, the moments of its statements, and what it announced. */
  datatype Log = Log(leader: Leader, moments: seq<Moment>, news: seq<(Certificate, Certificate)>)

  type Logs = map<nat, Log>

  function MomentOf(s: State, step: Step): Moment
    requires step.Run?
  {
    Moment(s.cached, s.signing, s.validating, step.now, step.noise, step.answer, step.validity)
  }

  function Announcement(f: Flight): seq<(Certificate, Certificate)> {
    if f.pc.Publish? then [(f.pc.replaced, f.pc.issued)] else []
  }

  function LogAfter(l: Log, s: State, step: Step): Log
    requires step.Run? && Enabled(s, step)
  {
    l.(moments := l.moments + [MomentOf(s, step)], news := l.news + Announcement(s.flight.value))
  }

  /** Every statement is logged, whichever it is. */
  function Noted(logs: Logs, s: State, step: Step): Logs
    requires Enabled(s, step)
  {
    if step.Enter? && s.flight.None? then logs[s.nextId := Log(step.leader, [], [])]
    else if step.Run? && s.flight.value.id in logs then
      logs[s.flight.value.id := LogAfter(logs[s.flight.value.id], s, step)]
    else logs
  }

  function LogsOf(prefix: string, signing: Issuer, validating: Issuer, steps: seq<Step>): Logs
    requires After(prefix, signing, validating, steps).Some?
  {
    if steps == [] then map[]
    else
      var n := |steps| - 1;
      Noted(LogsOf(prefix, signing, validating, steps[..n]), After(prefix, signing, validating, steps[..n]).value,
            steps[n])
  }

  // ------------------------------------------------------------- a round in moments

  /** The cache as far as this prefix goes. */
  function CacheOf(prefix: string, cached: Option<Certificate>): Manager.Cache {
    if cached.Some? then map[prefix := cached.value] else map[]
  }

  function CallAt(prefix: string, l: Leader, m: Moment): Manager.Call
    requires l.Issuing?
  {
    Manager.Call(prefix, l.ct, l.opts, m.now, m.noise, m.answer, m.validity)
  }

  /** The statements up to the one that reads the issuers. */
  function ReadAt(loaded: Option<Certificate>): nat {
    if loaded.Some? then 2 else 1
  }

  predicate Due(c: Certificate, m: Moment) {
    ShouldRotate(c, m.signing, m.validating, m.now, m.noise)
  }

  /** The round goes on after its first statements: nothing was cached, or what was is due. */
  predicate GoesOn(ms: seq<Moment>) {
    ms != [] && |ms| >= ReadAt(ms[0].cached) && (ms[0].cached.Some? ==> Due(ms[0].cached.value, ms[1]))
  }

  /** It has come back from the issuer. */
  predicate Asked(ms: seq<Moment>) {
    GoesOn(ms) && |ms| >= ReadAt(ms[0].cached) + 2
  }

  /** The manager's product from what was loaded, from the issuers read and from the issuer's answer. */
  predicate Issued(prefix: string, l: Leader, ms: seq<Moment>, c: Certificate) {
    && l.Issuing? && Asked(ms)
    && var k := ReadAt(ms[0].cached);
    && ms[k + 1].answer.Success?
    && c == Manager.Product(CacheOf(prefix, ms[0].cached), ms[k].signing, ms[k].validating,
                            CallAt(prefix, l, ms[k + 1]), ms[k + 1].answer.value)
  }

  predicate Failed(ms: seq<Moment>, e: string) {
    Asked(ms) && ms[ReadAt(ms[0].cached) + 1].answer == Failure(e)
  }

  /** What was loaded is not due. */
  predicate Kept(ms: seq<Moment>, c: Certificate) {
    |ms| == 2 && ms[0].cached == Some(c) && !Due(c, ms[1])
  }

  /** What is announced when this certificate was issued. */
  function NewsOf(ms: seq<Moment>, c: Certificate): seq<(Certificate, Certificate)>
    requires ms != []
  {
    if ms[0].cached.Some? then [(ms[0].cached.value, c)] else []
  }

  /** The reply that follows from a log. */
  predicate Follows(prefix: string, l: Log, reply: Reply) {
    if l.leader.LookingUp? then |l.moments| == 1 && reply == Cert(l.moments[0].cached) && l.news == []
    else
      match reply
      case Cert(Some(c)) =>
        || (Kept(l.moments, c) && l.news == [])
        || (Issued(prefix, l.leader, l.moments, c) && l.news == NewsOf(l.moments, c))
      case Cert(None) => false
      case Error(e) => Failed(l.moments, e) && l.news == []
  }

  /** What the leader holds at each statement follows from the log so far. */
  predicate Traced(prefix: string, pc: Pc, l: Log) {
    var ms := l.moments;
    match pc
    case Load => ms == [] && l.news == []
    case Check(c) => l.leader.Issuing? && |ms| == 1 && ms[0].cached == Some(c) && l.news == []
    case ReadIssuers(prior) =>
      l.leader.Issuing? && GoesOn(ms) && ms[0].cached == prior && |ms| == ReadAt(prior) && l.news == []
    case CallIssuer(prior, signing, validating) =>
      && l.leader.Issuing? && GoesOn(ms) && ms[0].cached == prior && |ms| == ReadAt(prior) + 1 && l.news == []
      && signing == ms[|ms| - 1].signing && validating == ms[|ms| - 1].validating
    case Store(c, prior) => Issued(prefix, l.leader, ms, c) && ms[0].cached == prior && l.news == []
    case Publish(c, was) => Issued(prefix, l.leader, ms, c) && ms[0].cached == Some(was) && l.news == []
    case Return(reply) => Follows(prefix, l, reply)
  }

  ghost predicate Told(prefix: string, s: State, logs: Logs) {
    && (forall a :: a in s.got ==> s.got[a].flight in logs && Follows(prefix, logs[s.got[a].flight], s.got[a].reply))
    && (s.flight.Some? ==>
         && s.flight.value.id in logs && logs[s.flight.value.id].leader == s.flight.value.leader
         && Traced(prefix, s.flight.value.pc, logs[s.flight.value.id]))
  }

  lemma FirstStatementsTraced(prefix: string, s: State, step: Step, l: Log)
    requires step.Run? && Enabled(s, step) && l.leader == s.flight.value.leader
    requires Traced(prefix, s.flight.value.pc, l)
    requires s.flight.value.pc.Load? || s.flight.value.pc.Check? || s.flight.value.pc.ReadIssuers?
    ensures Traced(prefix, Ran(s, prefix, step).flight.value.pc, LogAfter(l, s, step))
  {
  }

  lemma IssuerCallTraced(prefix: string, s: State, step: Step, l: Log)
    requires step.Run? && Enabled(s, step) && l.leader == s.flight.value.leader
    requires Traced(prefix, s.flight.value.pc, l) && s.flight.value.pc.CallIssuer?
    ensures Traced(prefix, Ran(s, prefix, step).flight.value.pc, LogAfter(l, s, step))
  {
    var ms, k := LogAfter(l, s, step).moments, ReadAt(s.flight.value.pc.prior);
    assert ms[k + 1] == MomentOf(s, step) && ms[k] == l.moments[k] && ms[0] == l.moments[0];
    assert Asked(ms);
  }

  lemma LastStatementsTraced(prefix: string, s: State, step: Step, l: Log)
    requires step.Run? && Enabled(s, step) && l.leader == s.flight.value.leader
    requires Traced(prefix, s.flight.value.pc, l) && (s.flight.value.pc.Store? || s.flight.value.pc.Publish?)
    ensures Traced(prefix, Ran(s, prefix, step).flight.value.pc, LogAfter(l, s, step))
  {
    var ms, k := LogAfter(l, s, step).moments, ReadAt(l.moments[0].cached);
    assert ms[k + 1] == l.moments[k + 1] && ms[k] == l.moments[k] && ms[0] == l.moments[0] && ms[1] == l.moments[1];
    assert Issued(prefix, l.leader, ms, s.flight.value.pc.issued);
  }

  lemma RunIsTraced(prefix: string, s: State, step: Step, l: Log)
    requires step.Run? && Enabled(s, step) && l.leader == s.flight.value.leader
    requires Traced(prefix, s.flight.value.pc, l)
    ensures Traced(prefix, Ran(s, prefix, step).flight.value.pc, LogAfter(l, s, step))
  {
    match s.flight.value.pc {
      case CallIssuer(_, _, _) => IssuerCallTraced(prefix, s, step, l);
      case Store(_, _) => LastStatementsTraced(prefix, s, step, l);
      case Publish(_, _) => LastStatementsTraced(prefix, s, step, l);
      case _ => FirstStatementsTraced(prefix, s, step, l);
    }
  }

  lemma StepIsTold(prefix: string, s: State, step: Step, logs: Logs)
    requires Inv(s) && Enabled(s, step) && Told(prefix, s, logs)
    ensures Told(prefix, Apply(s, prefix, step), Noted(logs, s, step))
  {
    if step.Run? {
      RunKeepsFlight(s, prefix, step);
      RunIsTraced(prefix, s, step, logs[s.flight.value.id]);
    }
  }

  lemma {:induction false} AlwaysTold(prefix: string, signing: Issuer, validating: Issuer, steps: seq<Step>)
    requires After(prefix, signing, validating, steps).Some?
    ensures Told(prefix, After(prefix, signing, validating, steps).value, LogsOf(prefix, signing, validating, steps))
  {
    if steps != [] {
      var n := |steps| - 1;
      AlwaysTold(prefix, signing, validating, steps[..n]);
      ReachableInv(prefix, signing, validating, steps[..n]);
      StepIsTold(prefix, After(prefix, signing, validating, steps[..n]).value, steps[n],
                 LogsOf(prefix, signing, validating, steps[..n]));
    }
  }

  /** Over every interleaving, what every caller is told follows from what its flight's leader loaded
      and read: a lookup is told what was cached; an issuing call is told the cached certificate
      if that was not due, and otherwise the issuer's error or the manager's own product of the
      certificate loaded, the issuers read and the issuer's answer. Exactly a product that
      replaces a certificate is announced, once. */
  lemma RepliesFollow(prefix: string, signing: Issuer, validating: Issuer, steps: seq<Step>, caller: int)
    requires After(prefix, signing, validating, steps).Some?
    requires caller in After(prefix, signing, validating, steps).value.got
    ensures var s, logs := After(prefix, signing, validating, steps).value, LogsOf(prefix, signing, validating, steps);
            s.got[caller].flight in logs && Follows(prefix, logs[s.got[caller].flight], s.got[caller].reply)
  {
    AlwaysTold(prefix, signing, validating, steps);
  }

  /** And every certificate about to be stored is such a product. */
  lemma StoredIsProduct(prefix: string, signing: Issuer, validating: Issuer, steps: seq<Step>)
    requires After(prefix, signing, validating, steps).Some?
    requires After(prefix, signing, validating, steps).value.flight.Some?
    requires After(prefix, signing, validating, steps).value.flight.value.pc.Store?
    ensures var f, logs := After(prefix, signing, validating, steps).value.flight.value,
                           LogsOf(prefix, signing, validating, steps);
            f.id in logs && Issued(prefix, f.leader, logs[f.id].moments, f.pc.issued)
  {
    AlwaysTold(prefix, signing, validating, steps);
  }

  // ---------------------------------------------------------------- without interference

  /** Nothing but the cache changed from statement to statement. */
  predicate Steady(ms: seq<Moment>) {
    forall i :: 0 <= i < |ms| ==> ms[i] == ms[0].(cached := ms[i].cached)
  }

  function ReplyOf(r: Result<Certificate>): Reply {
    match r
    case Success(c) => Cert(Some(c))
    case Failure(e) => Error(e)
  }

  /** The manager's issuing round on what the flight found at its first statement. */
  function RoundOf(prefix: string, l: Log): Manager.Outcome
    requires l.leader.Issuing? && l.moments != []
  {
    var m := l.moments[0];
    Manager.Issue(CacheOf(prefix, m.cached), m.signing, m.validating, CallAt(prefix, l.leader, m))
  }

  /** Then a flight is one issuing round of the manager: the same reply and the same announcement. */
  lemma SteadyFlightIsIssue(prefix: string, l: Log, reply: Reply)
    requires l.leader.Issuing? && Follows(prefix, l, reply) && Steady(l.moments)
    ensures l.moments != [] && reply == ReplyOf(RoundOf(prefix, l).result)
    ensures l.news == if RoundOf(prefix, l).rotated.Some? then [RoundOf(prefix, l).rotated.value] else []
  {
    var ms := l.moments;
    assert ms != [];
    if ms[0].cached.Some? {
      assert ms[1] == ms[0].(cached := ms[1].cached);
    }
    if Asked(ms) {
      var k := ReadAt(ms[0].cached);
      assert ms[k] == ms[0].(cached := ms[k].cached) && ms[k + 1] == ms[0].(cached := ms[k + 1].cached);
    }
  }

  /** What is cached follows the log too, unless the certificate is released meanwhile. */
  predicate Mirrored(s: State, f: Flight, ms: seq<Moment>) {
    !f.released && ms != [] ==>
      match f.pc
      case Publish(c, _) => s.cached == Some(c)
      case Return(Cert(Some(c))) => f.leader.Issuing? ==> s.cached == Some(c)
      case _ => s.cached == ms[0].cached
  }

  ghost predicate CacheTold(s: State, logs: Logs) {
    s.flight.Some? && s.flight.value.id in logs ==> Mirrored(s, s.flight.value, logs[s.flight.value.id].moments)
  }

  lemma StepMirrors(prefix: string, s: State, step: Step, logs: Logs)
    requires Inv(s) && Enabled(s, step) && Told(prefix, s, logs) && CacheTold(s, logs)
    ensures CacheTold(Apply(s, prefix, step), Noted(logs, s, step))
  {
    if step.Run? {
      RunKeepsFlight(s, prefix, step);
    }
  }

  lemma {:induction false} AlwaysMirrored(prefix: string, signing: Issuer, validating: Issuer, steps: seq<Step>)
    requires After(prefix, signing, validating, steps).Some?
    ensures CacheTold(After(prefix, signing, validating, steps).value, LogsOf(prefix, signing, validating, steps))
  {
    if steps != [] {
      var n := |steps| - 1;
      AlwaysMirrored(prefix, signing, validating, steps[..n]);
      AlwaysTold(prefix, signing, validating, steps[..n]);
      ReachableInv(prefix, signing, validating, steps[..n]);
      StepMirrors(prefix, After(prefix, signing, validating, steps[..n]).value, steps[n],
                  LogsOf(prefix, signing, validating, steps[..n]));
    }
  }

  /** A flight that nothing interfered with is one call of the manager's Issue, whatever callers
      joined it: at its end reply, announcement and cache are those of the call. */
  lemma FlightIsIssue(prefix: string, signing: Issuer, validating: Issuer, steps: seq<Step>)
    requires After(prefix, signing, validating, steps).Some?
    requires var s := After(prefix, signing, validating, steps).value;
             s.flight.Some? && s.flight.value.pc.Return? && s.flight.value.leader.Issuing? && !s.flight.value.released
    requires var f, logs := After(prefix, signing, validating, steps).value.flight.value,
                            LogsOf(prefix, signing, validating, steps);
             f.id in logs && Steady(logs[f.id].moments)
    ensures var s, logs := After(prefix, signing, validating, steps).value, LogsOf(prefix, signing, validating, steps);
            var l := logs[s.flight.value.id];
            && l.leader == s.flight.value.leader && l.moments != []
            && var o := RoundOf(prefix, l);
            && s.flight.value.pc.reply == ReplyOf(o.result)
            && CacheOf(prefix, s.cached) == o.cache
            && l.news == if o.rotated.Some? then [o.rotated.value] else []
  {
    AlwaysTold(prefix, signing, validating, steps);
    AlwaysMirrored(prefix, signing, validating, steps);
    var s, logs := After(prefix, signing, validating, steps).value, LogsOf(prefix, signing, validating, steps);
    var l := logs[s.flight.value.id];
    SteadyFlightIsIssue(prefix, l, s.flight.value.pc.reply);
    var o := RoundOf(prefix, l);
    CacheOfRound(prefix, l);
  }

  lemma CacheOfRound(prefix: string, l: Log)
    requires l.leader.Issuing? && l.moments != []
    ensures var o := RoundOf(prefix, l);
            o.cache == CacheOf(prefix, if o.result.Success? then Some(o.result.value) else l.moments[0].cached)
  {
  }
}
