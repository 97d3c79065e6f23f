/** Concurrent calls for one certificate: the singleflight group runs one function at a time per
    prefix and gives its result to everybody who called meanwhile. Releases and issuer changes
    may come between any two statements of that function. */
module Flights {
  import opened Wrappers
  import opened Certificates

  /** What the leading call runs: issueCertificate with its arguments, or the cache lookup of
      GetCertificate, which shares the group. */
  datatype Leader = Issuing(ct: CertType, opts: Options) | LookingUp

  datatype Reply = Cert(c: Option<Certificate>) | Error(e: string)

  /** Where the leader is, with the values it holds there. */
  datatype Pc =
    | Load
    | Check(cached: Certificate)
    | ReadIssuers(prior: Option<Certificate>)
    | CallIssuer(prior: Option<Certificate>, signing: Issuer, validating: Issuer)
    | Store(issued: Certificate, prior: Option<Certificate>)
    | Publish(issued: Certificate, replaced: Certificate)
    | Return(reply: Reply)

  /** A flight under way. `issuerCalls` counts; `released` and `moved` say whether a release or an
      issuer change has happened since it started. */
  datatype Flight = Flight(id: nat, leader: Leader, callers: map<int, Leader>, pc: Pc, issuerCalls: nat, released: bool,
                           moved: bool)

  /** What a caller called, and what the flight it joined replied. */
  datatype Got = Got(call: Leader, flight: nat, reply: Reply)

  /** What the caller hands on: GetCertificate drops the error. */
  function Returned(g: Got): Reply {
    if g.call.LookingUp? && g.reply.Error? then Cert(None) else g.reply
  }

  datatype State = State(
    cached: Option<Certificate>,
    signing: Issuer,
    validating: Issuer,
    flight: Option<Flight>,
    nextId: nat,
    got: map<int, Got>)

  datatype Step =
    | Enter(caller: int, leader: Leader)
    | Run(now: int, noise: Noise, answer: Result<int>, validity: int)
    | Finish
    | Release
    | ChangeIssuers(signing: Issuer, validating: Issuer)

  predicate Enabled(s: State, step: Step) {
    match step
    case Enter(caller, _) => caller !in s.got && (s.flight.Some? ==> caller !in s.flight.value.callers)
    case Run(_, _, _, _) => s.flight.Some? && !s.flight.value.pc.Return?
    case Finish => s.flight.Some? && s.flight.value.pc.Return?
    case Release => true
    case ChangeIssuers(_, _) => true
  }

  function Period(l: Leader, validity: int): int {
    if l.Issuing? && l.opts.validityDuration.Some? then l.opts.validityDuration.value else validity
  }

  /** One statement of the leading call. */
  function Ran(s: State, prefix: string, step: Step): State
    requires step.Run? && Enabled(s, step)
  {
    var f := s.flight.value;
    match f.pc
    case Load =>
      s.(flight := Some(f.(pc := if f.leader.LookingUp? then Return(Cert(s.cached))
                                 else if s.cached.Some? then Check(s.cached.value) else ReadIssuers(None))))
    case Check(c) =>
      s.(flight := Some(f.(pc := if ShouldRotate(c, s.signing, s.validating, step.now, step.noise)
                           then ReadIssuers(Some(c)) else Return(Cert(Some(c))))))
    case ReadIssuers(prior) => s.(flight := Some(f.(pc := CallIssuer(prior, s.signing, s.validating))))
    case CallIssuer(prior, signing, validating) =>
      var f' := f.(issuerCalls := f.issuerCalls + 1);
      if step.answer.Failure? then s.(flight := Some(f'.(pc := Return(Error(step.answer.error)))))
      else
        var full, ct := f.leader.Issuing? && f.leader.opts.fullCNProvided, if f.leader.Issuing? then f.leader.ct
          else Internal;
        var sans := if prior.Some? then Normalized(prior.value.saNames)
          else if f.leader.Issuing? then f.leader.opts.saNames else [];
        s.(flight := Some(f'.(pc := Store(NewCertificate(signing, validating, prefix, full, ct, sans, step.answer.value,
                                                         step.now + Period(f.leader, step.validity)), prior))))
    case Store(issued, prior) =>
      s.(cached := Some(issued),
         flight := Some(f.(pc := if prior.Some? then Publish(issued, prior.value) else Return(Cert(Some(issued))))))
    case Publish(issued, _) => s.(flight := Some(f.(pc := Return(Cert(Some(issued))))))
  }

  function Apply(s: State, prefix: string, step: Step): State
    requires Enabled(s, step)
  {
    match step
    case Enter(caller, leader) =>
      if s.flight.Some? then s.(flight := Some(s.flight.value.(callers := s.flight.value.callers[caller := leader])))
      else s.(flight := Some(Flight(s.nextId, leader, map[caller := leader], Load, 0, false, false)),
              nextId := s.nextId + 1)
    case Run(_, _, _, _) => Ran(s, prefix, step)
    case Finish =>
      var f := s.flight.value;
      s.(flight := None, got := s.got + map c | c in f.callers :: Got(f.callers[c], f.id, f.pc.reply))
    case Release =>
      s.(cached := None, flight := if s.flight.Some? then Some(s.flight.value.(released := true)) else None)
    case ChangeIssuers(signing, validating) =>
      s.(signing := signing, validating := validating,
      flight := if s.flight.Some? then Some(s.flight.value.(moved := true)) else None)
  }

  /** The state after a run that starts with given issuers and an empty cache. */
  function After(prefix: string, signing: Issuer, validating: Issuer, steps: seq<Step>): Option<State> {
    if steps == [] then Some(State(None, signing, validating, None, 0, map[]))
    else
      var s := After(prefix, signing, validating, steps[..|steps| - 1]);
      if s.Some? && Enabled(s.value, steps[|steps| - 1]) then Some(Apply(s.value, prefix, steps[|steps| - 1])) else None
  }

  // ------------------------------------------------------------------ invariant

  predicate Stamped(c: Certificate, signing: Issuer, validating: Issuer) {
    c.signingIssuerID == signing.id && c.validatingIssuerID == validating.id
  }

  predicate CallsOk(f: Flight) {
    match f.pc
    case Store(_, _) => f.issuerCalls == 1
    case Publish(_, _) => f.issuerCalls == 1
    case Return(_) => f.issuerCalls <= 1
    case _ => f.issuerCalls == 0
  }

  /** What the leader's values say about the manager, as long as nothing interfered. */
  predicate ValuesOk(s: State, f: Flight) {
    match f.pc
    case Check(c) => f.leader.Issuing? && (!f.released ==> s.cached == Some(c))
    case ReadIssuers(_) => f.leader.Issuing?
    case CallIssuer(_, signing, validating) => f.leader.Issuing? &&
      (!f.moved ==> signing == s.signing && validating == s.validating)
    case Store(c, _) => f.leader.Issuing? && (!f.moved ==> Stamped(c, s.signing, s.validating))
    case Publish(c, _) => f.leader.Issuing? && ResultOk(s, f, c)
    case Return(Cert(Some(c))) => f.leader.Issuing? ==> ResultOk(s, f, c)
    case Return(Cert(None)) => f.leader.LookingUp?
    case _ => true
  }

  predicate ResultOk(s: State, f: Flight, c: Certificate) {
    && (!f.released ==> s.cached == Some(c))
    && (!f.moved ==> Stamped(c, s.signing, s.validating))
  }

  predicate GotOk(s: State) {
    && (forall a :: a in s.got ==> s.got[a].flight < s.nextId)
    && (s.flight.Some? ==> s.flight.value.id < s.nextId && forall a :: a in s.got ==>
        s.got[a].flight != s.flight.value.id)
    && (forall a, b :: a in s.got && b in s.got && s.got[a].flight == s.got[b].flight ==>
        s.got[a].reply == s.got[b].reply)
  }

  predicate Inv(s: State) {
    GotOk(s) && (s.flight.Some? ==> CallsOk(s.flight.value) && ValuesOk(s, s.flight.value))
  }

  lemma RunKeepsFlight(s: State, prefix: string, step: Step)
    requires step.Run? && Enabled(s, step) && CallsOk(s.flight.value) && ValuesOk(s, s.flight.value)
    ensures var s' := Ran(s, prefix, step);
            && s'.flight.Some? && CallsOk(s'.flight.value) && ValuesOk(s', s'.flight.value)
            && s'.flight.value.id == s.flight.value.id && s'.got == s.got && s'.nextId == s.nextId
  {
    match s.flight.value.pc {
      case Load =>
      case Check(_) =>
      case ReadIssuers(_) =>
      case CallIssuer(_, _, _) =>
      case Store(_, _) =>
      case Publish(_, _) =>
    }
  }

  lemma FinishKeepsGot(s: State, prefix: string)
    requires Inv(s) && Enabled(s, Finish)
    ensures GotOk(Apply(s, prefix, Finish))
  {
    var s', f := Apply(s, prefix, Finish), s.flight.value;
    assert forall a :: a in s'.got ==>
      (s'.got[a].flight == f.id && s'.got[a].reply == f.pc.reply) || (a in s.got && s'.got[a] == s.got[a]);
  }

  lemma StepKeepsInv(s: State, prefix: string, step: Step)
    requires Inv(s) && Enabled(s, step)
    ensures Inv(Apply(s, prefix, step))
  {
    match step {
      case Run(_, _, _, _) => RunKeepsFlight(s, prefix, step);
      case Finish => FinishKeepsGot(s, prefix);
      case _ => assert Apply(s, prefix, step).got == s.got;
    }
  }

  lemma {:induction false} ReachableInv(prefix: string, signing: Issuer, validating: Issuer, steps: seq<Step>)
    requires After(prefix, signing, validating, steps).Some?
    ensures Inv(After(prefix, signing, validating, steps).value)
  {
    if steps != [] {
      ReachableInv(prefix, signing, validating, steps[..|steps| - 1]);
      StepKeepsInv(After(prefix, signing, validating, steps[..|steps| - 1]).value, prefix, steps[|steps| - 1]);
    }
  }

  /** Over every interleaving: no flight calls the issuer twice; all callers of a flight get the
      same result. When a flight led by IssueCertificate ends with a certificate, that is what
      the cache holds unless it was released meanwhile, and its issuers are the manager's
      unless they changed meanwhile. */
  lemma FlightsAreSound(prefix: string, signing: Issuer, validating: Issuer, steps: seq<Step>)
    requires After(prefix, signing, validating, steps).Some?
    ensures var s := After(prefix, signing, validating, steps).value;
            && (s.flight.Some? ==> s.flight.value.issuerCalls <= 1)
            && (forall a, b :: a in s.got && b in s.got && s.got[a].flight == s.got[b].flight ==>
                s.got[a].reply == s.got[b].reply)
            && (s.flight.Some? && s.flight.value.pc.Return? && s.flight.value.leader.Issuing? &&
                s.flight.value.pc.reply.Cert? ==>
                 && s.flight.value.pc.reply.c.Some?
                 && (!s.flight.value.released ==> s.cached == s.flight.value.pc.reply.c)
                 && (!s.flight.value.moved ==> Stamped(s.flight.value.pc.reply.c.value, s.signing, s.validating)))
  {
    ReachableInv(prefix, signing, validating, steps);
  }

  // ------------------------------------------------------------- neither one nor the other

  /** The flight, if any, whose lookup meets an empty cache at this step. */
  function EmptyLookup(s: State, step: Step): set<nat> {
    if step.Run? && s.flight.Some? && s.flight.value.leader.LookingUp? && s.flight.value.pc.Load? && s.cached == None
    then {s.flight.value.id} else {}
  }

  /** The flight, if any, whose issuer fails at this step. */
  function FailedIssue(s: State, step: Step): set<nat> {
    if step.Run? && s.flight.Some? && s.flight.value.pc.CallIssuer? && step.answer.Failure?
    then {s.flight.value.id} else {}
  }

  /** All flights of a run whose lookup met an empty cache. */
  function EmptyLookups(prefix: string, signing: Issuer, validating: Issuer, steps: seq<Step>): set<nat>
    requires After(prefix, signing, validating, steps).Some?
  {
    if steps == [] then {}
    else
      var n := |steps| - 1;
      EmptyLookups(prefix, signing, validating, steps[..n])
      + EmptyLookup(After(prefix, signing, validating, steps[..n]).value, steps[n])
  }

  /** All flights of a run whose issuer failed. */
  function FailedIssues(prefix: string, signing: Issuer, validating: Issuer, steps: seq<Step>): set<nat>
    requires After(prefix, signing, validating, steps).Some?
  {
    if steps == [] then {}
    else
      var n := |steps| - 1;
      FailedIssues(prefix, signing, validating, steps[..n])
      + FailedIssue(After(prefix, signing, validating, steps[..n]).value, steps[n])
  }

  /** The empty replies and the errors, given and about to be given, are those of these flights. */
  predicate RepliesAre(s: State, empty: set<nat>, failed: set<nat>) {
    && (forall id :: id in empty ==> id < s.nextId) && (forall id :: id in failed ==> id < s.nextId)
    && (forall a :: a in s.got ==>
         && (s.got[a].reply == Cert(None) <==> s.got[a].flight in empty)
         && (s.got[a].reply.Error? <==> s.got[a].flight in failed))
    && (s.flight.Some? ==>
         && (s.flight.value.pc == Return(Cert(None)) <==> s.flight.value.id in empty)
         && (s.flight.value.pc.Return? && s.flight.value.pc.reply.Error? <==> s.flight.value.id in failed))
  }

  lemma RunKeepsReplies(s: State, prefix: string, step: Step, empty: set<nat>, failed: set<nat>)
    requires step.Run? && Inv(s) && Enabled(s, step) && RepliesAre(s, empty, failed)
    ensures RepliesAre(Ran(s, prefix, step), empty + EmptyLookup(s, step), failed + FailedIssue(s, step))
  {
    RunKeepsFlight(s, prefix, step);
    var f, f' := s.flight.value, Ran(s, prefix, step).flight.value;
    assert f.id !in empty && f.id !in failed;
    match f.pc {
      case Load => assert f'.pc == Return(Cert(None)) <==> f.leader.LookingUp? && s.cached == None;
      case Check(_) =>
      case ReadIssuers(_) =>
      case CallIssuer(_, _, _) => assert f'.pc.Return? <==> step.answer.Failure?;
      case Store(_, _) =>
      case Publish(_, _) =>
    }
  }

  lemma FinishKeepsReplies(s: State, prefix: string, empty: set<nat>, failed: set<nat>)
    requires Inv(s) && Enabled(s, Finish) && RepliesAre(s, empty, failed)
    ensures RepliesAre(Apply(s, prefix, Finish), empty, failed)
  {
    var s', f := Apply(s, prefix, Finish), s.flight.value;
    assert forall a :: a in s'.got ==>
      (s'.got[a].flight == f.id && s'.got[a].reply == f.pc.reply) || (a in s.got && s'.got[a] == s.got[a]);
  }

  lemma StepKeepsReplies(s: State, prefix: string, step: Step, empty: set<nat>, failed: set<nat>)
    requires Inv(s) && Enabled(s, step) && RepliesAre(s, empty, failed)
    ensures RepliesAre(Apply(s, prefix, step), empty + EmptyLookup(s, step), failed + FailedIssue(s, step))
  {
    if step.Run? {
      RunKeepsReplies(s, prefix, step, empty, failed);
    } else {
      assert empty + EmptyLookup(s, step) == empty && failed + FailedIssue(s, step) == failed;
      if step == Finish {
        FinishKeepsReplies(s, prefix, empty, failed);
      }
    }
  }

  lemma {:induction false} RepliesOfRun(prefix: string, signing: Issuer, validating: Issuer, steps: seq<Step>)
    requires After(prefix, signing, validating, steps).Some?
    ensures RepliesAre(After(prefix, signing, validating, steps).value,
                       EmptyLookups(prefix, signing, validating, steps),
                       FailedIssues(prefix, signing, validating, steps))
  {
    if steps != [] {
      var n := |steps| - 1;
      RepliesOfRun(prefix, signing, validating, steps[..n]);
      ReachableInv(prefix, signing, validating, steps[..n]);
      StepKeepsReplies(After(prefix, signing, validating, steps[..n]).value, prefix, steps[n],
                       EmptyLookups(prefix, signing, validating, steps[..n]),
                       FailedIssues(prefix, signing, validating, steps[..n]));
    }
  }

  /** Exactly when a caller is left with neither a certificate nor an error, over every
      interleaving: its flight was led by a lookup that met an empty cache, or it asked for a
      lookup and joined a flight whose issuer failed. */
  lemma NothingIff(prefix: string, signing: Issuer, validating: Issuer, steps: seq<Step>, caller: int)
    requires After(prefix, signing, validating, steps).Some?
    requires caller in After(prefix, signing, validating, steps).value.got
    ensures var g := After(prefix, signing, validating, steps).value.got[caller];
            Returned(g) == Cert(None) <==>
              || g.flight in EmptyLookups(prefix, signing, validating, steps)
              || (g.call.LookingUp? && g.flight in FailedIssues(prefix, signing, validating, steps))
  {
    RepliesOfRun(prefix, signing, validating, steps);
  }

  lemma AfterSnoc(prefix: string, signing: Issuer, validating: Issuer, steps: seq<Step>, step: Step)
    requires After(prefix, signing, validating, steps).Some? &&
            Enabled(After(prefix, signing, validating, steps).value, step)
    ensures After(prefix, signing, validating, steps + [step]) ==
            Some(Apply(After(prefix, signing, validating, steps).value, prefix, step))
  {
    assert (steps + [step])[..|steps|] == steps;
  }

  /** Because GetCertificate shares the group, a call to IssueCertificate that arrives during a
      lookup of an empty cache comes back with neither certificate nor error. */
  lemma IssueCanReturnNothing(prefix: string, i: Issuer) returns (steps: seq<Step>)
    ensures After(prefix, i, i, steps).Some?
    ensures |steps| == 4 && steps[1] == Enter(2, Issuing(Service, Options(false, None, [])))
    ensures 2 in After(prefix, i, i, steps).value.got && Returned(After(prefix, i, i, steps).value.got[2]) == Cert(None)
  {
    var run := Run(0, 0, Success(1), 0);
    steps := [];
    AfterSnoc(prefix, i, i, steps, Enter(1, LookingUp));
    steps := steps + [Enter(1, LookingUp)];
    AfterSnoc(prefix, i, i, steps, Enter(2, Issuing(Service, Options(false, None, []))));
    steps := steps + [Enter(2, Issuing(Service, Options(false, None, [])))];
    AfterSnoc(prefix, i, i, steps, run);
    steps := steps + [run];
    AfterSnoc(prefix, i, i, steps, Finish);
    steps := steps + [Finish];
  }

  const ISSUE := Issuing(Service, Options(false, None, []))
  const RUN := Run(0, 0, Success(1), 0)
  const FAIL := Run(0, 0, Failure("x"), 0)

  /** A certificate that expires at once. */
  function Brief(prefix: string, i: Issuer): Certificate {
    NewCertificate(i, i, prefix, false, Service, [], 1, 0)
  }

  /** The first flight, with one caller. */
  function First(i: Issuer, pc: Pc, calls: nat, cached: Option<Certificate>): State {
    State(cached, i, i, Some(Flight(0, ISSUE, map[1 := ISSUE], pc, calls, false, false)), 1, map[])
  }

  /** The second flight, joined by a lookup. */
  function Second(i: Issuer, pc: Pc, calls: nat, c: Certificate): State {
    State(Some(c), i, i, Some(Flight(1, ISSUE, map[2 := ISSUE, 3 := LookingUp], pc, calls, false, false)), 2,
          map[1 := Got(ISSUE, 0, Cert(Some(c)))])
  }

  lemma RunOn(prefix: string, i: Issuer, steps: seq<Step>, s: State, step: Step)
    requires After(prefix, i, i, steps) == Some(s) && Enabled(s, step)
    ensures After(prefix, i, i, steps + [step]) == Some(Apply(s, prefix, step))
  {
    AfterSnoc(prefix, i, i, steps, step);
  }

  lemma FirstFlight(prefix: string, i: Issuer)
    ensures var c := Brief(prefix, i);
            && Apply(First(i, Load, 0, None), prefix, RUN) == First(i, ReadIssuers(None), 0, None)
            && Apply(First(i, ReadIssuers(None), 0, None), prefix, RUN) == First(i, CallIssuer(None, i, i), 0, None)
            && Apply(First(i, CallIssuer(None, i, i), 0, None), prefix, RUN) == First(i, Store(c, None), 1, None)
            && Apply(First(i, Store(c, None), 1, None), prefix, RUN) == First(i, Return(Cert(Some(c))), 1, Some(c))
            && Apply(First(i, Return(Cert(Some(c))), 1, Some(c)), prefix, Finish) ==
               State(Some(c), i, i, None, 1, map[1 := Got(ISSUE, 0, Cert(Some(c)))])
  {
  }

  lemma SecondFlight(prefix: string, i: Issuer)
    ensures var c := Brief(prefix, i);
            var prior := Some(c);
            && Apply(Second(i, Load, 0, c), prefix, RUN) == Second(i, Check(c), 0, c)
            && Apply(Second(i, Check(c), 0, c), prefix, RUN) == Second(i, ReadIssuers(prior), 0, c)
            && Apply(Second(i, ReadIssuers(prior), 0, c), prefix, RUN) == Second(i, CallIssuer(prior, i, i), 0, c)
            && Apply(Second(i, CallIssuer(prior, i, i), 0, c), prefix, FAIL) == Second(i, Return(Error("x")), 1, c)
  {
  }

  /** A certificate is issued and cached. */
  lemma OneIssued(prefix: string, i: Issuer) returns (steps: seq<Step>)
    ensures var c := Brief(prefix, i);
            After(prefix, i, i, steps) == Some(State(Some(c), i, i, None, 1, map[1 := Got(ISSUE, 0, Cert(Some(c)))]))
  {
    var c := Brief(prefix, i);
    FirstFlight(prefix, i);
    RunOn(prefix, i, [], State(None, i, i, None, 0, map[]), Enter(1, ISSUE));
    steps := [] + [Enter(1, ISSUE)];
    RunOn(prefix, i, steps, First(i, Load, 0, None), RUN);
    steps := steps + [RUN];
    RunOn(prefix, i, steps, First(i, ReadIssuers(None), 0, None), RUN);
    steps := steps + [RUN];
    RunOn(prefix, i, steps, First(i, CallIssuer(None, i, i), 0, None), RUN);
    steps := steps + [RUN];
    RunOn(prefix, i, steps, First(i, Store(c, None), 1, None), RUN);
    steps := steps + [RUN];
    RunOn(prefix, i, steps, First(i, Return(Cert(Some(c))), 1, Some(c)), Finish);
    steps := steps + [Finish];
  }

  /** A rotation starts, and a lookup joins it. */
  lemma OneJoined(prefix: string, i: Issuer) returns (steps: seq<Step>)
    ensures After(prefix, i, i, steps) == Some(Second(i, Load, 0, Brief(prefix, i)))
  {
    var c := Brief(prefix, i);
    steps := OneIssued(prefix, i);
    var s := State(Some(c), i, i, None, 1, map[1 := Got(ISSUE, 0, Cert(Some(c)))]);
    RunOn(prefix, i, steps, s, Enter(2, ISSUE));
    steps := steps + [Enter(2, ISSUE)];
    RunOn(prefix, i, steps, Apply(s, prefix, Enter(2, ISSUE)), Enter(3, LookingUp));
    steps := steps + [Enter(3, LookingUp)];
    assert map[2 := ISSUE][3 := LookingUp] == map[2 := ISSUE, 3 := LookingUp];
  }

  /** A lookup can miss a certificate that is cached: it joins a rotation whose issuer fails. */
  lemma LookupCanMissCached(prefix: string, i: Issuer) returns (steps: seq<Step>)
    ensures After(prefix, i, i, steps).Some? && 3 in After(prefix, i, i, steps).value.got
    ensures var s := After(prefix, i, i, steps).value;
            s.cached.Some? && s.got[3].call == LookingUp && Returned(s.got[3]) == Cert(None)
  {
    var c := Brief(prefix, i);
    SecondFlight(prefix, i);
    steps := OneJoined(prefix, i);
    RunOn(prefix, i, steps, Second(i, Load, 0, c), RUN);
    steps := steps + [RUN];
    RunOn(prefix, i, steps, Second(i, Check(c), 0, c), RUN);
    steps := steps + [RUN];
    RunOn(prefix, i, steps, Second(i, ReadIssuers(Some(c)), 0, c), RUN);
    steps := steps + [RUN];
    RunOn(prefix, i, steps, Second(i, CallIssuer(Some(c), i, i), 0, c), FAIL);
    steps := steps + [FAIL];
    RunOn(prefix, i, steps, Second(i, Return(Error("x")), 1, c), Finish);
    steps := steps + [Finish];
  }
}
