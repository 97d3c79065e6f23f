/** Changing the root of the mesh while it runs: MRC events, requests, sweeps and releases in any
    order. Which issuers a cached certificate goes back to, when all certificates accept each
    other, and exactly when a sweep brings all of them up to date. */
module RootRotation {
  import opened Wrappers
  import opened Certificates
  import opened Manager

  /** The issuers, the cache, the certificates that are being issued, and the running sweep: what
      it has still to ask for, and the key it waits for. */
  datatype State = State(
    issuers: Issuers, cache: Cache, open: Cache, todo: Cache, waits: Option<string>)

  /** An issuing call reads the issuers and stores later, or fails; calls under a key join the one
      that is open. A sweep is a snapshot of the cache and then one check for each of its keys. */
  datatype Move =
    | Appoint(e: MrcEvent)
    | Read(c: Call, serial: int)
    | Store(key: string)
    | Fail(key: string)
    | Snapshot
    | CheckKey(key: string, w: Sweep, serial: int)
    | Drop(key: string)

  predicate Ready(i: Issuers) {
    i.signing.Some? && i.validating.Some?
  }

  /** The manager hands out nothing before both issuers are set. Whether a call has to issue may
      have been decided under earlier issuers, so a call may always go on to read them. */
  predicate Enabled(s: State, m: Move) {
    match m
    case Appoint(_) => true
    case Read(c, _) => Ready(s.issuers) && c.prefix !in s.open
    case Store(key) => key in s.open
    case Fail(key) => key in s.open
    case Snapshot => s.todo == map[] && s.waits == None
    case CheckKey(key, _, _) => Ready(s.issuers) && key in s.todo && s.waits == None
    case Drop(_) => true
  }

  function Opened(s: State, c: Call, serial: int): State
    requires Ready(s.issuers)
  {
    s.(open := s.open[c.prefix := Product(s.cache, s.issuers.signing.value, s.issuers.validating.value, c, serial)])
  }

  /** The call under the key has come back: the sweep goes on if it waits for it. */
  function Closed(s: State, key: string): State {
    var s' := s.(open := s.open - {key});
    if s.waits == Some(key) then s'.(waits := None, todo := s.todo - {key}) else s'
  }

  function Apply(s: State, m: Move): State
    requires Enabled(s, m)
  {
    match m
    case Appoint(e) => s.(issuers := Appointed(s.issuers, e))
    case Read(c, serial) => Opened(s, c, serial)
    case Store(key) => Closed(s.(cache := s.cache[key := s.open[key]]), key)
    case Fail(key) => Closed(s, key)
    case Snapshot => s.(todo := s.cache)
    case CheckKey(key, w, serial) =>
      var c := Again(key, s.todo[key], w);
      if key in s.open then s.(waits := Some(key))
      else if key in s.cache && !Renews(s.cache, s.issuers.signing.value, s.issuers.validating.value, c)
      then s.(todo := s.todo - {key})
      else Opened(s, c, serial).(waits := Some(key))
    case Drop(key) => s.(cache := s.cache - {key})
  }

  function After(moves: seq<Move>): Option<State> {
    if moves == [] then Some(State(Issuers(None, None), map[], map[], map[], None))
    else
      var s := After(moves[..|moves| - 1]);
      if s.Some? && Enabled(s.value, moves[|moves| - 1]) then Some(Apply(s.value, moves[|moves| - 1])) else None
  }

  predicate StampedBy(cert: Certificate, i: Issuers)
    requires Ready(i)
  {
    cert.signingIssuerID == i.signing.value.id && cert.validatingIssuerID == i.validating.value.id
  }

  /** Issued under these issuers, and stamped by them. */
  predicate Of(cert: Certificate, i: Issuers) {
    Ready(i) && IssuedUnder(cert, i.signing.value, i.validating.value) && StampedBy(cert, i)
  }

  /** The certificate was issued, and stamped, under the issuers in place after `k` moves. */
  predicate FromStage(moves: seq<Move>, k: int, cert: Certificate) {
    0 <= k <= |moves| && After(moves[..k]).Some? && Of(cert, After(moves[..k]).value.issuers)
  }

  lemma StageRemains(moves: seq<Move>, k: int, cert: Certificate)
    requires moves != [] && FromStage(moves[..|moves| - 1], k, cert)
    ensures FromStage(moves, k, cert)
  {
    assert moves[..|moves| - 1][..k] == moves[..k];
  }

  ghost predicate Known(moves: seq<Move>, certs: Cache) {
    forall key :: key in certs ==> exists k :: FromStage(moves, k, certs[key])
  }

  lemma KnownRemains(moves: seq<Move>, certs: Cache)
    requires moves != [] && Known(moves[..|moves| - 1], certs)
    ensures Known(moves, certs)
  {
    forall key | key in certs
      ensures exists k :: FromStage(moves, k, certs[key])
    {
      var k :| FromStage(moves[..|moves| - 1], k, certs[key]);
      StageRemains(moves, k, certs[key]);
    }
  }

  predicate Among(key: string, cert: Certificate, certs: Cache) {
    key in certs && certs[key] == cert
  }

  /** Where certificates come from: what is cached was cached or being issued, and what is being
      issued was so already or is of the current issuers. */
  lemma Origins(s: State, m: Move)
    requires Enabled(s, m)
    ensures var s' := Apply(s, m);
            && (forall key :: key in s'.cache ==>
                Among(key, s'.cache[key], s.cache) || Among(key, s'.cache[key], s.open))
            && (forall key :: key in s'.open ==> Among(key, s'.open[key], s.open) || Of(s'.open[key], s.issuers))
  {
  }

  /** In every run, every certificate, cached or being issued, goes back to a stage of the run: it
      is signed by the signing root of that stage, and trusts that root and, where the
      validating issuer was another one, the validating root as well. */
  lemma {:induction false} EveryStageKnown(moves: seq<Move>)
    requires After(moves).Some?
    ensures Known(moves, After(moves).value.cache) && Known(moves, After(moves).value.open)
  {
    if moves != [] {
      var n := |moves| - 1;
      EveryStageKnown(moves[..n]);
      var s := After(moves[..n]).value;
      KnownRemains(moves, s.cache);
      KnownRemains(moves, s.open);
      Origins(s, moves[n]);
      NewlyKnown(moves, n, s, Apply(s, moves[n]));
    }
  }

  lemma NewlyKnown(moves: seq<Move>, n: int, s: State, s': State)
    requires 0 <= n <= |moves| && After(moves[..n]) == Some(s) && Known(moves, s.cache) && Known(moves, s.open)
    requires forall key :: key in s'.cache ==> Among(key, s'.cache[key], s.cache) || Among(key, s'.cache[key], s.open)
    requires forall key :: key in s'.open ==> Among(key, s'.open[key], s.open) || Of(s'.open[key], s.issuers)
    ensures Known(moves, s'.cache) && Known(moves, s'.open)
  {
    forall key | key in s'.open
      ensures exists k :: FromStage(moves, k, s'.open[key])
    {
      if Of(s'.open[key], s.issuers) {
        assert FromStage(moves, n, s'.open[key]);
      }
    }
  }

  // --------------------------------------------------------- a signing root that stays

  /** All issuers ever appointed for signing have this root. */
  predicate SignedBy(moves: seq<Move>, root: Root) {
    forall i :: 0 <= i < |moves| && moves[i].Appoint? && Appoints(moves[i].e, Signing) ==>
      moves[i].e.mrc.authority.value.ca == root
  }

  lemma {:induction false} SigningRootStays(moves: seq<Move>, root: Root)
    requires After(moves).Some? && SignedBy(moves, root)
    ensures After(moves).value.issuers.signing.Some? ==> After(moves).value.issuers.signing.value.ca == root
  {
    if moves != [] {
      SigningRootStays(moves[..|moves| - 1], root);
    }
  }

  /** While the signing root stays, whatever happens to the validating issuer, all cached
      certificates accept each other at every moment. */
  lemma SteadyRootKeepsTrust(moves: seq<Move>, root: Root, a: string, b: string)
    requires After(moves).Some? && SignedBy(moves, root)
    requires a in After(moves).value.cache && b in After(moves).value.cache
    ensures MutuallyTrusted(After(moves).value.cache[a], After(moves).value.cache[b])
  {
    EveryStageKnown(moves);
    var i :| FromStage(moves, i, After(moves).value.cache[a]);
    var j :| FromStage(moves, j, After(moves).value.cache[b]);
    SigningRootStays(moves[..i], root);
    SigningRootStays(moves[..j], root);
  }

  // ------------------------------------------------------------------ MRC histories

  /** The MRC events of a run, in order. */
  function EventsOf(moves: seq<Move>): seq<MrcEvent> {
    if moves == [] then []
    else
      var n := |moves| - 1;
      EventsOf(moves[..n]) + (if moves[n].Appoint? then [moves[n].e] else [])
  }

  lemma {:induction false} IssuersOfEvents(moves: seq<Move>)
    requires After(moves).Some?
    ensures After(moves).value.issuers == AfterEvents(EventsOf(moves))
  {
    if moves != [] {
      var n := |moves| - 1;
      IssuersOfEvents(moves[..n]);
      if moves[n].Appoint? {
        assert EventsOf(moves)[..|EventsOf(moves[..n])|] == EventsOf(moves[..n]);
      } else {
        assert EventsOf(moves) == EventsOf(moves[..n]);
      }
    }
  }

  lemma {:induction false} EventsOfPrefix(moves: seq<Move>, k: int)
    requires 0 <= k <= |moves|
    ensures EventsOf(moves[..k]) <= EventsOf(moves)
    decreases |moves|
  {
    if k == |moves| {
      assert moves[..k] == moves;
    } else {
      var n := |moves| - 1;
      EventsOfPrefix(moves[..n], k);
      assert moves[..n][..k] == moves[..k];
    }
  }

  function Stage(events: seq<MrcEvent>, j: int): Issuers
    requires 0 <= j <= |events|
  {
    AfterEvents(events[..j])
  }

  /** The stages a certificate of which a sweep leaves alone: the issuers have today's names. */
  predicate LooksCurrent(events: seq<MrcEvent>, j: int) {
    && 0 <= j <= |events| && Ready(AfterEvents(events)) && Ready(Stage(events, j))
    && Stage(events, j).signing.value.id == AfterEvents(events).signing.value.id
    && Stage(events, j).validating.value.id == AfterEvents(events).validating.value.id
  }

  /** Certificates of two stages have the same root and the same trust. */
  predicate SameTrust(i: Issuers, j: Issuers)
    requires Ready(i) && Ready(j)
  {
    && i.signing.value.ca == j.signing.value.ca
    && Trust(i.signing.value, i.validating.value) == Trust(j.signing.value, j.validating.value)
  }

  predicate MutualStages(i: Issuers, j: Issuers)
    requires Ready(i) && Ready(j)
  {
    && i.signing.value.ca in Trust(j.signing.value, j.validating.value)
    && j.signing.value.ca in Trust(i.signing.value, i.validating.value)
  }

  /** No earlier stage had today's names with another root or another trust. */
  ghost predicate NamesTell(events: seq<MrcEvent>) {
    forall j :: LooksCurrent(events, j) ==> SameTrust(Stage(events, j), AfterEvents(events))
  }

  /** All stages with today's names accept each other. */
  ghost predicate NamesAgree(events: seq<MrcEvent>) {
    forall i, j :: LooksCurrent(events, i) && LooksCurrent(events, j) ==>
      MutualStages(Stage(events, i), Stage(events, j))
  }

  // ------------------------------------------------------------------ sweeps catch up

  /** A sweep began at `m`, and since then no MRC event has come and no call has failed that the
      sweep waits for. */
  predicate Sweeping(moves: seq<Move>, m: int) {
    && 0 <= m < |moves| && moves[m] == Snapshot
    && forall i :: m < i < |moves| ==> !moves[i].Appoint? && !FailsSweep(moves, i)
  }

  predicate FailsSweep(moves: seq<Move>, i: int)
    requires 0 <= i < |moves|
  {
    moves[i].Fail? && After(moves[..i]).Some? && After(moves[..i]).value.waits == Some(moves[i].key)
  }

  /** No call that read other issuers is open when the sweep begins. */
  predicate NoOldCall(moves: seq<Move>, m: int)
    requires 0 <= m <= |moves|
  {
    After(moves[..m]).Some? && Ready(After(moves[..m]).value.issuers) &&
    var s := After(moves[..m]).value;
    forall key :: key in s.open ==> StampedBy(s.open[key], s.issuers)
  }

  /** A sweep has run to its end since `m`, however interleaved with other calls and releases. */
  predicate SweptSince(moves: seq<Move>, m: int) {
    && After(moves).Some? && Ready(After(moves).value.issuers) && After(moves).value.todo == map[]
    && Sweeping(moves, m) && NoOldCall(moves, m)
  }

  /** Every certificate is still to be checked or bears today's names. */
  predicate Progressing(s: State) {
    && Ready(s.issuers)
    && (forall key :: key in s.cache ==> key in s.todo || StampedBy(s.cache[key], s.issuers))
    && (forall key :: key in s.open ==> StampedBy(s.open[key], s.issuers))
  }

  lemma StepKeepsProgress(s: State, m: Move)
    requires Progressing(s) && Enabled(s, m) && !m.Appoint? && !(m.Fail? && s.waits == Some(m.key))
    ensures Progressing(Apply(s, m))
  {
    Origins(s, m);
  }

  /** So it is at every moment while a sweep runs. */
  lemma {:induction false} SweepProgress(moves: seq<Move>, m: int)
    requires After(moves).Some? && Sweeping(moves, m) && NoOldCall(moves, m)
    ensures Progressing(After(moves).value)
    decreases |moves|
  {
    var n := |moves| - 1;
    if m < n {
      assert moves[..n][..m] == moves[..m];
      assert forall i :: 0 <= i < n ==> moves[..n][..i] == moves[..i];
      assert !FailsSweep(moves, n);
      SweepProgress(moves[..n], m);
      StepKeepsProgress(After(moves[..n]).value, moves[n]);
    }
  }

  /** After this run with its sweep, the certificate is one of the current stage. */
  predicate CaughtUp(moves: seq<Move>, m: int, key: string) {
    SweptSince(moves, m) && key in After(moves).value.cache ==>
      var s := After(moves).value;
      IssuedUnder(s.cache[key], s.issuers.signing.value, s.issuers.validating.value)
  }

  predicate TrustRestored(moves: seq<Move>, m: int, a: string, b: string) {
    SweptSince(moves, m) && a in After(moves).value.cache && b in After(moves).value.cache ==>
      MutuallyTrusted(After(moves).value.cache[a], After(moves).value.cache[b])
  }

  /** Whatever the run was: after a sweep a certificate is of a stage with today's names. */
  lemma SweptStage(moves: seq<Move>, m: int, key: string) returns (j: int)
    requires SweptSince(moves, m) && key in After(moves).value.cache
    ensures LooksCurrent(EventsOf(moves), j)
    ensures var i := Stage(EventsOf(moves), j);
            IssuedUnder(After(moves).value.cache[key], i.signing.value, i.validating.value)
  {
    var events := EventsOf(moves);
    SweepProgress(moves, m);
    EveryStageKnown(moves);
    var k :| FromStage(moves, k, After(moves).value.cache[key]);
    IssuersOfEvents(moves);
    IssuersOfEvents(moves[..k]);
    EventsOfPrefix(moves, k);
    j := |EventsOf(moves[..k])|;
    assert events[..j] == EventsOf(moves[..k]);
  }

  function AskFor(key: string): Move {
    Read(Call(key, Service, Options(true, None, []), 0, 0, Success(1), 1_000_000), 1)
  }

  const CALM: Sweep := Sweep(1, (k: string) => 0, (k: string) => Success(3), 1_000_000, 1_000_000)

  lemma AfterSnoc(moves: seq<Move>, m: Move)
    requires After(moves).Some? && Enabled(After(moves).value, m)
    ensures After(moves + [m]) == Some(Apply(After(moves).value, m))
    ensures EventsOf(moves + [m]) == EventsOf(moves) + (if m.Appoint? then [m.e] else [])
  {
    assert (moves + [m])[..|moves|] == moves;
  }

  lemma {:induction false} AppointAll(moves: seq<Move>, events: seq<MrcEvent>, j: int, k: int) returns (more: seq<Move>)
    requires 0 <= j <= k <= |events| && After(moves).Some? && EventsOf(moves) == events[..j]
    requires After(moves).value.issuers == Stage(events, j)
    ensures After(more).Some? && EventsOf(more) == events[..k]
    ensures After(more).value == After(moves).value.(issuers := Stage(events, k))
    decreases k
  {
    if j == k {
      more := moves;
    } else {
      more := AppointAll(moves, events, j, k - 1);
      AfterSnoc(more, Appoint(events[k - 1]));
      more := more + [Appoint(events[k - 1])];
      assert events[..k] == events[..k - 1] + [events[k - 1]];
      assert events[..k][..k - 1] == events[..k - 1];
    }
  }

  function IssuedAt(key: string, i: Issuers): Certificate
    requires Ready(i)
  {
    NewCertificate(i.signing.value, i.validating.value, key, true, Service, [], 1, 1_000_000)
  }

  /** A request for a new key that is answered at once. */
  lemma Answered(moves: seq<Move>, key: string) returns (more: seq<Move>)
    requires After(moves).Some? && Ready(After(moves).value.issuers)
    requires key !in After(moves).value.cache && After(moves).value.open == map[] && After(moves).value.waits == None
    ensures After(more).Some? && EventsOf(more) == EventsOf(moves)
    ensures var s := After(moves).value;
            After(more).value == s.(cache := s.cache[key := IssuedAt(key, s.issuers)])
  {
    AfterSnoc(moves, AskFor(key));
    more := moves + [AskFor(key)];
    AfterSnoc(more, Store(key));
    more := more + [Store(key)];
    assert map[key := IssuedAt(key, After(moves).value.issuers)] - {key} == map[];
  }

  /** The run with these events and one request at each of two stages. */
  lemma TwoRequests(events: seq<MrcEvent>, i: int, j: int) returns (moves: seq<Move>)
    requires 0 <= i <= j <= |events| && Ready(Stage(events, i)) && Ready(Stage(events, j))
    ensures After(moves).Some? && EventsOf(moves) == events
    ensures After(moves).value ==
            State(AfterEvents(events),
                  map["a" := IssuedAt("a", Stage(events, i)), "b" := IssuedAt("b", Stage(events, j))], map[], map[],
                    None)
  {
    moves := AppointAll([], events, 0, i);
    moves := Answered(moves, "a");
    moves := AppointAll(moves, events, i, j);
    moves := Answered(moves, "b");
    moves := AppointAll(moves, events, j, |events|);
    assert events[..|events|] == events;
  }

  /** A calm check leaves a certificate of a stage with today's names alone. */
  lemma LeftAlone(s: State, events: seq<MrcEvent>, j: int, key: string)
    requires LooksCurrent(events, j) && s.issuers == AfterEvents(events)
    requires key in s.todo && key in s.cache && s.cache[key] == IssuedAt(key, Stage(events, j))
    requires s.open == map[] && s.waits == None
    ensures Apply(s, CheckKey(key, CALM, 2)) == s.(todo := s.todo - {key})
  {
  }

  /** Two requests at stages with today's names, and a sweep that changes nothing. */
  lemma RequestsAndSweep(events: seq<MrcEvent>, i: int, j: int) returns (moves: seq<Move>, m: int)
    requires i <= j && LooksCurrent(events, i) && LooksCurrent(events, j)
    ensures SweptSince(moves, m) && EventsOf(moves) == events
    ensures After(moves).value ==
            State(AfterEvents(events),
                  map["a" := IssuedAt("a", Stage(events, i)), "b" := IssuedAt("b", Stage(events, j))], map[], map[],
                    None)
  {
    moves := TwoRequests(events, i, j);
    var s, before := After(moves).value, moves;
    m := |moves|;
    AfterSnoc(moves, Snapshot);
    moves := moves + [Snapshot];
    LeftAlone(s.(todo := s.cache), events, i, "a");
    AfterSnoc(moves, CheckKey("a", CALM, 2));
    moves := moves + [CheckKey("a", CALM, 2)];
    LeftAlone(s.(todo := s.cache - {"a"}), events, j, "b");
    AfterSnoc(moves, CheckKey("b", CALM, 2));
    moves := moves + [CheckKey("b", CALM, 2)];
    assert s.cache - {"a"} - {"b"} == map[];
    assert moves[..m] == before && forall i :: m < i < |moves| ==> moves[i].CheckKey?;
  }

  /** Exactly when sweeps catch up, for every history of MRC events: after every run with these
      events, however a sweep in it was interleaved with requests and releases, every
      certificate is one of the current stage, if and only if no earlier stage had the names of
      the current issuers with another signing root or another trust. */
  lemma SweepCatchesUpIff(events: seq<MrcEvent>)
    requires Ready(AfterEvents(events))
    ensures (forall moves, m, key :: EventsOf(moves) == events ==> CaughtUp(moves, m, key)) <==> NamesTell(events)
  {
    if NamesTell(events) {
      forall moves, m, key | EventsOf(moves) == events
        ensures CaughtUp(moves, m, key)
      {
        if SweptSince(moves, m) && key in After(moves).value.cache {
          IssuersOfEvents(moves);
          var j := SweptStage(moves, m, key);
        }
      }
    } else {
      var j :| LooksCurrent(events, j) && !SameTrust(Stage(events, j), AfterEvents(events));
      var moves, m := RequestsAndSweep(events, j, j);
      assert !CaughtUp(moves, m, "a");
    }
  }

  /** And exactly when they restore trust: after every such run any two certificates accept each
      other, if and only if all stages with today's names accept each other. */
  lemma SweepRestoresTrustIff(events: seq<MrcEvent>)
    requires Ready(AfterEvents(events))
    ensures (forall moves, m, a, b :: EventsOf(moves) == events ==> TrustRestored(moves, m, a, b)) <==>
            NamesAgree(events)
  {
    if NamesAgree(events) {
      forall moves, m, a, b | EventsOf(moves) == events
        ensures TrustRestored(moves, m, a, b)
      {
        TrustIsRestored(moves, m, a, b);
      }
    } else {
      var i, j :| LooksCurrent(events, i) && LooksCurrent(events, j) &&
        !MutualStages(Stage(events, i), Stage(events, j));
      if j < i {
        i, j := j, i;
      }
      var moves, m := RequestsAndSweep(events, i, j);
      assert !TrustRestored(moves, m, "a", "b");
    }
  }

  lemma TrustIsRestored(moves: seq<Move>, m: int, a: string, b: string)
    requires NamesAgree(EventsOf(moves))
    ensures TrustRestored(moves, m, a, b)
  {
    if SweptSince(moves, m) && a in After(moves).value.cache && b in After(moves).value.cache {
      var i := SweptStage(moves, m, a);
      var j := SweptStage(moves, m, b);
    }
  }

  /** It happens: an MRC that comes back under its name with another root. One that comes back
      with another trust domain only does no harm. */
  lemma ReusedName(domain: string)
    ensures var one := Mrc("root", Active, "td", Some(Authority("one", false)));
            var two := one.(authority := Some(Authority("two", false)));
            && !NamesTell([MrcAdded(one), MrcAdded(two)]) && !NamesAgree([MrcAdded(one), MrcAdded(two)])
            && NamesTell([MrcAdded(one), MrcAdded(one.(trustDomain := domain))])
  {
    var one := Mrc("root", Active, "td", Some(Authority("one", false)));
    var two := one.(authority := Some(Authority("two", false)));
    var events := [MrcAdded(one), MrcAdded(two)];
    assert events[..1] == [MrcAdded(one)] && events[..2] == events;
    assert LooksCurrent(events, 1) && LooksCurrent(events, 2);
    var moved := [MrcAdded(one), MrcAdded(one.(trustDomain := domain))];
    assert moved[..1] == [MrcAdded(one)] && moved[..2] == moved && moved[..0] == [];
  }

  function Root(name: string): Mrc {
    Mrc(name, Active, "td", Some(Authority(name, false)))
  }

  function Both(m: Mrc): Issuers
    requires m.authority.Some?
  {
    Issuers(Some(IssuerOf(m)), Some(IssuerOf(m)))
  }

  lemma RunOn(moves: seq<Move>, s: State, m: Move)
    requires After(moves) == Some(s) && Enabled(s, m)
    ensures After(moves + [m]) == Some(Apply(s, m))
    ensures EventsOf(moves + [m]) == EventsOf(moves) + (if m.Appoint? then [m.e] else [])
  {
    AfterSnoc(moves, m);
  }

  const OLD_CALL: Cache := map["a" := IssuedAt("a", Both(Root("one")))]

  /** A call reads the first root, and then the second one comes. */
  lemma OldCallSteps()
    ensures Apply(State(Issuers(None, None), map[], map[], map[], None), Appoint(MrcAdded(Root("one")))) ==
            State(Both(Root("one")), map[], map[], map[], None)
    ensures Apply(State(Both(Root("one")), map[], map[], map[], None), AskFor("a")) ==
            State(Both(Root("one")), map[], OLD_CALL, map[], None)
    ensures Apply(State(Both(Root("one")), map[], OLD_CALL, map[], None), Appoint(MrcAdded(Root("two")))) ==
            State(Both(Root("two")), map[], OLD_CALL, map[], None)
  {
  }

  lemma OldCallOpen() returns (moves: seq<Move>)
    ensures After(moves) == Some(State(Both(Root("two")), map[], OLD_CALL, map[], None))
    ensures EventsOf(moves) == [MrcAdded(Root("one")), MrcAdded(Root("two"))]
  {
    OldCallSteps();
    RunOn([], State(Issuers(None, None), map[], map[], map[], None), Appoint(MrcAdded(Root("one"))));
    moves := [] + [Appoint(MrcAdded(Root("one")))];
    assert EventsOf(moves) == [MrcAdded(Root("one"))];
    RunOn(moves, State(Both(Root("one")), map[], map[], map[], None), AskFor("a"));
    moves := moves + [AskFor("a")];
    assert EventsOf(moves) == [MrcAdded(Root("one"))];
    RunOn(moves, State(Both(Root("one")), map[], OLD_CALL, map[], None), Appoint(MrcAdded(Root("two"))));
    moves := moves + [Appoint(MrcAdded(Root("two")))];
  }

  lemma OldCallStored()
    ensures Apply(State(Both(Root("two")), map[], OLD_CALL, map[], None), Store("a")) ==
            State(Both(Root("two")), OLD_CALL, map[], map[], None)
  {
    assert OLD_CALL - {"a"} == map[];
  }

  /** The condition on open calls is needed: one that read its issuers before the last event and
      stores after the sweep leaves a certificate of the old root, though all names are distinct. */
  lemma LateStore() returns (moves: seq<Move>, m: int)
    ensures After(moves).Some? && Ready(After(moves).value.issuers) && After(moves).value.todo == map[]
    ensures Sweeping(moves, m) && NamesTell(EventsOf(moves)) && !NoOldCall(moves, m)
    ensures var s := After(moves).value;
            "a" in s.cache && !IssuedUnder(s.cache["a"], s.issuers.signing.value, s.issuers.validating.value)
  {
    var s := State(Both(Root("two")), map[], OLD_CALL, map[], None);
    var start := OldCallOpen();
    TwoNames(Root("one"), Root("two"));
    OldCallStored();
    m := |start|;
    RunOn(start, s, Snapshot);
    moves := start + [Snapshot];
    RunOn(moves, s, Store("a"));
    moves := moves + [Store("a")];
    assert moves[..m] == start;
  }

  /** Two MRCs with different names tell themselves apart. */
  lemma TwoNames(one: Mrc, two: Mrc)
    requires one.name != two.name && one.state == two.state == Active && one.authority.Some? && two.authority.Some?
    ensures NamesTell([MrcAdded(one), MrcAdded(two)])
  {
    var events := [MrcAdded(one), MrcAdded(two)];
    assert events[..0] == [] && events[..1] == [MrcAdded(one)] && events[..2] == events;
  }
}
