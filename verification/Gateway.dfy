/** The consumer of rotation messages: it releases, reissues and stores gateway and access
    certificates. Its own reissuing goes through the manager that sends the messages, so the
    questions are whether it feeds itself and whether the secrets catch up with the cache. */
module Gateway {
  import opened Wrappers
  import opened Certificates
  import opened Manager
  import Flights
  import opened Histories

  datatype SecretRef = SecretRef(name: string, namespace: string)

  /** A gateway or access certificate spec; `validDuration` says that the duration, which only
      gateway specs have, parses. */
  datatype CertSpec = CertSpec(
    subjectAltNames: seq<string>, validityDuration: string, validDuration: bool, secret: SecretRef)

  predicate Usable(spec: CertSpec) {
    spec.subjectAltNames != [] && spec.secret.name != "" && spec.secret.namespace != ""
  }

  /** What a handling reads from outside: clock, noise, the issuer's answer, the configured
      validity, whether the API server accepts the secret or deletes it, and whether the issuing
      call comes back with nothing, which a concurrent lookup under the same name can cause. */
  datatype World = World(
    now: int, noise: Noise, answer: Result<int>, validity: int, storeOk: bool, deleteOk: bool, nothing: bool)

  type Secrets = map<SecretRef, Certificate>

  function Request(cn: string, ct: CertType, w: World): Call {
    Call(cn, ct, Options(true, None, []), w.now, w.noise, w.answer, w.validity)
  }

  // ----------------------------------------------------------------- what handlers do

  datatype End = Stored | Refused | Panicked

  /** How releasing, issuing and storing ends. */
  function EndOf(w: World): End {
    if w.nothing then Panicked else if w.answer.Success? && w.storeOk then Stored else Refused
  }

  datatype Effect = Effect(cache: Cache, secrets: Secrets, end: End)

  /** Release, issue again, store. */
  function Reissued(e: Effect, i: Issuers, spec: CertSpec, ct: CertType, w: World): Effect
    requires spec.subjectAltNames != [] && i.signing.Some? && i.validating.Some?
  {
    var cn := spec.subjectAltNames[0];
    if w.nothing then Effect(e.cache - {cn}, e.secrets, Panicked)
    else
      var o := Issue(e.cache - {cn}, i.signing.value, i.validating.value, Request(cn, ct, w));
      if o.result.Success? && w.storeOk then Effect(o.cache, e.secrets[spec.secret := o.result.value], Stored)
      else Effect(o.cache, e.secrets, Refused)
  }

  function GatewayCert(e: Effect, i: Issuers, spec: CertSpec, w: World): Effect
    requires i.signing.Some? && i.validating.Some?
  {
    if Usable(spec) && spec.validDuration then Reissued(e, i, spec, IngressGateway, w) else e.(end := Refused)
  }

  function AccessCert(e: Effect, i: Issuers, spec: CertSpec, w: World): Effect
    requires i.signing.Some? && i.validating.Some?
  {
    if Usable(spec) then Reissued(e, i, spec, Service, w) else e.(end := Refused)
  }

  predicate Nameless(spec: Option<CertSpec>) {
    spec.Some? && spec.value.subjectAltNames == []
  }

  /** Which certificate a rotation message refreshes: the gateway's, an access certificate, none. */
  function Refreshed(e: Effect, i: Issuers, current: Option<CertSpec>, accessCerts: map<string, CertSpec>, cn: string,
                     w: World): Effect
    requires !Nameless(current) && i.signing.Some? && i.validating.Some?
  {
    if current.Some? && cn == current.value.subjectAltNames[0] then GatewayCert(e, i, current.value, w)
    else if cn in accessCerts then AccessCert(e, i, accessCerts[cn], w)
    else e
  }

  /** The secret and the certificate of a spec are removed, if the API server deletes the secret. */
  function Removed(e: Effect, spec: CertSpec, w: World): Effect {
    if !w.deleteOk then e.(end := Refused)
    else if spec.subjectAltNames == [] then Effect(e.cache, e.secrets - {spec.secret}, Panicked)
    else Effect(e.cache - {spec.subjectAltNames[0]}, e.secrets - {spec.secret}, e.end)
  }

  /** What a reissue means: nothing else in the cache changes, and the secret is changed exactly if
      all goes well, to the certificate that is cached now. */
  lemma ReissuedMeans(e: Effect, i: Issuers, spec: CertSpec, ct: CertType, w: World)
    requires spec.subjectAltNames != [] && i.signing.Some? && i.validating.Some?
    ensures var r, cn := Reissued(e, i, spec, ct, w), spec.subjectAltNames[0];
            && r.end == EndOf(w) && (r.end == Stored <==> w.answer.Success? && w.storeOk && !w.nothing)
            && (r.end == Panicked <==> w.nothing)
            && r.cache - {cn} == e.cache - {cn} && (cn in r.cache <==> w.answer.Success? && !w.nothing)
            && r.secrets == (if r.end == Stored then e.secrets[spec.secret := r.cache[cn]] else e.secrets)
            && (cn in r.cache ==>
                && r.cache[cn].commonName == cn && r.cache[cn].certType == ct && r.cache[cn].serial == w.answer.value
                && r.cache[cn].expiration == w.now + w.validity
                && r.cache[cn].issuingCA == i.signing.value.ca && r.cache[cn].signingIssuerID == i.signing.value.id
                && r.cache[cn].validatingIssuerID == i.validating.value.id)
  {
  }

  /** The variables of the message loop. */
  class Client {
    const manager: CertManager
    var secrets: Secrets
    var currentCertSpec: Option<CertSpec>
    var accessCerts: map<string, CertSpec>

    constructor (manager: CertManager)
      ensures this.manager == manager && secrets == map[] && currentCertSpec == None && accessCerts == map[]
    {
      this.manager, secrets, currentCertSpec, accessCerts := manager, map[], None, map[];
    }

    /** Cache and secrets, with how a handler ended. */
    ghost function Now(end: End := Stored): Effect
      reads this, manager
    {
      Effect(manager.cache, secrets, end)
    }

    /** Release, reissue, store. The reissue finds no cached certificate, so whatever it does it
        never announces a rotation. */
    method ReissueAndStore(spec: CertSpec, ct: CertType, w: World) returns (end: End)
      requires Usable(spec) && manager.issuers.signing.Some? && manager.issuers.validating.Some?
      modifies manager`cache, manager`published, `secrets
      ensures manager.published == old(manager.published)
      ensures Now(end) == Reissued(old(Now()), manager.issuers, spec, ct, w)
    {
      var cn := spec.subjectAltNames[0];
      manager.ReleaseCertificate(cn);
      if w.nothing {
        return Panicked;
      }
      var issued := manager.IssueCertificate(Request(cn, ct, w));
      if issued.Failure? {
        return Refused;
      }
      if !w.storeOk {
        return Refused;
      }
      secrets := secrets[spec.secret := issued.value];
      return Stored;
    }

    /** createAndStoreGatewayCert. */
    method CreateAndStoreGatewayCert(spec: CertSpec, w: World) returns (end: End)
      requires manager.issuers.signing.Some? && manager.issuers.validating.Some?
      modifies manager`cache, manager`published, `secrets
      ensures manager.published == old(manager.published)
      ensures Now(end) == GatewayCert(old(Now()), manager.issuers, spec, w)
      ensures end == if Usable(spec) && spec.validDuration then EndOf(w) else Refused
      ensures end == Stored ==> spec.subjectAltNames[0] in manager.cache &&
                                secrets == old(secrets)[spec.secret := manager.cache[spec.subjectAltNames[0]]]
      ensures end != Stored ==> secrets == old(secrets)
    {
      if |spec.subjectAltNames| == 0 || !spec.validDuration || spec.secret.name == "" || spec.secret.namespace == "" {
        return Refused;
      }
      ReissuedMeans(Now(), manager.issuers, spec, IngressGateway, w);
      end := ReissueAndStore(spec, IngressGateway, w);
    }

    /** createAndStoreAccessCert. */
    method CreateAndStoreAccessCert(spec: CertSpec, w: World) returns (end: End)
      requires manager.issuers.signing.Some? && manager.issuers.validating.Some?
      modifies manager`cache, manager`published, `secrets
      ensures manager.published == old(manager.published)
      ensures Now(end) == AccessCert(old(Now()), manager.issuers, spec, w)
      ensures end == if Usable(spec) then EndOf(w) else Refused
      ensures end == Stored ==> spec.subjectAltNames[0] in manager.cache &&
                                secrets == old(secrets)[spec.secret := manager.cache[spec.subjectAltNames[0]]]
      ensures end != Stored ==> secrets == old(secrets)
    {
      if |spec.subjectAltNames| == 0 || spec.secret.name == "" || spec.secret.namespace == "" {
        return Refused;
      }
      ReissuedMeans(Now(), manager.issuers, spec, Service, w);
      end := ReissueAndStore(spec, Service, w);
    }

    /** removeGatewayCertAndSecret and removeAccessCertAndSecret; they index the names. */
    method RemoveCertAndSecret(spec: CertSpec, w: World) returns (end: End)
      modifies manager`cache, `secrets
      ensures Now(end) == Removed(old(Now()), spec, w)
    {
      if !w.deleteOk {
        return Refused;
      }
      secrets := secrets - {spec.secret};
      if |spec.subjectAltNames| == 0 {
        return Panicked;
      }
      manager.ReleaseCertificate(spec.subjectAltNames[0]);
      return Stored;
    }

    /** doCertRotateChan, for a well-formed message. The code indexes the names of the current
        spec without looking. */
    method DoCertRotate(cert: Certificate, w: World) returns (panicked: bool)
      requires manager.issuers.signing.Some? && manager.issuers.validating.Some?
      modifies manager`cache, manager`published, `secrets
      ensures Loop(currentCertSpec, accessCerts, panicked) ==
              Handled(Loop(currentCertSpec, accessCerts, false), Rotated(cert.commonName, EndOf(w)))
      ensures manager.published == old(manager.published)
      ensures Nameless(currentCertSpec) ==> panicked && Now() == old(Now())
      ensures !Nameless(currentCertSpec) ==>
                var r := Refreshed(old(Now()), manager.issuers, currentCertSpec, accessCerts, cert.commonName, w);
                && manager.cache == r.cache && secrets == r.secrets
                && (panicked <==> r.end == Panicked)
    {
      if currentCertSpec.Some? {
        if |currentCertSpec.value.subjectAltNames| == 0 {
          return true;
        }
        if cert.commonName == currentCertSpec.value.subjectAltNames[0] {
          var end := CreateAndStoreGatewayCert(currentCertSpec.value, w);
          return end == Panicked;
        }
      }
      if cert.commonName in accessCerts {
        var end := CreateAndStoreAccessCert(accessCerts[cert.commonName], w);
        return end == Panicked;
      }
      return false;
    }

    /** doMeshConfigUpdateChan, for a well-formed message: the new spec becomes the current one also
        if its certificate could not be issued. */
    method DoMeshConfigUpdate(newCertSpec: Option<CertSpec>, w: World) returns (panicked: bool)
      requires manager.issuers.signing.Some? && manager.issuers.validating.Some?
      modifies manager`cache, manager`published, `secrets, `currentCertSpec
      ensures Loop(currentCertSpec, accessCerts, panicked) ==
              Handled(Loop(old(currentCertSpec), accessCerts, false), ConfigUpdate(newCertSpec, w.deleteOk, EndOf(w)))
      ensures manager.published == old(manager.published)
      ensures var r := if newCertSpec == old(currentCertSpec) then old(Now())
                       else if newCertSpec.Some? then GatewayCert(old(Now()), manager.issuers, newCertSpec.value, w)
                       else Removed(old(Now()), old(currentCertSpec).value, w);
              manager.cache == r.cache && secrets == r.secrets && (panicked <==> r.end == Panicked)
    {
      if currentCertSpec == newCertSpec {
        return false;
      }
      var end := Stored;
      if newCertSpec == None && currentCertSpec.Some? {
        end := RemoveCertAndSecret(currentCertSpec.value, w);
      } else if newCertSpec.Some? {
        end := CreateAndStoreGatewayCert(newCertSpec.value, w);
      }
      if end == Panicked {
        return true;
      }
      currentCertSpec := newCertSpec;
      return false;
    }

    /** doAccessCertChan, for a well-formed message with the object before and after the change. The
        old object's name is indexed without looking. */
    method DoAccessCert(before: Option<CertSpec>, after: Option<CertSpec>, enabled: bool, w: World)
      returns (panicked: bool)
      requires manager.issuers.signing.Some? && manager.issuers.validating.Some?
      modifies manager`cache, manager`published, `secrets, `accessCerts
      ensures var l := Handled(Loop(currentCertSpec, old(accessCerts), false),
                               AccessChange(before, after, enabled, w.deleteOk, EndOf(w)));
              panicked == l.panicked && (!panicked ==> accessCerts == l.access)
      ensures manager.published == old(manager.published)
      ensures !Permitted(after, enabled) || Nameless(before) ==> Now() == old(Now())
      ensures Permitted(after, enabled) && !Nameless(before) ==>
                var d := if before.Some? then Removed(old(Now()), before.value, w) else old(Now());
                var r := if d.end == Stored && after.Some? then AccessCert(d, manager.issuers, after.value, w) else d;
                manager.cache == r.cache && secrets == r.secrets
    {
      if after.Some? && !enabled {
        return false;
      }
      if before.Some? {
        if |before.value.subjectAltNames| == 0 {
          return true;
        }
        accessCerts := accessCerts - {before.value.subjectAltNames[0]};
        var end := RemoveCertAndSecret(before.value, w);
        if end == Refused {
          return false;
        }
      }
      if after.Some? {
        var end := CreateAndStoreAccessCert(after.value, w);
        if end == Panicked {
          return true;
        }
        if end == Stored {
          accessCerts := accessCerts[after.value.subjectAltNames[0] := after.value];
        }
      }
      return false;
    }
  }

  // ------------------------------------------------------------------ when it panics

  /** What of the loop decides whether it survives. */
  datatype Loop = Loop(current: Option<CertSpec>, access: map<string, CertSpec>, panicked: bool)

  /** The well-formed messages of the three channels; `end` is how issuing would end. */
  datatype Message =
    | ConfigUpdate(spec: Option<CertSpec>, deleteOk: bool, end: End)
    | Rotated(cn: string, end: End)
    | AccessChange(before: Option<CertSpec>, after: Option<CertSpec>, enabled: bool, deleteOk: bool, end: End)

  predicate Permitted(after: Option<CertSpec>, enabled: bool) {
    after == None || enabled
  }

  /** The handler indexes the names of a spec that has none. */
  predicate IndexesNothing(l: Loop, m: Message) {
    match m
    case ConfigUpdate(spec, deleteOk, _) => spec == None && deleteOk && Nameless(l.current)
    case Rotated(_, _) => Nameless(l.current)
    case AccessChange(before, after, enabled, _, _) => Permitted(after, enabled) && Nameless(before)
  }

  /** The handler gets as far as issuing a certificate. */
  predicate Issues(l: Loop, m: Message) {
    match m
    case ConfigUpdate(spec, _, _) => spec.Some? && spec != l.current && Usable(spec.value) && spec.value.validDuration
    case Rotated(cn, _) =>
      if l.current.Some? && l.current.value.subjectAltNames != [] && cn == l.current.value.subjectAltNames[0]
      then Usable(l.current.value) && l.current.value.validDuration
      else cn in l.access && Usable(l.access[cn])
    case AccessChange(before, after, enabled, deleteOk, _) =>
      enabled && (before.Some? ==> deleteOk) && after.Some? && Usable(after.value)
  }

  predicate Panics(l: Loop, m: Message) {
    IndexesNothing(l, m) || (Issues(l, m) && m.end == Panicked)
  }

  /** The access certificates after a change. */
  function AccessAfter(access: map<string, CertSpec>, m: Message): map<string, CertSpec>
    requires m.AccessChange?
  {
    if !Permitted(m.after, m.enabled) || Nameless(m.before) then access
    else
      var kept := if m.before.Some? then access - {m.before.value.subjectAltNames[0]} else access;
      if Issues(Loop(None, access, false), m) && m.end == Stored
        then kept[m.after.value.subjectAltNames[0] := m.after.value]
      else kept
  }

  function Handled(l: Loop, m: Message): Loop {
    if l.panicked || Panics(l, m) then l.(panicked := true)
    else
      match m
      case ConfigUpdate(spec, _, _) => l.(current := spec)
      case Rotated(_, _) => l
      case AccessChange(_, _, _, _, _) => l.(access := AccessAfter(l.access, m))
  }

  /** The loop after these messages, started with the spec that was provisioned. */
  function Served(start: Option<CertSpec>, messages: seq<Message>): Loop {
    if messages == [] then Loop(start, map[], false)
    else Handled(Served(start, messages[..|messages| - 1]), messages[|messages| - 1])
  }

  /** The spec in the last MeshConfig among the messages. */
  function LastSpec(start: Option<CertSpec>, messages: seq<Message>): Option<CertSpec> {
    if messages == [] then start
    else if messages[|messages| - 1].ConfigUpdate? then messages[|messages| - 1].spec
    else LastSpec(start, messages[..|messages| - 1])
  }

  /** The access certificates that the messages leave. */
  function LastAccess(messages: seq<Message>): map<string, CertSpec> {
    if messages == [] then map[]
    else
      var access, m := LastAccess(messages[..|messages| - 1]), messages[|messages| - 1];
      if m.AccessChange? then AccessAfter(access, m) else access
  }

  /** The message at `j` meets what it cannot cope with. */
  predicate Strikes(start: Option<CertSpec>, messages: seq<Message>, j: int) {
    0 <= j < |messages| && Panics(Loop(LastSpec(start, messages[..j]), LastAccess(messages[..j]), false), messages[j])
  }

  /** Exactly when the loop panics, for every sequence of well-formed messages: a rotation message,
      or the removal of the spec together with its secret, comes while the last MeshConfig has a
      gateway spec without names; or a permitted change of an AccessCert that had no names; or
      issuing for the current gateway spec or a filed or new access spec comes back with nothing. */
  lemma {:induction false} PanicsIff(start: Option<CertSpec>, messages: seq<Message>)
    ensures Served(start, messages).panicked <==> exists j :: Strikes(start, messages, j)
    ensures !Served(start, messages).panicked ==>
            Served(start, messages) == Loop(LastSpec(start, messages), LastAccess(messages), false)
  {
    if messages != [] {
      var n := |messages| - 1;
      PanicsIff(start, messages[..n]);
      forall j | 0 <= j < n
        ensures Strikes(start, messages, j) <==> Strikes(start, messages[..n], j)
      {
        assert messages[..n][..j] == messages[..j];
      }
      if j :| Strikes(start, messages[..n], j) {
        assert Strikes(start, messages, j);
      }
      assert Served(start, messages).panicked && !Served(start, messages[..n]).panicked ==> Strikes(start, messages, n);
    }
  }

  /** A permitted change that ends with this spec stored under its first name. */
  predicate Files(m: Message, cn: string, spec: CertSpec) {
    && m.AccessChange? && m.enabled && m.after == Some(spec) && m.end == Stored
    && spec.subjectAltNames != [] && spec.subjectAltNames[0] == cn
    && spec.secret.name != "" && spec.secret.namespace != ""
    && (m.before.Some? ==> m.before.value.subjectAltNames != [] && m.deleteOk)
  }

  /** A permitted change of an object of this name, or one that stores another spec under it. */
  predicate Unfiles(m: Message, cn: string, spec: CertSpec) {
    && m.AccessChange?
    && (|| ((m.after == None || m.enabled) && m.before.Some? && m.before.value.subjectAltNames != [] &&
            m.before.value.subjectAltNames[0] == cn)
        || (m.after.Some? && m.after.value != spec && Files(m, cn, m.after.value)))
  }

  ghost function Filings(messages: seq<Message>, cn: string, spec: CertSpec): int -> bool {
    i => 0 <= i < |messages| && Files(messages[i], cn, spec)
  }

  ghost function Unfilings(messages: seq<Message>, cn: string, spec: CertSpec): int -> bool {
    i => 0 <= i < |messages| && Unfiles(messages[i], cn, spec)
  }

  predicate IsFiled(access: map<string, CertSpec>, cn: string, spec: CertSpec) {
    cn in access && access[cn] == spec
  }

  lemma FiledStep(access: map<string, CertSpec>, m: Message, cn: string, spec: CertSpec)
    requires m.AccessChange?
    ensures IsFiled(AccessAfter(access, m), cn, spec) <==>
            Files(m, cn, spec) || (IsFiled(access, cn, spec) && !Unfiles(m, cn, spec))
  {
  }

  /** Which access certificates a rotation finds, after every sequence of messages: a spec is filed
      under a name exactly if some change stored it there and no change since then removed an
      object of that name or stored another one under it. A removal counts even if the API server
      refuses to delete the secret. */
  lemma {:induction false} FiledIff(messages: seq<Message>, cn: string, spec: CertSpec)
    ensures IsFiled(LastAccess(messages), cn, spec) <==>
            Since(Filings(messages, cn, spec), Unfilings(messages, cn, spec), 0, |messages|)
  {
    if messages != [] {
      var n := |messages| - 1;
      FiledIff(messages[..n], cn, spec);
      if messages[n].AccessChange? {
        FiledStep(LastAccess(messages[..n]), messages[n], cn, spec);
      }
      SinceStep(Filings(messages[..n], cn, spec), Unfilings(messages[..n], cn, spec), Filings(messages, cn, spec),
                Unfilings(messages, cn, spec), 0, n);
    }
  }

  /** Every spec in the message has a name, as the schemas of the custom resources demand. */
  predicate Named(m: Message) {
    match m
    case ConfigUpdate(spec, _, _) => !Nameless(spec)
    case Rotated(_, _) => true
    case AccessChange(before, after, _, _, _) => !Nameless(before) && !Nameless(after)
  }

  /** So with named specs and no empty reply it never panics. */
  lemma NamedNeverPanics(start: Option<CertSpec>, messages: seq<Message>)
    requires !Nameless(start)
    requires forall i :: 0 <= i < |messages| ==> Named(messages[i]) && messages[i].end != Panicked
    ensures !Served(start, messages).panicked
  {
    PanicsIff(start, messages);
    if j :| Strikes(start, messages, j) {
      LastSpecIsNamed(start, messages[..j]);
    }
  }

  lemma {:induction false} LastSpecIsNamed(start: Option<CertSpec>, messages: seq<Message>)
    requires !Nameless(start) && forall i :: 0 <= i < |messages| ==> Named(messages[i])
    ensures !Nameless(LastSpec(start, messages))
  {
    if messages != [] {
      LastSpecIsNamed(start, messages[..|messages| - 1]);
    }
  }

  /** The flight in which the issuing call of a message is answered: all calls under the name, the
      loop's own caller, and whether the API server accepts the secret. */
  datatype Answered = Answered(
    cn: string, signing: Issuer, validating: Issuer, steps: seq<Flights.Step>, caller: int, storeOk: bool)

  predicate ByIssuing(a: Answered) {
    && Flights.After(a.cn, a.signing, a.validating, a.steps).Some?
    && a.caller in Flights.After(a.cn, a.signing, a.validating, a.steps).value.got
    && Flights.After(a.cn, a.signing, a.validating, a.steps).value.got[a.caller].call.Issuing?
  }

  /** How it ends for the loop. */
  function EndOfFlight(a: Answered): End
    requires ByIssuing(a)
  {
    match Flights.Returned(Flights.After(a.cn, a.signing, a.validating, a.steps).value.got[a.caller])
    case Cert(None) => Panicked
    case Cert(Some(_)) => if a.storeOk then Stored else Refused
    case Error(_) => Refused
  }

  /** The call joined a lookup under its name that met an empty cache. */
  predicate JoinedEmptyLookup(a: Answered)
    requires ByIssuing(a)
  {
    Flights.After(a.cn, a.signing, a.validating, a.steps).value.got[a.caller].flight
    in Flights.EmptyLookups(a.cn, a.signing, a.validating, a.steps)
  }

  /** The name a message issues under. */
  function IssuedName(l: Loop, m: Message): string
    requires Issues(l, m)
  {
    match m
    case ConfigUpdate(spec, _, _) => spec.value.subjectAltNames[0]
    case Rotated(cn, _) =>
      if l.current.Some? && l.current.value.subjectAltNames != [] && cn == l.current.value.subjectAltNames[0] then cn
      else l.access[cn].subjectAltNames[0]
    case AccessChange(_, after, _, _, _) => after.value.subjectAltNames[0]
  }

  function Before(start: Option<CertSpec>, messages: seq<Message>, j: int): Loop
    requires 0 <= j <= |messages|
  {
    Loop(LastSpec(start, messages[..j]), LastAccess(messages[..j]), false)
  }

  /** Each issuing message ends as the flight of its call under that name does. */
  predicate AnsweredBy(start: Option<CertSpec>, messages: seq<Message>, flights: seq<Answered>) {
    && |flights| == |messages|
    && forall j :: 0 <= j < |messages| && Issues(Before(start, messages, j), messages[j]) ==>
         && ByIssuing(flights[j])
         && flights[j].cn == IssuedName(Before(start, messages, j), messages[j])
         && messages[j].end == EndOfFlight(flights[j])
  }

  /** The loop and the flights together: it panics if and only if some message indexes the names of
      a spec without any, or its issuing call joins a lookup under the same name that met an
      empty cache. */
  lemma PanicsIffLookup(start: Option<CertSpec>, messages: seq<Message>, flights: seq<Answered>)
    requires AnsweredBy(start, messages, flights)
    ensures Served(start, messages).panicked <==>
            exists j :: 0 <= j < |messages| && StrikesOrJoins(start, messages, flights, j)
  {
    PanicsIff(start, messages);
    forall j | 0 <= j < |messages|
      ensures Strikes(start, messages, j) <==> StrikesOrJoins(start, messages, flights, j)
    {
      if Issues(Before(start, messages, j), messages[j]) {
        var a := flights[j];
        Flights.NothingIff(a.cn, a.signing, a.validating, a.steps, a.caller);
      }
    }
  }

  predicate StrikesOrJoins(start: Option<CertSpec>, messages: seq<Message>, flights: seq<Answered>, j: int)
    requires AnsweredBy(start, messages, flights) && 0 <= j < |messages|
  {
    || IndexesNothing(Before(start, messages, j), messages[j])
    || (Issues(Before(start, messages, j), messages[j]) && JoinedEmptyLookup(flights[j]))
  }

  /** It happens, in each of the three ways: a MeshConfig whose gateway spec has no names, which is
      refused a certificate but kept, and then any rotation message; the deletion of an
      AccessCert without names, whatever the feature flag says; an empty reply. */
  lemma LoopPanics(spec: CertSpec, good: CertSpec, cn: string, end: End, enabled: bool)
    requires spec.subjectAltNames == [] && Usable(good) && good.validDuration
    ensures Served(None, [ConfigUpdate(Some(spec), true, end), Rotated(cn, end)]).panicked
    ensures Served(None, [AccessChange(Some(spec), None, enabled, true, end)]).panicked
    ensures Served(None, [ConfigUpdate(Some(good), true, Panicked)]).panicked
    ensures forall e, i: Issuers, w :: i.signing.Some? && i.validating.Some? ==>
            GatewayCert(e, i, spec, w).end == Refused
  {
    var messages := [ConfigUpdate(Some(spec), true, end), Rotated(cn, end)];
    assert messages[..1] == [ConfigUpdate(Some(spec), true, end)];
    assert messages[..1][..0] == [];
    assert [AccessChange(Some(spec), None, enabled, true, end)][..0] == [];
    assert [ConfigUpdate(Some(good), true, Panicked)][..0] == [];
  }

  // -------------------------------------------------------- the loop and the manager

  /** Where the message loop is: waiting, after the release, or before storing the secret. */
  datatype Place = Waiting | Released(cn: string) | Issued(cn: string, cert: Certificate)

  type Managed = map<string, SecretRef>

  /** `announced` are the rotation messages not yet taken; `unannounced` the rotated certificates
      that are cached but whose message is still to be sent; `managed` the names of the current
      specs with their secrets. */
  datatype State = State(
    cache: Cache,
    secrets: map<SecretRef, Certificate>,
    unannounced: seq<Certificate>,
    announced: seq<Certificate>,
    place: Place,
    managed: Managed)

  datatype Step =
    | IssueElsewhere(c: Call, s: Issuer, v: Issuer)
    | ReleaseElsewhere(key: string)
    | Announce
    | TakeMessage
    | Reissue(c: Call, s: Issuer, v: Issuer)
    | StoreSecret
    | Adopt(cn: string, secret: SecretRef, instead: set<string>)
    | Forget(cn: string)
    | Unmanage(cn: string)

  /** Others may issue under any key - sweeps do - but a managed name is its own full name; only
      the loop releases managed names; and its own reissuing meets no API failure. Messages about
      specs come between rotation messages: a spec is adopted, instead of others whose secrets
      stay; its secret and certificate are removed; or it only leaves. */
  predicate Enabled(st: State, step: Step) {
    match step
    case IssueElsewhere(c, _, _) => c.prefix in st.managed ==> c.opts.fullCNProvided
    case ReleaseElsewhere(key) => key !in st.managed
    case Announce => st.unannounced != []
    case TakeMessage => st.place == Waiting && st.announced != []
    case Reissue(c, _, _) => st.place.Released? && c.prefix == st.place.cn && c.opts.fullCNProvided && c.answer.Success?
    case StoreSecret => st.place.Issued?
    case Adopt(cn, secret, instead) => st.place == Waiting && DistinctSecrets((st.managed - instead)[cn := secret])
    case Forget(cn) => st.place == Waiting && cn in st.managed
    case Unmanage(cn) => st.place == Waiting && cn in st.managed
  }

  function Note(st: State, o: Outcome): State {
    st.(cache := o.cache, unannounced := st.unannounced + (if o.rotated.Some? then [o.rotated.value.1] else []))
  }

  function Apply(st: State, step: Step): State
    requires Enabled(st, step)
  {
    match step
    case IssueElsewhere(c, s, v) => Note(st, Issue(st.cache, s, v, c))
    case ReleaseElsewhere(key) => st.(cache := st.cache - {key})
    case Announce => st.(announced := st.announced + [st.unannounced[0]], unannounced := st.unannounced[1..])
    case TakeMessage =>
      var cn := st.announced[0].commonName;
      var st' := st.(announced := st.announced[1..]);
      if cn in st.managed then st'.(cache := st.cache - {cn}, place := Released(cn)) else st'
    case Reissue(c, s, v) =>
      var o := Issue(st.cache, s, v, c);
      Note(st, o).(place := if o.result.Success? then Issued(c.prefix, o.result.value) else Waiting)
    case StoreSecret =>
      if st.place.cn in st.managed
        then st.(secrets := st.secrets[st.managed[st.place.cn] := st.place.cert], place := Waiting)
          else st.(place := Waiting)
    case Adopt(cn, secret, instead) =>
      st.(managed := (st.managed - instead)[cn := secret], cache := st.cache - {cn}, place := Released(cn))
    case Forget(cn) =>
      st.(managed := st.managed - {cn}, secrets := st.secrets - {st.managed[cn]}, cache := st.cache - {cn})
    case Unmanage(cn) => st.(managed := st.managed - {cn})
  }

  function After(start: State, steps: seq<Step>): Option<State> {
    if steps == [] then Some(start)
    else
      var st := After(start, steps[..|steps| - 1]);
      if st.Some? && Enabled(st.value, steps[|steps| - 1])
        then Some(Apply(st.value, steps[|steps| - 1])) else None
  }

  predicate UpToDate(st: State, cn: string)
    requires cn in st.managed
  {
    cn in st.cache && st.managed[cn] in st.secrets && st.secrets[st.managed[cn]] == st.cache[cn]
  }

  predicate Pending(st: State, cn: string) {
    exists i :: 0 <= i < |st.announced + st.unannounced| && (st.announced + st.unannounced)[i].commonName == cn
  }

  predicate InWork(st: State, cn: string) {
    || st.place == Released(cn)
    || (st.place.Issued? && st.place.cn == cn && cn in st.cache && (st.cache[cn] == st.place.cert || Pending(st, cn)))
  }

  /** A secret that differs from the cache will be refreshed: a message for it is under way or
      the loop is working on it. */
  predicate Inv(st: State) {
    && (st.place.Released? ==> st.place.cn in st.managed)
    && (st.place.Issued? ==> st.place.cn in st.managed && InWork(st, st.place.cn))
    && DistinctSecrets(st.managed)
    && forall cn :: cn in st.managed ==>
         && (UpToDate(st, cn) || Pending(st, cn) || InWork(st, cn))
         && (cn !in st.cache ==> st.place == Released(cn))
  }

  predicate DistinctSecrets(managed: Managed) {
    forall a, b :: a in managed && b in managed && managed[a] == managed[b] ==> a == b
  }

  lemma IssueCases(cache: Cache, s: Issuer, v: Issuer, c: Call)
    ensures var o := Issue(cache, s, v, c);
            && (forall key :: key in cache ==> key in o.cache)
            && (forall key :: key in o.cache && key != c.prefix ==> key in cache && o.cache[key] == cache[key])
            && (o.rotated.None? && c.prefix in cache ==> o.cache == cache)
            && (o.rotated.Some? ==> c.prefix in cache && c.prefix in o.cache && o.rotated.value.1 == o.cache[c.prefix])
            && (o.rotated.Some? && c.opts.fullCNProvided ==> o.rotated.value.1.commonName == c.prefix)
            && (o.result.Success? ==> c.prefix in o.cache && o.result.value == o.cache[c.prefix])
            && (c.answer.Success? ==> o.result.Success?)
            && (o.rotated.Some? <==> Renews(cache, s, v, c) && c.answer.Success?)
  {
  }

  lemma PendingGrows(st: State, st': State, more: seq<Certificate>, cn: string)
    requires st'.announced == st.announced && st'.unannounced == st.unannounced + more
    ensures Pending(st, cn) ==> Pending(st', cn)
    ensures more != [] && more[|more| - 1].commonName == cn ==> Pending(st', cn)
  {
    var all, all' := st.announced + st.unannounced, st'.announced + st'.unannounced;
    assert all' == all + more;
    if Pending(st, cn) {
      var i :| 0 <= i < |all| && all[i].commonName == cn;
      assert all'[i].commonName == cn;
    }
    if more != [] && more[|more| - 1].commonName == cn {
      assert all'[|all'| - 1].commonName == cn;
    }
  }

  lemma IssueElsewhereKeepsInv(st: State, c: Call, s: Issuer, v: Issuer)
    requires Inv(st) && Enabled(st, IssueElsewhere(c, s, v))
    ensures Inv(Apply(st, IssueElsewhere(c, s, v)))
  {
    var st', o := Apply(st, IssueElsewhere(c, s, v)), Issue(st.cache, s, v, c);
    IssueCases(st.cache, s, v, c);
    forall cn | cn in st.managed
      ensures UpToDate(st', cn) || Pending(st', cn) || InWork(st', cn)
      ensures cn !in st'.cache ==> st'.place == Released(cn)
      ensures st'.place.Issued? && st'.place.cn == cn ==> InWork(st', cn)
    {
      PendingGrows(st, st', if o.rotated.Some? then [o.rotated.value.1] else [], cn);
    }
  }

  lemma AnnounceKeepsInv(st: State)
    requires Inv(st) && Enabled(st, Announce)
    ensures Inv(Apply(st, Announce))
  {
    var st' := Apply(st, Announce);
    assert st'.announced + st'.unannounced == st.announced + st.unannounced;
    assert forall cn :: Pending(st', cn) <==> Pending(st, cn);
  }

  lemma TakeKeepsInv(st: State)
    requires Inv(st) && Enabled(st, TakeMessage)
    ensures Inv(Apply(st, TakeMessage))
  {
    var st', taken := Apply(st, TakeMessage), st.announced[0].commonName;
    var all, all' := st.announced + st.unannounced, st'.announced + st'.unannounced;
    assert all' == all[1..];
    forall cn | cn in st.managed && cn != taken
      ensures Pending(st, cn) ==> Pending(st', cn)
    {
      if Pending(st, cn) {
        var i :| 0 <= i < |all| && all[i].commonName == cn;
        assert i > 0 && all'[i - 1].commonName == cn;
      }
    }
  }

  lemma ReissueKeepsInv(st: State, c: Call, s: Issuer, v: Issuer)
    requires Inv(st) && Enabled(st, Reissue(c, s, v))
    ensures Inv(Apply(st, Reissue(c, s, v)))
  {
    var st', o := Apply(st, Reissue(c, s, v)), Issue(st.cache, s, v, c);
    IssueCases(st.cache, s, v, c);
    forall cn | cn in st.managed
      ensures UpToDate(st', cn) || Pending(st', cn) || InWork(st', cn)
      ensures cn in st'.cache
    {
      PendingGrows(st, st', if o.rotated.Some? then [o.rotated.value.1] else [], cn);
    }
  }

  lemma StoreKeepsInv(st: State)
    requires Inv(st) && Enabled(st, StoreSecret)
    ensures Inv(Apply(st, StoreSecret))
  {
    var st' := Apply(st, StoreSecret);
    assert st'.announced + st'.unannounced == st.announced + st.unannounced;
    assert forall cn :: Pending(st', cn) <==> Pending(st, cn);
    forall cn | cn in st.managed
      ensures UpToDate(st', cn) || Pending(st', cn)
    {
      if cn == st.place.cn {
        assert InWork(st, cn);
      }
    }
  }

  lemma SpecsKeepInv(st: State, step: Step)
    requires Inv(st) && Enabled(st, step) && (step.Adopt? || step.Forget? || step.Unmanage?)
    ensures Inv(Apply(st, step))
  {
    var st' := Apply(st, step);
    assert st'.announced + st'.unannounced == st.announced + st.unannounced;
    assert forall cn :: Pending(st', cn) <==> Pending(st, cn);
    forall cn | cn in st'.managed && cn != step.cn
      ensures UpToDate(st, cn) ==> UpToDate(st', cn)
      ensures cn in st.managed && st'.managed[cn] == st.managed[cn]
    {
    }
  }

  lemma StepKeepsInv(st: State, step: Step)
    requires Inv(st) && Enabled(st, step)
    ensures Inv(Apply(st, step))
  {
    match step {
      case IssueElsewhere(c, s, v) => IssueElsewhereKeepsInv(st, c, s, v);
      case ReleaseElsewhere(key) =>
        var st' := Apply(st, step);
        assert forall cn :: Pending(st', cn) <==> Pending(st, cn);
        assert forall cn :: cn in st.managed && InWork(st, cn) ==> InWork(st', cn);
      case Announce => AnnounceKeepsInv(st);
      case TakeMessage => TakeKeepsInv(st);
      case Reissue(c, s, v) => ReissueKeepsInv(st, c, s, v);
      case StoreSecret => StoreKeepsInv(st);
      case Adopt(_, _, _) => SpecsKeepInv(st, step);
      case Forget(_) => SpecsKeepInv(st, step);
      case Unmanage(_) => SpecsKeepInv(st, step);
    }
  }

  lemma {:induction false} ReachableInv(start: State, steps: seq<Step>)
    requires Inv(start) && After(start, steps).Some?
    ensures Inv(After(start, steps).value)
  {
    if steps != [] {
      ReachableInv(start, steps[..|steps| - 1]);
      StepKeepsInv(After(start, steps[..|steps| - 1]).value, steps[|steps| - 1]);
    }
  }

  /** All messages are sent and handled. */
  predicate Drained(st: State) {
    st.place == Waiting && st.announced == [] && st.unannounced == []
  }

  /** Over every interleaving with sweeps, other callers and changes of the specs, starting from
      provisioned secrets: once all messages are sent and handled, every secret of a current spec
      holds the cached certificate. */
  lemma DrainedSecretsAreCurrent(start: State, steps: seq<Step>, cn: string)
    requires DistinctSecrets(start.managed) && start.place == Waiting
    requires forall c :: c in start.managed ==> UpToDate(start, c)
    requires After(start, steps).Some? && cn in After(start, steps).value.managed
    requires Drained(After(start, steps).value)
    ensures UpToDate(After(start, steps).value, cn)
  {
    ReachableInv(start, steps);
  }

  /** No feedback: handling one message without interruption sends no message, so the backlog
      shrinks by exactly one. */
  lemma NoFeedback(st: State, c: Call, s: Issuer, v: Issuer)
    requires Enabled(st, TakeMessage) && st.announced[0].commonName in st.managed
    requires c.prefix == st.announced[0].commonName && c.opts.fullCNProvided && c.answer.Success?
    ensures var st1 := Apply(st, TakeMessage);
            && Enabled(st1, Reissue(c, s, v))
            && var st2 := Apply(st1, Reissue(c, s, v));
            && Enabled(st2, StoreSecret)
            && var st3 := Apply(st2, StoreSecret);
            && st3.announced == st.announced[1..] && st3.unannounced == st.unannounced && st3.place == Waiting
            && UpToDate(st3, c.prefix)
  {
    IssueCases(st.cache - {c.prefix}, s, v, c);
  }

  /** The managed names are those of the current spec and of the access certificates, whose specs
      are usable and filed under their names. */
  ghost predicate Manages(managed: Managed, current: Option<CertSpec>, accessCerts: map<string, CertSpec>) {
    && (current.Some? ==> Usable(current.value) && current.value.validDuration)
    && (forall cn :: cn in accessCerts ==> Usable(accessCerts[cn]) && accessCerts[cn].subjectAltNames[0] == cn)
    && (forall cn :: cn in managed <==> (current.Some? && cn == current.value.subjectAltNames[0]) || cn in accessCerts)
    && (forall cn :: cn in managed ==>
         managed[cn] ==
           if current.Some? && cn == current.value.subjectAltNames[0] then current.value.secret
             else accessCerts[cn].secret)
  }

  /** The steps of the run are those of the handler: one after the other, without interruption,
      they refresh what `DoCertRotate` refreshes. */
  lemma StepsAreTheHandler(st: State, current: Option<CertSpec>, accessCerts: map<string, CertSpec>,
                           i: Issuers, w: World)
    requires Enabled(st, TakeMessage) && !Nameless(current) && i.signing.Some? && i.validating.Some?
    requires Manages(st.managed, current, accessCerts) && w.answer.Success? && w.storeOk && !w.nothing
    ensures var cn := st.announced[0].commonName;
            var r := Refreshed(Effect(st.cache, st.secrets, Stored), i, current, accessCerts, cn, w);
            var st1 := Apply(st, TakeMessage);
            if cn !in st.managed then r == Effect(st1.cache, st1.secrets, Stored)
            else
              var ct := if current.Some? && cn == current.value.subjectAltNames[0] then IngressGateway else Service;
              var reissue := Reissue(Request(cn, ct, w), i.signing.value, i.validating.value);
              && Enabled(st1, reissue)
              && var st2 := Apply(st1, reissue);
              && Enabled(st2, StoreSecret)
              && var st3 := Apply(st2, StoreSecret);
              r == Effect(st3.cache, st3.secrets, Stored)
  {
  }

  /** So do the steps for a new spec, and for one that is removed. */
  lemma StepsAreTheUpdate(st: State, spec: CertSpec, ct: CertType, instead: set<string>, i: Issuers, w: World)
    requires Usable(spec) && i.signing.Some? && i.validating.Some? && w.answer.Success? && w.storeOk && !w.nothing
    requires Enabled(st, Adopt(spec.subjectAltNames[0], spec.secret, instead))
    ensures var cn := spec.subjectAltNames[0];
            var r := Reissued(Effect(st.cache, st.secrets, Stored), i, spec, ct, w);
            var st1 := Apply(st, Adopt(cn, spec.secret, instead));
            var reissue := Reissue(Request(cn, ct, w), i.signing.value, i.validating.value);
            && Enabled(st1, reissue)
            && var st2 := Apply(st1, reissue);
            && Enabled(st2, StoreSecret)
            && var st3 := Apply(st2, StoreSecret);
            r == Effect(st3.cache, st3.secrets, Stored)
  {
  }

  lemma StepIsTheRemoval(st: State, spec: CertSpec, w: World)
    requires spec.subjectAltNames != [] && w.deleteOk && Enabled(st, Forget(spec.subjectAltNames[0]))
    requires st.managed[spec.subjectAltNames[0]] == spec.secret
    ensures var st' := Apply(st, Forget(spec.subjectAltNames[0]));
            Removed(Effect(st.cache, st.secrets, Stored), spec, w) == Effect(st'.cache, st'.secrets, Stored)
  {
  }

  /** In general a reissue announces a rotation if and only if somebody put a certificate back
      meanwhile that is itself due for rotation. */
  lemma ReissueAnnouncesIff(st: State, c: Call, s: Issuer, v: Issuer)
    requires Enabled(st, Reissue(c, s, v))
    ensures Apply(st, Reissue(c, s, v)).unannounced == st.unannounced <==>
            !(c.prefix in st.cache && ShouldRotate(st.cache[c.prefix], s, v, c.now, c.noise))
  {
    IssueCases(st.cache, s, v, c);
    var o := Issue(st.cache, s, v, c);
    if o.rotated.Some? {
      assert |Apply(st, Reissue(c, s, v)).unannounced| == |st.unannounced| + 1;
    }
  }
}
