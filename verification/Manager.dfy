/** The certificate manager: its cache, issuing and rotating. */
module Manager {
  import opened Wrappers
  import opened Certificates

  const OSM_VALIDITY := 87600 * 3600 * 1000

  type Cache = map<string, Certificate>

  /** An issuing call together with everything it reads from outside: the clock, the noise, the
      issuer's answer and the validity configured for the certificate's type. */
  datatype Call = Call(prefix: string, ct: CertType, opts: Options, now: int, noise: Noise, answer: Result<int>,
                       validity: int)

  datatype Outcome = Outcome(cache: Cache, result: Result<Certificate>, rotated: Option<(Certificate, Certificate)>)

  predicate Renews(cache: Cache, signing: Issuer, validating: Issuer, c: Call) {
    c.prefix in cache && ShouldRotate(cache[c.prefix], signing, validating, c.now, c.noise)
  }

  /** The certificate an issuing round would produce; rotation carries the old names over. */
  function Product(cache: Cache, signing: Issuer, validating: Issuer, c: Call, serial: int): Certificate {
    NewCertificate(signing, validating, c.prefix, c.opts.fullCNProvided, c.ct,
                   if c.prefix in cache then Normalized(cache[c.prefix].saNames) else c.opts.saNames,
                   serial, c.now +
                     (if c.opts.validityDuration.Some? then c.opts.validityDuration.value else c.validity))
  }

  function Issue(cache: Cache, signing: Issuer, validating: Issuer, c: Call): Outcome {
    if c.prefix in cache && !Renews(cache, signing, validating, c) then Outcome(cache, Success(cache[c.prefix]), None)
    else
      match c.answer
      case Failure(e) => Outcome(cache, Failure(e), None)
      case Success(serial) =>
        var cert := Product(cache, signing, validating, c, serial);
        Outcome(cache[c.prefix := cert], Success(cert), if c.prefix in cache then Some((cache[c.prefix], cert))
                else None)
  }

  /** What a sweep reads from outside, key by key. */
  datatype Sweep = Sweep(now: int, noise: string -> Noise, answer: string -> Result<int>, ingressValidity: int,
                         serviceValidity: int)

  function ValidityOf(ct: CertType, ingressValidity: int, serviceValidity: int): int {
    match ct
    case Internal => OSM_VALIDITY
    case IngressGateway => ingressValidity
    case Service => serviceValidity
    case OtherType(_) => OSM_VALIDITY
  }

  /** How checkAndRotate asks for a certificate again: the kind is read off the cache key. */
  function Again(key: string, cert: Certificate, w: Sweep): Call {
    Call(key, cert.certType,
         if key == cert.commonName then Options(true, None, Normalized(cert.saNames, [key]))
           else Options(false, None, []),
         w.now, w.noise(key), w.answer(key), ValidityOf(cert.certType, w.ingressValidity, w.serviceValidity))
  }

  /** What a sweep makes of one cached certificate. */
  function SweptOne(key: string, cert: Certificate, signing: Issuer, validating: Issuer, w: Sweep): Certificate {
    if w.answer(key).Success? && ShouldRotate(cert, signing, validating, w.now, w.noise(key)) then
      NewCertificate(signing, validating, key, key == cert.commonName, cert.certType, Normalized(cert.saNames),
                     w.answer(key).value,
                     w.now + ValidityOf(cert.certType, w.ingressValidity, w.serviceValidity))
    else cert
  }

  /** A sweep treats every cached certificate on its own, in whatever order it meets them. */
  function Swept(cache: Cache, signing: Issuer, validating: Issuer, w: Sweep): Cache {
    map key | key in cache :: SweptOne(key, cache[key], signing, validating, w)
  }

  /** The keys a sweep replaces the certificate of. */
  function Replaced(cache: Cache, signing: Issuer, validating: Issuer, w: Sweep): set<string> {
    set key | key in cache && w.answer(key).Success? &&
      ShouldRotate(cache[key], signing, validating, w.now, w.noise(key))
  }

  /** Re-issuing one key changes that key only. */
  lemma SweepIsLocal(cache: Cache, key: string, signing: Issuer, validating: Issuer, w: Sweep)
    requires key in cache
    ensures Issue(cache, signing, validating, Again(key, cache[key], w)).cache ==
            cache[key := SweptOne(key, cache[key], signing, validating, w)]
    ensures Issue(cache, signing, validating, Again(key, cache[key], w)).rotated ==
            if key in Replaced(cache, signing, validating, w)
            then Some((cache[key], SweptOne(key, cache[key], signing, validating, w))) else None
  {
    if w.answer(key).Failure? || !ShouldRotate(cache[key], signing, validating, w.now, w.noise(key)) {
      assert cache[key := cache[key]] == cache;
    }
  }

  /** Since `start`, one announcement was added for each of these keys, of its old and its new
      value, and no other. */
  ghost predicate Announced<T>(start: seq<(T, T)>, news: seq<(T, T)>, before: map<string, T>, now: map<string, T>,
                               keys: set<string>) {
    && keys <= before.Keys && keys <= now.Keys
    && start <= news && |news| == |start| + |keys|
    && forall k :: k in keys ==> (before[k], now[k]) in news[|start|..]
  }

  /** What a sweep started from and what it is to reach. */
  datatype Plan<T> = Plan(start: seq<(T, T)>, before: map<string, T>, goal: map<string, T>, keys: set<string>)

  /** A sweep with `todo` ahead of it. */
  ghost predicate Underway<T>(p: Plan<T>, news: seq<(T, T)>, now: map<string, T>, todo: set<string>) {
    && todo <= p.before.Keys && p.before.Keys == p.goal.Keys == now.Keys
    && (forall k :: k in now ==> now[k] == if k in todo then p.before[k] else p.goal[k])
    && Announced(p.start, news, p.before, now, p.keys - todo)
  }

  lemma Departure<T>(p: Plan<T>)
    requires p.before.Keys == p.goal.Keys && p.keys <= p.before.Keys
    ensures Underway(p, p.start, p.before, p.before.Keys)
  {
    assert p.keys - p.before.Keys == {};
  }

  lemma OneStepOn<T>(p: Plan<T>, news: seq<(T, T)>, now: map<string, T>, todo: set<string>, key: string)
    requires Underway(p, news, now, todo) && key in todo
    ensures Underway(p, if key in p.keys then news + [(p.before[key], p.goal[key])]
                     else news, now[key := p.goal[key]], todo - {key})
  {
    if key in p.keys {
      var pair := (p.before[key], p.goal[key]);
      var more, from := news + [pair], |p.start|;
      assert p.keys - (todo - {key}) == (p.keys - todo) + {key};
      assert more[from..] == news[from..] + [pair];
      assert more[from..][|news| - from] == pair;
    } else {
      assert p.keys - (todo - {key}) == p.keys - todo;
    }
  }

  lemma Arrival<T>(p: Plan<T>, news: seq<(T, T)>, now: map<string, T>)
    requires Underway(p, news, now, {})
    ensures now == p.goal && Announced(p.start, news, p.before, now, p.keys)
  {
    assert p.keys - {} == p.keys;
  }

  function PlanOf(start: seq<(Certificate, Certificate)>, certs: Cache, i: Issuers, w: Sweep): Plan<Certificate>
    requires i.signing.Some? && i.validating.Some?
  {
    Plan(start, certs, Swept(certs, i.signing.value, i.validating.value, w),
         Replaced(certs, i.signing.value, i.validating.value, w))
  }

  class CertManager {
    var cache: Cache
    var issuers: Issuers
    var published: seq<(Certificate, Certificate)>
    var ingressValidity: int
    var serviceValidity: int

    constructor (ingressValidity: int, serviceValidity: int)
      ensures cache == map[] && issuers == Issuers(None, None) && published == []
      ensures this.ingressValidity == ingressValidity && this.serviceValidity == serviceValidity
    {
      this.ingressValidity, this.serviceValidity := ingressValidity, serviceValidity;
      cache, issuers, published := map[], Issuers(None, None), [];
    }

    /** handleMRCEvent. */
    method HandleMrcEvent(e: MrcEvent) returns (ok: bool)
      modifies `issuers
      ensures issuers == Appointed(old(issuers), e)
      ensures ok <==> !(e.MrcAdded? && e.mrc.state != ErrorState && e.mrc.authority == None)
    {
      if e.MrcAdded? {
        if e.mrc.state == ErrorState {
          return true;
        }
        if e.mrc.authority == None {
          return false;
        }
        var c := Some(Issuer(e.mrc.name, e.mrc.trustDomain, e.mrc.authority.value.ca, e.mrc.authority.value.cnFirst));
        var state := e.mrc.state;
        if state == Active {
          issuers := Issuers(c, c);
        } else if state == IssuingRollback || state == IssuingRollout {
          issuers := issuers.(signing := c);
        } else if state == ValidatingRollback || state == ValidatingRollout {
          issuers := issuers.(validating := c);
        } else {
          issuers := Issuers(c, c);
        }
      }
      return true;
    }

    method ReleaseCertificate(key: string)
      modifies `cache
      ensures cache == old(cache) - {key}
    {
      cache := cache - {key};
    }

    /** issueCertificate, once both issuers are known. */
    method IssueCertificate(c: Call) returns (r: Result<Certificate>)
      requires issuers.signing.Some? && issuers.validating.Some?
      modifies `cache, `published
      ensures var o := Issue(old(cache), issuers.signing.value, issuers.validating.value, c);
              && cache == o.cache && r == o.result
              && published == old(published) + (if o.rotated.Some? then [o.rotated.value] else [])
    {
      var rotate := false;
      if c.prefix in cache {
        var cert := cache[c.prefix];
        rotate := ShouldRotate(cert, issuers.signing.value, issuers.validating.value, c.now, c.noise);
        if !rotate {
          return Success(cert);
        }
      }
      var saNames := c.opts.saNames;
      if rotate {
        saNames := UniqueSubjectAlternativeNames(cache[c.prefix].saNames, []);
      }
      var signingIssuer, validatingIssuer := issuers.signing.value, issuers.validating.value;
      if c.answer.Failure? {
        return Failure(c.answer.error);
      }
      var period := if c.opts.validityDuration.Some? then c.opts.validityDuration.value else c.validity;
      var newCert := NewCertificate(signingIssuer, validatingIssuer, c.prefix, c.opts.fullCNProvided, c.ct, saNames,
                                    c.answer.value, c.now + period);
      if rotate {
        published := published + [(cache[c.prefix], newCert)];
      }
      cache := cache[c.prefix := newCert];
      return Success(newCert);
    }

    /** checkAndRotate: every key of a snapshot, in no particular order. */
    method CheckAndRotate(w: Sweep)
      requires issuers.signing.Some? && issuers.validating.Some?
      requires w.ingressValidity == ingressValidity && w.serviceValidity == serviceValidity
      modifies `cache, `published
      ensures cache == Swept(old(cache), issuers.signing.value, issuers.validating.value, w)
      ensures var replaced := Replaced(old(cache), issuers.signing.value, issuers.validating.value, w);
              Announced(old(published), published, old(cache), cache, replaced)
    {
      ghost var plan := PlanOf(published, cache, issuers, w);
      Departure(plan);
      CheckAll(cache, w, plan);
      Arrival(plan, published, cache);
    }

    /** The loop over the snapshot. */
    method CheckAll(certs: Cache, w: Sweep, ghost plan: Plan<Certificate>)
      requires issuers.signing.Some? && issuers.validating.Some?
      requires w.ingressValidity == ingressValidity && w.serviceValidity == serviceValidity
      requires plan == PlanOf(plan.start, certs, issuers, w)
      requires Underway(plan, published, cache, certs.Keys)
      modifies `cache, `published
      ensures Underway(plan, published, cache, {})
    {
      var todo := certs.Keys;
      while todo != {}
        invariant Underway(plan, published, cache, todo)
      {
        var key :| key in todo;
        Round(certs, todo, key, w, plan);
        todo := todo - {key};
      }
    }

    /** One round of the loop. */
    method Round(certs: Cache, todo: set<string>, key: string, w: Sweep, ghost plan: Plan<Certificate>)
      requires issuers.signing.Some? && issuers.validating.Some?
      requires w.ingressValidity == ingressValidity && w.serviceValidity == serviceValidity
      requires plan == PlanOf(plan.start, certs, issuers, w)
      requires key in todo && Underway(plan, published, cache, todo)
      modifies `cache, `published
      ensures Underway(plan, published, cache, todo - {key})
    {
      OneStepOn(plan, published, cache, todo, key);
      SweepIsLocal(cache, key, issuers.signing.value, issuers.validating.value, w);
      CheckOne(key, certs[key], w);
    }

    /** One certificate of the snapshot is asked for again the way its key says; by now the cache
        may hold another one, or none. */
    method CheckOne(key: string, cert: Certificate, w: Sweep)
      requires issuers.signing.Some? && issuers.validating.Some?
      requires w.ingressValidity == ingressValidity && w.serviceValidity == serviceValidity
      modifies `cache, `published
      ensures var o := Issue(old(cache), issuers.signing.value, issuers.validating.value, Again(key, cert, w));
              && cache == o.cache
              && published == if o.rotated.Some? then old(published) + [o.rotated.value] else old(published)
    {
      var opts := Options(false, None, []);
      if key == cert.commonName {
        var sans := UniqueSubjectAlternativeNames(cert.saNames, [key]);
        opts := Options(true, None, sans);
      }
      var validity := ValidityOf(cert.certType, ingressValidity, serviceValidity);
      var _ := IssueCertificate(Call(key, cert.certType, opts, w.now, w.noise(key), w.answer(key), validity));
    }
  }
}
