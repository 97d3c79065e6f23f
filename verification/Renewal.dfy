/** Real time: how close to its end a cached certificate can ever get. */
module Renewal {
  import opened Wrappers
  import opened Certificates
  import opened Manager

  /** `granted` is the validity each cached certificate was issued with. */
  datatype State = State(now: int, lastTick: int, cache: Cache, granted: map<string, int>)

  const START := State(0, 0, map[], map[])

  datatype Step =
    | Advance(dt: nat)
    | Tick(w: Sweep, s: Issuer, v: Issuer)
    | Ask(c: Call, s: Issuer, v: Issuer)
    | Release(key: string)

  /** No tick of the rotation ticker is missed, and a sweep takes no time and succeeds. */
  ghost predicate Enabled(st: State, interval: nat, step: Step) {
    match step
    case Advance(dt) => st.now + dt <= st.lastTick + interval
    case Tick(w, _, _) => w.now == st.now && forall key :: key in st.cache ==> w.answer(key).Success?
    case Ask(c, _, _) => c.now == st.now
    case Release(_) => true
  }

  function Period(c: Call): int {
    if c.opts.validityDuration.Some? then c.opts.validityDuration.value else c.validity
  }

  function Apply(st: State, step: Step): State {
    match step
    case Advance(dt) => st.(now := st.now + dt)
    case Tick(w, s, v) =>
      st.(lastTick := st.now, cache := Swept(st.cache, s, v, w),
      granted := map key | key in st.cache && key in st.granted ::
        if ShouldRotate(st.cache[key], s, v, w.now, w.noise(key)) then Period(Again(key, st.cache[key], w))
          else st.granted[key])
    case Ask(c, s, v) =>
      var issued := c.answer.Success? && (c.prefix !in st.cache || Renews(st.cache, s, v, c));
      st.(cache := Issue(st.cache, s, v, c).cache, granted := if issued then st.granted[c.prefix := Period(c)]
          else st.granted)
    case Release(key) => st.(cache := st.cache - {key}, granted := st.granted - {key})
  }

  ghost function After(interval: nat, steps: seq<Step>): Option<State> {
    if steps == [] then Some(START)
    else
      var st := After(interval, steps[..|steps| - 1]);
      if st.Some? && Enabled(st.value, interval, steps[|steps| - 1]) then Some(Apply(st.value, steps[|steps| - 1]))
        else None
  }

  function Min(a: int, b: int): int {
    if a <= b then a else b
  }

  /** At the last tick every certificate had its reserve, and no more than the time since is gone. */
  predicate Reserved(st: State, key: string)
    requires key in st.cache && key in st.granted
  {
    st.cache[key].expiration - st.now >= Min(RENEW_BEFORE, st.granted[key]) - (st.now - st.lastTick)
  }

  predicate Inv(st: State, interval: nat) {
    && st.cache.Keys == st.granted.Keys
    && st.lastTick <= st.now <= st.lastTick + interval
    && forall key :: key in st.cache ==> Reserved(st, key)
  }

  lemma SweptExpiration(key: string, cert: Certificate, s: Issuer, v: Issuer, w: Sweep)
    requires w.answer(key).Success?
    ensures SweptOne(key, cert, s, v, w).expiration ==
            if ShouldRotate(cert, s, v, w.now, w.noise(key)) then w.now + Period(Again(key, cert, w))
              else cert.expiration
  {
  }

  lemma IssuedExpiration(cache: Cache, s: Issuer, v: Issuer, c: Call)
    ensures var issued := c.answer.Success? && (c.prefix !in cache || Renews(cache, s, v, c));
            var cache' := Issue(cache, s, v, c).cache;
            && (forall key :: key in cache' <==> key in cache || (issued && key == c.prefix))
            && (forall key :: key in cache' && !(issued && key == c.prefix) ==> cache'[key] == cache[key])
            && (issued ==> cache'[c.prefix].expiration == c.now + Period(c))
  {
  }

  lemma TickKeepsInv(st: State, interval: nat, w: Sweep, s: Issuer, v: Issuer)
    requires Inv(st, interval) && Enabled(st, interval, Tick(w, s, v))
    ensures Inv(Apply(st, Tick(w, s, v)), interval)
  {
    var st' := Apply(st, Tick(w, s, v));
    assert st'.cache.Keys == st.cache.Keys == st'.granted.Keys;
    forall key | key in st'.cache
      ensures Reserved(st', key)
    {
      SweptExpiration(key, st.cache[key], s, v, w);
    }
  }

  lemma AskKeepsInv(st: State, interval: nat, c: Call, s: Issuer, v: Issuer)
    requires Inv(st, interval) && Enabled(st, interval, Step.Ask(c, s, v))
    ensures Inv(Apply(st, Step.Ask(c, s, v)), interval)
  {
    var st' := Apply(st, Step.Ask(c, s, v));
    IssuedExpiration(st.cache, s, v, c);
    assert st'.cache.Keys == st'.granted.Keys;
    forall key | key in st'.cache
      ensures Reserved(st', key)
    {
      assert key in st.cache ==> Reserved(st, key);
    }
  }

  lemma StepKeepsInv(st: State, interval: nat, step: Step)
    requires Inv(st, interval) && Enabled(st, interval, step)
    ensures Inv(Apply(st, step), interval)
  {
    match step {
      case Tick(w, s, v) => TickKeepsInv(st, interval, w, s, v);
      case Ask(c, s, v) => AskKeepsInv(st, interval, c, s, v);
      case _ =>
        forall key | key in Apply(st, step).cache
          ensures Reserved(Apply(st, step), key)
        {
          assert Reserved(st, key);
        }
    }
  }

  lemma {:induction false} ReachableInv(interval: nat, steps: seq<Step>)
    requires After(interval, steps).Some?
    ensures Inv(After(interval, steps).value, interval)
  {
    if steps != [] {
      ReachableInv(interval, steps[..|steps| - 1]);
      StepKeepsInv(After(interval, steps[..|steps| - 1]).value, interval, steps[|steps| - 1]);
    }
  }

  /** Renewal bound: at every instant of every run, for every choice of the noise, a cached
      certificate has at least min(30 s, its granted validity) minus the check interval left.
      In particular none is ever expired if the interval is shorter than both. */
  lemma RenewalBound(interval: nat, steps: seq<Step>, key: string)
    requires After(interval, steps).Some? && key in After(interval, steps).value.cache
    ensures var st := After(interval, steps).value;
            && key in st.granted
            && st.cache[key].expiration - st.now >= Min(RENEW_BEFORE, st.granted[key]) - interval
            && (interval < RENEW_BEFORE && interval < st.granted[key] ==> st.cache[key].expiration > st.now)
  {
    ReachableInv(interval, steps);
    assert Reserved(After(interval, steps).value, key);
  }

  /** What the renewal of a type of certificate is good for. */
  function Lifetime(ct: CertType, w: Sweep): int {
    if ct == Service then w.serviceValidity else if ct == IngressGateway then w.ingressValidity else 87600 * 3600 * 1000
  }

  /** Neither late nor early: a sweep replaces a cached certificate exactly if it has at most 30 s and
      the noise left or is not of the present issuers, and the new one is good for the validity
      of its type. One of the present issuers with more than 34 s left always stays. */
  lemma RenewedExactly(interval: nat, steps: seq<Step>, w: Sweep, s: Issuer, v: Issuer, key: string)
    requires After(interval, steps).Some? && key in After(interval, steps).value.cache
    requires Enabled(After(interval, steps).value, interval, Tick(w, s, v))
    ensures var st := After(interval, steps).value;
            var cert, next := st.cache[key], Apply(st, Tick(w, s, v)).cache[key];
            var present := cert.signingIssuerID == s.id && cert.validatingIssuerID == v.id;
            && (if cert.expiration - st.now <= 30_000 + w.noise(key) || !present
                then next.expiration == st.now + Lifetime(cert.certType, w) && next.serial == w.answer(key).value
                     && next.signingIssuerID == s.id && next.validatingIssuerID == v.id
                     && next.certType == cert.certType
                else next == cert)
            && (present && cert.expiration - st.now > 34_000 ==> next == cert)
  {
  }

  /** The same for a request: what is cached is handed out again exactly as long as it is good. */
  lemma AskedExactly(interval: nat, steps: seq<Step>, c: Call, s: Issuer, v: Issuer)
    requires After(interval, steps).Some? && c.prefix in After(interval, steps).value.cache && c.answer.Success?
    requires Enabled(After(interval, steps).value, interval, Step.Ask(c, s, v))
    ensures var st := After(interval, steps).value;
            var cert, next := st.cache[c.prefix], Apply(st, Step.Ask(c, s, v)).cache[c.prefix];
            var present := cert.signingIssuerID == s.id && cert.validatingIssuerID == v.id;
            if cert.expiration - st.now <= 30_000 + c.noise || !present
            then next.expiration == st.now + Period(c) && next.serial == c.answer.value
            else next == cert
  {
  }
}
