/** Certificates, issuers and the certificate manager's decisions. The issuers themselves are
    abstract: asked for a name, alternative names and a validity they return a certificate
    with these, signed by and trusting their own root. Times are in milliseconds. */
module Certificates {
  import opened Wrappers

  const RENEW_BEFORE := 30_000
  /** The random noise is a whole number of seconds below five. */
  type Noise = n: int | n == 0 || n == 1_000 || n == 2_000 || n == 3_000 || n == 4_000

  datatype CertType = Internal | IngressGateway | Service | OtherType(name: string)

  /** A root certificate, one PEM block. */
  type Root = string

  /** `cnFirst` tells issuers apart: the built-in Tresor authority puts the common name in front
      of the alternative names, the others return the names they were asked for. */
  datatype Issuer = Issuer(id: string, trustDomain: string, ca: Root, cnFirst: bool)

  datatype Certificate = Certificate(
    commonName: string,
    saNames: seq<string>,
    serial: int,
    expiration: int,
    issuingCA: Root,
    trustedCAs: seq<Root>,
    signingIssuerID: string,
    validatingIssuerID: string,
    certType: CertType)

  // ----------------------------------------------------- subject alternative names

  predicate HasColon(san: string) {
    ':' in san
  }

  /** The names that survive: no address with a colon, none excluded, first occurrences only. */
  function Kept(sans: seq<string>, excluded: seq<string>): seq<string> {
    if sans == [] then []
    else
      var rest, last := Kept(sans[..|sans| - 1], excluded), sans[|sans| - 1];
      if HasColon(last) || last in excluded || last in rest then rest else rest + [last]
  }

  /** uniqueSubjectAlternativeNames leaves lists of at most one name alone. */
  function Normalized(sans: seq<string>, excluded: seq<string> := []): seq<string> {
    if |sans| > 1 then Kept(sans, excluded) else sans
  }

  method UniqueSubjectAlternativeNames(saNames: seq<string>, excludeSans: seq<string>) returns (r: seq<string>)
    ensures r == Normalized(saNames, excludeSans)
  {
    if |saNames| <= 1 {
      return saNames;
    }
    var sanMap: set<string> := {};
    r := [];
    for i := 0 to |saNames|
      invariant r == Kept(saNames[..i], excludeSans)
      invariant forall x :: x in sanMap <==> x in r
    {
      var san := saNames[i];
      assert saNames[..i + 1][..i] == saNames[..i];
      if ':' in san {
        continue;
      }
      var exclude := false;
      var j := 0;
      while j < |excludeSans|
        invariant 0 <= j <= |excludeSans|
        invariant !exclude && san !in excludeSans[..j]
      {
        if san == excludeSans[j] {
          exclude := true;
          break;
        }
        j := j + 1;
      }
      assert exclude <==> san in excludeSans;
      if exclude {
        continue;
      }
      if san !in sanMap {
        sanMap := sanMap + {san};
        r := r + [san];
      }
    }
    assert saNames[..|saNames|] == saNames;
  }

  predicate Clean(sans: seq<string>) {
    && (forall i :: 0 <= i < |sans| ==> !HasColon(sans[i]))
    && (forall i, j :: 0 <= i < j < |sans| ==> sans[i] != sans[j])
  }

  lemma {:induction false} KeptIsClean(sans: seq<string>, excluded: seq<string>)
    ensures Clean(Kept(sans, excluded))
    ensures forall x :: x in Kept(sans, excluded) <==> x in sans && !HasColon(x) && x !in excluded
  {
    if sans != [] {
      KeptIsClean(sans[..|sans| - 1], excluded);
      assert sans == sans[..|sans| - 1] + [sans[|sans| - 1]];
    }
  }

  lemma {:induction false} CleanIsKept(sans: seq<string>)
    requires Clean(sans)
    ensures Kept(sans, []) == sans
  {
    if sans != [] {
      CleanIsKept(sans[..|sans| - 1]);
      assert sans == sans[..|sans| - 1] + [sans[|sans| - 1]];
    }
  }

  /** Deduplication is idempotent. */
  lemma NormalizedTwice(sans: seq<string>, excluded: seq<string>)
    ensures Normalized(Normalized(sans, excluded)) == Normalized(sans, excluded)
  {
    if |sans| > 1 {
      KeptIsClean(sans, excluded);
      CleanIsKept(Kept(sans, excluded));
    }
  }

  lemma {:induction false} KeptWithHead(cn: string, sans: seq<string>)
    requires Clean(sans) && sans != [] && sans[0] == cn
    ensures Kept([cn] + sans, []) == sans
  {
    var all, n := [cn] + sans, |sans|;
    assert all[..n] == [cn] + sans[..n - 1];
    if n > 1 {
      KeptWithHead(cn, sans[..n - 1]);
      assert sans == sans[..n - 1] + [sans[n - 1]];
    } else {
      assert all[..1][..0] == [];
      assert Kept(all[..1], []) == [cn];
    }
  }

  // -------------------------------------------------------------------- issuing

  /** The options of a call after all option functions were applied. */
  datatype Options = Options(fullCNProvided: bool, validityDuration: Option<int>, saNames: seq<string>)

  function FormatCN(fullCN: bool, prefix: string, trustDomain: string): string {
    if fullCN then prefix else prefix + "." + trustDomain
  }

  /** A common name is its own cache key exactly if the full name was provided; otherwise it begins
      with the key, and the trust domain follows. */
  lemma KeyIsFullName(fullCN: bool, prefix: string, trustDomain: string)
    ensures FormatCN(fullCN, prefix, trustDomain) == prefix <==> fullCN
    ensures var cn := FormatCN(fullCN, prefix, trustDomain);
            !fullCN ==> prefix + "." <= cn && cn[|prefix| + 1..] == trustDomain
  {
    if !fullCN {
      assert |prefix + "." + trustDomain| > |prefix|;
    }
  }

  /** The alternative names an authority puts into a certificate. */
  function IssuedNames(cnFirst: bool, cn: string, requested: seq<string>): seq<string> {
    if cnFirst then Normalized([cn] + Normalized(requested)) else Normalized(requested)
  }

  /** What the holder of a certificate issued in this stage trusts. */
  function Trust(signing: Issuer, validating: Issuer): seq<Root> {
    if validating.id != signing.id then [signing.ca, validating.ca] else [signing.ca]
  }

  /** The certificate that comes out of an issuing round. */
  function NewCertificate(signing: Issuer, validating: Issuer, prefix: string, fullCN: bool, ct: CertType,
                          sans: seq<string>, serial: int, expiration: int): Certificate
  {
    var cn := FormatCN(fullCN, prefix, signing.trustDomain);
    Certificate(cn, IssuedNames(signing.cnFirst, cn, sans), serial, expiration, signing.ca, Trust(signing, validating),
                signing.id, validating.id, ct)
  }

  /** ShouldRotate, for a given value of the noise. */
  predicate ShouldRotate(c: Certificate, signing: Issuer, validating: Issuer, now: int, noise: Noise) {
    || c.expiration - now <= RENEW_BEFORE + noise
    || c.signingIssuerID != signing.id
    || c.validatingIssuerID != validating.id
  }

  // ---------------------------------------------------- issuer rotation by MRC events

  datatype MrcState =
    | Active | IssuingRollout | IssuingRollback | ValidatingRollout | ValidatingRollback | Inactive | ErrorState
      | Unknown(name: string)

  /** A MeshRootCertificate; `authority` is what the client builds an issuer from, if it can. */
  datatype Mrc = Mrc(name: string, state: MrcState, trustDomain: string, authority: Option<Authority>)

  datatype Authority = Authority(ca: Root, cnFirst: bool)

  datatype MrcEvent = MrcAdded(mrc: Mrc) | MrcUpdated(mrc: Mrc)

  datatype Issuers = Issuers(signing: Option<Issuer>, validating: Option<Issuer>)

  function IssuerOf(m: Mrc): Issuer
    requires m.authority.Some?
  {
    Issuer(m.name, m.trustDomain, m.authority.value.ca, m.authority.value.cnFirst)
  }

  datatype Role = Signing | Validating

  function Holder(i: Issuers, role: Role): Option<Issuer> {
    if role == Signing then i.signing else i.validating
  }

  /** The events that appoint an issuer to a role. */
  predicate Appoints(e: MrcEvent, role: Role) {
    && e.MrcAdded? && e.mrc.state != ErrorState && e.mrc.authority.Some?
    && (role == Signing ==> e.mrc.state != ValidatingRollout && e.mrc.state != ValidatingRollback)
    && (role == Validating ==> e.mrc.state != IssuingRollout && e.mrc.state != IssuingRollback)
  }

  function Appointed(i: Issuers, e: MrcEvent): Issuers {
    Issuers(if Appoints(e, Signing) then Some(IssuerOf(e.mrc)) else i.signing,
            if Appoints(e, Validating) then Some(IssuerOf(e.mrc)) else i.validating)
  }

  function AfterEvents(events: seq<MrcEvent>): Issuers {
    if events == [] then Issuers(None, None) else Appointed(AfterEvents(events[..|events| - 1]), events[|events| - 1])
  }

  /** No event from position k on appoints to the role. */
  predicate NoneFrom(events: seq<MrcEvent>, k: int, role: Role)
    requires 0 <= k <= |events|
  {
    forall j :: k <= j < |events| ==> !Appoints(events[j], role)
  }

  /** Over every sequence of events: each issuer is the one appointed by the last event that
      appoints to its role, whichever that is. */
  lemma {:induction false} LastAppointmentCounts(events: seq<MrcEvent>, k: nat, role: Role)
    requires k < |events| && Appoints(events[k], role) && NoneFrom(events, k + 1, role)
    ensures Holder(AfterEvents(events), role) == Some(IssuerOf(events[k].mrc))
  {
    var n := |events| - 1;
    if k < n {
      LastAppointmentCounts(events[..n], k, role);
    }
  }

  /** A role is vacant only if no event ever appointed to it: once set, it stays set. */
  lemma {:induction false} VacantOnlyBefore(events: seq<MrcEvent>, role: Role)
    ensures Holder(AfterEvents(events), role) == None <==> NoneFrom(events, 0, role)
  {
    if events != [] {
      var n := |events| - 1;
      VacantOnlyBefore(events[..n], role);
      assert NoneFrom(events, 0, role) <==> NoneFrom(events[..n], 0, role) && !Appoints(events[n], role);
    }
  }

  predicate IssuingState(state: MrcState) {
    state == IssuingRollout || state == IssuingRollback
  }

  predicate ValidatingState(state: MrcState) {
    state == ValidatingRollout || state == ValidatingRollback
  }

  /** An event that brings no issuer: an update, an MRC in error, or one no issuer can be built for. */
  predicate BringsNone(e: MrcEvent) {
    e.MrcUpdated? || e.mrc.state == ErrorState || e.mrc.authority == None
  }

  /** After every history, what the next event does by the state of its MRC: in an issuing state the
      new issuer signs and the validating one stays, in a validating state the other way round,
      in any other state, active or not, it takes both roles. */
  lemma RolesByState(events: seq<MrcEvent>, e: MrcEvent)
    ensures var i, j := AfterEvents(events), AfterEvents(events + [e]);
            if BringsNone(e) then j == i
            else
              var a := e.mrc.authority.value;
              var c := Some(Issuer(e.mrc.name, e.mrc.trustDomain, a.ca, a.cnFirst));
              j == if IssuingState(e.mrc.state) then Issuers(c, i.validating)
                   else if ValidatingState(e.mrc.state) then Issuers(i.signing, c)
                   else Issuers(c, c)
  {
    assert (events + [e])[..|events|] == events;
  }

  // ----------------------------------------------------------------------- trust

  predicate MutuallyTrusted(c: Certificate, d: Certificate) {
    c.issuingCA in d.trustedCAs && d.issuingCA in c.trustedCAs
  }

  /** `c` was issued while these were the manager's issuers. */
  predicate IssuedUnder(c: Certificate, signing: Issuer, validating: Issuer) {
    c.issuingCA == signing.ca && c.trustedCAs == Trust(signing, validating)
  }

  /** Exactly when two certificates of different stages accept each other. */
  lemma MutualTrustIff(c: Certificate, s1: Issuer, v1: Issuer, d: Certificate, s2: Issuer, v2: Issuer)
    requires IssuedUnder(c, s1, v1) && IssuedUnder(d, s2, v2)
    ensures MutuallyTrusted(c, d) <==>
            || s1.ca == s2.ca
            || (s1.ca == v2.ca && s2.ca == v1.ca && s1.id != v1.id && s2.id != v2.id)
  {
  }

  /** What a single MRC event does to trust, for every event: certificates issued before it and
      after it accept each other if and only if the signing root stays the same. A change of the
      validating issuer alone never separates them; a change of the signing root always does. */
  lemma EventKeepsTrustIff(i: Issuers, e: MrcEvent, c: Certificate, d: Certificate)
    requires i.signing.Some? && i.validating.Some?
    requires IssuedUnder(c, i.signing.value, i.validating.value)
    requires IssuedUnder(d, Appointed(i, e).signing.value, Appointed(i, e).validating.value)
    ensures MutuallyTrusted(c, d) <==> (Appoints(e, Signing) ==> e.mrc.authority.value.ca == i.signing.value.ca)
  {
    var j := Appointed(i, e);
    MutualTrustIff(c, i.signing.value, i.validating.value, d, j.signing.value, j.validating.value);
  }

  /** A rollout to the validating role never separates anybody: whatever is issued before and after
      it is accepted by both. */
  lemma ValidatingRolloutKeepsTrust(events: seq<MrcEvent>, e: MrcEvent, c: Certificate, d: Certificate)
    requires ValidatingState(e.mrc.state) || BringsNone(e)
    requires var i, j := AfterEvents(events), AfterEvents(events + [e]);
             && i.signing.Some? && i.validating.Some? && IssuedUnder(c, i.signing.value, i.validating.value)
             && j.signing.Some? && j.validating.Some? && IssuedUnder(d, j.signing.value, j.validating.value)
    ensures MutuallyTrusted(c, d)
  {
    RolesByState(events, e);
  }

  /** From an issuing rollout on, until another MRC is brought in for signing, every certificate is
      signed by the root of that MRC; and before the next MRC for validating, its holders still
      trust the root they were told to validate with. */
  lemma {:induction false} IssuingRolloutSigns(events: seq<MrcEvent>, e: MrcEvent, later: seq<MrcEvent>)
    requires !BringsNone(e) && IssuingState(e.mrc.state)
    requires forall k :: 0 <= k < |later| ==> BringsNone(later[k]) || ValidatingState(later[k].mrc.state)
    ensures var j := AfterEvents(events + [e] + later);
            && j.signing.Some? && j.signing.value.id == e.mrc.name && j.signing.value.ca == e.mrc.authority.value.ca
            && ((forall k :: 0 <= k < |later| ==> BringsNone(later[k])) ==>
                j.validating == AfterEvents(events).validating)
  {
    if later == [] {
      RolesByState(events, e);
      assert events + [e] + later == events + [e];
    } else {
      var n := |later| - 1;
      IssuingRolloutSigns(events, e, later[..n]);
      RolesByState(events + [e] + later[..n], later[n]);
      assert events + [e] + later == events + [e] + later[..n] + [later[n]];
    }
  }

  /** So what is issued then: signed by the new root, and trusting the old one besides. */
  lemma IssuedAfterRollout(events: seq<MrcEvent>, e: MrcEvent, prefix: string, fullCN: bool, ct: CertType,
                           sans: seq<string>, serial: int, end: int)
    requires !BringsNone(e) && IssuingState(e.mrc.state) && AfterEvents(events).validating.Some?
    ensures var j := AfterEvents(events + [e]);
            && j.signing.Some? && j.validating.Some?
            && var d := NewCertificate(j.signing.value, j.validating.value, prefix, fullCN, ct, sans, serial, end);
            && d.issuingCA == e.mrc.authority.value.ca && d.signingIssuerID == e.mrc.name
            && e.mrc.authority.value.ca in d.trustedCAs
            && (AfterEvents(events).validating.value.id != e.mrc.name ==>
                AfterEvents(events).validating.value.ca in d.trustedCAs)
  {
    RolesByState(events, e);
  }
}
