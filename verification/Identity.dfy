/** Rotation and identity: over every interleaving of requests, releases and sweeps, is each cached
    certificate the one its key was asked for? A sweep takes a snapshot of the cache and then asks
    for its keys one by one, so a key can be released in between. */
module Identity {
  import opened Certificates
  import opened Histories
  import opened Manager
  import opened Wrappers

  /** What a cache key is used for: always asked for in the same way. */
  datatype Use = Use(fullCN: bool, ct: CertType, sans: seq<string>)

  /** How the authorities of a mesh name certificates. */
  datatype Style = Style(cnFirst: bool, trustDomain: string)

  function NameOf(key: string, u: Use, style: Style): string {
    FormatCN(u.fullCN, key, style.trustDomain)
  }

  /** The alternative names that were asked for. */
  function Right(key: string, u: Use, style: Style): seq<string> {
    IssuedNames(style.cnFirst, NameOf(key, u, style), u.sans)
  }

  /** What a sweep asks for when the key has left the cache. */
  function Restored(key: string, u: Use, style: Style): seq<string> {
    IssuedNames(style.cnFirst, NameOf(key, u, style), if u.fullCN then Normalized(Right(key, u, style), [key]) else [])
  }

  // ------------------------------------------------------------ names that stay names

  lemma {:induction false} HeadIsKept(key: string, q: seq<string>)
    requires !HasColon(key)
    ensures Kept([key] + q, []) != [] && Kept([key] + q, [])[0] == key
  {
    var all := [key] + q;
    if q == [] {
      assert all[..0] == [];
    } else {
      HeadIsKept(key, q[..|q| - 1]);
      assert all[..|q|] == [key] + q[..|q| - 1];
    }
  }

  lemma {:induction false} ColonHeadIsDropped(cn: string, q: seq<string>)
    requires HasColon(cn)
    ensures Kept([cn] + q, []) == Kept(q, [])
  {
    var all := [cn] + q;
    if q == [] {
      assert all[..0] == [];
    } else {
      ColonHeadIsDropped(cn, q[..|q| - 1]);
      assert all[..|q|] == [cn] + q[..|q| - 1];
    }
  }

  predicate SomePlain(sans: seq<string>) {
    exists i :: 0 <= i < |sans| && !HasColon(sans[i])
  }

  /** Exactly when the names of an issued certificate, issued again, stay the same. */
  predicate Stable(cnFirst: bool, cn: string, sans: seq<string>) {
    !cnFirst || !HasColon(cn) || SomePlain(sans)
  }

  lemma NamesStableIff(cnFirst: bool, cn: string, sans: seq<string>)
    ensures var names := IssuedNames(cnFirst, cn, sans);
            IssuedNames(cnFirst, cn, Normalized(names)) == names <==> Stable(cnFirst, cn, sans)
  {
    if !cnFirst {
      NormalizedTwice(sans, []);
    } else if HasColon(cn) {
      ColonNames(cn, sans);
    } else {
      PlainNames(cn, sans);
    }
  }

  lemma PlainNames(cn: string, sans: seq<string>)
    requires !HasColon(cn)
    ensures var names := IssuedNames(true, cn, sans);
            && Clean(names) && names != [] && names[0] == cn
            && IssuedNames(true, cn, Normalized(names)) == names
  {
    var q := Normalized(sans);
    var names := Normalized([cn] + q);
    assert [cn][..0] == [] && Kept([cn], []) == [cn];
    if q != [] {
      KeptIsClean([cn] + q, []);
      HeadIsKept(cn, q);
    }
    CleanIsKept(names);
    KeptWithHead(cn, names);
  }

  lemma ColonNames(cn: string, sans: seq<string>)
    requires HasColon(cn)
    ensures var names := IssuedNames(true, cn, sans);
            IssuedNames(true, cn, Normalized(names)) == names <==> SomePlain(sans)
  {
    var q := Normalized(sans);
    var names := Normalized([cn] + q);
    KeptIsClean(sans, []);
    KeptIsClean([cn] + q, []);
    assert SomePlain(sans) <==> exists x :: x in sans && !HasColon(x);
    if q == [] {
      assert names == [cn];
      ColonHeadIsDropped(cn, [cn]);
      ColonHeadIsDropped(cn, []);
    } else {
      CleanIsKept(names);
      ColonHeadIsDropped(cn, names);
      assert names != [] <==> SomePlain(sans);
    }
  }

  /** With an authority that prepends the common name, a rotation under another name changes the
      alternative names: they stay as they were if and only if the common name does. */
  lemma NameChangeGrowsNames(cn: string, cn': string, sans: seq<string>)
    requires !HasColon(cn) && !HasColon(cn')
    ensures var before := IssuedNames(true, cn, sans);
            IssuedNames(true, cn', Normalized(before)) == before <==> cn' == cn
  {
    PlainNames(cn, sans);
    var before := IssuedNames(true, cn, sans);
    CleanIsKept(before);
    HeadIsKept(cn', before);
    assert |[cn'] + before| > 1;
  }

  // --------------------------------------------------------- names that come back

  predicate AllOf(sans: seq<string>, cn: string) {
    forall i :: 0 <= i < |sans| ==> HasColon(sans[i]) || sans[i] == cn
  }

  /** The authority would put a common name with a colon first, and drops it again. */
  predicate Colon(key: string, u: Use, style: Style) {
    style.cnFirst && HasColon(NameOf(key, u, style))
  }

  /** Whether a use's names survive being asked for from a snapshot. */
  predicate Survives(key: string, u: Use, style: Style) {
    if Colon(key, u, style) then u.fullCN
    else if u.fullCN then style.cnFirst || key !in Normalized(u.sans) || |Normalized(u.sans)| <= 1
    else if style.cnFirst then AllOf(u.sans, NameOf(key, u, style))
    else u.sans == [] || (|u.sans| > 1 && !SomePlain(u.sans))
  }

  /** The names of this use stay the same when they are issued again. */
  predicate Steady(key: string, u: Use, style: Style) {
    Stable(style.cnFirst, NameOf(key, u, style), u.sans)
  }

  /** Names that come and go. */
  predicate Flipping(names: seq<string>, cn: string) {
    names == [cn] || names == []
  }

  lemma KeptNothing(sans: seq<string>)
    ensures Kept(sans, []) == [] <==> !SomePlain(sans)
  {
    KeptIsClean(sans, []);
    if Kept(sans, []) != [] {
      assert Kept(sans, [])[0] in sans;
    }
    if i :| 0 <= i < |sans| && !HasColon(sans[i]) {
      assert sans[i] in Kept(sans, []);
    }
  }

  lemma RestoredIff(key: string, u: Use, style: Style)
    requires Steady(key, u, style)
    ensures Restored(key, u, style) == Right(key, u, style) <==> Survives(key, u, style)
  {
    if Colon(key, u, style) {
      ColonRight(NameOf(key, u, style), u.sans);
      RestoredColon(key, u.sans);
    } else if u.fullCN {
      if style.cnFirst {
        RestoredFirst(key, u.sans);
      } else {
        RestoredPlain(key, u.sans);
      }
    } else if style.cnFirst {
      RestoredAlone(NameOf(key, u, style), u.sans);
    } else {
      KeptNothing(u.sans);
    }
  }

  /** Under a common name with a colon: what is asked for, steady or not, and how names flip. */
  lemma ColonRight(cn: string, sans: seq<string>)
    requires HasColon(cn)
    ensures var right := IssuedNames(true, cn, sans);
            if SomePlain(sans) then Clean(right) && right != [] && cn !in right else Flipping(right, cn)
  {
    var q := Normalized(sans);
    KeptNothing(sans);
    KeptNothing([cn] + q);
    KeptIsClean([cn] + q, []);
    ColonHeadIsDropped(cn, q);
    if q != [] {
      KeptNothing(q);
      KeptIsClean(sans, []);
      assert SomePlain(q) <==> exists x :: x in q && !HasColon(x);
      assert SomePlain(sans) <==> exists x :: x in sans && !HasColon(x);
    }
  }

  lemma ColonFlips(cn: string)
    requires HasColon(cn)
    ensures IssuedNames(true, cn, [cn]) == [] && IssuedNames(true, cn, []) == [cn]
  {
    ColonHeadIsDropped(cn, [cn]);
    ColonHeadIsDropped(cn, []);
    assert [cn] + [] == [cn];
  }

  lemma RestoredColon(key: string, sans: seq<string>)
    ensures HasColon(key) && SomePlain(sans) ==>
              var right := IssuedNames(true, key, sans);
              IssuedNames(true, key, Normalized(right, [key])) == right
  {
    if HasColon(key) && SomePlain(sans) {
      var right := IssuedNames(true, key, sans);
      ColonRight(key, sans);
      NothingToDrop(right, key);
      CleanIsKept(right);
      ColonHeadIsDropped(key, right);
    }
  }

  lemma {:induction false} KeptWithoutHead(names: seq<string>)
    requires Clean(names) && names != []
    ensures Kept(names, [names[0]]) == names[1..]
  {
    var n := |names| - 1;
    if n == 0 {
      assert names[..0] == [];
    } else {
      KeptWithoutHead(names[..n]);
      assert names[..n][1..] == names[1..n];
      assert names[1..] == names[1..n] + [names[n]];
    }
  }

  lemma RestoredFirst(key: string, sans: seq<string>)
    requires !HasColon(key)
    ensures var right := IssuedNames(true, key, sans);
            IssuedNames(true, key, Normalized(right, [key])) == right
  {
    PlainNames(key, sans);
    var right := IssuedNames(true, key, sans);
    if |right| > 1 {
      KeptWithoutHead(right);
      var rest := right[1..];
      assert right == [key] + rest && Clean(rest);
      CleanIsKept(rest);
      CleanIsKept(right);
    } else {
      assert right == [key];
      KeptWithHead(key, right);
    }
  }

  lemma {:induction false} NothingToDrop(names: seq<string>, key: string)
    requires Clean(names) && key !in names
    ensures Kept(names, [key]) == names
  {
    if names != [] {
      NothingToDrop(names[..|names| - 1], key);
      assert names == names[..|names| - 1] + [names[|names| - 1]];
    }
  }

  lemma RestoredPlain(key: string, sans: seq<string>)
    ensures var right := Normalized(sans);
            && (Normalized(Normalized(right, [key])) == right <==> key !in right || |right| <= 1)
            && Normalized(Normalized(Normalized(right, [key])), [key]) == Normalized(right, [key])
  {
    var right := Normalized(sans);
    NormalizedTwice(right, [key]);
    KeptIsClean(right, [key]);
    KeptIsClean(sans, []);
    NothingToDrop(Kept(right, [key]), key);
    if key !in right && |right| > 1 {
      NothingToDrop(right, key);
    }
  }

  lemma RestoredAlone(cn: string, sans: seq<string>)
    requires !HasColon(cn)
    ensures IssuedNames(true, cn, []) == [cn]
    ensures IssuedNames(true, cn, sans) == [cn] <==> AllOf(sans, cn)
  {
    PlainNames(cn, sans);
    var q, names := Normalized(sans), IssuedNames(true, cn, sans);
    assert [cn] + [] == [cn];
    KeptIsClean(sans, []);
    KeptIsClean([cn] + q, []);
    assert AllOf(sans, cn) <==> forall x :: x in sans ==> HasColon(x) || x == cn;
    assert names == [cn] <==> forall x :: x in names ==> x == cn;
  }

  /** Asking from a snapshot again gives nothing else. */
  lemma RestoredTwice(key: string, u: Use, style: Style)
    requires u.fullCN && !Colon(key, u, style)
    ensures IssuedNames(style.cnFirst, key, Normalized(Restored(key, u, style), [key])) == Restored(key, u, style)
  {
    if style.cnFirst {
      RestoredFirst(key, u.sans);
    } else {
      RestoredPlain(key, u.sans);
      NormalizedTwice(Normalized(u.sans), [key]);
      NormalizedTwice(Restored(key, u, style), [key]);
    }
  }

  // ---------------------------------------------------------------------- the runs

  /** The cache, and what the running sweep has still to ask for. */
  datatype State = State(cache: Cache, todo: Cache)

  datatype Step =
    | Ask(c: Call, s: Issuer, v: Issuer)
    | Snapshot
    | CheckKey(key: string, w: Sweep, s: Issuer, v: Issuer)
    | Release(key: string)

  predicate Enabled(st: State, step: Step) {
    match step
    case Snapshot => st.todo == map[]
    case CheckKey(key, _, _, _) => key in st.todo
    case _ => true
  }

  function Apply(st: State, step: Step): State
    requires Enabled(st, step)
  {
    match step
    case Ask(c, s, v) => st.(cache := Issue(st.cache, s, v, c).cache)
    case Snapshot => st.(todo := st.cache)
    case CheckKey(key, w, s, v) => State(Issue(st.cache, s, v, Again(key, st.todo[key], w)).cache, st.todo - {key})
    case Release(key) => st.(cache := st.cache - {key})
  }

  function After(steps: seq<Step>): Option<State> {
    if steps == [] then Some(State(map[], map[]))
    else
      var st := After(steps[..|steps| - 1]);
      if st.Some? && Enabled(st.value, steps[|steps| - 1]) then Some(Apply(st.value, steps[|steps| - 1])) else None
  }

  /** The steps that may issue under a key. */
  predicate Touches(step: Step, key: string) {
    (step.Ask? && step.c.prefix == key) || (step.CheckKey? && step.key == key)
  }

  /** The key is always requested for the same use. What happens to other keys is free. */
  predicate RespectfulRun(steps: seq<Step>, key: string, u: Use) {
    && After(steps).Some?
    && forall i :: 0 <= i < |steps| ==> Respects(steps[i], key, u)
  }

  predicate Respects(step: Step, key: string, u: Use) {
    step.Ask? && step.c.prefix == key ==> Use(step.c.opts.fullCNProvided, step.c.ct, step.c.opts.saNames) == u
  }

  /** An authority names a use in this style; the trust domain counts for prefix names only. */
  predicate Fits(s: Issuer, u: Use, style: Style) {
    s.cnFirst == style.cnFirst && (!u.fullCN ==> s.trustDomain == style.trustDomain)
  }

  /** And all authorities that issue under the key name it in one style. */
  predicate StyledRun(steps: seq<Step>, key: string, u: Use, style: Style) {
    && RespectfulRun(steps, key, u)
    && forall i :: 0 <= i < |steps| && Touches(steps[i], key) ==> Fits(steps[i].s, u, style)
  }

  /** The sweep asks for a key that was released behind its back, and gets it. */
  predicate Revives(st: State, step: Step, key: string) {
    step.CheckKey? && step.key == key && key !in st.cache && step.w.answer(key).Success?
  }

  /** The moments of a run at which a key is revived, and at which it is released. */
  function Revivals(steps: seq<Step>, key: string): int -> bool {
    i => 0 <= i < |steps| && After(steps[..i]).Some? && Revives(After(steps[..i]).value, steps[i], key)
  }

  function Releases(steps: seq<Step>, key: string): int -> bool {
    i => 0 <= i < |steps| && steps[i] == Release(key)
  }

  /** The certificate under the key goes back to a sweep and not to a request. */
  ghost predicate Revived(steps: seq<Step>, key: string) {
    Since(Revivals(steps, key), Releases(steps, key), 0, |steps|)
  }

  lemma RevivedStep(steps: seq<Step>, key: string)
    requires After(steps).Some? && steps != []
    ensures var n := |steps| - 1;
            && After(steps[..n]).Some?
            && (Revived(steps, key) <==>
                Revives(After(steps[..n]).value, steps[n], key) ||
                  (Revived(steps[..n], key) && steps[n] != Release(key)))
  {
    var n := |steps| - 1;
    forall i | 0 <= i < n
      ensures Revivals(steps[..n], key)(i) == Revivals(steps, key)(i)
    {
      assert steps[..n][..i] == steps[..i];
    }
    SinceStep(Revivals(steps[..n], key), Releases(steps[..n], key), Revivals(steps, key), Releases(steps, key), 0, n);
  }

  // ---------------------------------------------------------------------- invariant

  /** Same type and same common name as asked for. */
  predicate SameKind(cert: Certificate, key: string, u: Use, style: Style) {
    cert.certType == u.ct && cert.commonName == NameOf(key, u, style)
  }

  /** The names a sweep has brought back, where they are not the right ones. */
  predicate Lost(names: seq<string>, key: string, u: Use, style: Style) {
    if Colon(key, u, style) then Flipping(names, NameOf(key, u, style)) else names == Restored(key, u, style)
  }

  predicate NamesOk(names: seq<string>, key: string, u: Use, style: Style, revived: bool) {
    if !Steady(key, u, style) then Flipping(names, NameOf(key, u, style))
    else if revived && !Survives(key, u, style) then Lost(names, key, u, style)
    else names == Right(key, u, style)
  }

  predicate Serves(cert: Certificate, key: string, u: Use, style: Style, revived: bool) {
    SameKind(cert, key, u, style) && NamesOk(cert.saNames, key, u, style, revived)
  }

  /** A certificate of the snapshot served its key, in one way or the other. */
  predicate Served(cert: Certificate, key: string, u: Use, style: Style) {
    Serves(cert, key, u, style, false) || Serves(cert, key, u, style, true)
  }

  lemma LostIsWrong(names: seq<string>, key: string, u: Use, style: Style)
    requires Steady(key, u, style) && !Survives(key, u, style) && Lost(names, key, u, style)
    ensures names != Right(key, u, style)
  {
    RestoredIff(key, u, style);
    if Colon(key, u, style) {
      ColonRight(NameOf(key, u, style), u.sans);
    }
  }

  /** Names issued again are as good as before. */
  lemma NamesStayOk(names: seq<string>, key: string, u: Use, style: Style, revived: bool)
    requires NamesOk(names, key, u, style, revived)
    ensures NamesOk(IssuedNames(style.cnFirst, NameOf(key, u, style), Normalized(names)), key, u, style, revived)
  {
    var cn := NameOf(key, u, style);
    NamesStableIff(style.cnFirst, cn, u.sans);
    if Colon(key, u, style) {
      ColonFlips(cn);
    } else {
      NamesStableIff(style.cnFirst, cn, if u.fullCN then Normalized(Right(key, u, style), [key]) else []);
    }
  }

  /** A rotated certificate serves its key as the one before did. */
  lemma RotationServes(st: Cache, s: Issuer, v: Issuer, c: Call, u: Use, style: Style, revived: bool)
    requires c.prefix in st && Serves(st[c.prefix], c.prefix, u, style, revived)
    requires Fits(s, u, style) && c.ct == u.ct && c.opts.fullCNProvided == u.fullCN
    ensures Serves(Issue(st, s, v, c).cache[c.prefix], c.prefix, u, style, revived)
  {
    var names := st[c.prefix].saNames;
    NamesStayOk(names, c.prefix, u, style, revived);
    NormalizedTwice(names, []);
  }

  lemma AgainRespects(key: string, cert: Certificate, w: Sweep, u: Use, style: Style)
    requires SameKind(cert, key, u, style)
    ensures var c := Again(key, cert, w);
            c.prefix == key && c.ct == u.ct && c.opts.fullCNProvided == u.fullCN
  {
    KeyIsFullName(u.fullCN, key, style.trustDomain);
  }

  /** What a sweep asks for, for a key that has left the cache, restores the names as far as
      they can be. */
  lemma NamesComeBack(names: seq<string>, key: string, u: Use, style: Style, revived: bool)
    requires NamesOk(names, key, u, style, revived)
    ensures var asked := if u.fullCN then Normalized(names, [key]) else [];
            NamesOk(IssuedNames(style.cnFirst, NameOf(key, u, style), asked), key, u, style, true)
  {
    var cn := NameOf(key, u, style);
    if Steady(key, u, style) {
      RestoredIff(key, u, style);
    }
    if Colon(key, u, style) {
      ColonFlips(cn);
    } else if u.fullCN {
      RestoredTwice(key, u, style);
    }
  }

  lemma RevivalServes(cache: Cache, key: string, cert: Certificate, w: Sweep, s: Issuer, v: Issuer, u: Use,
                      style: Style)
    requires key !in cache && Served(cert, key, u, style) && w.answer(key).Success?
    requires Fits(s, u, style)
    ensures Serves(Issue(cache, s, v, Again(key, cert, w)).cache[key], key, u, style, true)
  {
    AgainRespects(key, cert, w, u, style);
    NamesComeBack(cert.saNames, key, u, style, !Serves(cert, key, u, style, false));
  }

  predicate Inv(st: State, key: string, u: Use, style: Style, revived: bool) {
    && (key in st.cache ==> Serves(st.cache[key], key, u, style, revived))
    && (key in st.todo ==> Served(st.todo[key], key, u, style))
    && (revived ==> key in st.cache)
  }

  lemma RightIsOk(key: string, u: Use, style: Style)
    ensures NamesOk(Right(key, u, style), key, u, style, false)
  {
    if Colon(key, u, style) {
      ColonRight(NameOf(key, u, style), u.sans);
    }
  }

  /** Whether the key is revived after a step. */
  predicate RevivedNow(st: State, step: Step, key: string, revived: bool) {
    Revives(st, step, key) || (revived && step != Release(key))
  }

  lemma AskKeepsInv(st: State, step: Step, key: string, u: Use, style: Style, revived: bool)
    requires step.Ask? && step.c.prefix == key && Respects(step, key, u) && Fits(step.s, u, style)
    requires Inv(st, key, u, style, revived)
    ensures Inv(Apply(st, step), key, u, style, revived)
  {
    if key in st.cache {
      RotationServes(st.cache, step.s, step.v, step.c, u, style, revived);
    } else {
      RightIsOk(key, u, style);
    }
  }

  lemma CheckKeepsInv(st: State, step: Step, key: string, u: Use, style: Style, revived: bool)
    requires step.CheckKey? && step.key == key && Enabled(st, step) && Fits(step.s, u, style)
    requires Inv(st, key, u, style, revived)
    ensures Inv(Apply(st, step), key, u, style, RevivedNow(st, step, key, revived))
  {
    var cert := st.todo[key];
    AgainRespects(key, cert, step.w, u, style);
    if key in st.cache {
      RotationServes(st.cache, step.s, step.v, Again(key, cert, step.w), u, style, revived);
    } else if step.w.answer(key).Success? {
      RevivalServes(st.cache, key, cert, step.w, step.s, step.v, u, style);
    }
  }

  /** Steps for other keys do not matter. */
  lemma OtherKeys(st: State, step: Step, key: string)
    requires Enabled(st, step) && !Touches(step, key) && step != Release(key)
    ensures var st' := Apply(st, step);
            && (key in st'.cache <==> key in st.cache) && (key in st.cache ==> st'.cache[key] == st.cache[key])
            && (key in st'.todo ==> (key in st.todo && st'.todo[key] == st.todo[key]) ||
                                    (key in st.cache && st'.todo[key] == st.cache[key]))
  {
  }

  lemma StepKeepsInv(st: State, step: Step, key: string, u: Use, style: Style, revived: bool)
    requires Enabled(st, step) && Respects(step, key, u) && (Touches(step, key) ==> Fits(step.s, u, style))
    requires Inv(st, key, u, style, revived)
    ensures Inv(Apply(st, step), key, u, style, RevivedNow(st, step, key, revived))
  {
    if step.Ask? && step.c.prefix == key {
      AskKeepsInv(st, step, key, u, style, revived);
    } else if step.CheckKey? && step.key == key {
      CheckKeepsInv(st, step, key, u, style, revived);
    } else if step != Release(key) {
      OtherKeys(st, step, key);
    }
  }

  lemma {:induction false} ReachableInv(steps: seq<Step>, key: string, u: Use, style: Style)
    requires StyledRun(steps, key, u, style)
    ensures Inv(After(steps).value, key, u, style, Revived(steps, key))
  {
    if steps != [] {
      var n := |steps| - 1;
      ReachableInv(steps[..n], key, u, style);
      RevivedStep(steps, key);
      StepKeepsInv(After(steps[..n]).value, steps[n], key, u, style, Revived(steps[..n], key));
    }
  }

  /** Identity, exactly: over every interleaving, for a key that is always requested for one use
      and issued under one style, whatever happens to other keys, the cached certificate has the
      type and the common name its key was asked for. Where the names are steady, it has exactly
      these names if and only if they survive a restoration or the certificate does not go back
      to a sweep that met a released key. Where they are not, which takes an authority that puts
      a common name with a colon first and no other plain name, it has the common name or
      nothing. */
  lemma IdentityKept(steps: seq<Step>, key: string, u: Use, style: Style)
    requires StyledRun(steps, key, u, style) && key in After(steps).value.cache
    ensures var cert := After(steps).value.cache[key];
            && SameKind(cert, key, u, style)
            && (Steady(key, u, style) ==>
                 (cert.saNames == Right(key, u, style) <==> Survives(key, u, style) || !Revived(steps, key)))
            && (!Steady(key, u, style) ==> Flipping(cert.saNames, cert.commonName))
  {
    ReachableInv(steps, key, u, style);
    var cert := After(steps).value.cache[key];
    assert Serves(cert, key, u, style, Revived(steps, key));
    if Steady(key, u, style) && Revived(steps, key) && !Survives(key, u, style) {
      LostIsWrong(cert.saNames, key, u, style);
    }
  }

  /** And there every rotation changes the names, over every run: the two lists take turns. */
  lemma UnsteadyNamesFlip(steps: seq<Step>, key: string, u: Use, style: Style, c: Call, s: Issuer, v: Issuer)
    requires StyledRun(steps, key, u, style) && key in After(steps).value.cache && !Steady(key, u, style)
    requires c.prefix == key && Respects(Ask(c, s, v), key, u) && Fits(s, u, style)
    requires Renews(After(steps).value.cache, s, v, c) && c.answer.Success?
    ensures var cache := After(steps).value.cache;
            {Issue(cache, s, v, c).cache[key].saNames, cache[key].saNames} == {[], [cache[key].commonName]}
  {
    IdentityKept(steps, key, u, style);
    ColonFlips(NameOf(key, u, style));
  }

  // --------------------------------------------- any authority and any trust domain

  /** The kind of certificate: its type, whether its key is its full name, and a common name that
      some authority of the run gave it. */
  predicate OfKind(cert: Certificate, key: string, u: Use, domains: set<string>) {
    && cert.certType == u.ct
    && (cert.commonName == key <==> u.fullCN)
    && exists td :: td in domains && cert.commonName == FormatCN(u.fullCN, key, td)
  }

  /** The trust domains under which a run issues for a key. */
  function Domains(steps: seq<Step>, key: string): set<string> {
    set i | 0 <= i < |steps| && Touches(steps[i], key) :: steps[i].s.trustDomain
  }

  predicate KindInv(st: State, key: string, u: Use, domains: set<string>) {
    && (key in st.cache ==> OfKind(st.cache[key], key, u, domains))
    && (key in st.todo ==> OfKind(st.todo[key], key, u, domains))
  }

  lemma IssueGivesKind(cache: Cache, s: Issuer, v: Issuer, c: Call, u: Use, domains: set<string>)
    requires c.ct == u.ct && c.opts.fullCNProvided == u.fullCN && s.trustDomain in domains
    requires c.prefix in cache ==> OfKind(cache[c.prefix], c.prefix, u, domains)
    ensures c.prefix in Issue(cache, s, v, c).cache ==>
            OfKind(Issue(cache, s, v, c).cache[c.prefix], c.prefix, u, domains)
  {
    KeyIsFullName(u.fullCN, c.prefix, s.trustDomain);
  }

  lemma StepKeepsKind(st: State, step: Step, key: string, u: Use, domains: set<string>)
    requires Enabled(st, step) && Respects(step, key, u) && KindInv(st, key, u, domains)
    requires Touches(step, key) ==> step.s.trustDomain in domains
    ensures KindInv(Apply(st, step), key, u, domains)
  {
    if step.Ask? && step.c.prefix == key {
      IssueGivesKind(st.cache, step.s, step.v, step.c, u, domains);
    } else if step.CheckKey? && step.key == key {
      IssueGivesKind(st.cache, step.s, step.v, Again(key, st.todo[key], step.w), u, domains);
    } else if step != Release(key) {
      OtherKeys(st, step, key);
    }
  }

  /** Over every run, with any authorities and trust domains, changing as they like: a certificate
      has the type that was asked for, its key is its common name exactly if it was given in
      full - so a sweep always reads the kind off correctly and full names never change - and a
      prefix name ends in the trust domain of an authority that issued under the key. */
  lemma {:induction false} KindKept(steps: seq<Step>, key: string, u: Use)
    requires RespectfulRun(steps, key, u)
    ensures KindInv(After(steps).value, key, u, Domains(steps, key))
  {
    if steps != [] {
      var n := |steps| - 1;
      KindKept(steps[..n], key, u);
      var st, before, domains := After(steps[..n]).value, Domains(steps[..n], key), Domains(steps, key);
      assert before <= domains by {
        assert forall i :: 0 <= i < n ==> steps[..n][i] == steps[i];
      }
      assert KindInv(st, key, u, domains);
      StepKeepsKind(st, steps[n], key, u, domains);
    }
  }

  lemma AfterSnoc(steps: seq<Step>, step: Step)
    requires After(steps).Some? && Enabled(After(steps).value, step)
    ensures After(steps + [step]) == Some(Apply(After(steps).value, step))
  {
    assert (steps + [step])[..|steps|] == steps;
  }

  lemma RunOn(steps: seq<Step>, st: State, step: Step)
    requires After(steps) == Some(st) && Enabled(st, step)
    ensures After(steps + [step]) == Some(Apply(st, step))
  {
    AfterSnoc(steps, step);
  }

  const AUTHORITY := Issuer("root", "td", "ca", false)
  const WITH_NAME := Call("a", Service, Options(false, None, ["b"]), 0, 0, Success(1), 1_000_000)
  const NEXT_SWEEP := Sweep(1, (k: string) => 0, (k: string) => Success(2), 1_000_000, 1_000_000)

  lemma NameIsIssued(cache: Cache)
    requires cache == Issue(map[], AUTHORITY, AUTHORITY, WITH_NAME).cache
    ensures cache.Keys == {"a"} && cache["a"].commonName == "a.td" && cache["a"].certType == Service
    ensures cache - {"a"} == map[]
  {
  }

  lemma NameIsNotRestored(cert: Certificate)
    requires cert.commonName == "a.td"
    ensures var c := Issue(map[], AUTHORITY, AUTHORITY, Again("a", cert, NEXT_SWEEP)).cache;
            "a" in c && c["a"].saNames == []
  {
  }

  /** A run in which names are lost: a certificate with an alternative name is released after the
      snapshot, and the sweep brings it back without. */
  lemma NamesAreLost() returns (steps: seq<Step>)
    ensures StyledRun(steps, "a", Use(false, Service, ["b"]), Style(false, "td"))
    ensures "a" in After(steps).value.cache && After(steps).value.cache["a"].saNames == []
  {
    var cache := Issue(map[], AUTHORITY, AUTHORITY, WITH_NAME).cache;
    NameIsIssued(cache);
    NameIsNotRestored(cache["a"]);
    RunOn([], State(map[], map[]), Ask(WITH_NAME, AUTHORITY, AUTHORITY));
    steps := [] + [Ask(WITH_NAME, AUTHORITY, AUTHORITY)];
    RunOn(steps, State(cache, map[]), Snapshot);
    steps := steps + [Snapshot];
    RunOn(steps, State(cache, cache), Release("a"));
    steps := steps + [Release("a")];
    RunOn(steps, State(map[], cache), CheckKey("a", NEXT_SWEEP, AUTHORITY, AUTHORITY));
    steps := steps + [CheckKey("a", NEXT_SWEEP, AUTHORITY, AUTHORITY)];
  }
}
