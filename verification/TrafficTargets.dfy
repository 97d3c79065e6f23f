/** Who may talk to whom: the two readings of TrafficTargets in the catalog, and the separate
    reading in the command line tool. */
module TrafficTargets {

  const SERVICE_ACCOUNT_KIND := "ServiceAccount"

  datatype Subject = Subject(kind: string, name: string, namespace: string)
  datatype Account = Account(name: string, namespace: string)

  /** A TrafficTarget; of its rules only the kinds matter here. */
  datatype Target = Target(name: string, namespace: string, destination: Subject, sources: seq<Subject>,
                           ruleKinds: seq<string>)

  datatype Direction = Inbound | Outbound

  // ------------------------------------------------------------------- identities

  /** identity.New. */
  function Identity(a: Account): string {
    a.name + "." + a.namespace
  }

  /** The position of the first dot from `from` on, or the length if there is none. */
  function NextDot(s: string, from: nat): (k: nat)
    requires from <= |s|
    ensures from <= k <= |s|
    ensures k < |s| ==> s[k] == '.'
    ensures forall i :: from <= i < k ==> s[i] != '.'
    decreases |s| - from
  {
    if from == |s| || s[from] == '.' then from else NextDot(s, from + 1)
  }

  predicate HasDot(s: string) {
    '.' in s
  }

  /** ToK8sServiceAccount: the first two chunks between dots. Without a dot the code panics. */
  function ToAccount(si: string): (a: Account)
    requires HasDot(si)
    ensures !HasDot(a.name) && !HasDot(a.namespace)
    ensures a.name + "." + a.namespace <= si
  {
    var i := NextDot(si, 0);
    var j := NextDot(si, i + 1);
    assert si[..j] == si[..i] + "." + si[i + 1..j];
    Account(si[..i], si[i + 1..j])
  }

  /** The documented form: a name and a namespace with exactly one dot in between. */
  predicate WellFormed(si: string) {
    HasDot(si) && Identity(ToAccount(si)) == si
  }

  predicate DotFree(a: Account) {
    !HasDot(a.name) && !HasDot(a.namespace)
  }

  /** Round trip: an account without dots is recovered from its identity. */
  lemma AccountRoundTrip(a: Account)
    requires DotFree(a)
    ensures WellFormed(Identity(a)) && ToAccount(Identity(a)) == a
  {
    var si, i := Identity(a), |a.name|;
    assert si[i] == '.';
    assert forall k :: 0 <= k < i ==> si[k] == a.name[k];
    assert NextDot(si, 0) == i;
    assert forall k :: 0 <= k < |a.namespace| ==> si[i + 1 + k] == a.namespace[k];
    assert forall k :: i < k < |si| ==> si[k] == a.namespace[k - i - 1];
    assert NextDot(si, i + 1) == |si|;
  }

  /** Only dot-free accounts have well-formed identities. */
  lemma WellFormedIsDotFree(a: Account)
    requires WellFormed(Identity(a))
    ensures DotFree(a) && ToAccount(Identity(a)) == a
  {
    var si := Identity(a);
    var b := ToAccount(si);
    AccountRoundTrip(b);
    var i, j := |a.name|, |b.name|;
    assert si == b.name + "." + b.namespace;
    assert si[i] == '.' && si[j] == '.';
    assert forall k :: 0 <= k < j ==> si[k] == b.name[k];
    assert forall k :: j < k < |si| ==> si[k] == b.namespace[k - j - 1];
    assert i == j;
    assert a.name == si[..i] == b.name;
    assert a.namespace == si[i + 1..] == b.namespace;
  }

  // ------------------------------------------------------------ the catalog's reading

  function AccountOf(s: Subject): Account {
    Account(s.name, s.namespace)
  }

  predicate IsAccount(s: Subject) {
    s.kind == SERVICE_ACCOUNT_KIND
  }

  function SourceAccounts(sources: seq<Subject>): set<Account> {
    set i | 0 <= i < |sources| && IsAccount(sources[i]) :: AccountOf(sources[i])
  }

  /** The accounts one target adds. */
  function FromTarget(t: Target, a: Account, dir: Direction): set<Account> {
    if !IsAccount(t.destination) then {}
    else if dir == Inbound then (if AccountOf(t.destination) == a then SourceAccounts(t.sources) else {})
    else (if a in SourceAccounts(t.sources) then {AccountOf(t.destination)} else {})
  }

  function Allowed(targets: seq<Target>, a: Account, dir: Direction): set<Account> {
    if targets == [] then {} else Allowed(targets[..|targets| - 1], a, dir) + FromTarget(targets[|targets| - 1], a, dir)
  }

  function AllowedIdentities(targets: seq<Target>, si: string, dir: Direction): set<string>
    requires HasDot(si)
  {
    set a | a in Allowed(targets, ToAccount(si), dir) :: Identity(a)
  }

  /** getAllowedDirectionalServiceAccounts; the order of the result is that of a set iteration. */
  method GetAllowedDirectionalServiceAccounts(targets: seq<Target>, si: string, dir: Direction) returns (r: seq<string>)
    requires HasDot(si)
    ensures (set x | x in r) == AllowedIdentities(targets, si, dir)
  {
    var svcAccount := ToAccount(si);
    var allowed: set<Account> := {};
    for i := 0 to |targets|
      invariant allowed == Allowed(targets[..i], svcAccount, dir)
    {
      var t := targets[i];
      assert targets[..i + 1][..i] == targets[..i];
      if t.destination.kind != SERVICE_ACCOUNT_KIND {
        continue;
      }
      var found := CollectFrom(t, svcAccount, dir);
      allowed := allowed + found;
    }
    assert targets[..|targets|] == targets;
    r := [];
    var todo := allowed;
    while todo != {}
      invariant todo <= allowed
      invariant forall x :: x in r <==> exists a :: a in allowed && a !in todo && x == Identity(a)
    {
      var a :| a in todo;
      r := r + [Identity(a)];
      todo := todo - {a};
    }
  }

  /** The loops over the sources of one target. */
  method CollectFrom(t: Target, a: Account, dir: Direction) returns (found: set<Account>)
    requires IsAccount(t.destination)
    ensures found == FromTarget(t, a, dir)
  {
    found := {};
    if dir == Inbound {
      if t.destination.name != a.name || t.destination.namespace != a.namespace {
        return;
      }
      for i := 0 to |t.sources|
        invariant found == set k | 0 <= k < i && IsAccount(t.sources[k]) :: AccountOf(t.sources[k])
      {
        if t.sources[i].kind != SERVICE_ACCOUNT_KIND {
          continue;
        }
        found := found + {AccountOf(t.sources[i])};
      }
    } else {
      for i := 0 to |t.sources|
        invariant found ==
                if exists k :: 0 <= k < i && IsAccount(t.sources[k]) && AccountOf(t.sources[k]) == a
                  then {AccountOf(t.destination)} else {}
      {
        if t.sources[i].kind != SERVICE_ACCOUNT_KIND {
          continue;
        }
        if t.sources[i].name != a.name || t.sources[i].namespace != a.namespace {
          continue;
        }
        found := found + {AccountOf(t.destination)};
      }
    }
  }

  // ---------------------------------------------------------------------- duality

  /** An account as a target names it. */
  function Naming(a: Account): Subject {
    Subject("ServiceAccount", a.name, a.namespace)
  }

  /** A target lets account `d` call account `u`: it names both, as service accounts. */
  predicate Permits(t: Target, d: Account, u: Account) {
    t.destination == Naming(u) && Naming(d) in t.sources
  }

  lemma NamedSources(sources: seq<Subject>, d: Account)
    ensures d in SourceAccounts(sources) <==> Naming(d) in sources
  {
    if Naming(d) in sources {
      var i :| 0 <= i < |sources| && sources[i] == Naming(d);
      assert IsAccount(sources[i]) && AccountOf(sources[i]) == d;
    }
    if d in SourceAccounts(sources) {
      var i :| 0 <= i < |sources| && IsAccount(sources[i]) && AccountOf(sources[i]) == d;
      assert sources[i] == Naming(d);
    }
  }

  lemma {:induction false} AllowedMeansPermitted(targets: seq<Target>, a: Account, other: Account)
    ensures other in Allowed(targets, a, Inbound) <==> exists i :: 0 <= i < |targets| && Permits(targets[i], other, a)
    ensures other in Allowed(targets, a, Outbound) <==> exists i :: 0 <= i < |targets| && Permits(targets[i], a, other)
  {
    if targets != [] {
      var n := |targets| - 1;
      AllowedMeansPermitted(targets[..n], a, other);
      NamedSources(targets[n].sources, a);
      NamedSources(targets[n].sources, other);
      if i :| 0 <= i < |targets| && Permits(targets[i], other, a) {
        if i < n {
          assert Permits(targets[..n][i], other, a);
        }
      }
      if i :| 0 <= i < |targets| && Permits(targets[i], a, other) {
        if i < n {
          assert Permits(targets[..n][i], a, other);
        }
      }
    }
  }

  /** `d` is an allowed inbound identity of `u` exactly if `u` is an allowed outbound one of `d`. */
  predicate Dual(targets: seq<Target>, d: string, u: string)
    requires HasDot(d) && HasDot(u)
  {
    d in AllowedIdentities(targets, u, Inbound) <==> u in AllowedIdentities(targets, d, Outbound)
  }

  lemma WellFormedMember(targets: seq<Target>, si: string, dir: Direction, x: string)
    requires HasDot(si) && WellFormed(x)
    ensures x in AllowedIdentities(targets, si, dir) <==> ToAccount(x) in Allowed(targets, ToAccount(si), dir)
  {
    if a :| a in Allowed(targets, ToAccount(si), dir) && Identity(a) == x {
      WellFormedIsDotFree(a);
    }
    if ToAccount(x) in Allowed(targets, ToAccount(si), dir) {
      assert Identity(ToAccount(x)) == x;
    }
  }

  lemma DualWhenWellFormed(targets: seq<Target>, d: string, u: string)
    requires WellFormed(d) && WellFormed(u)
    ensures Dual(targets, d, u)
  {
    WellFormedMember(targets, u, Inbound, d);
    WellFormedMember(targets, d, Outbound, u);
    AllowedMeansPermitted(targets, ToAccount(u), ToAccount(d));
    AllowedMeansPermitted(targets, ToAccount(d), ToAccount(u));
  }

  /** The account that prints as `si` with everything behind its first dot as namespace. */
  function Loose(si: string): (a: Account)
    requires HasDot(si)
    ensures Identity(a) == si
  {
    var i := NextDot(si, 0);
    assert si == si[..i] + "." + si[i + 1..];
    Account(si[..i], si[i + 1..])
  }

  function Single(source: Account, destination: Account): Target {
    Target("t", destination.namespace, Subject(SERVICE_ACCOUNT_KIND, destination.name, destination.namespace),
           [Subject(SERVICE_ACCOUNT_KIND, source.name, source.namespace)], ["TCPRoute"])
  }

  lemma SinglePermits(source: Account, destination: Account, d: Account, u: Account)
    ensures Permits(Single(source, destination), d, u) <==> d == source && u == destination
  {
    assert Single(source, destination).sources == [Naming(source)];
  }

  lemma SingleAllows(source: Account, destination: Account, a: Account, other: Account)
    ensures other in Allowed([Single(source, destination)], a, Inbound) <==> a == destination && other == source
    ensures other in Allowed([Single(source, destination)], a, Outbound) <==> a == source && other == destination
  {
    var targets := [Single(source, destination)];
    AllowedMeansPermitted(targets, a, other);
    SinglePermits(source, destination, other, a);
    SinglePermits(source, destination, a, other);
    assert targets[0] == Single(source, destination);
  }

  /** For identities that are not well formed some policy breaks the duality. */
  lemma DualityBroken(d: string, u: string) returns (targets: seq<Target>)
    requires HasDot(d) && HasDot(u) && !(WellFormed(d) && WellFormed(u))
    ensures !Dual(targets, d, u)
  {
    var source := if WellFormed(u) then ToAccount(d) else Loose(d);
    var destination := ToAccount(u);
    targets := [Single(source, destination)];
    SingleAllows(source, destination, ToAccount(u), source);
    SingleAllows(source, destination, ToAccount(d), destination);
    if WellFormed(u) {
      assert u in AllowedIdentities(targets, d, Outbound) by {
        assert Identity(destination) == u;
      }
      forall a | a in Allowed(targets, ToAccount(u), Inbound)
        ensures Identity(a) != d
      {
        SingleAllows(source, destination, ToAccount(u), a);
      }
    } else {
      assert d in AllowedIdentities(targets, u, Inbound);
      forall a | a in Allowed(targets, ToAccount(d), Outbound)
        ensures Identity(a) != u
      {
        SingleAllows(source, destination, ToAccount(d), a);
      }
    }
  }

  /** Duality, exactly: the two directions agree under every set of TrafficTargets - whatever
      names occur in them - if and only if both identities have the documented form. */
  lemma DualityExact(d: string, u: string)
    requires HasDot(d) && HasDot(u)
    ensures (forall targets :: Dual(targets, d, u)) <==> WellFormed(d) && WellFormed(u)
  {
    if WellFormed(d) && WellFormed(u) {
      forall targets
        ensures Dual(targets, d, u)
      {
        DualWhenWellFormed(targets, d, u);
      }
    } else {
      var targets := DualityBroken(d, u);
    }
  }

  // ---------------------------------------------------------- the command line tool

  /** A pod, by its service account and namespace. */
  type Pod = Account

  predicate ValidRules(kinds: seq<string>) {
    kinds != [] && forall i :: 0 <= i < |kinds| ==> kinds[i] == "HTTPRouteGroup" || kinds[i] == "TCPRoute"
  }

  /** What ListTrafficTargets passes on to the catalog. */
  predicate Listed(t: Target, monitored: set<string>) {
    t.namespace in monitored && t.namespace == t.destination.namespace && ValidRules(t.ruleKinds)
  }

  /** The rules by which a target is listed, said without quantifier: none is not enough, one must be
      of a known kind, and of several each part must do. */
  lemma RulesCompose(t: Target, monitored: set<string>, a: seq<string>, b: seq<string>, kind: string)
    requires t.namespace in monitored && t.namespace == t.destination.namespace
    ensures !Listed(t.(ruleKinds := []), monitored)
    ensures Listed(t.(ruleKinds := [kind]), monitored) <==> kind == "HTTPRouteGroup" || kind == "TCPRoute"
    ensures a != [] && b != [] ==>
              (Listed(t.(ruleKinds := a + b), monitored) <==>
               Listed(t.(ruleKinds := a), monitored) && Listed(t.(ruleKinds := b), monitored))
  {
    assert [kind][0] == kind;
    assert forall i :: 0 <= i < |a| ==> (a + b)[i] == a[i];
    assert forall i :: 0 <= i < |b| ==> (a + b)[|a| + i] == b[i];
  }

  function Listing(targets: seq<Target>, monitored: set<string>): seq<Target> {
    if targets == [] then []
    else
      Listing(targets[..|targets| - 1], monitored)
      + (if Listed(targets[|targets| - 1], monitored) then [targets[|targets| - 1]] else [])
  }

  /** ListTrafficTargets without options, with isValidTrafficTarget and hasValidRules. */
  method ListTrafficTargets(targets: seq<Target>, monitored: set<string>) returns (r: seq<Target>)
    ensures r == Listing(targets, monitored)
  {
    r := [];
    for i := 0 to |targets|
      invariant r == Listing(targets[..i], monitored)
    {
      assert targets[..i + 1][..i] == targets[..i];
      var t := targets[i];
      if t.namespace !in monitored || t.namespace != t.destination.namespace {
        continue;
      }
      var valid := HasValidRules(t.ruleKinds);
      if !valid {
        continue;
      }
      r := r + [t];
    }
    assert targets[..|targets|] == targets;
  }

  method HasValidRules(kinds: seq<string>) returns (r: bool)
    ensures r <==> ValidRules(kinds)
  {
    if |kinds| == 0 {
      return false;
    }
    for i := 0 to |kinds|
      invariant forall k :: 0 <= k < i ==> kinds[k] == "HTTPRouteGroup" || kinds[k] == "TCPRoute"
    {
      if kinds[i] != "HTTPRouteGroup" && kinds[i] != "TCPRoute" {
        return false;
      }
    }
    return true;
  }

  method DoesTargetRefSrcPod(t: Target, src: Pod) returns (r: bool)
    ensures r <==> Naming(src) in t.sources
  {
    for i := 0 to |t.sources|
      invariant forall k :: 0 <= k < i ==> t.sources[k] != Naming(src)
    {
      if t.sources[i].kind != SERVICE_ACCOUNT_KIND {
        continue;
      }
      if t.sources[i].name == src.name && t.sources[i].namespace == src.namespace {
        assert t.sources[i] == Naming(src);
        return true;
      }
    }
    return false;
  }

  /** The tool looks at the targets in the destination's namespace, and at nothing else. */
  ghost predicate ToolAllows(targets: seq<Target>, src: Pod, dst: Pod) {
    exists i :: 0 <= i < |targets| && targets[i].namespace == dst.namespace && Permits(targets[i], src, dst)
  }

  /** checkTrafficPolicy outside permissive mode. */
  method CheckTrafficPolicy(targets: seq<Target>, src: Pod, dst: Pod) returns (found: bool)
    ensures found <==> ToolAllows(targets, src, dst)
  {
    found := false;
    for i := 0 to |targets|
      invariant found <==>
              exists k :: 0 <= k < i && targets[k].namespace == dst.namespace && Permits(targets[k], src, dst)
    {
      var t := targets[i];
      if t.namespace != dst.namespace {
        continue;
      }
      if t.destination.kind != SERVICE_ACCOUNT_KIND ||
        !(t.destination.name == dst.name && t.destination.namespace == dst.namespace) {
        continue;
      }
      var refs := DoesTargetRefSrcPod(t, src);
      if refs {
        assert Permits(targets[i], src, dst);
        found := true;
      }
    }
  }

  lemma {:induction false} ListingPermits(targets: seq<Target>, monitored: set<string>, d: Account, u: Account)
    ensures (exists i :: 0 <= i < |Listing(targets, monitored)| && Permits(Listing(targets, monitored)[i], d, u)) <==>
            (exists i :: 0 <= i < |targets| && Listed(targets[i], monitored) && Permits(targets[i], d, u))
  {
    if targets != [] {
      var n := |targets| - 1;
      var before, last := Listing(targets[..n], monitored), targets[n];
      ListingPermits(targets[..n], monitored, d, u);
      var all := Listing(targets, monitored);
      if i :| 0 <= i < |targets| && Listed(targets[i], monitored) && Permits(targets[i], d, u) {
        if i < n {
          assert Listed(targets[..n][i], monitored) && Permits(targets[..n][i], d, u);
          var k :| 0 <= k < |before| && Permits(before[k], d, u);
          assert Permits(all[k], d, u);
        } else {
          assert Permits(all[|before|], d, u);
        }
      }
      if i :| 0 <= i < |all| && Permits(all[i], d, u) {
        if i < |before| {
          assert Permits(before[i], d, u);
        }
      }
    }
  }

  /** The catalog's answer for two pods. */
  predicate CatalogAllows(targets: seq<Target>, monitored: set<string>, src: Pod, dst: Pod) {
    assert Identity(dst)[|dst.name|] == '.';
    Identity(src) in AllowedIdentities(Listing(targets, monitored), Identity(dst), Inbound)
  }

  lemma CatalogMeansPermitted(targets: seq<Target>, monitored: set<string>, src: Pod, dst: Pod)
    requires DotFree(src) && DotFree(dst)
    ensures CatalogAllows(targets, monitored, src, dst) <==>
            exists i :: 0 <= i < |targets| && Listed(targets[i], monitored) && Permits(targets[i], src, dst)
  {
    AccountRoundTrip(src);
    AccountRoundTrip(dst);
    WellFormedMember(Listing(targets, monitored), Identity(dst), Inbound, Identity(src));
    AllowedMeansPermitted(Listing(targets, monitored), dst, src);
    ListingPermits(targets, monitored, src, dst);
  }

  /** The tool does not deny what the catalog allows. */
  ghost predicate ToolCovers(targets: seq<Target>, monitored: set<string>, src: Pod, dst: Pod) {
    CatalogAllows(targets, monitored, src, dst) ==> ToolAllows(targets, src, dst)
  }

  /** Another account with the same identity. */
  lemma Namesake(a: Account) returns (b: Account)
    requires !DotFree(a)
    ensures b != a && Identity(b) == Identity(a)
  {
    assert Identity(a)[|a.name|] == '.';
    if HasDot(a.name) {
      b := Loose(Identity(a));
      assert !HasDot(b.name);
    } else {
      var k :| 0 <= k < |a.namespace| && a.namespace[k] == '.';
      assert a.namespace == a.namespace[..k] + "." + a.namespace[k + 1..];
      b := Account(a.name + "." + a.namespace[..k], a.namespace[k + 1..]);
      assert |b.name| > |a.name|;
    }
  }

  /** One target for an account with the source's identity and the account the destination's
      identity is read as: the catalog lets it through. */
  lemma CatalogReads(source: Account, src: Pod, dst: Pod)
    requires Identity(source) == Identity(src) && HasDot(Identity(dst))
    ensures var t := Single(source, ToAccount(Identity(dst)));
            CatalogAllows([t], {t.namespace}, src, dst)
  {
    var destination := ToAccount(Identity(dst));
    var t := Single(source, destination);
    assert [t][..0] == [];
    assert Listing([t], {t.namespace}) == [t];
    SingleAllows(source, destination, destination, source);
  }

  /** A policy under which the catalog allows `src` to call `dst` and the tool denies it. */
  lemma ToolDenies(src: Pod, dst: Pod) returns (t: Target)
    requires !(DotFree(src) && DotFree(dst))
    ensures !ToolCovers([t], {t.namespace}, src, dst)
  {
    assert Identity(dst)[|dst.name|] == '.';
    var source, destination := src, ToAccount(Identity(dst));
    if DotFree(dst) {
      source := Namesake(src);
    }
    t := Single(source, destination);
    CatalogReads(source, src, dst);
    SinglePermits(source, destination, src, dst);
  }

  /** The tool covers the catalog under every policy exactly if neither pod has a dot in its
      service account's name or its namespace. */
  lemma ToolCoversIff(src: Pod, dst: Pod)
    ensures (forall targets, monitored :: ToolCovers(targets, monitored, src, dst)) <==> DotFree(src) && DotFree(dst)
  {
    if DotFree(src) && DotFree(dst) {
      forall targets, monitored
        ensures ToolCovers(targets, monitored, src, dst)
      {
        CatalogMeansPermitted(targets, monitored, src, dst);
      }
    } else {
      var t := ToolDenies(src, dst);
    }
  }

  /** And it agrees with the catalog where the targets next to the destination have valid rules. */
  lemma ToolAgrees(targets: seq<Target>, monitored: set<string>, src: Pod, dst: Pod)
    requires DotFree(src) && DotFree(dst)
    requires dst.namespace in monitored
    requires forall i :: 0 <= i < |targets| && targets[i].namespace == dst.namespace ==>
            ValidRules(targets[i].ruleKinds)
    ensures ToolAllows(targets, src, dst) <==> CatalogAllows(targets, monitored, src, dst)
  {
    CatalogMeansPermitted(targets, monitored, src, dst);
  }

  /** Some target next to the destination permits the pair and has valid rules. */
  ghost predicate SomeValidPermits(targets: seq<Target>, src: Pod, dst: Pod) {
    exists i :: 0 <= i < |targets| && targets[i].namespace == dst.namespace && Permits(targets[i], src, dst)
                && ValidRules(targets[i].ruleKinds)
  }

  /** Exactly when tool and catalog agree, for any list of targets: unless some target next to the
      destination permits the pair and the destination's namespace is not monitored or none of
      these targets has valid rules. */
  lemma ToolAgreesIff(targets: seq<Target>, monitored: set<string>, src: Pod, dst: Pod)
    requires DotFree(src) && DotFree(dst)
    ensures (ToolAllows(targets, src, dst) <==> CatalogAllows(targets, monitored, src, dst)) <==>
            (ToolAllows(targets, src, dst) ==> dst.namespace in monitored && SomeValidPermits(targets, src, dst))
  {
    CatalogMeansPermitted(targets, monitored, src, dst);
  }

  /** They can differ: the tool does not look at the rules. */
  lemma ToolOverlooksRules(src: Pod, dst: Pod) returns (t: Target)
    requires DotFree(src) && DotFree(dst)
    ensures ToolAllows([t], src, dst) && forall monitored :: !CatalogAllows([t], monitored, src, dst)
  {
    t := Single(src, dst).(ruleKinds := []);
    SinglePermits(src, dst, src, dst);
    assert [t][0].namespace == dst.namespace && Permits([t][0], src, dst);
    forall monitored
      ensures !CatalogAllows([t], monitored, src, dst)
    {
      CatalogMeansPermitted([t], monitored, src, dst);
    }
  }
}
