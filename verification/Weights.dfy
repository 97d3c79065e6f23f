/** Splitting the weight of a TrafficSplit backend over the clusters that serve it. */
module Weights {
  import opened Wrappers
  import opened Wire

  datatype WeightedCluster = WeightedCluster(name: string, weight: int)

  const FAIL_OVER_WEIGHT := 0

  // ----------------------------------------------------------------- cluster names

  function Digit(n: int): char
    requires 0 <= n < 10
  {
    "0123456789"[n]
  }

  function Decimal(n: nat): string {
    if n < 10 then [Digit(n)] else Decimal(n / 10) + [Digit(n % 10)]
  }

  function SidecarClusterName(namespace: string, name: string, targetPort: u16): string {
    namespace + "/" + name + "|" + Decimal(targetPort)
  }

  lemma {:induction false} DecimalInjective(m: nat, n: nat)
    requires Decimal(m) == Decimal(n)
    ensures m == n
  {
    var s, t := Decimal(m), Decimal(n);
    DecimalLength(m);
    DecimalLength(n);
    assert s[|s| - 1] == t[|t| - 1];
    assert m % 10 == n % 10;
    if m >= 10 && n >= 10 {
      assert s[..|s| - 1] == Decimal(m / 10) && t[..|t| - 1] == Decimal(n / 10);
      DecimalInjective(m / 10, n / 10);
    }
  }

  lemma {:induction false} DecimalLength(n: nat)
    ensures |Decimal(n)| >= 1 && (|Decimal(n)| == 1 <==> n < 10)
  {
    if n >= 10 {
      DecimalLength(n / 10);
    }
  }

  /** Within one service, clusters have the same name only if they have the same port. */
  lemma ClusterNamesDistinct(namespace: string, name: string, p: u16, q: u16)
    ensures SidecarClusterName(namespace, name, p) == SidecarClusterName(namespace, name, q) <==> p == q
  {
    if SidecarClusterName(namespace, name, p) == SidecarClusterName(namespace, name, q) {
      var k := |namespace + "/" + name + "|"|;
      assert SidecarClusterName(namespace, name, p)[k..] == Decimal(p);
      assert SidecarClusterName(namespace, name, q)[k..] == Decimal(q);
      DecimalInjective(p, q);
    }
  }

  // ---------------------------------------------------------------- dividing weights

  /** Integer division as Go does it, towards zero. */
  function Quotient(a: int, b: int): int
    requires b > 0
  {
    if a >= 0 then a / b else -((-a) / b)
  }

  /** The share of the i-th of n clusters: the remainder goes, one each, to the last ones. */
  function Share(w: int, n: int, i: int): int
    requires n > 0 && 0 <= i < n
  {
    if w < 0 then -PositiveShare(-w, n, i) else PositiveShare(w, n, i)
  }

  function PositiveShare(w: nat, n: int, i: int): int
    requires n > 0 && 0 <= i < n
  {
    if i < n - w % n then w / n else w / n + 1
  }

  /** What is left for the clusters from i on. */
  function Rest(w: int, n: int, i: int): int
    requires n > 0 && 0 <= i <= n
  {
    if w < 0 then -PositiveRest(-w, n, i) else PositiveRest(w, n, i)
  }

  function PositiveRest(w: nat, n: int, i: int): int
    requires n > 0 && 0 <= i <= n
  {
    if i <= n - w % n then w / n * (n - i) + w % n else (w / n + 1) * (n - i)
  }

  lemma PositiveRestStep(w: nat, n: int, i: int)
    requires n > 0 && 0 <= i < n
    ensures PositiveRest(w, n, i) >= 0
    ensures PositiveRest(w, n, i) / (n - i) == PositiveShare(w, n, i)
    ensures PositiveRest(w, n, i) - PositiveShare(w, n, i) == PositiveRest(w, n, i + 1)
  {
    var q, r, d := w / n, w % n, n - i;
    assert q >= 0;
    assert q * (d - 1) == q * d - q && (q + 1) * (d - 1) == (q + 1) * d - (q + 1);
    assert q * d >= 0 && (q + 1) * d == q * d + d;
    if i < n - r {
      assert d * q == q * d;
      DivUnique(q * d + r, d, q, r);
    } else {
      assert d * (q + 1) == (q + 1) * d;
      DivUnique((q + 1) * d, d, q + 1, 0);
    }
  }

  lemma RestStep(w: int, n: int, i: int)
    requires n > 0 && 0 <= i < n
    ensures Quotient(Rest(w, n, i), n - i) == Share(w, n, i)
    ensures Rest(w, n, i) - Share(w, n, i) == Rest(w, n, i + 1)
  {
    if w < 0 {
      PositiveRestStep(-w, n, i);
      QuotientOfNegation(PositiveRest(-w, n, i), n - i);
    } else {
      PositiveRestStep(w, n, i);
    }
  }

  lemma QuotientOfNegation(a: int, b: int)
    requires a >= 0 && b > 0
    ensures Quotient(-a, b) == -(a / b)
  {
  }

  lemma RestEnds(w: int, n: int)
    requires n > 0
    ensures Rest(w, n, 0) == w && Rest(w, n, n) == 0
  {
    var v := if w < 0 then -w else w;
    assert v == v / n * n + v % n;
    assert v / n * 0 == 0 && (v / n + 1) * 0 == 0;
  }

  function Split(names: seq<string>, w: int): seq<WeightedCluster> {
    seq(|names|, i requires 0 <= i < |names| => WeightedCluster(names[i], Share(w, |names|, i)))
  }

  /** activeUpstreamClusters. */
  method ActiveUpstreamClusters(aas: seq<string>, backendWeight: int, upstream: seq<WeightedCluster>)
    returns (r: seq<WeightedCluster>)
    ensures r == upstream + Split(aas, backendWeight)
  {
    r := upstream;
    if |aas| > 0 {
      var totalWeight := backendWeight;
      RestEnds(backendWeight, |aas|);
      for index := 0 to |aas|
        invariant totalWeight == Rest(backendWeight, |aas|, index)
        invariant r == upstream + Split(aas, backendWeight)[..index]
      {
        RestStep(backendWeight, |aas|, index);
        var weight := Quotient(totalWeight, |aas| - index);
        totalWeight := totalWeight - weight;
        r := r + [WeightedCluster(aas[index], weight)];
      }
      assert Split(aas, backendWeight)[..|aas|] == Split(aas, backendWeight);
    }
  }

  function FailOvers(names: seq<string>): seq<WeightedCluster> {
    seq(|names|, i requires 0 <= i < |names| => WeightedCluster(names[i], FAIL_OVER_WEIGHT))
  }

  /** failOverUpstreamClusters. */
  method FailOverUpstreamClusters(fos: seq<string>, upstream: seq<WeightedCluster>) returns (r: seq<WeightedCluster>)
    ensures r == upstream + FailOvers(fos)
  {
    r := upstream;
    for i := 0 to |fos|
      invariant r == upstream + FailOvers(fos)[..i]
    {
      r := r + [WeightedCluster(fos[i], FAIL_OVER_WEIGHT)];
    }
    assert FailOvers(fos)[..|fos|] == FailOvers(fos);
  }

  function Total(cs: seq<WeightedCluster>): int {
    if cs == [] then 0 else Total(cs[..|cs| - 1]) + cs[|cs| - 1].weight
  }

  lemma {:induction false} TotalConcat(a: seq<WeightedCluster>, b: seq<WeightedCluster>)
    ensures Total(a + b) == Total(a) + Total(b)
  {
    if b == [] {
      assert a + b == a;
    } else {
      TotalConcat(a, b[..|b| - 1]);
      assert (a + b)[..|a + b| - 1] == a + b[..|b| - 1];
    }
  }

  lemma {:induction false} PrefixTotal(names: seq<string>, w: int, i: nat)
    requires i <= |names| && names != []
    ensures Total(Split(names, w)[..i]) == w - Rest(w, |names|, i)
  {
    if i == 0 {
      RestEnds(w, |names|);
    } else {
      PrefixTotal(names, w, i - 1);
      RestStep(w, |names|, i - 1);
      assert Split(names, w)[..i][..i - 1] == Split(names, w)[..i - 1];
    }
  }

  /** Nothing of the weight is lost or invented, for any weight and any number of clusters. */
  lemma SplitIsExact(names: seq<string>, w: int)
    requires names != []
    ensures Total(Split(names, w)) == w
  {
    PrefixTotal(names, w, |names|);
    RestEnds(w, |names|);
    assert Split(names, w)[..|names|] == Split(names, w);
  }

  /** For a non-negative weight each share is the quotient rounded down or up, rounded up only
      where there is a remainder, and the shares never decrease along the list. */
  lemma SplitIsFair(names: seq<string>, w: nat, i: nat, j: nat)
    requires i <= j < |names|
    ensures var n, cs := |names|, Split(names, w);
            && w / n <= cs[i].weight <= (w + n - 1) / n
            && cs[i].weight <= cs[j].weight <= cs[i].weight + 1
  {
    var n := |names|;
    var q, r := w / n, w % n;
    assert w + n - 1 == n * q + (r + n - 1) by {
      assert w == n * q + r;
    }
    if r > 0 {
      assert n * (q + 1) == n * q + n;
      DivUnique(w + n - 1, n, q + 1, r - 1);
    } else {
      DivUnique(w + n - 1, n, q, n - 1);
    }
  }

  // ------------------------------------------------------------ one backend's clusters

  /** A backend: its service, the local target port if there is one, and the target ports in
      other clusters with their mode (true for active-active). */
  datatype Backend = Backend(namespace: string, service: string, weight: int, localPort: Option<u16>, remote: map<u16,
                             bool>)

  function Name(b: Backend, p: u16): string {
    SidecarClusterName(b.namespace, b.service, p)
  }

  /** The order in which a range over the remote ports happens to meet them. */
  ghost predicate IsOrder(order: seq<u16>, remote: map<u16, bool>) {
    && (forall p :: p in order <==> p in remote)
    && (forall i, j :: 0 <= i < j < |order| ==> order[i] != order[j])
  }

  predicate Wanted(b: Backend, p: u16, mode: bool) {
    p in b.remote && b.remote[p] == mode && b.localPort != Some(p)
  }

  function NamesOf(b: Backend, order: seq<u16>, mode: bool): seq<string> {
    if order == [] then []
    else
      var p := order[|order| - 1];
      NamesOf(b, order[..|order| - 1], mode) + (if Wanted(b, p, mode) then [Name(b, p)] else [])
  }

  function Actives(b: Backend, order: seq<u16>): seq<string> {
    (if b.localPort.Some? then [Name(b, b.localPort.value)] else []) + NamesOf(b, order, true)
  }

  /** The clusters one backend contributes. */
  function Contribution(b: Backend, order: seq<u16>): seq<WeightedCluster> {
    Split(Actives(b, order), b.weight) + FailOvers(NamesOf(b, order, false))
  }

  lemma NamesOfSnoc(b: Backend, order: seq<u16>, p: u16, mode: bool)
    ensures NamesOf(b, order + [p], mode) == NamesOf(b, order, mode) + (if Wanted(b, p, mode) then [Name(b, p)] else [])
  {
    assert (order + [p])[..|order|] == order;
  }

  /** A remote port is skipped exactly if it is the local one. */
  lemma LocalByName(b: Backend, p: u16, cnsLocal: set<string>)
    requires cnsLocal == if b.localPort.Some? then {Name(b, b.localPort.value)} else {}
    ensures Name(b, p) in cnsLocal <==> b.localPort == Some(p)
  {
    if b.localPort.Some? {
      ClusterNamesDistinct(b.namespace, b.service, p, b.localPort.value);
    }
  }

  /** mergeSplitUpstreamClusters: the clusters come in some order of the ports, whatever the map
      iteration yields, and add exactly the backend's weight if any of them is active. */
  method MergeSplitUpstreamClusters(b: Backend, upstream: seq<WeightedCluster>) returns (r: seq<WeightedCluster>)
    ensures exists order :: IsOrder(order, b.remote) && r == upstream + Contribution(b, order)
    ensures Total(r) == Total(upstream) +
            if b.localPort == None && (forall p :: p in b.remote ==> !b.remote[p]) then 0 else b.weight
  {
    var aas, fos, order := CollectClusters(b);
    r := ActiveUpstreamClusters(aas, b.weight, upstream);
    r := FailOverUpstreamClusters(fos, r);
    assert r == upstream + Contribution(b, order);
    ContributionIsExact(b, order);
    TotalConcat(upstream, Contribution(b, order));
  }

  /** The two blocks that sort the backend's clusters into active and failover ones. */
  method CollectClusters(b: Backend) returns (aas: seq<string>, fos: seq<string>, ghost order: seq<u16>)
    ensures IsOrder(order, b.remote) && aas == Actives(b, order) && fos == NamesOf(b, order, false)
  {
    var cnsLocal: set<string> := {};
    aas, fos, order := [], [], [];
    if b.localPort.Some? {
      aas := aas + [Name(b, b.localPort.value)];
      cnsLocal := cnsLocal + {Name(b, b.localPort.value)};
    }
    var todo := b.remote.Keys;
    while todo != {}
      invariant todo <= b.remote.Keys
      invariant forall p :: p in order <==> p in b.remote && p !in todo
      invariant forall i, j :: 0 <= i < j < |order| ==> order[i] != order[j]
      invariant aas == Actives(b, order) && fos == NamesOf(b, order, false)
    {
      var targetPort :| targetPort in todo;
      LocalByName(b, targetPort, cnsLocal);
      NamesOfSnoc(b, order, targetPort, true);
      NamesOfSnoc(b, order, targetPort, false);
      if Name(b, targetPort) !in cnsLocal {
        if b.remote[targetPort] {
          aas := aas + [Name(b, targetPort)];
        } else {
          fos := fos + [Name(b, targetPort)];
        }
      }
      order := order + [targetPort];
      todo := todo - {targetPort};
    }
  }

  lemma {:induction false} NamesOfMembers(b: Backend, order: seq<u16>, mode: bool, x: string)
    ensures x in NamesOf(b, order, mode) <==>
            exists i :: 0 <= i < |order| && Wanted(b, order[i], mode) && x == Name(b, order[i])
  {
    if order != [] {
      var n := |order| - 1;
      NamesOfMembers(b, order[..n], mode, x);
      if exists i :: 0 <= i < |order| && Wanted(b, order[i], mode) && x == Name(b, order[i]) {
        var i :| 0 <= i < |order| && Wanted(b, order[i], mode) && x == Name(b, order[i]);
        if i < n {
          assert order[..n][i] == order[i];
        }
      }
    }
  }

  lemma {:induction false} NamesOfDistinct(b: Backend, order: seq<u16>, mode: bool)
    requires forall i, j :: 0 <= i < j < |order| ==> order[i] != order[j]
    ensures forall i, j :: 0 <= i < j < |NamesOf(b, order, mode)| ==>
            NamesOf(b, order, mode)[i] != NamesOf(b, order, mode)[j]
  {
    if order != [] {
      var n := |order| - 1;
      var p := order[n];
      NamesOfDistinct(b, order[..n], mode);
      NamesOfMembers(b, order[..n], mode, Name(b, p));
      forall i | 0 <= i < n
        ensures Name(b, order[i]) != Name(b, p)
      {
        ClusterNamesDistinct(b.namespace, b.service, order[i], p);
      }
    }
  }

  /** No cluster is listed twice for one backend, be it active or failover. */
  lemma ContributionNamesDistinct(b: Backend, order: seq<u16>)
    requires IsOrder(order, b.remote)
    ensures var cs := Contribution(b, order);
            forall i, j :: 0 <= i < j < |cs| ==> cs[i].name != cs[j].name
  {
    var a, f := Actives(b, order), NamesOf(b, order, false);
    NamesOfDistinct(b, order, true);
    NamesOfDistinct(b, order, false);
    ActivesDistinct(b, order);
    forall x | x in f
      ensures x !in a
    {
      ActiveNotFailOver(b, order, x);
    }
    DistinctConcat(a, f);
    var cs := Contribution(b, order);
    assert |cs| == |a + f|;
    assert forall i :: 0 <= i < |cs| ==> cs[i].name == (a + f)[i];
  }

  lemma DistinctConcat(a: seq<string>, f: seq<string>)
    requires forall i, j :: 0 <= i < j < |a| ==> a[i] != a[j]
    requires forall i, j :: 0 <= i < j < |f| ==> f[i] != f[j]
    requires forall x :: x in f ==> x !in a
    ensures forall i, j :: 0 <= i < j < |a + f| ==> (a + f)[i] != (a + f)[j]
  {
    forall i, j | 0 <= i < j < |a + f|
      ensures (a + f)[i] != (a + f)[j]
    {
      if i < |a| && |a| <= j {
        assert f[j - |a|] in f;
      }
    }
  }

  lemma ActivesDistinct(b: Backend, order: seq<u16>)
    requires IsOrder(order, b.remote)
    ensures var a := Actives(b, order); forall i, j :: 0 <= i < j < |a| ==> a[i] != a[j]
  {
    NamesOfDistinct(b, order, true);
    if b.localPort.Some? {
      LocalNotRemote(b, order, true);
    }
  }

  lemma LocalNotRemote(b: Backend, order: seq<u16>, mode: bool)
    requires b.localPort.Some?
    ensures Name(b, b.localPort.value) !in NamesOf(b, order, mode)
  {
    var x := Name(b, b.localPort.value);
    NamesOfMembers(b, order, mode, x);
    if x in NamesOf(b, order, mode) {
      var i :| 0 <= i < |order| && Wanted(b, order[i], mode) && x == Name(b, order[i]);
      ClusterNamesDistinct(b.namespace, b.service, order[i], b.localPort.value);
    }
  }

  lemma ActiveNotFailOver(b: Backend, order: seq<u16>, x: string)
    requires x in NamesOf(b, order, false)
    ensures x !in Actives(b, order)
  {
    NamesOfMembers(b, order, false, x);
    NamesOfMembers(b, order, true, x);
    var i :| 0 <= i < |order| && Wanted(b, order[i], false) && x == Name(b, order[i]);
    if b.localPort.Some? {
      LocalNotRemote(b, order, false);
    }
    if x in NamesOf(b, order, true) {
      var j :| 0 <= j < |order| && Wanted(b, order[j], true) && x == Name(b, order[j]);
      ClusterNamesDistinct(b.namespace, b.service, order[i], order[j]);
    }
  }

  function WantedPorts(b: Backend, mode: bool): set<u16> {
    set p | p in b.remote && Wanted(b, p, mode)
  }

  function WantedIn(b: Backend, order: seq<u16>, mode: bool): set<u16> {
    set p | p in order && Wanted(b, p, mode)
  }

  lemma WantedInLast(b: Backend, before: seq<u16>, p: u16, mode: bool)
    ensures WantedIn(b, before + [p], mode) == WantedIn(b, before, mode) + if Wanted(b, p, mode) then {p} else {}
  {
  }

  lemma {:induction false} NamesOfCount(b: Backend, order: seq<u16>, mode: bool)
    requires forall i, j :: 0 <= i < j < |order| ==> order[i] != order[j]
    ensures |NamesOf(b, order, mode)| == |WantedIn(b, order, mode)|
  {
    if order != [] {
      var n := |order| - 1;
      NamesOfCount(b, order[..n], mode);
      WantedInLast(b, order[..n], order[n], mode);
      assert order == order[..n] + [order[n]];
      assert order[n] !in order[..n];
    }
  }

  lemma CountIndependentOfOrder(b: Backend, order: seq<u16>, mode: bool)
    requires IsOrder(order, b.remote)
    ensures |NamesOf(b, order, mode)| == |WantedPorts(b, mode)|
  {
    NamesOfCount(b, order, mode);
    assert WantedIn(b, order, mode) == WantedPorts(b, mode);
  }

  function WeightsOf(cs: seq<WeightedCluster>): seq<int> {
    seq(|cs|, i requires 0 <= i < |cs| => cs[i].weight)
  }

  lemma {:induction false} FailOversAddNothing(f: seq<string>, i: nat)
    requires i <= |f|
    ensures Total(FailOvers(f)[..i]) == 0
  {
    if i > 0 {
      FailOversAddNothing(f, i - 1);
      assert FailOvers(f)[..i][..i - 1] == FailOvers(f)[..i - 1];
    }
  }

  /** The ports that share the weight: the local one, and the active ones of other clusters. */
  function Sharing(b: Backend): set<u16> {
    (set p | p in b.remote && b.remote[p]) + if b.localPort.Some? then {b.localPort.value} else {}
  }

  /** The ports kept in reserve: those of other clusters that are neither active nor local. */
  function Reserve(b: Backend): set<u16> {
    set p | p in b.remote && !b.remote[p] && b.localPort != Some(p)
  }

  lemma WantedPortsAre(b: Backend)
    ensures WantedPorts(b, false) == Reserve(b)
    ensures WantedPorts(b, true) == Sharing(b) - if b.localPort.Some? then {b.localPort.value} else {}
  {
  }

  lemma ActiveNames(b: Backend, order: seq<u16>, p: u16)
    requires IsOrder(order, b.remote)
    ensures Name(b, p) in Actives(b, order) <==> p in Sharing(b)
  {
    RemoteNames(b, order, true, p);
    if b.localPort.Some? {
      ClusterNamesDistinct(b.namespace, b.service, p, b.localPort.value);
    }
    var front: seq<string> := if b.localPort.Some? then [Name(b, b.localPort.value)] else [];
    assert Name(b, p) in Actives(b, order) <==> Name(b, p) in front || Name(b, p) in NamesOf(b, order, true);
  }

  lemma RemoteNames(b: Backend, order: seq<u16>, mode: bool, p: u16)
    requires IsOrder(order, b.remote)
    ensures Name(b, p) in NamesOf(b, order, mode) <==> Wanted(b, p, mode)
  {
    NamesOfMembers(b, order, mode, Name(b, p));
    if Name(b, p) in NamesOf(b, order, mode) {
      var i :| 0 <= i < |order| && Wanted(b, order[i], mode) && Name(b, p) == Name(b, order[i]);
      ClusterNamesDistinct(b.namespace, b.service, p, order[i]);
    }
    if Wanted(b, p, mode) {
      var i :| 0 <= i < |order| && order[i] == p;
    }
  }

  lemma ActiveCount(b: Backend, order: seq<u16>)
    requires IsOrder(order, b.remote)
    ensures |Actives(b, order)| == |Sharing(b)|
  {
    CountIndependentOfOrder(b, order, true);
    WantedPortsAre(b);
    if b.localPort.Some? {
      assert Sharing(b) == WantedPorts(b, true) + {b.localPort.value};
    }
  }

  /** A cluster of this port and weight, at one of these places. */
  predicate Listed(cs: seq<WeightedCluster>, b: Backend, p: u16, from: int, to: int)
    requires 0 <= from <= to <= |cs|
  {
    exists i :: from <= i < to && cs[i].name == Name(b, p)
  }

  lemma TwoParts(a: seq<string>, f: seq<string>, w: int)
    ensures var cs := Split(a, w) + FailOvers(f);
            && |cs| == |a| + |f|
            && (forall i :: 0 <= i < |a| ==> cs[i] == WeightedCluster(a[i], Share(w, |a|, i)))
            && (forall i :: |a| <= i < |cs| ==> cs[i] == WeightedCluster(f[i - |a|], 0))
  {
  }

  lemma ListedSharing(b: Backend, order: seq<u16>, cs: seq<WeightedCluster>, p: u16)
    requires IsOrder(order, b.remote) && |Actives(b, order)| <= |cs|
    requires forall i :: 0 <= i < |Actives(b, order)| ==> cs[i].name == Actives(b, order)[i]
    ensures p in Sharing(b) <==> Listed(cs, b, p, 0, |Actives(b, order)|)
  {
    ActiveNames(b, order, p);
  }

  lemma ListedReserve(b: Backend, order: seq<u16>, cs: seq<WeightedCluster>, n: nat, p: u16)
    requires IsOrder(order, b.remote) && |cs| == n + |NamesOf(b, order, false)|
    requires forall i :: n <= i < |cs| ==> cs[i].name == NamesOf(b, order, false)[i - n]
    ensures p in Reserve(b) <==> Listed(cs, b, p, n, |cs|)
  {
    RemoteNames(b, order, false, p);
    var f := NamesOf(b, order, false);
    if Name(b, p) in f {
      var i :| 0 <= i < |f| && f[i] == Name(b, p);
      assert cs[n + i].name == f[n + i - n];
    }
  }

  /** What one backend contributes, in terms of its ports alone. First come the ports that share the
      weight, the i-th of them with the i-th share, then those in reserve with weight zero;
      each has its cluster, and there are no others. */
  lemma ContributionByPort(b: Backend, order: seq<u16>)
    requires IsOrder(order, b.remote)
    ensures var cs, n := Contribution(b, order), |Sharing(b)|;
            && |cs| == n + |Reserve(b)|
            && (forall p :: p in Sharing(b) <==> Listed(cs, b, p, 0, n))
            && (forall p :: p in Reserve(b) <==> Listed(cs, b, p, n, |cs|))
            && (forall i :: 0 <= i < n ==> cs[i].weight == Share(b.weight, n, i))
            && (forall i :: n <= i < |cs| ==> cs[i].weight == 0)
  {
    var cs, n := Contribution(b, order), |Sharing(b)|;
    ActiveCount(b, order);
    CountIndependentOfOrder(b, order, false);
    WantedPortsAre(b);
    TwoParts(Actives(b, order), NamesOf(b, order, false), b.weight);
    forall p: u16
      ensures p in Sharing(b) <==> Listed(cs, b, p, 0, n)
      ensures p in Reserve(b) <==> Listed(cs, b, p, n, |cs|)
    {
      ListedSharing(b, order, cs, p);
      ListedReserve(b, order, cs, n, p);
    }
  }

  /** The ports with a cluster are the local one and those of the other clusters. */
  lemma PortsWithCluster(b: Backend)
    ensures Sharing(b) + Reserve(b) == b.remote.Keys + if b.localPort.Some? then {b.localPort.value} else {}
    ensures Sharing(b) !! Reserve(b)
    ensures Sharing(b) == {} <==> b.localPort == None && forall p :: p in b.remote ==> !b.remote[p]
  {
    if b.localPort == None && forall p :: p in b.remote ==> !b.remote[p] {
      assert forall p :: p !in Sharing(b);
    }
    assert forall p :: p in b.remote && b.remote[p] ==> p in Sharing(b);
  }

  /** One backend's clusters carry exactly its weight if it has a local port or an active port
      elsewhere, and nothing otherwise. */
  lemma ContributionIsExact(b: Backend, order: seq<u16>)
    requires IsOrder(order, b.remote)
    ensures Total(Contribution(b, order)) ==
            if b.localPort == None && (forall p :: p in b.remote ==> !b.remote[p]) then 0 else b.weight
  {
    ActiveCount(b, order);
    PortsWithCluster(b);
    var a, f := Actives(b, order), NamesOf(b, order, false);
    TotalConcat(Split(a, b.weight), FailOvers(f));
    FailOversAddNothing(f, |f|);
    assert FailOvers(f)[..|f|] == FailOvers(f);
    if a != [] {
      SplitIsExact(a, b.weight);
    }
  }

  /** The weights depend on how many names there are, not on the names. */
  lemma SameCountsSameWeights(a: seq<string>, a': seq<string>, f: seq<string>, f': seq<string>, w: int)
    requires |a| == |a'| && |f| == |f'|
    ensures WeightsOf(Split(a, w) + FailOvers(f)) == WeightsOf(Split(a', w) + FailOvers(f'))
  {
  }

  /** The weights, as a sequence, do not depend on the order the ports are met in. */
  lemma WeightsIndependentOfOrder(b: Backend, order: seq<u16>, order': seq<u16>)
    requires IsOrder(order, b.remote) && IsOrder(order', b.remote)
    ensures WeightsOf(Contribution(b, order)) == WeightsOf(Contribution(b, order'))
  {
    CountIndependentOfOrder(b, order, true);
    CountIndependentOfOrder(b, order, false);
    CountIndependentOfOrder(b, order', true);
    CountIndependentOfOrder(b, order', false);
    SameCountsSameWeights(Actives(b, order), Actives(b, order'), NamesOf(b, order, false), NamesOf(b, order', false),
                          b.weight);
  }
}
