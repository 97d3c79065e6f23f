/** The iptables program of a pod: a compiler from exclusion and inclusion lists to an ordered
    rule program, an evaluator for such programs, and the policy the program means. */
module Iptables {
  import opened Wire
  import opened Hooks

  const SIDECAR_UID := 1500
  const OUTBOUND_LISTENER := 15001
  const INBOUND_LISTENER := 15003
  const ADMIN_PORT := 15000
  /** The Prometheus listener, the three probe ports and the health check port. */
  const UNTOUCHED_INBOUND_PORTS := [15010, 15901, 15902, 15903, 15904]
  /** 127.0.0.153 in network order. */
  const DNS_PROXY_IP: u32 := 127 + 153 * 0x100_0000

  datatype Proto = Tcp | Udp | Other

  /** A packet as the nat table sees it. Addresses are kept in network order. */
  datatype Packet = Packet(proto: Proto, inIface: string, outIface: string, uid: int, dst: u32, dport: int)

  datatype Range = Range(addr: u32, len: MaskLength)
  type MaskLength = n: int | 0 <= n <= 32

  ghost predicate Contains(r: Range, ip: u32) {
    SharePrefix(r.addr, ip, r.len)
  }

  /** An interface name in a rule; a trailing plus sign stands for any continuation. */
  predicate IfaceMatches(pattern: string, iface: string) {
    if pattern != "" && pattern[|pattern| - 1] == '+' then pattern[..|pattern| - 1] <= iface else pattern == iface
  }

  // ------------------------------------------------------------- rule programs

  datatype Chain = Prerouting | Output | Inbound | InRedirect | Outbound | OutRedirect

  datatype Cond =
    | IsProto(proto: Proto)
    | FromIface(iface: string)
    | ToIface(iface: string)
    | Dst(range: Range)
    | NotDst(range: Range)
    | Owner(uid: int)
    | NotOwner(uid: int)
    | Dport(port: int)
    | Dports(ports: seq<int>)

  datatype Target =
    | Accept
    | Return
    | Redirect(port: int)
    | DnatPodIp
    | Dnat(ip: u32, port: int)
    | Jump(chain: Chain)

  datatype Rule = Rule(conds: seq<Cond>, target: Target)

  /** -A and -I. */
  datatype Command = Append(chain: Chain, rule: Rule) | Insert(chain: Chain, rule: Rule)

  ghost predicate Holds(c: Cond, p: Packet) {
    match c
    case IsProto(proto) => p.proto == proto
    case FromIface(iface) => IfaceMatches(iface, p.inIface)
    case ToIface(iface) => IfaceMatches(iface, p.outIface)
    case Dst(r) => Contains(r, p.dst)
    case NotDst(r) => !Contains(r, p.dst)
    case Owner(uid) => p.uid == uid
    case NotOwner(uid) => p.uid != uid
    case Dport(port) => p.dport == port
    case Dports(ports) => p.dport in ports
  }

  ghost predicate Matches(r: Rule, p: Packet) {
    forall i :: 0 <= i < |r.conds| ==> Holds(r.conds[i], p)
  }

  /** The rules of a chain after the commands were executed in order on an empty table. */
  function Load(cmds: seq<Command>, chain: Chain): seq<Rule> {
    if cmds == [] then []
    else
      var before, last := Load(cmds[..|cmds| - 1], chain), cmds[|cmds| - 1];
      if last.chain != chain then before
      else if last.Append? then before + [last.rule]
      else [last.rule] + before
  }

  /** Jumps only go to chains of smaller rank: the jump graph has no cycle. */
  function Rank(c: Chain): nat {
    match c
    case Prerouting => 2
    case Output => 2
    case Inbound => 1
    case Outbound => 1
    case InRedirect => 0
    case OutRedirect => 0
  }

  ghost predicate JumpsBelow(rules: seq<Rule>, n: nat) {
    forall i :: 0 <= i < |rules| && rules[i].target.Jump? ==> Rank(rules[i].target.chain) < n
  }

  ghost predicate Acyclic(cmds: seq<Command>) {
    forall c :: JumpsBelow(Load(cmds, c), Rank(c))
  }

  datatype Verdict = FellOff | Returned | Accepted | RedirectedTo(port: int) | DnatedToPodIp
    | DnatedTo(ip: u32, port: int)

  predicate Undecided(v: Verdict) {
    v == FellOff || v == Returned
  }

  /** Walking down a chain: the first rule that matches acts, and a chain that ends or returns
      resumes its caller behind the jump. */
  ghost function Walk(cmds: seq<Command>, rules: seq<Rule>, n: nat, p: Packet): Verdict
    requires Acyclic(cmds) && JumpsBelow(rules, n)
    decreases n, |rules|
  {
    if rules == [] then FellOff
    else if !Matches(rules[0], p) then Walk(cmds, rules[1..], n, p)
    else
      match rules[0].target
      case Accept => Accepted
      case Return => Returned
      case Redirect(port) => RedirectedTo(port)
      case DnatPodIp => DnatedToPodIp
      case Dnat(ip, port) => DnatedTo(ip, port)
      case Jump(c) =>
        var v := Walk(cmds, Load(cmds, c), Rank(c), p);
        if Undecided(v) then Walk(cmds, rules[1..], n, p) else v
  }

  /** What happens to a packet at a hook; a packet no rule decides on passes unchanged. */
  ghost function Evaluate(cmds: seq<Command>, hook: Chain, p: Packet): Verdict
    requires Acyclic(cmds)
  {
    var v := Walk(cmds, Load(cmds, hook), Rank(hook), p);
    if Undecided(v) then FellOff else v
  }

  // ------------------------------------------------------------------ the compiler

  datatype Config = Config(
    podIpMode: bool,
    dnsProxy: bool,
    excludedRanges: seq<Range>,
    includedRanges: seq<Range>,
    excludedOutPorts: seq<int>,
    excludedInPorts: seq<int>,
    excludedIfaces: seq<string>)

  const LOCALHOST_RANGE := Range(LOCALHOST, 32)

  const IN_REDIRECT_RULES := [Rule([IsProto(Tcp)], Redirect(INBOUND_LISTENER))]
  const PREROUTING_RULES := [Rule([IsProto(Tcp)], Jump(Inbound))]
  const INBOUND_RULES := [
    SkipRule(15010), SkipRule(15901), SkipRule(15902), SkipRule(15903), SkipRule(15904),
    Rule([IsProto(Tcp)], Jump(InRedirect))]
  const OUT_REDIRECT_RULES := [
    Rule([IsProto(Tcp)], Redirect(OUTBOUND_LISTENER)),
    Rule([IsProto(Tcp), Dport(ADMIN_PORT)], Accept)]
  const OUTPUT_RULES := [Rule([IsProto(Tcp)], Jump(Outbound))]
  const OUTBOUND_RULES := [
    Rule([ToIface("lo"), NotDst(LOCALHOST_RANGE), Owner(SIDECAR_UID)], Jump(InRedirect)),
    Rule([ToIface("lo"), NotOwner(SIDECAR_UID)], Return),
    Rule([Owner(SIDECAR_UID)], Return),
    Rule([Dst(LOCALHOST_RANGE)], Return)]
  const DNS_RULE := Rule([IsProto(Udp), Dst(Range(DNS_PROXY_IP, 32)), Dport(53)], Dnat(DNS_PROXY_IP, 5300))
  const POD_IP_RULE := Rule([IsProto(Tcp), ToIface("lo"), Dst(LOCALHOST_RANGE), Owner(SIDECAR_UID)], DnatPodIp)

  function SkipRule(port: int): Rule {
    Rule([IsProto(Tcp), Dport(port)], Return)
  }

  function AppendAll(chain: Chain, rules: seq<Rule>): seq<Command> {
    seq(|rules|, i requires 0 <= i < |rules| => Append(chain, rules[i]))
  }

  function InsertAll(chain: Chain, rules: seq<Rule>): seq<Command> {
    seq(|rules|, i requires 0 <= i < |rules| => Insert(chain, rules[i]))
  }

  function FromIfaceRules(ifaces: seq<string>): seq<Rule> {
    seq(|ifaces|, i requires 0 <= i < |ifaces| => Rule([FromIface(ifaces[i])], Return))
  }

  function ToIfaceRules(ifaces: seq<string>): seq<Rule> {
    seq(|ifaces|, i requires 0 <= i < |ifaces| => Rule([ToIface(ifaces[i])], Return))
  }

  function RangeRules(ranges: seq<Range>, t: Target): seq<Rule> {
    seq(|ranges|, i requires 0 <= i < |ranges| => Rule([Dst(ranges[i])], t))
  }

  function PortRules(ports: seq<int>): seq<Rule> {
    if ports == [] then [] else [Rule([IsProto(Tcp), Dports(ports)], Return)]
  }

  function InclusionRules(ranges: seq<Range>): seq<Rule> {
    if ranges == [] then [Rule([], Jump(OutRedirect))]
    else RangeRules(ranges, Jump(OutRedirect)) + [Rule([], Return)]
  }

  function InboundStatic(): seq<Command> {
    AppendAll(InRedirect, IN_REDIRECT_RULES) + AppendAll(Prerouting, PREROUTING_RULES) +
      AppendAll(Inbound, INBOUND_RULES)
  }

  function InboundDynamic(cfg: Config): seq<Command> {
    InsertAll(Inbound, FromIfaceRules(cfg.excludedIfaces)) + InsertAll(Inbound, PortRules(cfg.excludedInPorts))
  }

  function OutboundStatic(): seq<Command> {
    AppendAll(OutRedirect, OUT_REDIRECT_RULES) + AppendAll(Output, OUTPUT_RULES) + AppendAll(Outbound, OUTBOUND_RULES)
  }

  function OutputOptions(cfg: Config): seq<Command> {
    AppendAll(Output, if cfg.dnsProxy then [DNS_RULE] else []) +
      InsertAll(Output, if cfg.podIpMode then [POD_IP_RULE] else [])
  }

  function OutboundDynamic(cfg: Config): seq<Command> {
    AppendAll(Outbound, ToIfaceRules(cfg.excludedIfaces)) + AppendAll(Outbound, RangeRules(cfg.excludedRanges, Return))
    + AppendAll(Outbound, PortRules(cfg.excludedOutPorts)) + AppendAll(Outbound, InclusionRules(cfg.includedRanges))
  }

  /** The commands in the order they are written. */
  function Compile(cfg: Config): seq<Command> {
    InboundStatic() + InboundDynamic(cfg) + OutboundStatic() + OutputOptions(cfg) + OutboundDynamic(cfg)
  }

  // -------------------------------------------------------------------- the policy

  ghost predicate InSome(ranges: seq<Range>, ip: u32) {
    exists i :: 0 <= i < |ranges| && Contains(ranges[i], ip)
  }

  predicate OnSome(ifaces: seq<string>, iface: string) {
    exists i :: 0 <= i < |ifaces| && IfaceMatches(ifaces[i], iface)
  }

  /** Outgoing traffic of the application that goes through the sidecar. */
  ghost predicate CapturedOut(cfg: Config, p: Packet) {
    && p.proto == Tcp
    && p.uid != SIDECAR_UID
    && p.outIface != "lo"
    && p.dst != LOCALHOST
    && !OnSome(cfg.excludedIfaces, p.outIface)
    && !InSome(cfg.excludedRanges, p.dst)
    && p.dport !in cfg.excludedOutPorts
    && (cfg.includedRanges == [] || InSome(cfg.includedRanges, p.dst))
  }

  ghost predicate CapturedIn(cfg: Config, p: Packet) {
    && p.proto == Tcp
    && p.dport !in UNTOUCHED_INBOUND_PORTS
    && p.dport !in cfg.excludedInPorts
    && !OnSome(cfg.excludedIfaces, p.inIface)
  }

  ghost function OutputPolicy(cfg: Config, p: Packet): Verdict {
    if CapturedOut(cfg, p) then RedirectedTo(OUTBOUND_LISTENER)
    else if p.proto == Tcp && p.outIface == "lo" && p.uid == SIDECAR_UID && p.dst != LOCALHOST
      then RedirectedTo(INBOUND_LISTENER)
    else if p.proto == Tcp && p.outIface == "lo" && p.uid == SIDECAR_UID && cfg.podIpMode then DnatedToPodIp
    else if p.proto == Udp && cfg.dnsProxy && p.dst == DNS_PROXY_IP && p.dport == 53 then DnatedTo(DNS_PROXY_IP, 5300)
    else FellOff
  }

  ghost function PreroutingPolicy(cfg: Config, p: Packet): Verdict {
    if CapturedIn(cfg, p) then RedirectedTo(INBOUND_LISTENER) else FellOff
  }

  // -------------------------------------------------------- what -A and -I amount to

  function Only(c: Command, chain: Chain, inserting: bool): seq<Rule> {
    if c.Insert? == inserting && c.chain == chain then [c.rule] else []
  }

  function Appended(cmds: seq<Command>, chain: Chain): seq<Rule> {
    if cmds == [] then [] else Only(cmds[0], chain, false) + Appended(cmds[1..], chain)
  }

  /** Inserted rules end up in front, the last one first. */
  function Inserted(cmds: seq<Command>, chain: Chain): seq<Rule> {
    if cmds == [] then [] else Inserted(cmds[1..], chain) + Only(cmds[0], chain, true)
  }

  lemma Associative<T>(x: seq<T>, y: seq<T>, z: seq<T>)
    ensures (x + y) + z == x + (y + z)
  {
  }

  lemma {:induction false} AppendedConcat(a: seq<Command>, b: seq<Command>, chain: Chain)
    ensures Appended(a + b, chain) == Appended(a, chain) + Appended(b, chain)
  {
    if a == [] {
      assert a + b == b;
    } else {
      AppendedConcat(a[1..], b, chain);
      assert (a + b)[0] == a[0] && (a + b)[1..] == a[1..] + b;
      Associative(Only(a[0], chain, false), Appended(a[1..], chain), Appended(b, chain));
    }
  }

  lemma {:induction false} InsertedConcat(a: seq<Command>, b: seq<Command>, chain: Chain)
    ensures Inserted(a + b, chain) == Inserted(b, chain) + Inserted(a, chain)
  {
    if a == [] {
      assert a + b == b;
    } else {
      InsertedConcat(a[1..], b, chain);
      assert (a + b)[0] == a[0] && (a + b)[1..] == a[1..] + b;
      Associative(Inserted(b, chain), Inserted(a[1..], chain), Only(a[0], chain, true));
    }
  }

  lemma LastCommand(before: seq<Command>, last: Command, chain: Chain)
    ensures Appended(before + [last], chain) == Appended(before, chain) + Only(last, chain, false)
    ensures Inserted(before + [last], chain) == Only(last, chain, true) + Inserted(before, chain)
  {
    AppendedConcat(before, [last], chain);
    InsertedConcat(before, [last], chain);
    assert [last][1..] == [];
  }

  /** A chain is its inserted rules, latest first, followed by its appended rules in order. */
  lemma {:induction false} LoadIsInsertedThenAppended(cmds: seq<Command>, chain: Chain)
    ensures Load(cmds, chain) == Inserted(cmds, chain) + Appended(cmds, chain)
  {
    if cmds != [] {
      var before, last := cmds[..|cmds| - 1], cmds[|cmds| - 1];
      LoadIsInsertedThenAppended(before, chain);
      assert before + [last] == cmds;
      LastCommand(before, last, chain);
      Associative(Only(last, chain, true), Inserted(before, chain), Appended(before, chain));
      Associative(Inserted(before, chain), Appended(before, chain), Only(last, chain, false));
    }
  }

  // --------------------------------------------------------------- the loaded chains

  function OutputRules(cfg: Config): seq<Rule> {
    (if cfg.podIpMode then [POD_IP_RULE] else []) + OUTPUT_RULES + (if cfg.dnsProxy then [DNS_RULE] else [])
  }

  function OutboundRules(cfg: Config): seq<Rule> {
    OUTBOUND_RULES + (ToIfaceRules(cfg.excludedIfaces) + RangeRules(cfg.excludedRanges, Return)
    + PortRules(cfg.excludedOutPorts) + InclusionRules(cfg.includedRanges))
  }

  /** Inserted last, the port exclusions stand first; the interfaces follow in reverse. */
  function InboundRules(cfg: Config): seq<Rule> {
    PortRules(cfg.excludedInPorts) + Reversed(FromIfaceRules(cfg.excludedIfaces)) + INBOUND_RULES
  }

  function RulesOf(cfg: Config, chain: Chain): seq<Rule> {
    match chain
    case Prerouting => PREROUTING_RULES
    case Output => OutputRules(cfg)
    case Inbound => InboundRules(cfg)
    case Outbound => OutboundRules(cfg)
    case InRedirect => IN_REDIRECT_RULES
    case OutRedirect => OUT_REDIRECT_RULES
  }

  function Reversed(rules: seq<Rule>): (r: seq<Rule>)
    ensures |r| == |rules|
    ensures forall i :: 0 <= i < |rules| ==> r[i] == rules[|rules| - 1 - i]
  {
    if rules == [] then [] else Reversed(rules[1..]) + [rules[0]]
  }

  lemma {:induction false} AppendBlock(d: Chain, rules: seq<Rule>, chain: Chain)
    ensures Appended(AppendAll(d, rules), chain) == if chain == d then rules else []
    ensures Inserted(AppendAll(d, rules), chain) == []
  {
    if rules != [] {
      AppendBlock(d, rules[1..], chain);
      assert AppendAll(d, rules)[1..] == AppendAll(d, rules[1..]);
      assert [rules[0]] + rules[1..] == rules;
    }
  }

  lemma {:induction false} InsertBlock(d: Chain, rules: seq<Rule>, chain: Chain)
    ensures Appended(InsertAll(d, rules), chain) == []
    ensures Inserted(InsertAll(d, rules), chain) == if chain == d then Reversed(rules) else []
  {
    if rules != [] {
      InsertBlock(d, rules[1..], chain);
      assert InsertAll(d, rules)[1..] == InsertAll(d, rules[1..]);
    }
  }

  function InboundFixed(chain: Chain): seq<Rule> {
    match chain
    case InRedirect => IN_REDIRECT_RULES
    case Prerouting => PREROUTING_RULES
    case Inbound => INBOUND_RULES
    case _ => []
  }

  function OutboundFixed(chain: Chain): seq<Rule> {
    match chain
    case OutRedirect => OUT_REDIRECT_RULES
    case Output => OUTPUT_RULES
    case Outbound => OUTBOUND_RULES
    case _ => []
  }

  lemma InboundStaticLoads(chain: Chain)
    ensures Appended(InboundStatic(), chain) == InboundFixed(chain)
    ensures Inserted(InboundStatic(), chain) == []
  {
    ThreeBlocks(InRedirect, IN_REDIRECT_RULES, Prerouting, PREROUTING_RULES, Inbound, INBOUND_RULES, chain);
  }

  lemma OutboundStaticLoads(chain: Chain)
    ensures Appended(OutboundStatic(), chain) == OutboundFixed(chain)
    ensures Inserted(OutboundStatic(), chain) == []
  {
    ThreeBlocks(OutRedirect, OUT_REDIRECT_RULES, Output, OUTPUT_RULES, Outbound, OUTBOUND_RULES, chain);
  }

  /** Empty parts vanish. */
  lemma Units<T>(x: seq<T>)
    ensures x + [] + [] == x && [] + x + [] == x && [] + [] + x == x
  {
  }

  lemma ThreeBlocks(c1: Chain, r1: seq<Rule>, c2: Chain, r2: seq<Rule>, c3: Chain, r3: seq<Rule>, chain: Chain)
    requires c1 != c2 && c1 != c3 && c2 != c3
    ensures var cmds := AppendAll(c1, r1) + AppendAll(c2, r2) + AppendAll(c3, r3);
            && Inserted(cmds, chain) == []
            && Appended(cmds, chain) ==
                 if chain == c1 then r1 else if chain == c2 then r2 else if chain == c3 then r3 else []
  {
    var a, b, c := AppendAll(c1, r1), AppendAll(c2, r2), AppendAll(c3, r3);
    AppendedConcat(a, b, chain);
    AppendedConcat(a + b, c, chain);
    InsertedConcat(a, b, chain);
    InsertedConcat(a + b, c, chain);
    AppendBlock(c1, r1, chain);
    AppendBlock(c2, r2, chain);
    AppendBlock(c3, r3, chain);
    Units(if chain == c1 then r1 else if chain == c2 then r2 else if chain == c3 then r3 else []);
  }

  lemma InboundDynamicLoads(cfg: Config, chain: Chain)
    ensures Appended(InboundDynamic(cfg), chain) == []
    ensures Inserted(InboundDynamic(cfg), chain) ==
            if chain == Inbound then PortRules(cfg.excludedInPorts) + Reversed(FromIfaceRules(cfg.excludedIfaces))
              else []
  {
    var i, q := FromIfaceRules(cfg.excludedIfaces), PortRules(cfg.excludedInPorts);
    InsertBlock(Inbound, i, chain);
    InsertBlock(Inbound, q, chain);
    assert Reversed(q) == q;
    AppendedConcat(InsertAll(Inbound, i), InsertAll(Inbound, q), chain);
    InsertedConcat(InsertAll(Inbound, i), InsertAll(Inbound, q), chain);
  }

  lemma OutputOptionsLoad(cfg: Config, chain: Chain)
    ensures Appended(OutputOptions(cfg), chain) == if chain == Output && cfg.dnsProxy then [DNS_RULE] else []
    ensures Inserted(OutputOptions(cfg), chain) == if chain == Output && cfg.podIpMode then [POD_IP_RULE] else []
  {
    var d: seq<Rule> := if cfg.dnsProxy then [DNS_RULE] else [];
    var q: seq<Rule> := if cfg.podIpMode then [POD_IP_RULE] else [];
    AppendBlock(Output, d, chain);
    InsertBlock(Output, q, chain);
    assert Reversed(q) == q;
    AppendedConcat(AppendAll(Output, d), InsertAll(Output, q), chain);
    InsertedConcat(AppendAll(Output, d), InsertAll(Output, q), chain);
  }

  lemma OutboundDynamicLoads(cfg: Config, chain: Chain)
    ensures Appended(OutboundDynamic(cfg), chain) ==
            if chain == Outbound
            then ToIfaceRules(cfg.excludedIfaces) + RangeRules(cfg.excludedRanges, Return) +
              PortRules(cfg.excludedOutPorts) + InclusionRules(cfg.includedRanges)
            else []
    ensures Inserted(OutboundDynamic(cfg), chain) == []
  {
    var rules := ToIfaceRules(cfg.excludedIfaces) + RangeRules(cfg.excludedRanges, Return) +
      PortRules(cfg.excludedOutPorts) + InclusionRules(cfg.includedRanges);
    assert OutboundDynamic(cfg) == AppendAll(Outbound, rules);
    AppendBlock(Outbound, rules, chain);
  }

  lemma FiveAppended(a: seq<Command>, b: seq<Command>, c: seq<Command>, d: seq<Command>, e: seq<Command>, chain: Chain)
    ensures Appended(a + b + c + d + e, chain) ==
            Appended(a, chain) + Appended(b, chain) + Appended(c, chain) + Appended(d, chain) + Appended(e, chain)
  {
    AppendedConcat(a, b, chain);
    AppendedConcat(a + b, c, chain);
    AppendedConcat(a + b + c, d, chain);
    AppendedConcat(a + b + c + d, e, chain);
  }

  lemma FiveInserted(a: seq<Command>, b: seq<Command>, c: seq<Command>, d: seq<Command>, e: seq<Command>, chain: Chain)
    ensures Inserted(a + b + c + d + e, chain) ==
            Inserted(e, chain) + (Inserted(d, chain) + (Inserted(c, chain) + (Inserted(b, chain) + Inserted(a, chain))))
  {
    InsertedConcat(a, b, chain);
    InsertedConcat(a + b, c, chain);
    InsertedConcat(a + b + c, d, chain);
    InsertedConcat(a + b + c + d, e, chain);
  }

  lemma Tidy<T>(i: seq<T>, j: seq<T>, a: seq<T>, c: seq<T>, d: seq<T>, e: seq<T>)
    ensures ([] + (i + ([] + (j + [])))) + (a + [] + c + d + e) == i + j + a + c + d + e
  {
  }

  lemma OutputParts<T>(i: seq<T>, c: seq<T>, d: seq<T>)
    ensures i + [] + [] + c + d + [] == i + c + d
  {
  }

  lemma InboundParts<T>(j: seq<T>, a: seq<T>)
    ensures [] + j + a + [] + [] + [] == j + a
  {
  }

  lemma OutboundParts<T>(c: seq<T>, e: seq<T>)
    ensures [] + [] + [] + c + [] + e == c + e
  {
  }

  lemma OnePart<T>(x: seq<T>)
    ensures [] + [] + x + [] + [] + [] == x && [] + [] + [] + x + [] + [] == x
  {
  }

  /** What iptables-restore leaves in every chain. */
  lemma CompiledChains(cfg: Config, chain: Chain)
    ensures Load(Compile(cfg), chain) == RulesOf(cfg, chain)
  {
    var a, b, c, d, e := InboundStatic(), InboundDynamic(cfg), OutboundStatic(), OutputOptions(cfg),
      OutboundDynamic(cfg);
    LoadIsInsertedThenAppended(a + b + c + d + e, chain);
    FiveAppended(a, b, c, d, e, chain);
    FiveInserted(a, b, c, d, e, chain);
    InboundStaticLoads(chain);
    InboundDynamicLoads(cfg, chain);
    OutboundStaticLoads(chain);
    OutputOptionsLoad(cfg, chain);
    OutboundDynamicLoads(cfg, chain);
    RulesOfParts(cfg, chain, Inserted(d, chain), Inserted(b, chain), Appended(a, chain), Appended(c, chain),
                 Appended(d, chain), Appended(e, chain));
    Tidy(Inserted(d, chain), Inserted(b, chain), Appended(a, chain), Appended(c, chain), Appended(d, chain),
         Appended(e, chain));
  }

  lemma RulesOfParts(cfg: Config, chain: Chain, i: seq<Rule>, j: seq<Rule>, a: seq<Rule>, c: seq<Rule>, d: seq<Rule>,
                     e: seq<Rule>)
    requires i == if chain == Output && cfg.podIpMode then [POD_IP_RULE] else []
    requires j ==
            if chain == Inbound then PortRules(cfg.excludedInPorts) + Reversed(FromIfaceRules(cfg.excludedIfaces))
              else []
    requires a == InboundFixed(chain)
    requires c == OutboundFixed(chain)
    requires d == if chain == Output && cfg.dnsProxy then [DNS_RULE] else []
    requires e == if chain == Outbound
                  then ToIfaceRules(cfg.excludedIfaces) + RangeRules(cfg.excludedRanges, Return) +
                    PortRules(cfg.excludedOutPorts) + InclusionRules(cfg.includedRanges)
                  else []
    ensures RulesOf(cfg, chain) == i + j + a + c + d + e
  {
    match chain {
      case Output => OutputParts(i, c, d);
      case Inbound => InboundParts(j, a);
      case Outbound => OutboundParts(c, e);
      case OutRedirect => OnePart(c);
      case _ => OnePart(a);
    }
  }

  // ------------------------------------------------------------- compiler correctness

  lemma JumpsBelowConcat(a: seq<Rule>, b: seq<Rule>, n: nat)
    requires JumpsBelow(a, n) && JumpsBelow(b, n)
    ensures JumpsBelow(a + b, n)
  {
  }

  lemma RulesJumpBelow(cfg: Config, c: Chain)
    ensures JumpsBelow(RulesOf(cfg, c), Rank(c))
  {
    match c {
      case Inbound =>
        var a, b := PortRules(cfg.excludedInPorts), Reversed(FromIfaceRules(cfg.excludedIfaces));
        JumpsBelowConcat(a, b, 1);
        JumpsBelowConcat(a + b, INBOUND_RULES, 1);
      case Outbound =>
        var a, b := ToIfaceRules(cfg.excludedIfaces), RangeRules(cfg.excludedRanges, Return);
        var d, e := PortRules(cfg.excludedOutPorts), InclusionRules(cfg.includedRanges);
        JumpsBelowConcat(a, b, 1);
        JumpsBelowConcat(a + b, d, 1);
        JumpsBelowConcat(a + b + d, e, 1);
        JumpsBelowConcat(OUTBOUND_RULES, a + b + d + e, 1);
      case _ =>
    }
  }

  /** No generated program can send a packet round in circles. */
  lemma CompiledAcyclic(cfg: Config)
    ensures Acyclic(Compile(cfg))
  {
    forall c
      ensures JumpsBelow(Load(Compile(cfg), c), Rank(c))
    {
      CompiledChains(cfg, c);
      RulesJumpBelow(cfg, c);
    }
  }

  ghost function Act(cmds: seq<Command>, t: Target, n: nat, p: Packet): Verdict
    requires Acyclic(cmds) && (t.Jump? ==> Rank(t.chain) < n)
  {
    Walk(cmds, [Rule([], t)], n, p)
  }

  /** A chain split in two: the second half matters only if the first decides nothing. */
  lemma {:induction false} WalkConcat(cmds: seq<Command>, a: seq<Rule>, b: seq<Rule>, n: nat, p: Packet)
    requires Acyclic(cmds) && JumpsBelow(a, n) && JumpsBelow(b, n)
    ensures JumpsBelow(a + b, n)
    ensures Walk(cmds, a + b, n, p) ==
            if Walk(cmds, a, n, p) == FellOff then Walk(cmds, b, n, p) else Walk(cmds, a, n, p)
    decreases |a|
  {
    if a == [] {
      assert a + b == b;
    } else {
      assert JumpsBelow(a[1..], n);
      WalkConcat(cmds, a[1..], b, n, p);
      assert (a + b)[0] == a[0] && (a + b)[1..] == a[1..] + b;
    }
  }

  /** Rules with one and the same target act as one rule that matches if any of them does. */
  lemma {:induction false} WalkUniform(cmds: seq<Command>, rules: seq<Rule>, t: Target, n: nat, p: Packet)
    requires Acyclic(cmds) && (t.Jump? ==> Rank(t.chain) < n)
    requires forall i :: 0 <= i < |rules| ==> rules[i].target == t
    ensures JumpsBelow(rules, n)
    ensures Walk(cmds, rules, n, p) ==
            if exists i :: 0 <= i < |rules| && Matches(rules[i], p) then Act(cmds, t, n, p) else FellOff
    decreases |rules|
  {
    if rules != [] {
      var rest := rules[1..];
      WalkUniform(cmds, rest, t, n, p);
      assert forall i :: 0 <= i < |rest| ==> rest[i] == rules[i + 1];
      assert Act(cmds, t, n, p) == Walk(cmds, [Rule([], t)], n, p);
      assert Walk(cmds, [Rule([], t)][1..], n, p) == FellOff;
      if !Matches(rules[0], p) && exists i :: 0 <= i < |rules| && Matches(rules[i], p) {
        var i :| 0 <= i < |rules| && Matches(rules[i], p);
        assert Matches(rest[i - 1], p);
      }
    }
  }

  lemma WalkOne(cmds: seq<Command>, r: Rule, n: nat, p: Packet)
    requires Acyclic(cmds) && (r.target.Jump? ==> Rank(r.target.chain) < n)
    ensures Walk(cmds, [r], n, p) == if Matches(r, p) then Act(cmds, r.target, n, p) else FellOff
  {
    WalkUniform(cmds, [r], r.target, n, p);
    if Matches(r, p) {
      assert Matches([r][0], p);
    }
  }

  /** The facts about a compiled program that the rest of the proof uses. */
  ghost predicate Loaded(cmds: seq<Command>, cfg: Config) {
    Acyclic(cmds) && forall c :: Load(cmds, c) == RulesOf(cfg, c)
  }

  lemma RedirectChains(cmds: seq<Command>, cfg: Config, n: nat, p: Packet)
    requires Loaded(cmds, cfg) && n > 0 && p.proto == Tcp
    ensures Act(cmds, Jump(InRedirect), n, p) == RedirectedTo(INBOUND_LISTENER)
    ensures Act(cmds, Jump(OutRedirect), n, p) == RedirectedTo(OUTBOUND_LISTENER)
    ensures Act(cmds, Return, n, p) == Returned
  {
    var i, o := Load(cmds, InRedirect), Load(cmds, OutRedirect);
    assert i == RulesOf(cfg, InRedirect) && o == RulesOf(cfg, OutRedirect);
    assert Matches(i[0], p) && Matches(o[0], p);
    assert Walk(cmds, i, 0, p) == RedirectedTo(INBOUND_LISTENER);
    assert Walk(cmds, o, 0, p) == RedirectedTo(OUTBOUND_LISTENER);
    assert Matches(Rule([], Jump(InRedirect)), p) && Matches(Rule([], Jump(OutRedirect)), p);
  }

  ghost predicate FromSidecarToSelf(p: Packet) {
    p.outIface == "lo" && p.uid == SIDECAR_UID && p.dst != LOCALHOST
  }

  ghost predicate LeftAlone(p: Packet) {
    p.uid == SIDECAR_UID || p.outIface == "lo" || p.dst == LOCALHOST
  }

  lemma FixedOutboundMatches(p: Packet)
    ensures Matches(OUTBOUND_RULES[0], p) <==> FromSidecarToSelf(p)
    ensures Matches(OUTBOUND_RULES[1], p) <==> p.outIface == "lo" && p.uid != SIDECAR_UID
    ensures Matches(OUTBOUND_RULES[2], p) <==> p.uid == SIDECAR_UID
    ensures Matches(OUTBOUND_RULES[3], p) <==> p.dst == LOCALHOST
  {
    var r := OUTBOUND_RULES;
    FullPrefix(LOCALHOST, p.dst);
    assert Matches(r[0], p) <==> Holds(r[0].conds[0], p) && Holds(r[0].conds[1], p) && Holds(r[0].conds[2], p);
    assert Matches(r[1], p) <==> Holds(r[1].conds[0], p) && Holds(r[1].conds[1], p);
    assert Matches(r[2], p) <==> Holds(r[2].conds[0], p);
    assert Matches(r[3], p) <==> Holds(r[3].conds[0], p);
  }

  lemma FixedOutboundRules(cmds: seq<Command>, cfg: Config, p: Packet)
    requires Loaded(cmds, cfg) && p.proto == Tcp
    ensures JumpsBelow(OUTBOUND_RULES, 1)
    ensures Walk(cmds, OUTBOUND_RULES, 1, p) ==
            if FromSidecarToSelf(p) then RedirectedTo(INBOUND_LISTENER)
            else if LeftAlone(p) then Returned
            else FellOff
  {
    var r := OUTBOUND_RULES;
    RedirectChains(cmds, cfg, 1, p);
    FixedOutboundMatches(p);
    WalkOne(cmds, r[0], 1, p);
    WalkOne(cmds, r[1], 1, p);
    WalkOne(cmds, r[2], 1, p);
    WalkOne(cmds, r[3], 1, p);
    WalkConcat(cmds, [r[0]], [r[1]], 1, p);
    WalkConcat(cmds, [r[0]] + [r[1]], [r[2]], 1, p);
    WalkConcat(cmds, [r[0]] + [r[1]] + [r[2]], [r[3]], 1, p);
    assert r == [r[0]] + [r[1]] + [r[2]] + [r[3]];
  }

  lemma IfaceRulesVerdict(cmds: seq<Command>, ifaces: seq<string>, p: Packet)
    requires Acyclic(cmds)
    ensures JumpsBelow(ToIfaceRules(ifaces), 1)
    ensures Walk(cmds, ToIfaceRules(ifaces), 1, p) ==
            if OnSome(ifaces, p.outIface) then Act(cmds, Return, 1, p) else FellOff
  {
    var rules := ToIfaceRules(ifaces);
    WalkUniform(cmds, rules, Return, 1, p);
    assert forall i :: 0 <= i < |ifaces| ==> (Matches(rules[i], p) <==> Holds(rules[i].conds[0], p));
    if OnSome(ifaces, p.outIface) {
      var i :| 0 <= i < |ifaces| && IfaceMatches(ifaces[i], p.outIface);
      assert Matches(rules[i], p);
    }
  }

  lemma RangeRulesVerdict(cmds: seq<Command>, ranges: seq<Range>, t: Target, p: Packet)
    requires Acyclic(cmds) && (t.Jump? ==> Rank(t.chain) < 1)
    ensures JumpsBelow(RangeRules(ranges, t), 1)
    ensures Walk(cmds, RangeRules(ranges, t), 1, p) == if InSome(ranges, p.dst) then Act(cmds, t, 1, p) else FellOff
  {
    var rules := RangeRules(ranges, t);
    WalkUniform(cmds, rules, t, 1, p);
    assert forall i :: 0 <= i < |ranges| ==> (Matches(rules[i], p) <==> Holds(rules[i].conds[0], p));
    assert forall i :: 0 <= i < |ranges| ==> (Matches(rules[i], p) <==> Contains(ranges[i], p.dst));
    if InSome(ranges, p.dst) {
      var i :| 0 <= i < |ranges| && Contains(ranges[i], p.dst);
      assert Matches(rules[i], p);
    }
  }

  lemma PortRulesVerdict(cmds: seq<Command>, ports: seq<int>, p: Packet)
    requires Acyclic(cmds) && p.proto == Tcp
    ensures JumpsBelow(PortRules(ports), 1)
    ensures Walk(cmds, PortRules(ports), 1, p) == if p.dport in ports then Act(cmds, Return, 1, p) else FellOff
  {
    if ports != [] {
      var r := PortRules(ports)[0];
      WalkOne(cmds, r, 1, p);
      assert Matches(r, p) <==> Holds(r.conds[0], p) && Holds(r.conds[1], p);
    }
  }

  lemma InclusionVerdict(cmds: seq<Command>, cfg: Config, p: Packet)
    requires Loaded(cmds, cfg) && p.proto == Tcp
    ensures JumpsBelow(InclusionRules(cfg.includedRanges), 1)
    ensures Walk(cmds, InclusionRules(cfg.includedRanges), 1, p) ==
            if cfg.includedRanges == [] || InSome(cfg.includedRanges, p.dst) then RedirectedTo(OUTBOUND_LISTENER)
              else Returned
  {
    RedirectChains(cmds, cfg, 1, p);
    var last := Rule([], Return);
    if cfg.includedRanges == [] {
      WalkOne(cmds, Rule([], Jump(OutRedirect)), 1, p);
    } else {
      RangeRulesVerdict(cmds, cfg.includedRanges, Jump(OutRedirect), p);
      WalkOne(cmds, last, 1, p);
      WalkConcat(cmds, RangeRules(cfg.includedRanges, Jump(OutRedirect)), [last], 1, p);
    }
  }

  /** The chain that decides about the application's outgoing traffic. */
  lemma OutboundVerdict(cmds: seq<Command>, cfg: Config, p: Packet)
    requires Loaded(cmds, cfg) && p.proto == Tcp
    ensures JumpsBelow(OutboundRules(cfg), 1)
    ensures Walk(cmds, OutboundRules(cfg), 1, p) ==
            if CapturedOut(cfg, p) then RedirectedTo(OUTBOUND_LISTENER)
            else if FromSidecarToSelf(p) then RedirectedTo(INBOUND_LISTENER)
            else Returned
  {
    var a, b := ToIfaceRules(cfg.excludedIfaces), RangeRules(cfg.excludedRanges, Return);
    var c, d := PortRules(cfg.excludedOutPorts), InclusionRules(cfg.includedRanges);
    FixedOutboundRules(cmds, cfg, p);
    RedirectChains(cmds, cfg, 1, p);
    IfaceRulesVerdict(cmds, cfg.excludedIfaces, p);
    RangeRulesVerdict(cmds, cfg.excludedRanges, Return, p);
    PortRulesVerdict(cmds, cfg.excludedOutPorts, p);
    InclusionVerdict(cmds, cfg, p);
    WalkConcat(cmds, a, b, 1, p);
    WalkConcat(cmds, a + b, c, 1, p);
    WalkConcat(cmds, a + b + c, d, 1, p);
    WalkConcat(cmds, OUTBOUND_RULES, a + b + c + d, 1, p);
  }

  lemma SkipMatches(port: int, p: Packet)
    requires p.proto == Tcp
    ensures Matches(SkipRule(port), p) <==> p.dport == port
  {
    var r := SkipRule(port);
    assert Matches(r, p) <==> Holds(r.conds[0], p) && Holds(r.conds[1], p);
  }

  lemma FixedInboundRules(cmds: seq<Command>, cfg: Config, p: Packet)
    requires Loaded(cmds, cfg) && p.proto == Tcp
    ensures JumpsBelow(INBOUND_RULES, 1)
    ensures Walk(cmds, INBOUND_RULES, 1, p) ==
            if p.dport in UNTOUCHED_INBOUND_PORTS then Returned else RedirectedTo(INBOUND_LISTENER)
  {
    var skips, last := INBOUND_RULES[..5], INBOUND_RULES[5];
    RedirectChains(cmds, cfg, 1, p);
    WalkUniform(cmds, skips, Return, 1, p);
    forall i | 0 <= i < 5
      ensures Matches(skips[i], p) <==> p.dport == UNTOUCHED_INBOUND_PORTS[i]
    {
      assert skips[i] == SkipRule(UNTOUCHED_INBOUND_PORTS[i]);
      SkipMatches(UNTOUCHED_INBOUND_PORTS[i], p);
    }
    WalkOne(cmds, last, 1, p);
    WalkConcat(cmds, skips, [last], 1, p);
    assert INBOUND_RULES == skips + [last];
  }

  lemma ReversedIfacesVerdict(cmds: seq<Command>, ifaces: seq<string>, p: Packet)
    requires Acyclic(cmds)
    ensures JumpsBelow(Reversed(FromIfaceRules(ifaces)), 1)
    ensures Walk(cmds, Reversed(FromIfaceRules(ifaces)), 1, p) ==
            if OnSome(ifaces, p.inIface) then Act(cmds, Return, 1, p) else FellOff
  {
    var n, rules := |ifaces|, Reversed(FromIfaceRules(ifaces));
    WalkUniform(cmds, rules, Return, 1, p);
    assert forall i :: 0 <= i < n ==> (Matches(rules[i], p) <==> Holds(rules[i].conds[0], p));
    if OnSome(ifaces, p.inIface) {
      var i :| 0 <= i < n && IfaceMatches(ifaces[i], p.inIface);
      assert Matches(rules[n - 1 - i], p);
    }
  }

  lemma InboundVerdict(cmds: seq<Command>, cfg: Config, p: Packet)
    requires Loaded(cmds, cfg) && p.proto == Tcp
    ensures JumpsBelow(InboundRules(cfg), 1)
    ensures Walk(cmds, InboundRules(cfg), 1, p) ==
            if CapturedIn(cfg, p) then RedirectedTo(INBOUND_LISTENER) else Returned
  {
    var a, b := PortRules(cfg.excludedInPorts), Reversed(FromIfaceRules(cfg.excludedIfaces));
    RedirectChains(cmds, cfg, 1, p);
    PortRulesVerdict(cmds, cfg.excludedInPorts, p);
    ReversedIfacesVerdict(cmds, cfg.excludedIfaces, p);
    FixedInboundRules(cmds, cfg, p);
    WalkConcat(cmds, a, b, 1, p);
    WalkConcat(cmds, a + b, INBOUND_RULES, 1, p);
  }

  lemma OutputJump(cmds: seq<Command>, cfg: Config, p: Packet)
    requires Loaded(cmds, cfg)
    ensures JumpsBelow(OUTPUT_RULES, 2)
    ensures Walk(cmds, OUTPUT_RULES, 2, p) ==
            if p.proto == Tcp && CapturedOut(cfg, p) then RedirectedTo(OUTBOUND_LISTENER)
            else if p.proto == Tcp && FromSidecarToSelf(p) then RedirectedTo(INBOUND_LISTENER)
            else FellOff
  {
    var r := OUTPUT_RULES[0];
    assert Matches(r, p) <==> Holds(r.conds[0], p);
    if p.proto == Tcp {
      assert Load(cmds, Outbound) == RulesOf(cfg, Outbound);
      OutboundVerdict(cmds, cfg, p);
      assert Walk(cmds, OUTPUT_RULES[1..], 2, p) == FellOff;
    }
  }

  lemma PodIpRuleVerdict(cmds: seq<Command>, p: Packet)
    requires Acyclic(cmds)
    ensures JumpsBelow([POD_IP_RULE], 2)
    ensures Walk(cmds, [POD_IP_RULE], 2, p) ==
            if p.proto == Tcp && p.outIface == "lo" && p.dst == LOCALHOST && p.uid == SIDECAR_UID then DnatedToPodIp
              else FellOff
  {
    FullPrefix(LOCALHOST, p.dst);
    var q := POD_IP_RULE.conds;
    assert Matches(POD_IP_RULE, p) <==> Holds(q[0], p) && Holds(q[1], p) && Holds(q[2], p) && Holds(q[3], p);
    WalkOne(cmds, POD_IP_RULE, 2, p);
  }

  lemma DnsRuleVerdict(cmds: seq<Command>, p: Packet)
    requires Acyclic(cmds)
    ensures JumpsBelow([DNS_RULE], 2)
    ensures Walk(cmds, [DNS_RULE], 2, p) ==
            if p.proto == Udp && p.dst == DNS_PROXY_IP && p.dport == 53 then DnatedTo(DNS_PROXY_IP, 5300) else FellOff
  {
    FullPrefix(DNS_PROXY_IP, p.dst);
    var d := DNS_RULE.conds;
    assert Matches(DNS_RULE, p) <==> Holds(d[0], p) && Holds(d[1], p) && Holds(d[2], p);
    WalkOne(cmds, DNS_RULE, 2, p);
  }

  lemma OutputVerdict(cmds: seq<Command>, cfg: Config, p: Packet)
    requires Loaded(cmds, cfg)
    ensures Evaluate(cmds, Output, p) == OutputPolicy(cfg, p)
  {
    var a: seq<Rule> := if cfg.podIpMode then [POD_IP_RULE] else [];
    var c: seq<Rule> := if cfg.dnsProxy then [DNS_RULE] else [];
    PodIpRuleVerdict(cmds, p);
    DnsRuleVerdict(cmds, p);
    OutputJump(cmds, cfg, p);
    WalkConcat(cmds, a, OUTPUT_RULES, 2, p);
    WalkConcat(cmds, a + OUTPUT_RULES, c, 2, p);
    assert Load(cmds, Output) == RulesOf(cfg, Output);
  }

  lemma PreroutingVerdict(cmds: seq<Command>, cfg: Config, p: Packet)
    requires Loaded(cmds, cfg)
    ensures Evaluate(cmds, Prerouting, p) == PreroutingPolicy(cfg, p)
  {
    var r := PREROUTING_RULES[0];
    assert Load(cmds, Prerouting) == RulesOf(cfg, Prerouting) && Load(cmds, Inbound) == RulesOf(cfg, Inbound);
    assert Matches(r, p) <==> Holds(r.conds[0], p);
    assert PREROUTING_RULES[1..] == [];
    assert Walk(cmds, [], 2, p) == FellOff;
    if p.proto == Tcp {
      InboundVerdict(cmds, cfg, p);
    }
  }

  /** Compiler correctness: for every configuration and every packet the generated program
      comes to an end, and both hooks give the verdict of the policy. */
  lemma CompilerCorrect(cfg: Config, p: Packet)
    ensures Acyclic(Compile(cfg))
    ensures Evaluate(Compile(cfg), Output, p) == OutputPolicy(cfg, p)
    ensures Evaluate(Compile(cfg), Prerouting, p) == PreroutingPolicy(cfg, p)
  {
    CompiledAcyclic(cfg);
    forall c
      ensures Load(Compile(cfg), c) == RulesOf(cfg, c)
    {
      CompiledChains(cfg, c);
    }
    OutputVerdict(Compile(cfg), cfg, p);
    PreroutingVerdict(Compile(cfg), cfg, p);
  }

  /** GenerateIptablesCommands: the list it builds, and what that list means. */
  method GenerateIptablesCommands(cfg: Config) returns (cmds: seq<Command>)
    ensures cmds == Compile(cfg)
    ensures Acyclic(cmds)
    ensures forall p :: Evaluate(cmds, Output, p) == OutputPolicy(cfg, p)
    ensures forall p :: Evaluate(cmds, Prerouting, p) == PreroutingPolicy(cfg, p)
  {
    cmds := InboundStatic();
    for i := 0 to |cfg.excludedIfaces|
      invariant cmds == InboundStatic() + InsertAll(Inbound, FromIfaceRules(cfg.excludedIfaces[..i]))
    {
      cmds := cmds + [Insert(Inbound, Rule([FromIface(cfg.excludedIfaces[i])], Return))];
    }
    assert cfg.excludedIfaces[..|cfg.excludedIfaces|] == cfg.excludedIfaces;
    if |cfg.excludedInPorts| > 0 {
      cmds := cmds + [Insert(Inbound, Rule([IsProto(Tcp), Dports(cfg.excludedInPorts)], Return))];
    }
    assert cmds == InboundStatic() + InboundDynamic(cfg);
    cmds := cmds + OutboundStatic();
    if cfg.dnsProxy {
      cmds := cmds + [Append(Output, DNS_RULE)];
    }
    if cfg.podIpMode {
      cmds := cmds + [Insert(Output, POD_IP_RULE)];
    }
    var base := cmds;
    assert base == InboundStatic() + InboundDynamic(cfg) + OutboundStatic() + OutputOptions(cfg);
    var dynamic := GenerateOutbound(cfg);
    cmds := cmds + dynamic;
    CompiledAcyclic(cfg);
    forall p
      ensures Evaluate(cmds, Output, p) == OutputPolicy(cfg, p)
      ensures Evaluate(cmds, Prerouting, p) == PreroutingPolicy(cfg, p)
    {
      CompilerCorrect(cfg, p);
    }
  }

  /** The part of the generator after the static outbound rules. */
  method GenerateOutbound(cfg: Config) returns (cmds: seq<Command>)
    ensures cmds == OutboundDynamic(cfg)
  {
    cmds := [];
    for i := 0 to |cfg.excludedIfaces|
      invariant cmds == AppendAll(Outbound, ToIfaceRules(cfg.excludedIfaces[..i]))
    {
      cmds := cmds + [Append(Outbound, Rule([ToIface(cfg.excludedIfaces[i])], Return))];
    }
    assert cfg.excludedIfaces[..|cfg.excludedIfaces|] == cfg.excludedIfaces;
    var a := cmds;
    for i := 0 to |cfg.excludedRanges|
      invariant cmds == a + AppendAll(Outbound, RangeRules(cfg.excludedRanges[..i], Return))
    {
      cmds := cmds + [Append(Outbound, Rule([Dst(cfg.excludedRanges[i])], Return))];
    }
    assert cfg.excludedRanges[..|cfg.excludedRanges|] == cfg.excludedRanges;
    if |cfg.excludedOutPorts| > 0 {
      cmds := cmds + [Append(Outbound, Rule([IsProto(Tcp), Dports(cfg.excludedOutPorts)], Return))];
    }
    var b := cmds;
    assert b == a + AppendAll(Outbound, RangeRules(cfg.excludedRanges, Return)) +
      AppendAll(Outbound, PortRules(cfg.excludedOutPorts));
    if |cfg.includedRanges| > 0 {
      for i := 0 to |cfg.includedRanges|
        invariant cmds == b + AppendAll(Outbound, RangeRules(cfg.includedRanges[..i], Jump(OutRedirect)))
      {
        cmds := cmds + [Append(Outbound, Rule([Dst(cfg.includedRanges[i])], Jump(OutRedirect)))];
      }
      assert cfg.includedRanges[..|cfg.includedRanges|] == cfg.includedRanges;
      cmds := cmds + [Append(Outbound, Rule([], Return))];
    } else {
      cmds := cmds + [Append(Outbound, Rule([], Jump(OutRedirect)))];
    }
    assert cmds == b + AppendAll(Outbound, InclusionRules(cfg.includedRanges));
  }
}
