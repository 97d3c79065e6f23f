# A verified model of osm-edge

osm-edge is a service mesh control plane. It intercepts pod traffic with eBPF programs or with
iptables, issues and rotates certificates, batches proxy updates, and turns SMI policies into
weighted clusters and permissions. This project models those parts in Dafny and proves properties
of them over every input, every packet and every run. Verify it with `dafny verify dfyconfig.toml`.

| file | models |
|---|---|
| Wire | byte order, and the shift test as prefix agreement (RFC 4632 section 3.1) |
| Hooks | the four eBPF socket hooks as a class over the shared maps, each against a declarative reading |
| Connects | what the connect hook does for each kind of caller, in terms of the call alone |
| TcNat, Frames | the two traffic-control programs on frames, byte by byte, with the checksum update of RFC 1624 section 3; and the same on packets written out from the header layouts |
| NodeRun, NodeLaws, Sockets | all programs of a node together: a state machine whose steps are the kernel's hook calls, with connections kept apart by network namespace; and what holds over every run |
| Iptables, Exclusions | the rule generator as a compiler, an evaluator for rule programs, the policy they mean, and the laws of interception |
| Dataplanes | the iptables and the eBPF data plane compared on one set of annotations |
| Dispatcher | the proxy-update dispatcher, statement by statement, with clock and timers |
| Certificates, Manager | issuing, caching and sweeping |
| Identity, RootRotation | what sweeps keep of a certificate, and trust while roots change |
| Renewal, Gateway | remaining lifetime in real time, the ingress consumer |
| Flights, FlightRounds | concurrent issuing, statement by statement, and its agreement with the manager's issuing round |
| Weights | weights of TrafficSplit backends (SMI Traffic Split v1alpha4) |
| TrafficTargets | both readings of TrafficTargets in the catalog and the one in the command line tool (SMI Traffic Access v1alpha3) |
| Wrappers, Histories | Option and Result; statements about the moments of a run |

State that the code changes in place is a class with `modifies` clauses, loops are loops with
invariants, and each method is proved against a specification function. Protocols are state
machines: `After(steps)` is the state after a run, if every step was possible when it was taken,
and the theorems hold for every `steps`.

## What the proofs found

Properties that fail are kept as lemmas with a concrete run, next to the exact condition.

- Map entries of the connect side are never removed. A later connection on the 4-tuple of a closed one can be answered with the old destination (`NodeLaws.StaleAnswer`). Over every run a wrong answer is given exactly if no record was handed over and the key holds another address or port (`NodeLaws.AnswerExact`).
- A SYN on a used key keeps the old entry, so replies carry the dialled port exactly if the key was free or held that port (`NodeLaws.OpeningAnswerExact`).
- Two connections on loopback inside two pods can have one key. The socket map then connects a client of the one with the server of the other (`NodeLaws.LoopbackKeysCollide`). A found socket is the right one exactly if the key is not on loopback at both ends or the sockets are of one namespace (`NodeLaws.RedirectReachesPeer`).
- The rule that accepts the admin port (pkg/injector/iptables.go:18-19) stands behind a catch-all redirect and is never reached, although its comment says otherwise. The comment at pkg/injector/iptables.go:128-129 speaks of inserting the range exclusions, while the code appends them.
- The two data planes differ. iptables ignores the port inclusion lists that the eBPF hooks obey. The hooks ignore the excluded interfaces. The connect hook redirects an application's connection to its own pod's address, which iptables leaves alone (`Dataplanes.OwnPodDiffers`). Inbound, the hooks also spare six control ports and the status port. Beyond that they agree (`Dataplanes.OutboundAgreement`, `Dataplanes.InboundAgreement`).
- An event that changes the signing root always separates old and new certificates; one that changes only the validating issuer never does (`Certificates.EventKeepsTrustIff`).
- A sweep compares issuer names only. It catches up with every run of a history of MRC events exactly if no earlier stage had today's names with another root or another trust (`RootRotation.SweepCatchesUpIff`); an MRC added again under its name with another root is missed (`RootRotation.ReusedName`). A call that read the issuers before the last event and stores after the sweep escapes it too (`RootRotation.LateStore`).
- A certificate released while a sweep is under way comes back, and a prefix-named one without its alternative names (`Identity.NamesAreLost`). Which names survive is decided exactly by `Identity.IdentityKept`. Under the Tresor authority a common name with a colon is dropped and put back by turns (`Identity.UnsteadyNamesFlip`).
- `GetCertificate` shares the flight group with `IssueCertificate`, which can therefore return neither a certificate nor an error (`Flights.IssueCanReturnNothing`), and a lookup can miss a certificate that is cached, because it drops the error of a rotation it joined (`Flights.LookupCanMissCached`). `Flights.NothingIff` says exactly when.
- With the Tresor authority a rotation under a changed common name grows the list of alternative names (`Identity.NameChangeGrowsNames`).
- After a decade without events the dispatcher publishes an empty batch (`Dispatcher.DecadeIdlePublishesNothing`). A batch is empty exactly if nothing was pending when its timer value was taken (`Dispatcher.EmptyBatchIff`).
- The two directions of TrafficTargets agree under every policy exactly for identities with a single dot (`TrafficTargets.DualityExact`). Kubernetes allows dots in service account names.
- The command line tool does not look at the rules of a TrafficTarget, so it can report a permission that the catalog does not grant (`TrafficTargets.ToolOverlooksRules`, `TrafficTargets.ToolAgreesIff`).
- The gateway's loop keeps a spec without names as the current one and indexes its names without looking; it does the same with the old object of a changed AccessCert; and it dereferences the certificate of an issuing call that came back with nothing (`Gateway.LoopPanics`). `Gateway.PanicsIff` says exactly when it panics, `Gateway.PanicsIffLookup` in terms of lookups under the same name. The shipped schemas demand at least one name (cmd/osm-bootstrap/crds/config_meshconfig.yaml:373, cmd/osm-bootstrap/crds/policy_access_cert.yaml:59), so the first two need an object that got past them; with named specs and no empty reply it never panics (`Gateway.NamedNeverPanics`).

- Without pod addresses a sidecar's first call to its own application goes to the sidecar's own listener and is turned away, its second one gets through (`Connects.SecondCallGetsThrough`). The addresses handed to applications then are of 127.128.0.0/12, not of the /20 the comment at bpf/osm_cni_grp_connect.c:116 names, and repeat after 1048575 calls (`Connects.LegacyAddressesDiffer`).
- The two ways into a pod, from a sidecar of the same node and from outside, differ in the status port only (`Connects.BothWaysIn`).
- The traffic-control programs do not look at the header length of the packet itself: they read packets as written exactly if these have no IP options (`Frames.AlwaysReadIff`). They accept a packet in an IP-in-IP tunnel but store port and checksum where they would be without one, so the port is reached exactly if there is no tunnel (`Frames.PortReachedIff`).

## Assumptions

- eBPF: a little-endian host; IPv4 addresses as one word; no eviction from LRU maps; a socket cookie connects once; binding to the pod's address succeeds; TCP keeps 4-tuples apart inside the client's and the server's network namespace, also after destination NAT; a source address is the namespace's own or on loopback, and from loopback one reaches only the namespace itself; pod addresses are not on loopback; the active end is established first (RFC 9293 section 3.5). In the mode without pod addresses the keys of redirected connections are taken to be distinct.
- Traffic control: the theorems on rewritten packets and checksums are about frames without tunnel and IP options, where the fixed offsets point; `Frames.AlwaysReadIff` and `Frames.PortReachedIff` say what happens otherwise. The methods themselves cover every frame.
- iptables: an empty nat table before the commands; every packet has an owner; ranges are parsed.
- Timers have the semantics of Go before 1.23. `Timely`: no timer set to a decade expires. `Punctual`: the dispatcher's statements take no time and the clock does not skip a due timer.
- Issuers are abstract: they return the names and validity asked for and their own root. Clock, random noise and the issuer's answer are parameters. A root is one PEM block.
- `Renewal`: no tick is missed, a sweep takes no time and succeeds. `Gateway.DrainedSecretsAreCurrent`: names and secrets of current specs are distinct, and issuing and the API do not fail. `Identity.IdentityKept`: a key is always requested for one use; the authorities that issue under it are of one kind and, for a prefix name, of one trust domain; other keys are free, and `Identity.KindKept` needs none of the latter.

## Model

| member | source | states |
|---|---|---|
| Wire.ShiftTestIsPrefixTest | bpf/headers/helpers.h:266-270 | for masks 1 to 32 the byte-swapped shift comparison holds exactly if the addresses agree on the first `mask` bits |
| Hooks.IsInCidr | bpf/headers/helpers.h:266-270 | membership in a range is prefix agreement |
| Hooks.IsExcludePort | bpf/headers/helpers.h:283-292 | the loop finds a port exactly if it occurs before the first zero entry |
| Hooks.IsExcludeIpRanges | bpf/headers/helpers.h:294-303 | the loop accepts an address exactly if an entry before the first zero covers it |
| Hooks.IsIncludePort | bpf/headers/helpers.h:305-318 | an empty list includes every port, another one exactly its entries |
| Hooks.IsIncludeIpRanges | bpf/headers/helpers.h:320-333 | an empty list includes every address, another one exactly those it covers |
| Hooks.Kernel.TcpConnect4 | bpf/osm_cni_grp_connect.c:10-237 | for every call: the answer (redirect, bind address, refusal) and the maps are those of the declarative policy |
| Hooks.Kernel.ConnectFromApp | bpf/osm_cni_grp_connect.c:32-125 | the application branch: redirected exactly if not loopback and the pod's lists capture it; otherwise untouched |
| Hooks.Kernel.ConnectFromSidecar | bpf/osm_cni_grp_connect.c:132-234 | the sidecar branch: sent to the inbound listener of another pod exactly if its lists capture the port; a second record for a cookie is refused |
| Hooks.Kernel.SockOpsIpv4 | bpf/osm_cni_sock_ops.c:6-73 | the record moves from cookie to 4-tuple unless misdirected; the process address is learned; the socket map is not overwritten |
| Hooks.Kernel.SockOpt | bpf/osm_cni_sock_opt.c:9-69 | SO_ORIGINAL_DST answers from the reversed pair, and every other call keeps value and result |
| Hooks.Kernel.MsgRedirect | bpf/osm_cni_msg_redirect.c:5-31 | the peer is looked up under the reverse of the sender's own key |
| Connects.SidecarCall | bpf/osm_cni_grp_connect.c:132-234 | a sidecar's call keeps its address; to its own pod it keeps its port, to another pod it goes to port 15003 exactly if that was asked for or the pod's lists want it; refused exactly if it ought to be recorded a second time |
| Connects.BothWaysIn | bpf/osm_cni_grp_connect.c:160-186 | a sidecar's call arrives at the port at which the same first segment from outside arrives, except exactly on a captured status port |
| Connects.ApplicationCall | bpf/osm_cni_grp_connect.c:32-125 | an application's call inside the pod is left alone; every other one is recorded as asked and sent to 127.0.0.1:15001 from the pod's address unless the pod's lists spare it |
| Connects.OutsideMesh | bpf/osm_cni_grp_connect.c:12-19 | callers outside the mesh change nothing |
| Connects.SecondCallGetsThrough | bpf/osm_cni_sock_ops.c:19-33 | without pod addresses: a sidecar's call that comes out at its own listener leaves nothing but the address of its process, and its next call to that address gets through |
| Connects.CallsTeachAddress | bpf/osm_cni_sock_ops.c:34-41 | a call to another pod teaches the caller's own address and is filed with what it asked for |
| Connects.LegacySidecarCall | bpf/osm_cni_grp_connect.c:187-227 | such a sidecar is sent to the inbound listener of every pod but the one it is known to be in |
| Connects.LegacyAddressesDiffer | bpf/osm_cni_grp_connect.c:113-124 | no two of 1048575 calls in a row of such applications get the same address, whatever other calls come between |
| TcNat.LoadHeaders | bpf/osm_cni_tc_nat.c:14-57 | bounds checks and loads, also for tunnelled frames, give the parsed segment, a bypass or a drop; what that means is Frames.ParseBuilt |
| TcNat.TcDnat | bpf/osm_cni_tc_nat.c:12-134 | verdict, map and frame after ingress, for every frame |
| TcNat.TcSnat | bpf/osm_cni_tc_nat.c:136-216 | verdict, map and frame after egress, for every frame; FIN+ACK forgets the flow |
| TcNat.UpdatedChecksumResidue | bpf/osm_cni_tc_nat.c:108-109 | equation 3 of RFC 1624 preserves checksum plus field modulo 0xffff |
| TcNat.RewriteKeepsChecksum | bpf/osm_cni_tc_nat.c:128-130 | a rewrite with the true old value keeps the frame's checksum valid, and an invalid one invalid |
| TcNat.DnatOnPlainFrame | bpf/osm_cni_tc_nat.c:108-130 | the rewritten frame parses to the same segment with the new destination port, checksum as valid as before |
| TcNat.SnatOnPlainFrame | bpf/osm_cni_tc_nat.c:211-214 | the same for the source port of a reply |
| Frames.ParseBuilt | bpf/osm_cni_tc_nat.c:14-57 | a packet written out from the header layouts, in a tunnel or not, is read back with its addresses, ports and flags |
| Frames.Truncated | bpf/osm_cni_tc_nat.c:17-57 | every prefix of such a frame: dropped inside the headers, let through in a tunnel without a whole inner header |
| Frames.OtherKindPasses | bpf/osm_cni_tc_nat.c:27-53 | a frame that is not IPv4 passes |
| Frames.OtherProtocolPasses | bpf/osm_cni_tc_nat.c:39-41 | an IPv4 packet that is neither TCP nor a tunnel passes, with any options |
| Frames.OtherTunnelledPasses | bpf/osm_cni_tc_nat.c:33-41 | and so does one in a tunnel that is not TCP |
| Frames.AlwaysReadIff | bpf/osm_cni_tc_nat.c:42-44 | all packets with given IP options are read as written if and only if there are none |
| Frames.DnatOfPacket | bpf/osm_cni_tc_nat.c:12-134 | the ingress program on a packet: exactly the intercepted ones go to port 15003, nothing else changes but the checksum, which is as valid as before, and only a first packet leaves an entry |
| Frames.SnatOfPacket | bpf/osm_cni_tc_nat.c:136-216 | the egress program on a packet: exactly replies of the inbound listener with an entry get its port back; FIN and ACK remove the entry |
| Frames.ReplyBearsAskedPort | bpf/osm_cni_tc_nat.c:93-214 | round trip in bytes: after an intercepted first packet on a free key every reply leaves with the port asked for |
| Frames.PortReachedIff | bpf/osm_cni_tc_nat.c:33-48 | the port of the TCP header is rewritten if and only if there is no tunnel |
| NodeRun.ReachableInv | bpf/osm_cni_grp_connect.c:10-237 | the invariant over maps, attempts, connections and sockets of all namespaces holds after every run of all hooks |
| NodeRun.HandedOverKeyIsOwn | bpf/osm_cni_sock_ops.c:53-56 | a record is filed under a key that no other connection of any namespace has |
| NodeLaws.RedirectedPodsAreDistinct | bpf/osm_cni_grp_connect.c:98-112 | over every run a redirected connection shares its key with no connection of another namespace, in either direction |
| NodeLaws.OriginalDstExact | bpf/osm_cni_sock_opt.c:24-56 | in every reachable state a recorded or redirected connection's server is told exactly what the client asked for |
| NodeLaws.AnswerExact | bpf/osm_cni_sock_ops.c:8-56 | the exact answer over every run: the record, or what an earlier connection left behind; and exactly when it is wrong |
| NodeLaws.StaleAnswer | bpf/osm_cni_sock_ops.c:8-56 | a run in which an entry of a closed connection answers for a new one |
| NodeLaws.TcRoundTrip | bpf/osm_cni_tc_nat.c:58-215 | over every run, after a SYN on a free key: segments reach the inbound listener and replies carry the dialled port if and only if no FIN+ACK reply has left since the last SYN |
| NodeLaws.RewrittenUntilFinAck | bpf/osm_cni_tc_nat.c:182-215 | everything up to and including the first FIN+ACK reply is rewritten |
| NodeLaws.TrafficStep | bpf/osm_cni_tc_nat.c:93-131 | one step loses or regains the record of a flow exactly by its FIN+ACK reply or another SYN |
| NodeLaws.OnlyFinAckForgets | bpf/osm_cni_tc_nat.c:206-210 | a step ends the recording of a connection if and only if it is a FIN+ACK reply of a flow of traffic control |
| NodeLaws.ConnectSideNeverRewritten | bpf/osm_cni_tc_nat.c:119-127 | entries written by the connect side cause no rewrite and no change of state |
| NodeLaws.MarkedIff | bpf/osm_cni_tc_nat.c:93-109 | over every run a traffic-control entry is there if and only if a SYN wrote it and nothing replaced or deleted it since |
| NodeLaws.ReplyRewrittenIff | bpf/osm_cni_tc_nat.c:188-213 | a reply, also one of a handshake on the connect side, is rewritten if and only if such an entry is left on its key |
| NodeLaws.OpeningAnswerExact | bpf/osm_cni_tc_nat.c:93-109 | after a SYN replies carry the dialled port if and only if the key was free or held that port |
| NodeLaws.RedirectReachesPeer | bpf/osm_cni_msg_redirect.c:7-28 | in every reachable state a socket found for a message is the other end of the same connection if and only if the key is not on loopback at both ends or the sockets are of one namespace |
| NodeLaws.LoopbackKeysCollide | bpf/osm_cni_sock_ops.c:57-70 | a run in which the socket map joins two namespaces |
| Sockets.ReachableFiled | bpf/osm_cni_sock_ops.c:55-70 | in every reachable state the socket map holds, off loopback, every recorded client's end and every server's end at a listener or called from the sidecar's address, under its own key |
| Sockets.RedirectFindsPeer | bpf/osm_cni_sock_ops.c:55-70 | in every reachable state the two ends of a connection the connect hook redirected find each other |
| Sockets.OwnCallFindsPeer | bpf/osm_cni_sock_ops.c:55-70 | and so do those of a sidecar's call to its own application |
| Iptables.LoadIsInsertedThenAppended | pkg/injector/iptables.go:71-157 | a chain is its inserted rules, latest first, then its appended rules in order |
| Iptables.CompiledChains | pkg/injector/iptables.go:14-157 | the contents of every chain after the generated commands |
| Iptables.CompiledAcyclic | pkg/injector/iptables.go:14-68 | no generated program has a cycle of jumps, so evaluation ends |
| Iptables.CompilerCorrect | pkg/injector/iptables.go:14-157 | for every configuration and packet both hooks give the verdict of the declarative policy |
| Iptables.GenerateIptablesCommands | pkg/injector/iptables.go:71-171 | the generated list is the compiled program and means the policy for every packet |
| Iptables.GenerateOutbound | pkg/injector/iptables.go:116-157 | the loops for interfaces, ranges, ports and inclusions write the outbound rules in order |
| Exclusions.UniqueMembers | pkg/injector/exclusions.go:60-79 | deduplication keeps the members and leaves no repetition |
| Exclusions.MergePortExclusionLists | pkg/injector/exclusions.go:60-79 | mesh-wide ports first, then the pod's, first occurrences only |
| Exclusions.MergeIpRangeLists | pkg/injector/exclusions.go:112-129 | the pod's ranges first, then the mesh-wide ones, first occurrences only |
| Exclusions.SameListsSameVerdict | pkg/injector/iptables.go:116-157 | neither order nor repetition in any list changes a verdict on any packet |
| Exclusions.MergeKeepsVerdicts | pkg/injector/exclusions.go:60-129 | merging in either order decides every packet on both hooks as concatenation does |
| Exclusions.MergeKeepsInclusions | pkg/injector/exclusions.go:60-129 | the same, in either order, for inclusions and inbound ports |
| Exclusions.SidecarNeverLoops | pkg/injector/iptables.go:24-37 | sidecar packets never reach the outbound listener; the admin rule accepts nothing |
| Exclusions.SidecarTraffic | pkg/injector/iptables.go:24-37 | whatever the lists: sidecar packets over loopback go to the inbound listener unless they are for 127.0.0.1, those go through or to the pod address, and all others leave untouched |
| Exclusions.UntouchedTraffic | pkg/injector/iptables.go:28-44 | traffic inside the pod and everything but TCP is left alone, save for name queries where configured |
| Exclusions.DefaultTraffic | pkg/injector/iptables.go:46-68 | without lists all other TCP goes out through 15001 and comes in through 15003, save for five ports |
| Exclusions.ExclusionBeatsInclusion | pkg/injector/iptables.go:128-157 | an excluded destination is not redirected, whatever the inclusions |
| Exclusions.ExclusionsOnlyRemove | pkg/injector/iptables.go:82-157 | with more exclusions every verdict stays or becomes none |
| Dataplanes.FillPorts | pkg/cni/controller/podwatcher/pod.go:174-192 | the first twenty ports, zero behind them |
| Dataplanes.FillRanges | pkg/cni/controller/podwatcher/pod.go:217-238 | the first twenty ranges, zero behind them |
| Dataplanes.PortsSeen | pkg/cni/controller/podwatcher/pod.go:174-192 | the hooks find in the filled array exactly the entries before the first zero |
| Dataplanes.RangesSeen | pkg/cni/controller/podwatcher/pod.go:217-238 | the same for ranges |
| Dataplanes.OutboundAgreement | bpf/osm_cni_grp_connect.c:32-93 | a connection is redirected by the connect hook and leaves through neither the loopback nor an excluded interface exactly when the iptables program for the lists the hook sees redirects it and the port inclusion list lets it through |
| Dataplanes.OwnPodDiffers | bpf/osm_cni_grp_connect.c:32-93 | a connect to the own pod's address is redirected by the hook and by no generated program |
| Dataplanes.InboundAgreement | bpf/osm_cni_tc_nat.c:58-91 | traffic control opens a flow, not on an excluded interface, exactly when iptables redirects and neither six control ports, the status port nor the port inclusion list spares it |
| Dataplanes.WholeListSeen | pkg/cni/controller/podwatcher/pod.go:183-238 | the whole list is seen if and only if it has at most twenty entries and no zero |
| Dataplanes.WholeInboundSeen | pkg/cni/controller/podwatcher/pod.go:170-182 | the whole inbound list is seen if and only if it has at most nine entries and no zero |
| Dispatcher.NeverBlocks | pkg/messaging/broker.go:115-202 | over every interleaving: each timer is armed or fired with one value, and no receive after a failed Stop waits |
| Dispatcher.Conservation | pkg/messaging/broker.go:136-232 | over every run broadcasts in order are the published batches, the pending batch and what is in hand; counters add up; batches with events carry their latest one |
| Dispatcher.EmptyBatchIff | pkg/messaging/broker.go:174-202 | over every run a batch is empty if and only if nothing was pending when its timer value was taken |
| Dispatcher.NoEmptyPublish | pkg/messaging/broker.go:174-202 | while no decade passes idle, no batch is empty and never more is dispatched than was queued |
| Dispatcher.DecadeIdlePublishesNothing | pkg/messaging/broker.go:120-128 | a run without events that publishes an empty batch after a decade |
| Dispatcher.Deadlines | pkg/messaging/broker.go:149-202 | every batch goes out at most 2 s after its last and 10 s after its first event; the max timer is not re-armed within a batch |
| Dispatcher.PublishedExactly | pkg/messaging/broker.go:149-202 | every batch goes out exactly 2 s after its last or 10 s after its first event, whichever comes first |
| Dispatcher.EachInOrder | pkg/messaging/broker.go:216-232 | over every run events for specific proxies are published once each, in the order of the queue; the broadcasts handed over are those of the queue |
| Dispatcher.HandlerEffects | pkg/messaging/broker.go:142-202 | the handlers, statement by statement, amount to taking an event or flushing the batch |
| Dispatcher.Loop.ProcessEvent | pkg/messaging/broker.go:216-232 | events for specific proxies are published and counted, broadcasts are handed over |
| Dispatcher.Loop.OnProxyUpdate | pkg/messaging/broker.go:142-172 | the first event arms both timers, a further one only the sliding one |
| Dispatcher.Loop.OnSlidingTimer | pkg/messaging/broker.go:174-187 | the batch is flushed and both timers are put off |
| Dispatcher.Loop.OnMaxTimer | pkg/messaging/broker.go:189-202 | the same for the max timer |
| Certificates.UniqueSubjectAlternativeNames | pkg/certificate/options.go:39-67 | first occurrences of the names without colon that are not excluded; short lists stay as they are |
| Certificates.KeptIsClean | pkg/certificate/options.go:39-67 | the result has no colon, no repetition, and exactly the other members |
| Certificates.NormalizedTwice | pkg/certificate/options.go:39-67 | deduplication is idempotent |
| Certificates.KeyIsFullName | pkg/certificate/options.go:18-23 | the common name equals the cache key exactly if it was given in full; otherwise it is the key, a dot and the trust domain |
| Certificates.LastAppointmentCounts | pkg/certificate/manager.go:118-158 | over every sequence of events each role is held by the last appointment to it |
| Certificates.VacantOnlyBefore | pkg/certificate/manager.go:118-158 | a role is vacant if and only if no event appointed to it |
| Certificates.RolesByState | pkg/certificate/manager.go:118-158 | after every history: an issuing state sets the signing issuer only, a validating state the validating one only, every other state both, an error or an update none |
| Certificates.MutualTrustIff | pkg/certificate/certificate.go:23-31 | exactly when certificates of two stages accept each other |
| Certificates.EventKeepsTrustIff | pkg/certificate/manager.go:118-158 | certificates before and after any event accept each other if and only if the signing root stays |
| Certificates.ValidatingRolloutKeepsTrust | pkg/certificate/manager.go:143-146 | an event in a validating state never separates what is issued before and after it |
| Certificates.IssuingRolloutSigns | pkg/certificate/manager.go:139-142 | from an issuing rollout on, until another MRC comes in for signing, the MRC of that rollout signs, and the validating issuer stays until another comes |
| Certificates.IssuedAfterRollout | pkg/certificate/manager.go:139-142 | what is issued then is signed by the new root and trusts the validating issuer's root besides |
| Manager.CertManager.HandleMrcEvent | pkg/certificate/manager.go:118-158 | the new issuers, and when an error is returned |
| Manager.CertManager.IssueCertificate | pkg/certificate/manager.go:285-341 | cache, result and announcement of an issuing call, with the old names carried over |
| Manager.CertManager.CheckAndRotate | pkg/certificate/manager.go:207-231 | an uninterrupted sweep treats every cached certificate on its own, in any order; one announcement for each replaced one |
| Manager.CertManager.CheckOne | pkg/certificate/manager.go:218-230 | one key of the snapshot is asked for again in the way its key says, whatever the cache holds by now |
| Manager.SweepIsLocal | pkg/certificate/manager.go:218-230 | asking again for one key changes that key only |
| Identity.NamesStableIff | pkg/certificate/manager.go:300-302 | exactly when the names of an issued certificate are issued again unchanged |
| Identity.RestoredIff | pkg/certificate/manager.go:218-224 | exactly when the names asked for from a snapshot are the original ones, colons included |
| Identity.KindKept | pkg/certificate/manager.go:207-325 | over every run, with any authorities and trust domains, a cached or snapshot certificate has the type asked for, its key is its common name exactly if given in full, and a prefix name ends in a trust domain that issued it |
| Identity.IdentityKept | pkg/certificate/manager.go:207-325 | over every interleaving of requests, releases and sweeps, for a key issued under one kind of authority and, if it is a prefix, one trust domain: the type and common name asked for, and, where names are steady, exactly these names if and only if they survive or the certificate does not go back to a sweep that met a released key; otherwise its common name or none |
| Identity.UnsteadyNamesFlip | pkg/certificate/providers/tresor/certificate_manager.go:65-85 | over every run, names that are not steady change with every rotation |
| Identity.NamesAreLost | pkg/certificate/manager.go:208-224 | a run in which a sweep brings a released certificate back without its names |
| Identity.NameChangeGrowsNames | pkg/certificate/providers/tresor/certificate_manager.go:65-85 | the names stay if and only if the common name does |
| RootRotation.EveryStageKnown | pkg/certificate/manager.go:285-325 | in every run each certificate, cached or being issued, is signed by the root of a stage of the run and trusts that root followed by the other validating root |
| RootRotation.SteadyRootKeepsTrust | pkg/certificate/manager.go:118-325 | while the signing root stays all cached certificates accept each other at every moment |
| RootRotation.SweepProgress | pkg/certificate/manager.go:207-230 | while a sweep runs, between reads, stores and releases of other calls, each certificate is still to be checked or bears today's issuer names |
| RootRotation.SweptStage | pkg/certificate/manager.go:188-230 | after a sweep a certificate is of a stage whose issuers have today's names |
| RootRotation.SweepCatchesUpIff | pkg/certificate/manager.go:188-230 | for every history of events, after every run with a completed sweep, interleaved with releases and calls that read and store at different times, none of which was open with older issuers when it began, certificates are of the current stage, if and only if no earlier stage had today's names with another root or trust |
| RootRotation.SweepRestoresTrustIff | pkg/certificate/manager.go:188-230 | the same for certificates accepting each other, if and only if all stages with today's names do |
| RootRotation.LateStore | pkg/certificate/manager.go:304-325 | a run in which a call that read its issuers before the last event stores after the sweep |
| RootRotation.ReusedName | pkg/certificate/manager.go:199-203 | an MRC added again with another root breaks both, one with another trust domain does not |
| Renewal.RenewalBound | pkg/certificate/manager.go:39-230 | at every instant remaining life is at least min(30 s, granted validity) minus the check interval, for every noise |
| Renewal.RenewedExactly | pkg/certificate/manager.go:169-254 | in every reachable state a sweep replaces a certificate exactly if at most 30 s and the noise are left or its issuers are not the present ones, for the validity of its type; with more than 34 s left it stays |
| Renewal.AskedExactly | pkg/certificate/manager.go:285-325 | the same for a request |
| Flights.FlightsAreSound | pkg/certificate/manager.go:272-341 | over every interleaving: at most one issuer call a flight, one result for all, the cache and the issuers match unless changed meanwhile |
| Flights.NothingIff | pkg/certificate/manager.go:260-283 | over every interleaving a caller gets neither certificate nor error if and only if its flight was led by a lookup that met an empty cache, or it called GetCertificate and joined a flight whose issuer failed |
| Flights.LookupCanMissCached | pkg/certificate/manager.go:260-270 | a run in which a lookup returns nothing while a certificate is cached |
| Flights.IssueCanReturnNothing | pkg/certificate/manager.go:260-283 | a run in which an issuing call gets an empty lookup |
| FlightRounds.RepliesFollow | pkg/certificate/manager.go:260-341 | over every interleaving: a lookup is told what was cached; an issuing call the cached certificate if not due, else the issuer's error or the manager's product of what was loaded, read and answered; exactly a replacement is announced, once |
| FlightRounds.StoredIsProduct | pkg/certificate/manager.go:285-325 | over every interleaving a certificate about to be stored is such a product |
| FlightRounds.FlightIsIssue | pkg/certificate/manager.go:272-341 | a flight without interference ends with reply, cache and announcement of the manager's issuing round |
| Gateway.Client.CreateAndStoreGatewayCert | pkg/ingress/gateway.go:43-75 | no announcement; success exactly if spec, issuer and API allow; the secret then holds the cached certificate |
| Gateway.Client.CreateAndStoreAccessCert | pkg/ingress/gateway.go:79-106 | the same without a configured duration |
| Gateway.ReissuedMeans | pkg/ingress/gateway.go:58-75 | a reissue changes one key only, to a certificate of the present issuers; exactly if all goes well the secret holds the certificate that is cached |
| Gateway.Client.DoCertRotate | pkg/ingress/gateway.go:238-269 | when it panics; otherwise refreshes the gateway's, an access or no certificate |
| Gateway.Client.DoMeshConfigUpdate | pkg/ingress/gateway.go:170-205 | the new spec becomes current also if its certificate is refused; removal deletes secret and certificate; when it panics |
| Gateway.Client.DoAccessCert | pkg/ingress/gateway.go:207-236 | the old object's secret, certificate and file entry go, the new one's come, in that order and as far as permission and API allow; when it panics |
| Gateway.FiledIff | pkg/ingress/gateway.go:207-236 | after every sequence of messages a spec is filed under a name if and only if a change stored it there and no change since removed an object of that name or stored another |
| Gateway.PanicsIff | pkg/ingress/gateway.go:109-269 | for every sequence of well-formed messages of the three channels the loop panics if and only if one indexes the names of a spec without any, given the last MeshConfig and the message, or issues and gets nothing |
| Gateway.PanicsIffLookup | pkg/ingress/gateway.go:58-75 | with the flights of the issuing calls: it panics if and only if a message indexes the names of a spec without any or its call joins a lookup under the same name that met an empty cache |
| Gateway.NamedNeverPanics | pkg/ingress/gateway.go:134-269 | with specs that have names and no empty reply it never panics |
| Gateway.LoopPanics | pkg/ingress/gateway.go:109-255 | messages for each of the three ways to panic |
| Gateway.StepsAreTheHandler | pkg/ingress/gateway.go:238-269 | the uninterrupted steps of the run refresh what the handler refreshes |
| Gateway.StepsAreTheUpdate | pkg/ingress/gateway.go:170-236 | the uninterrupted steps for a new spec issue and store what the handler does |
| Gateway.StepIsTheRemoval | pkg/ingress/gateway.go:325-346 | the step for a removed spec removes what the handler does |
| Gateway.DrainedSecretsAreCurrent | pkg/ingress/gateway.go:134-269 | over every interleaving with sweeps, other callers and changes of the specs: once drained, each secret of a current spec holds the cached certificate |
| Gateway.NoFeedback | pkg/ingress/gateway.go:238-269 | handling a message sends none; the backlog shrinks by one |
| Gateway.ReissueAnnouncesIff | pkg/ingress/gateway.go:58-75 | a reissue announces a rotation if and only if a due certificate was put back meanwhile |
| Weights.ClusterNamesDistinct | pkg/service/types.go:100-102 | cluster names of one service differ exactly if the ports do |
| Weights.ActiveUpstreamClusters | pkg/catalog/outbound_traffic_policies.go:320-334 | the running division gives each cluster its share, appended in order, for negative weights too |
| Weights.SplitIsExact | pkg/catalog/outbound_traffic_policies.go:320-334 | the shares add up to the weight |
| Weights.SplitIsFair | pkg/catalog/outbound_traffic_policies.go:320-334 | each share is the quotient rounded down or up, and they never decrease |
| Weights.FailOverUpstreamClusters | pkg/catalog/outbound_traffic_policies.go:336-347 | fail-over clusters are appended with weight zero |
| Weights.MergeSplitUpstreamClusters | pkg/catalog/outbound_traffic_policies.go:232-273 | the clusters of a backend in some order of its ports; the total grows by exactly its weight unless it has no local port and no active port elsewhere |
| Weights.ContributionByPort | pkg/catalog/outbound_traffic_policies.go:232-273 | exactly the local port and the active ports of other clusters share the weight, exactly the other remote ports follow with weight zero |
| Weights.PortsWithCluster | pkg/catalog/outbound_traffic_policies.go:238-268 | together these are the local port and all remote ones, none is in both, and none shares exactly if there is no local port and no active one |
| Weights.ContributionNamesDistinct | pkg/catalog/outbound_traffic_policies.go:232-273 | the names a backend contributes are distinct |
| Weights.ContributionIsExact | pkg/catalog/outbound_traffic_policies.go:232-273 | a backend contributes exactly its weight, or nothing if it has no local port and no active port elsewhere |
| Weights.WeightsIndependentOfOrder | pkg/catalog/outbound_traffic_policies.go:232-273 | the sequence of weights does not depend on map iteration order |
| TrafficTargets.ToAccount | pkg/identity/types.go:53-63 | the first two chunks, free of dots; name, dot and namespace begin the identity |
| TrafficTargets.AccountRoundTrip | pkg/identity/types.go:53-79 | an account without dots is recovered from its identity |
| TrafficTargets.GetAllowedDirectionalServiceAccounts | pkg/catalog/traffictarget.go:72-131 | the loops collect exactly the identities the targets allow in the given direction |
| TrafficTargets.AllowedMeansPermitted | pkg/catalog/traffictarget.go:72-131 | an account is allowed, in either direction, exactly if some target names both as service accounts, one as destination and one among the sources |
| TrafficTargets.DualityExact | pkg/catalog/traffictarget.go:72-131 | the two directions agree under every policy if and only if both identities have exactly one dot |
| TrafficTargets.ListTrafficTargets | pkg/smi/client.go:198-249 | exactly the valid targets of monitored namespaces, in order |
| TrafficTargets.RulesCompose | pkg/smi/client.go:220-249 | a target with no rules is not listed, one with a single rule exactly for the two kinds, one with several exactly if each part would be |
| TrafficTargets.DoesTargetRefSrcPod | pkg/cli/policy_check.go:26-37 | the search finds the pod's account exactly if it is a source |
| TrafficTargets.CheckTrafficPolicy | cmd/cli/policy_check_pods.go:137-156 | found exactly if a target in the destination's namespace permits the pair |
| TrafficTargets.ToolCoversIff | cmd/cli/policy_check_pods.go:137-156 | the tool confirms whatever the catalog allows, under every policy, if and only if the pods' names have no dots |
| TrafficTargets.ToolAgrees | pkg/cli/policy_check.go:13-37 | with valid rules next to the destination, tool and catalog agree on every pair of pods |
| TrafficTargets.ToolAgreesIff | pkg/smi/client.go:220-249 | for any list of targets they agree unless one next to the destination permits the pair and its namespace is not monitored or no such target has valid rules |
| TrafficTargets.ToolOverlooksRules | pkg/cli/policy_check.go:13-37 | a target without rules that only the tool counts |

## Left out

- Manager.CertManager.CheckAndRotate: the sweep without interruption; interleavings with releases and requests are runs of Identity.
- Dataplanes.OutboundAgreement: for a pod whose address and lists are known.
- Renewal.RenewalBound: one direction, under the assumption that no tick is missed and no issuing fails.
- Gateway.DrainedSecretsAreCurrent: one direction, under the assumption that issuing and the API do not fail.
- Identity.IdentityKept: an issuing call is one step, the one FlightRounds.FlightIsIssue ties the flights to; calls that read and store at different times are runs of Flights and RootRotation.
- Sockets.RedirectFindsPeer: once both ends are established, and off loopback; NodeLaws.LoopbackKeysCollide shows what happens on it.
- Gateway.PanicsIff: malformed messages and closed channels, which the handlers skip, are not messages of the model.
- Dispatcher.Conservation: closing of channels and the stop signal are not modelled.
- The classification of events in getProxyUpdateEvent, metrics and logging: flat case tables.
- IPv6, UDP connects, LRU eviction, and eBPF program loading.
- Text of the iptables script, parsing of annotations, and limits of the multiport match.
- X.509 and PEM encoding, and the real issuers.
- Kubernetes clients, informers, pubsub, workqueue and singleflight internals: only their contracts appear.
- Envoy and Pipy configuration, egress, ingress and access-control policies, webhook injection: mostly field copying.
- Lookups of multicluster endpoints that feed the weights: the port map is an arbitrary input.
