# Multi-network policies on nftables: a verified model

The daemon turns MultiNetworkPolicy objects into nftables chains, sets and rules
inside a pod's network namespace, and on every change edits the installed ruleset
into the new one. This project models that compiler, the small packet machine it
targets, the incremental reconciler, its interval sets, rule identity, naming, policy
selection, and the cleanup of legacy tables, and proves what they promise together.

How the parts fit:

- `Ids`, `Marks`, `Machine`: identifiers, the 32-bit mark, rules as register programs,
  chains, and the walk of a packet through jumps, returns and verdicts.
- `Intervals`, `Elements`: CIDR prefixes (section 3.1 of RFC 4632, section 2.3 of
  RFC 4291) and port ranges as boundary elements, and the in-place update of sets.
- `Identity`: `ruleEqual` against the hash key.
- `Kernel`, `Reconcile`, `Flush`, `Cleanup`, `Exact`: committed ruleset and batch; a
  pass as a list of requests decided on the committed ruleset; what each of its four
  commits (main flush, filter rules, nat rules, chains) leaves.
- `Policies`: the meaning of policies as a decision list that knows nothing of chains.
- `Spelled`: the same meaning a second time, on the fields of policies, pods and packets
  with all numbers written out, sharing nothing with compiler or decision list but the
  datatypes and powers of two.
- `Compile`, `Layout`, `SetLayout`, `Requests`, `Passes`: the requests of a pass, chain
  by chain and set by set.
- `Effects`, `Walks`, `Meanings`, `Targets`, `States`, `Results`, `Correct`: what each
  rule and chain does, and compiler correctness.
- `Entry`, `Runs`, `Blocks`, `Incremental`, `Histories`, `Repeats`, `Excepts`: entry
  chains over arbitrary runs, and incremental equals fresh.
- `Travels`, `Gains`, `Soundness`, `Lasting`: what every run keeps whatever is gained,
  changed or cut short, and the exact verdict after every complete pass.
- `Witnesses`: inputs on which the daemon falls short of what one would expect.
- `NftState`, `Listing`, `Selectors`, `Texts`, `Selection`, `Legacy`, `Server`: the
  stateful procedures themselves, proved against the functions above.
- `Naming`: chain names as strings.

The semantics is that of the code. An address in an IPBlock `except` of the CIDR's
family is dropped at once, whatever later peers, rules or policies say. The final drop
covers every interface of the pod once any policy applies in a direction. A pod
selector without a namespace selector selects pods of all namespaces. A ports entry
with neither port nor protocol adds nothing.

Where the code falls short of a law one would expect, the model keeps the code, shows
an input, and states the exact condition.

- Interval flags change unnoticed. A port can be lost (`Elements.AdjacentRangeLost`),
  and ports that no list ever named can open: dropping port 81 from the list 80, 81
  admits every higher port (`Elements.DroppedRangeOpens`,
  `Witnesses.DroppedPortOpensOthers`). The update is exact iff flags agree
  (`Elements.UpdateExact`, `Histories.NextReadyExactly`), and a set answers right for a
  packet iff the updated elements do (`Results.ServesExactly`).
- A surviving policy gains an interface: the new jump stands behind the policy's check,
  and packets on it are dropped, also after further passes with the same input
  (`Witnesses.GainedInterfaceDrops`). All jumps stand in front of their checks after a
  pass iff nothing is gained and the wanted jumps stood so before
  (`Gains.GuardedExactly`).
- A surviving IP block gets its first `except`: the drop rule is appended behind the
  accept rule, and the excepted address keeps passing (`Witnesses.FirstExceptIgnored`).
  A peers chain is in order after a pass iff the wanted rules installed before are, in
  order, the first of the wanted ones (`Excepts.PeersOrderExactly`).
- An initial mark with both bits bypasses the policies (`Correct.BothBitsBypass`,
  `Correct.InitialMarkExact`).
- Ranges that end inside one another are misrepresented (`Intervals.EncodingExact`,
  `Meanings.PortsChainRight`).
- With excepts the order of policies matters (`Policies.ExceptOrderMatters`,
  `Policies.OrderMattersExactly`).
- One legacy run may not be enough (`Legacy.OneRunDependsOnOrder`,
  `Legacy.OneRunSettles`).
- A policy can be named like another's ports or peers chain
  (`Naming.PolicyNamesCollide`).

Verify with `dafny verify dfyconfig.toml`.

## Assumptions

- Chain, set and comment names are kept in structured form. For chains, module
  `Naming` relates them to the rendered strings; for sets and comments this assumes
  that the rendering is injective.
- The 32-bit hash is injective on the names, rules and expressions in use. FNV and gob
  are not modelled.
- A rule read back from the kernel has the key it was written with: a `Lookup` is
  identified by the name of its set, not by the `SetID` it also carries.
- Comments are not cut to equal strings at 254 bytes.
- A CIDR is identified by its parsed address and length; different spellings of one
  address would give different comments.
- Reads see the committed ruleset; a flush applies the batch in order and atomically or
  not at all, and empties it either way.
- Between passes counters move and other programs may change unmanaged tables; nobody
  else edits the managed tables.

## Model

| member | source | states |
|---|---|---|
| `Server.ServedExactly` | pkg/server/server.go:95-204 | in every life of the daemon (passes and removals from an empty filter table, each successful, failed after any commit, or rejected, with legacy cleanup, traffic and other programs in between) the exact verdict after each pass that got through, for every packet and every initial mark: a packet on an installed pod interface is dropped iff the entry chain, read rule by rule, says so; a jump on its interface decides or sets and clears the bits, a check lets through what carries both, and each policy decides by its peers chains in installed order and its sets as they are |
| `Server.ServedSafely` | pkg/server/server.go:95-204 | in every such life, whatever was gained, removed or cut short: a packet that the sets, once updated, and the lists represent right passes only if it is off the pod, a common rule accepts it, no policy applies, or some policy on its interface allows it; without excepts, only if the decision list lets it. Peers chains with excepts must meet the condition of `Excepts.PeersOrderExactly` |
| `Server.ServedSafelyIn` | pkg/server/server.go:95-204 | the same for incoming packets, spelled out: a packet that passes is off the pod's interfaces, without ingress policies, accepted by a common rule, or let in by an ingress rule of a policy of the ingress list on its interface, with no earlier rule of that policy denying it |
| `Server.ServedSafelyOut` | pkg/server/server.go:95-204 | and for outgoing packets, with the egress rules of the egress list and the destination |
| `Server.LifeSound` | pkg/server/server.go:95-204 | every such life keeps base chains, formed and tight entry chains, rule-ordered policy chains and known expressions |
| `Server.ServedRight` | pkg/server/server.go:95-204 | over any sequence of successful calls from an empty filter table, legacy cleanup, policy selection, traffic and other programs included, after each call whose policies have no excepts a packet passes iff the selected policies let it, exactly as after a first call on empty tables, as long as consecutive inputs are compatible (see `Histories.IncrementalEqualsFresh`) |
| `Server.ServedIngress` | pkg/server/server.go:158-175 | such calls let an incoming packet pass iff the spelled-out ingress rules of the selected ingress policies do |
| `Server.ServedEgress` | pkg/server/server.go:176-194 | and an outgoing packet iff the spelled-out egress rules of the egress policies do |
| `Server.ServedWithExcepts` | pkg/server/server.go:95-204 | the same with excepts, if the call finds its peers chains with excepts so that it leaves them in order (`Excepts.PeersOrderExactly`): every packet that is not allowed by one policy and denied by another is served as on empty tables |
| `Server.ServedHistory` | pkg/server/server.go:95-204 | such a sequence of calls is a history of passes: selection delivers fit inputs and the legacy cleanup leaves the managed tables alone |
| `Histories.IncrementalEqualsFresh` | pkg/server/server.go:155-201 | in every run of complete passes from empty tables after each pass whose policies have no excepts every packet gets the verdict of the policies, which is also the verdict after a compile of the same input on any empty tables; policies come, go and change their rules and networks, and configuration, cluster view, addresses and order change, as long as no surviving policy gains an interface and no set asked for twice in a row changes the interval flag of a key in both its forms |
| `Histories.WholePoliciesCompatible` | pkg/server/server.go:109-156 | inputs in which whole policies come and go and survivors keep their rules, with the configuration fixed, meet that condition whatever else changes |
| `Histories.NextReadyExactly` | pkg/server/netfilterrules.go:737-787 | the flag condition is exact: the sets one pass has left can be brought to the wanted elements by the next if and only if it holds |
| `Histories.HistorySteady` | pkg/server/server.go:155-201 | in such a run every state keeps base chains, block-structured entry chains, rule-ordered policy chains, known expressions and no anonymous sets, and every next input meets sets and jumps it can update in place |
| `Histories.TickedAdmits` | pkg/server/netfilterrules.go:719-735 | moving counters changes no verdict, through nested jumps |
| `Incremental.PassVerdict` | pkg/server/netfilterrules.go:616-663 | one pass on a table so kept gives the verdict of the policies, if no policy whose mark check is installed asks for a jump that is not, and each set that matters for the packet will hold its key iff the wanted one does |
| `Excepts.VerdictInBlockOrder` | pkg/server/netfilterrules.go:1356-1386 | with excepts, the verdict after every pass of such a run that leaves its peers chains in order is the decision list over the policies in the order of their blocks |
| `Excepts.FreshUnlessContested` | pkg/server/netfilterrules.go:1356-1386 | hence every packet that is not allowed by one policy and denied by another gets the verdict of a fresh compile, excepts included |
| `Excepts.HistoryReady` | pkg/server/netfilterrules.go:1356-1386 | a run in which surviving rules with excepts keep their peers and these are IP blocks finds its peers chains so before every pass |
| `Excepts.PeersOrderExactly` | pkg/server/netfilterrules.go:1345-1443 | after a pass the peers chain of a rule is in compiled order if and only if the wanted rules installed before it are, in order, the first of the wanted ones |
| `Excepts.PassSettles` | pkg/server/netfilterrules.go:1345-1443 | so all peers chains with excepts are in order after a pass exactly when that holds of each of them before it |
| `Incremental.StageQuadChain` | pkg/server/netfilterrules.go:1995-2025 | whatever policies come, go or change their number of rules, every policy chain is in rule order, or empty, at every commit of a pass |
| `Incremental.StageBase` | pkg/server/netfilterrules.go:515-559 | from the first commit of a pass on a base chain holds exactly the interface filter |
| `Blocks.PassBlocks` | pkg/server/server.go:158-175 | the entry chain after a pass: surviving policy blocks in place, less stale jumps, then the blocks of new policies in list order, then the drop iff there are policies |
| `Blocks.FinalMatch` | pkg/server/server.go:158-175 | those blocks are, in some order, exactly those of the current policies, with exactly the interfaces each is on now |
| `Lasting.RunVerdict` | pkg/server/server.go:155-201 | in every run from empty tables with arbitrary inputs and passes cut short after any commit, the exact verdict after each complete pass, as in `Server.ServedExactly` |
| `Lasting.RunVerdictMeant` | pkg/server/server.go:155-201 | the same in terms of the input, excepts included: for packets that the updated sets and the lists represent right, each policy decides as its rules say, and only the installed order of the entry chain counts |
| `Lasting.RunSafe` | pkg/server/server.go:155-201 | over every such run no packet passes after a complete pass unless it is exempt or some policy allows it; without excepts, unless the decision list lets it |
| `Lasting.RunSafeFromInputs` | pkg/server/server.go:155-201 | the same from the inputs alone: gains may happen anywhere, as long as no set that can still be installed has a key whose interval flag changes |
| `Lasting.RunRight` | pkg/server/server.go:155-201 | if moreover the pass gains nothing and finds its wanted jumps in front of their checks, every such packet gets the verdict of the policies and of a compile on empty tables, whatever passes were cut short before |
| `Lasting.RunLasts` | pkg/server/netfilterrules.go:737-787 | if no lingering set changes a flag, every set holds its meaning for some earlier input and every pass, after any passes cut short, finds sets it can bring to the wanted elements |
| `Soundness.StageSound` | pkg/server/server.go:155-201 | every commit of every pass keeps what all verdicts rest on: base chains, formed and tight entry chains, rule-ordered policy chains, known expressions |
| `Soundness.InstalledVerdict` | pkg/server/server.go:158-194 | the exact verdict after one pass on any table so kept, for every mark, without conditions on flags, gains, excepts or encodings |
| `Soundness.MeantVerdict` | pkg/server/server.go:158-194 | the same in terms of the input, for packets represented right |
| `Soundness.NeverTooMuch` | pkg/server/server.go:158-175 | whatever has been gained before or is gained now, a packet passes only if it is exempt or some policy on its interface allows it |
| `Soundness.GuardedVerdict` | pkg/server/server.go:158-175 | if every jump of the entry chain stands in front of its check, a packet passes iff the policies let it |
| `Travels.TravelVerdict` | pkg/server/netfilterrules.go:1165-1215 | any entry chain made of interface jumps, mark checks, the common jump and the drop, in any order, treats a packet as its rules read one by one |
| `Gains.StageTight` | pkg/server/netfilterrules.go:1982-1993 | at every commit of every pass, between a jump and a check of its policy stand only jumps of that policy |
| `Gains.GuardedExactly` | pkg/server/netfilterrules.go:1982-1993 | on every entry chain of the form, after a pass every interface jump has its policy's mark check behind it if and only if no policy with an installed check gains an interface and every wanted jump already installed has its check behind it |
| `Witnesses.GainedInterfaceDrops` | pkg/server/netfilterrules.go:1982-1993 | two passes from empty tables with one open policy: a packet on the interface the pod has gained may pass and is dropped, and a third pass with the same input, which gains nothing, does not mend it |
| `Witnesses.DroppedPortOpensOthers` | pkg/server/netfilterrules.go:789-813 | two passes from empty tables with ports 80 and 81 and then 80 only: no packet to a port above 81 may pass, and in the end every one is admitted |
| `Witnesses.FirstExceptIgnored` | pkg/server/netfilterrules.go:1345-1443 | two passes from empty tables with an IP block that is excepted from the second on: the inputs are compatible, the packet from the excepted address may not pass and is admitted |
| `Correct.CompilerCorrect` | pkg/server/server.go:155-201 | on empty tables, for every accepted input with distinct policy names, every packet whose port and address the encodings of the lists concerned represent exactly, and every initial mark lacking one of the two bits: the installed chains let the packet pass iff the decision list over policies, rules and peers does; foreign mark bits survive the whole walk |
| `Correct.CompiledIngress` | pkg/server/netfilterrules.go:1995-2008 | the installed input chain admits a packet iff it is exempt or some rule of the ingress field of a policy of the ingress list lets it in and none before it stops it: source address by quotient, protocols 6, 17 and 132, ports 1 to 65535, ICMP 1 and 58, types 133 to 136 written out |
| `Correct.CompiledEgress` | pkg/server/netfilterrules.go:2010-2025 | the installed output chain does so by the egress field of the policies of the egress list and by destination addresses |
| `Spelled.EnterMeans` | pkg/server/netfilterrules.go:1674-1738 | for every accepted input, excepts included, and every packet the decision list for ingress and the spelled-out rules agree |
| `Spelled.LeaveMeans` | pkg/server/netfilterrules.go:1674-1738 | and so they do for egress |
| `States.SpacedInputExact` | pkg/server/netfilterrules.go:1125-1144 | lists in which no range ends inside the union where no other range starts, disjoint lists among them, represent every packet exactly |
| `Correct.InitialMarkExact` | pkg/server/doc.go:57-59 | chains serve all inputs and packets right from an initial mark iff that mark lacks one of the two bits |
| `Correct.BothBitsBypass` | pkg/server/netfilterrules.go:1192-1215 | with both bits set from the start, every packet off the first policy's interfaces passes |
| `Runs.DropLastInvariant` | pkg/server/netfilterrules.go:583-611 | in every run from empty entry chains with arbitrary input changes and passes cut short after any commit, each entry chain keeps its form, and after each pass past the filter cleanup it starts with the common jump and ends in the drop iff a policy applies |
| `Runs.DropLastMeans` | pkg/server/netfilterrules.go:1272-1283 | what that form says position by position: the common jump first and only there, the drop last and only there, present iff a policy applies |
| `Entry.FlushEntry` | pkg/server/netfilterrules.go:616-663 | the main flush puts new jumps and checks in front of the drop, because a new jump forces the drop to be re-added |
| `Repeats.Repeats` | pkg/server/server.go:95-204 | a second pass with the same input queues nothing, and none of its stages changes the ruleset, although counters have moved, other programs have changed other tables, and pods are listed in another order or repeatedly |
| `Exact.CleanupExact` | pkg/server/netfilterrules.go:2079-2144 | after a complete pass the chains of a managed table are exactly the requested ones, its named sets exactly the requested ones, and its rule keys exactly the requested keys |
| `Exact.CleanupClosed` | pkg/server/netfilterrules.go:2146-2179 | after a complete pass every jump target and every looked-up set of every rule in a managed table exists |
| `Exact.OthersUntouched` | pkg/server/netfilterrules.go:2152-2159 | at no commit of a pass does an unmanaged table differ from what it was |
| `Exact.DeliveredAlways` | pkg/server/netfilterrules.go:2094-2118 | a rule that was kept, added or re-added is in its chain at every commit of the pass: the cleanup never deletes it |
| `Exact.PassSet` | pkg/server/netfilterrules.go:737-787 | a requested set ends up updated in place if it existed, new if not |
| `Server.ApplyThenRemove` | pkg/controller/applier_linux.go:75-113 | after any run of passes and removals, each of them successful, failed after any commit, or rejected, and then a removal that got through, no managed table is left, unmanaged tables are neither created nor deleted, those that are not legacy are untouched, and legacy tables keep every foreign rule in order and every foreign chain and set |
| `Server.RemovedSpelled` | pkg/controller/applier_linux.go:75-113 | the same without a word on ownership: the two managed inet tables are gone, every table but the inet tables filter and nat is as it was, and those keep what `Legacy.CleanupSpelled` says |
| `Server.OutsideRun` | pkg/server/netfilterrules.go:247-344 | outside the managed tables any such run removes nothing but daemon-owned legacy objects |
| `Server.EventOutside` | pkg/server/server.go:95-204 | so does each single pass, cut short anywhere, and each removal |
| `Policies.DecisionIsDisjunction` | pkg/server/netfilterrules.go:1983-2025 | without excepts the decision list allows iff some policy on the packet's interface has a rule whose ports and peers both match |
| `Policies.OrderFree` | pkg/server/server.go:155-156 | without excepts the verdict depends only on which policies are in the list, and more policies never allow less |
| `Policies.RulesOrderFree` | pkg/server/netfilterrules.go:1995-2008 | without excepts the rules of a policy may be permuted |
| `Policies.PeersOrderFree` | pkg/server/netfilterrules.go:1699-1713 | without excepts the peers of a rule may be permuted |
| `Policies.ExceptOrderMatters` | pkg/server/netfilterrules.go:1356-1386 | with excepts order can matter: two policies and a packet whose verdict depends on which policy comes first |
| `Policies.OrderMattersExactly` | pkg/server/netfilterrules.go:1356-1386 | for any policies and packet, some order changes the verdict if and only if one policy allows what another denies |
| `States.RealizedVerdict` | pkg/server/server.go:158-194 | a filter table that realizes an input, with policies in any order of blocks and ports, common and except-free peers chains in any order of rules, gives every exactly represented packet the verdict of the decision list in block order and keeps foreign mark bits |
| `States.PolicyDecides` | pkg/server/netfilterrules.go:1995-2025 | a policy chain decides as the rules of its policy do in order, from every mark |
| `States.PolicyDecidesHeld` | pkg/server/netfilterrules.go:1995-2025 | whatever the order of its peers chains and the contents of its sets, a policy chain takes the first decision of its rules, each by its own two chains |
| `Results.RestArrives` | pkg/server/server.go:155-194 | after a pass ports, common and peers chains hold the wanted rules and all sets the wanted elements; together with a base chain, policy chains and except-carrying peers chains that are in order this is all of a direction but its entry chain |
| `Results.ServesExactly` | pkg/server/netfilterrules.go:737-787 | after a pass a requested set holds a value as the wanted set does if and only if the old elements, updated by key, do |
| `Meanings.PortsChainRight` | pkg/server/netfilterrules.go:1859-1967 | a ports chain, in any order of its rules, sets 0x10000 iff some entry's inclusive range holds (protocol, port) or no entry names a range, and changes nothing else, if and only if the encoding of the list is exact for the packet |
| `Meanings.PortsChainHeld` | pkg/server/netfilterrules.go:1859-1967 | whatever its sets hold, a ports chain sets 0x10000 iff the set of the packet's protocol holds its port or no entry names a range |
| `Meanings.SpacedExactly` | pkg/server/netfilterrules.go:1814-1857 | a ports list is exact for every packet iff no range of a protocol ends inside the union where no other range starts |
| `Meanings.PrefixesSpacedExactly` | pkg/server/netfilterrules.go:915-944 | and likewise a prefix list, for every address of a family |
| `Meanings.PeersChainInOrder` | pkg/server/netfilterrules.go:1674-1738 | a peers chain in compiled order sets 0x20000, drops or does nothing as the first peer that does not miss says; an except hit drops at once |
| `Meanings.PeersChainAnyOrder` | pkg/server/netfilterrules.go:1674-1738 | without excepts the same holds in any order of the rules |
| `Meanings.PeersChainInstalled` | pkg/server/netfilterrules.go:1674-1738 | a peers chain in whatever order its rules were installed, and whatever its sets hold: the first rule that does not miss decides |
| `Meanings.InstalledOrderRight` | pkg/server/netfilterrules.go:1674-1738 | that decision is the one of the peers, if the sets answer right and the chain is in compiled order or has no excepts |
| `Meanings.CommonChainRight` | pkg/server/netfilterrules.go:1077-1123 | a common chain, in any order, accepts iff ICMP settings, neighbour discovery, an allowed prefix or connection tracking say so |
| `Meanings.CommonChainHeld` | pkg/server/netfilterrules.go:1077-1123 | and whatever its sets hold, it accepts exactly by membership in them and by the ICMP and conntrack rules |
| `Walks.WalkQuad` | pkg/server/netfilterrules.go:1995-2008 | the four rules of a policy rule: allowed packets return with both bits set, excepted ones are dropped, others go on with the bits not both set; foreign bits are kept |
| `Walks.MarkedBits` | pkg/server/doc.go:57-62 | after reset, ports and peers both bits are set iff both chains matched; the other thirty bits are as before |
| `Walks.WalkBlocks` | pkg/server/server.go:158-175 | between the blocks of an entry chain the two bits are never both set; the first block that decides, decides |
| `Marks.OtherBits` | pkg/server/doc.go:57-62 | none of the daemon's mark operations touches the bits of other users |
| `Effects.ExecInterfaceFilter` | pkg/server/netfilterrules.go:515-537 | the interface filter jumps to the entry chain iff the packet's interface is in the set |
| `Effects.ExecIfaceJump` | pkg/server/netfilterrules.go:1165-1190 | an interface jump jumps to the policy chain iff the packet is on that interface |
| `Effects.ExecChecks` | pkg/server/netfilterrules.go:1192-1265 | both mark checks return iff both bits are set and leave the mark alone |
| `Effects.ExecReset` | pkg/server/netfilterrules.go:1218-1238 | the reset rule clears the two bits and goes on |
| `Effects.ExecJumps` | pkg/server/netfilterrules.go:1674-1697 | unconditional jumps and the final drop act on every packet |
| `Effects.ExecPorts` | pkg/server/netfilterrules.go:1768-1809 | a ports rule sets 0x10000 iff protocol and destination port match |
| `Effects.ExecAll` | pkg/server/netfilterrules.go:1715-1735 | the accept-all rules set their bit for every packet |
| `Effects.ExecExcept` | pkg/server/netfilterrules.go:1350-1388 | an except rule drops iff the other side is in the except set of the packet's family |
| `Effects.ExecBlock` | pkg/server/netfilterrules.go:1390-1443 | an IPBlock rule sets 0x20000 and returns iff the other side is in the set |
| `Effects.ExecSelector` | pkg/server/netfilterrules.go:1604-1642 | a selector rule sets 0x20000 and returns iff the other side is in the set |
| `Effects.ExecPrefix` | pkg/server/netfilterrules.go:968-1048 | a common prefix rule accepts iff the other side is in the set |
| `Effects.ExecIcmp` | pkg/server/netfilterrules.go:815-842 | accepts iff the protocol is ICMP, or ICMPv6 |
| `Effects.ExecNdp` | pkg/server/netfilterrules.go:872-910 | accepts iff the packet is an ICMPv6 neighbour discovery message |
| `Effects.ExecConntrack` | pkg/server/netfilterrules.go:1052-1075 | accepts iff the connection is related or established |
| `Effects.ExecNatFilter` | pkg/server/netfilterrules.go:560-582 | the rule of the nat table returns packets of pod interfaces and touches no others |
| `Effects.MatchRemoteBytes` | pkg/server/netfilterrules.go:1316-1349 | address families, byte offsets and lengths as they are sent |
| `Intervals.EncodingExact` | pkg/server/netfilterrules.go:1125-1144 | for every list of ranges below any top, the boundary set holds exactly the union of the ranges if and only if no range ends inside the union where no other range starts; ranges up to the top wrap their end to 0 |
| `Intervals.DisjointNoInnerEnd` | pkg/server/netfilterrules.go:1125-1144 | pairwise disjoint ranges, adjacent ones included, meet that condition |
| `Intervals.MarkerNeutral` | pkg/server/netfilterrules.go:924-940 | the leading zero end marker changes no membership |
| `Intervals.NestedOrDisjoint` | pkg/server/netfilterrules.go:1125-1130 | two prefixes of one family are nested or disjoint |
| `Intervals.ContainsIsRange` | pkg/server/netfilterrules.go:1125-1130 | the addresses that share the leading bits of a prefix are a range |
| `Intervals.PrefixSpan` | pkg/server/netfilterrules.go:1125-1144 | every valid prefix of n bits spans 2^(32 - n) addresses, or 2^(128 - n), from the multiple of that number at or below its address |
| `Intervals.ContainsIsQuotient` | pkg/server/netfilterrules.go:1125-1144 | and contains an address iff address and prefix have the same quotient by it |
| `Intervals.AddressCounts` | pkg/server/netfilterrules.go:1125-1144 | the two families have 4294967296 and 340282366920938463463374607431768211456 addresses |
| `Intervals.PrefixEncodingExact` | pkg/server/netfilterrules.go:915-944 | an address is in the encoded set of a prefix list iff some prefix of its family contains it, for all addresses exactly when no prefix ends inside the union where no other starts |
| `Intervals.GetPrefixesAsSetInterval` | pkg/server/netfilterrules.go:915-944 | the loop fails iff some CIDR does not parse, and otherwise yields the two families' boundaries, marker included |
| `NftState.ValidatePortSpec` | pkg/server/netfilterrules.go:1814-1857 | rejects exactly the entries whose port is not a number in 1..65535 or whose range ends above 65535; otherwise the two boundaries of the inclusive range, the end wrapping to 0 after 65535; no port, no elements |
| `NftState.Filled` | pkg/server/netfilterrules.go:1889-1893 | an entry with a protocol alone means ports 1..65535; nothing else changes |
| `NftState.CollectPorts` | pkg/server/netfilterrules.go:1885-1914 | the loop fails iff some entry is rejected, and otherwise collects each protocol's ranges in order |
| `Elements.FindNonCommon` | pkg/server/netfilterrules.go:795-803 | exactly the elements whose key is missing on the other side, for all duplicates and orders |
| `Elements.ProcessElements` | pkg/server/netfilterrules.go:789-793 | what to add and what to delete, by key |
| `Elements.KeysConverge` | pkg/server/netfilterrules.go:737-787 | after the update the keys of the set are exactly the wanted keys |
| `Elements.UpdateExact` | pkg/server/netfilterrules.go:737-787 | the elements, interval flags included, are exactly the wanted ones if and only if keys on both sides carry the same flags |
| `Elements.AdjacentRangeLost` | pkg/server/netfilterrules.go:805-813 | a concrete update that loses port 81: flags take no part in the comparison |
| `Elements.DroppedRangeOpens` | pkg/server/netfilterrules.go:789-813 | the reverse update opens every port above 81, which neither list names: the end at 82 is deleted and the start at 81 stays |
| `Elements.NothingMissing` | pkg/server/netfilterrules.go:789-793 | a second update has nothing to add or delete |
| `Identity.RuleEqualReflexive` | pkg/server/netfilterrules.go:665-720 | a rule equals itself iff all its expressions are of known types |
| `Identity.RuleEqualSymmetric` | pkg/server/netfilterrules.go:665-735 | symmetric |
| `Identity.RuleEqualTransitive` | pkg/server/netfilterrules.go:665-735 | transitive |
| `Identity.RuleEqualIsStripEqual` | pkg/server/netfilterrules.go:665-720 | within a table, rules are equal iff their expressions are known and they agree once counters are zeroed |
| `Identity.RuleEqualSameKey` | pkg/server/encoder.go:45-93 | equal rules have equal keys iff their tables are of one family (names alone are compared) |
| `Identity.CounterSwap` | pkg/server/netfilterrules.go:628-650 | the counter swap of a forced update changes neither identity nor key |
| `Identity.CounterKept` | pkg/server/netfilterrules.go:628-650 | the count of the replaced rule is kept: its first counter stands in place of the first counter of the new rule, and nothing else changes |
| `Identity.SameKeySameEffect` | pkg/server/encoder.go:53-63 | rules of known expressions with one key do the same to every packet |
| `Identity.NewRuleData` | pkg/server/encoder.go:45-68 | the loop keeps every expression of a hashed type, in order |
| `NftState.SwapCounter` | pkg/server/netfilterrules.go:632-647 | the nested loops put the first counter of the old rule in place of the first counter of the new one, and change nothing if either has none |
| `Kernel.Conn.Queue` | pkg/server/netfilterrules.go:645-655 | queues behind what is queued; the committed ruleset is unchanged |
| `Kernel.Conn.Flush` | pkg/server/server.go:195-197 | commits the batch in order and as a whole, or not at all |
| `NftState.State.constructor` | pkg/server/netfilterrules.go:466-475 | starts with nothing requested, queued or tracked |
| `NftState.State.FindRule` | pkg/server/netfilterrules.go:1740-1753 | the first rule of the committed chain that is equal, if any |
| `NftState.State.UpdateRule` | pkg/server/netfilterrules.go:616-663 | queues nothing for an installed rule, delete and re-add for a forced one, an add or insert for a new one; reports whether it was new; queue and tracked keys stay exactly those of the requests so far |
| `NftState.State.AddTable` | pkg/server/netfilterrules.go:205-216 | queues the table iff it is not committed |
| `NftState.State.AddChain` | pkg/server/netfilterrules.go:2029-2051 | queues the chain iff it is not committed, and tracks it |
| `NftState.State.UpdateSet` | pkg/server/netfilterrules.go:737-787 | queues the differing elements of an existing set, listed in any order, or the new set, and tracks it |
| `NftState.State.ApplyPolicyPortsRules` | pkg/server/netfilterrules.go:1859-1967 | fails iff an entry is rejected, otherwise requests the ports chain, its jump, and a set and rule per protocol or the accept-all rule |
| `NftState.State.ApplyPrefixes` | pkg/server/netfilterrules.go:1314-1447 | requests except set and rule before block set and rule, and nothing for a family without prefixes |
| `NftState.State.ApplyIPBlock` | pkg/server/netfilterrules.go:1449-1468 | fails iff the CIDR or an except does not parse; only the family of the CIDR asks for anything |
| `NftState.State.AddIPRule` | pkg/server/netfilterrules.go:1550-1645 | a set with every address of the family and its rule, or nothing |
| `NftState.State.ApplySelector` | pkg/server/netfilterrules.go:1470-1548 | fails iff a selector is invalid, otherwise requests exactly the peer's addresses, by family |
| `NftState.State.ApplyPolicyPeersRules` | pkg/server/netfilterrules.go:1674-1738 | fails iff some peer is rejected, otherwise requests the peers in order, or the accept-all rule |
| `NftState.State.ApplyInterfaces` | pkg/server/netfilterrules.go:1982-1993 | a jump per pod interface on the policy networks; reports whether one was not installed |
| `NftState.State.ApplyPodRules` | pkg/server/netfilterrules.go:1969-2027 | fails iff some rule is rejected, otherwise requests chain, jumps and rules in order |
| `NftState.State.ApplyDirection` | pkg/server/server.go:158-194 | policies in order, each with its mark check, then the drop, forced iff some jump was new; nothing at all without policies |
| `NftState.State.Bootstrap` | pkg/server/netfilterrules.go:441-614 | tables, chains, the two interface sets and the rules at the front |
| `NftState.State.ApplyCommonPrefixes` | pkg/server/netfilterrules.go:946-1050 | fails iff a prefix does not parse, otherwise a set and rule per family with prefixes |
| `NftState.State.ApplyCommonChainRules` | pkg/server/netfilterrules.go:1077-1123 | fails iff a configured prefix does not parse, otherwise requests the common rules |
| `NftState.State.Compile` | pkg/server/server.go:95-194 | succeeds iff the input is accepted, and has then made exactly the requests of the pass |
| `NftState.State.CleanupRules` | pkg/server/netfilterrules.go:2079-2144 | with chains and sets listed in any order: exactly the untracked rules and untracked named sets of the table go, the rest keeps its order; fails iff the flush does, changing nothing |
| `NftState.State.CleanupChains` | pkg/server/netfilterrules.go:2146-2179 | with chains of all tables listed in any order: exactly the untracked empty chains of the managed tables go |
| `NftState.State.Cleanup` | pkg/server/netfilterrules.go:2057-2077 | filter rules, nat rules, chains, in that order, up to the first failure; tracking is reset in any case |
| `Server.RunPass` | pkg/server/server.go:148-203 | succeeds iff the input is accepted and no batch is rejected; commits the stages in order and none of them for a rejected input |
| `Server.ApplyPolicyRules` | pkg/server/server.go:95-204 | the whole pass on the policy map: nothing happens for a pod without interfaces; legacy tables first; the selected policies are compiled; success iff accepted and nothing rejected by the kernel; outside the managed tables only daemon-owned legacy objects go, also on failure |
| `Server.FlushRulesForPod` | pkg/controller/applier_linux.go:75-113 | managed tables are deleted together or not at all, also when the legacy cleanup failed; success iff no batch was rejected |
| `Server.StageOutside` | pkg/server/server.go:195-201 | no stage of a pass touches an unmanaged table |
| `Legacy.CleanupSafe` | pkg/server/netfilterrules.go:250-344 | for every table and every listing order: all rules not owned by the daemon stay, in order; a chain goes only if it is the daemon's, is left empty and nothing refers to it; only daemon sets go; no jump is left dangling if none was before |
| `Legacy.CleanupSpelled` | pkg/server/netfilterrules.go:205-384 | the same without a word on ownership, for every table and listing: of a base chain exactly the rules other than interface filters are left, of an entry or common chain exactly those without a comment or with a text that starts with none of the three prefixes, in order; all other chains are unchanged; only entry and common chains go, and only if nothing is left; only sets named pod_interfaces with one of the two comments go; no target of a remaining jump or goto goes |
| `Legacy.BothCleaned` | pkg/server/netfilterrules.go:250-263 | the cleaned tables are the inet tables filter and nat |
| `Legacy.CleanupComplete` | pkg/server/netfilterrules.go:355-384 | no rule owned by the daemon is left in any listing order |
| `Legacy.OneRunDependsOnOrder` | pkg/server/netfilterrules.go:299-317 | one run may not be enough: a chain listed before the daemon chain that jumps to it survives, listed after it goes |
| `Legacy.OneRunSettles` | pkg/server/netfilterrules.go:299-323 | for every table and listing, one run settles the table for good if and only if no daemon chain without foreign rules and foreign references is listed before a daemon chain whose daemon rule refers to it |
| `Legacy.TwoRunsSettle` | pkg/server/netfilterrules.go:250-344 | two runs are: the second removes exactly the empty unreferenced daemon chains whatever the order, and further runs change nothing |
| `Legacy.CleanupLegacyTables` | pkg/server/netfilterrules.go:250-344 | cleans every legacy inet table, with a listing in any order, and no other table; fails iff a flush does, and has then still removed only daemon-owned objects |
| `Legacy.CleanupLegacyTable` | pkg/server/netfilterrules.go:265-342 | one table: base chains, daemon chains, sets |
| `Legacy.CleanDaemonChain` | pkg/server/netfilterrules.go:299-323 | checks that read the committed ruleset while chain deletions wait in the batch decide as if the batch were applied |
| `Legacy.PurgeChain` | pkg/server/netfilterrules.go:355-384 | exactly the daemon's rules of the chain go; a flush also commits the waiting chain deletions |
| `Legacy.LegacyChainReferenced` | pkg/server/netfilterrules.go:406-426 | true iff some rule of the table jumps or goes to the chain |
| `Legacy.RuleReferencesChain` | pkg/server/netfilterrules.go:428-439 | true iff some verdict of the rule is a jump or goto to the chain |
| `Selectors.CollectIps` | pkg/server/netfilterrules.go:1502-1543 | as a set, for every order of map iteration, the list holds an address iff the pod and some picked pod are on the policy networks and it is an address there of the pod or of a picked pod; picked means that labels match a given pod selector, the namespace is known and matches a given namespace selector, and the interfaces are known |
| `Compile.SelectorAddrsMeaning` | pkg/server/netfilterrules.go:1502-1543 | the set the compiler asks for, member by member |
| `Spelled.PickedSame` | pkg/server/netfilterrules.go:1502-1543 | membership in it, spelled out on selectors, labels, namespaces and interfaces |
| `Selectors.SplitFamilies` | pkg/server/netfilterrules.go:1647-1661 | the v4/v6 split is a partition of the list, repetitions included |
| `Selection.SelectPolicies` | pkg/server/server.go:109-156 | for every order of the policy map, each list holds exactly the policies of the pod's namespace whose selector, if any, is valid and matches, that name one of its networks, and that restrict the direction: by a type spelled ingress or egress in any case, or without types by having such rules; with their own ingress and egress rules; once each, by ascending name |
| `Selection.SelectionDeterministic` | pkg/server/server.go:89-156 | two such lists are the same sequence |
| `Selection.SelectionFits` | pkg/server/server.go:135-146 | selected policies have distinct names and at least one interface of the pod |
| `Selection.GetEnabledPolicyTypes` | pkg/server/server.go:220-234 | with types given, ingress iff some entry is one of the seven letters i n g r e s s in either case (or long s), egress iff some entry is such a spelling of the six letters of egress; without types, by which rules are given |
| `Selection.ParseNetworks` | pkg/server/server.go:131-138 | the names between commas without spaces, qualified by the namespace unless they are, sorted |
| `Selection.NetworksSpelled` | pkg/server/server.go:131-138 | exactly the texts between commas of the annotation without spaces, behind namespace and slash unless they have a slash, ascending character by character |
| `Selection.SortPolicies` | pkg/server/server.go:155-156 | a permutation in name order |
| `Texts.SortedAscending` | pkg/server/server.go:138 | the networks of a policy end up in ascending order |
| `Texts.SplitJoin` | pkg/server/server.go:131-132 | splitting at commas loses nothing and leaves no comma in a part |
| `Texts.SplitMembers` | pkg/server/server.go:131-132 | the parts are exactly the texts between two neighbouring separators or ends |
| `Texts.SpacesGone` | pkg/server/server.go:131 | spaces go, everything else stays in order |
| `Texts.AtMostIsBefore` | pkg/server/server.go:138 | the order used for sorting: cut short, or the smaller character at the first difference |
| `Policies.OnNetworksMembers` | pkg/controllers/pod.go:70-77 | an interface is a target iff its network is among the policy networks |
| `Naming.Truncated` | pkg/server/netfilterrules.go:102-124 | never longer than allowed, clean characters only, unchanged if it fits, otherwise a prefix with a hash |
| `Naming.CutName` | pkg/server/netfilterrules.go:102-124 | a name that is cut ends in a dash and the hash of the whole name, or is the hash, cut if need be |
| `Naming.SanitizedChars` | pkg/server/netfilterrules.go:94-100 | letters, digits, underscore, dash and dot stay, everything else becomes an underscore |
| `Naming.WithSuffix` | pkg/server/netfilterrules.go:126-137 | at most 255 characters, and separator and suffix are kept whenever they fit |
| `Naming.NamesFit` | pkg/server/netfilterrules.go:1971-1972 | every chain name has at most 255 characters, and a ports or peers chain keeps kind and index however much of the policy name is cut |
| `Naming.FixedSpelled` | pkg/server/netfilterrules.go:139-203 | the names of the seven fixed chains, written out |
| `Naming.PolicySpelled` | pkg/server/netfilterrules.go:1971-1972 | the uncut names of policy, ports and peers chains, written out |
| `Naming.DecimalValue` | pkg/server/netfilterrules.go:1859-1862 | the index at the end of a name reads back as the index |
| `Naming.PolicyNamesCollide` | pkg/server/netfilterrules.go:1676-1676 | within a namespace, uncut names of policy, ports and peers chains are equal iff the chains are, or a policy is named like another's ports or peers chain |
| `Naming.FixedNames` | pkg/server/netfilterrules.go:139-203 | the fixed chains share a name with no other chain, whether names are cut or not |
| `Naming.NamesAreNotHashes` | pkg/server/netfilterrules.go:2029-2037 | no name can be taken for a hash, cut or not |
| `Naming.ChainNamesDoNotCollide` | pkg/server/netfilterrules.go:2029-2037 | so, if the hash keeps two names apart, kernel names of fixed chains are shared with no chain, and those of uncut policy, ports and peers chains of one namespace are equal iff the chains are or clash in that way |
| `Naming.NamespacesCollide` | pkg/server/netfilterrules.go:85-90 | across namespaces two policies can share a chain name |
| `Naming.DirectionReadable` | pkg/server/netfilterrules.go:1285-1287 | a policy chain's name tells its direction, cut or not |
| `Naming.RuleDirectionReadable` | pkg/server/netfilterrules.go:1285-1287 | and so does the name of a ports or peers chain |

## Left out

- Netlink encoding, network namespaces and file descriptors; listing errors other than rejected batches.
- Kernel-side rejections with reasons of their own (constant bound sets, overlapping intervals, busy sets, overlong set names): a batch is accepted or rejected as a whole, for reasons unknown.
- Set attributes without influence on matching: counters, the constant flag, key types, element comments and the comment of ports sets.
- The in-place sort of the pod's interfaces by name: interfaces enter as a list, and every result holds for every order of it.
- Parsing of addresses, prefixes and pod annotations: addresses and prefixes enter parsed or marked malformed; a malformed interface address of a peer, which the daemon rejects, cannot occur.
- IPv4-mapped IPv6 addresses, for which the family split and the element encoding of the daemon disagree.
- Interface names longer than 15 bytes, which the daemon cuts when it compares them.
- Label selector matching: an uninterpreted relation of the cluster view.
- Case folding beyond the letters of the two policy type names.
- Names of sets as strings: only chain names are rendered; `getSetName` and the hashing of set names over 31 characters are covered by the injectivity assumption.
- Watches, controllers, health server, options, logging: plumbing without rules of its own.
- Histories.IncrementalEqualsFresh: does not cover inputs with excepts, because then the order in which policies were installed matters, a changed interval flag of a key in both forms of a set, because the update does not notice it, or an interface gained by a surviving policy, because its jump is appended behind its own check; Lasting.RunVerdict gives the verdict in all these cases and Lasting.RunSafe what stays safe.
- Server.ServedRight: has the same limits as Histories.IncrementalEqualsFresh; Server.ServedExactly has none of them, Server.ServedSafely only the one on sets, packet by packet.
- Excepts.VerdictInBlockOrder: does not cover a peers chain with excepts that a pass leaves out of order, as it may when peers of a surviving rule change or selected addresses come and go; Lasting.RunVerdict does.
- Correct.CompilerCorrect: speaks of packets that the encodings represent exactly, because others are served by the encoding and not by the list; Soundness.InstalledVerdict covers them.
- Naming.ChainNamesDoNotCollide: speaks of two chains of policies only if their names are of clean characters and fit in 255, because cut names are told apart by the hash alone.
- Naming.PolicyNamesCollide: has the same limit.
