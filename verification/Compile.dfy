/** The compiler: the rules, sets and chains that a pass requests, in order. */
module Compile {
  import opened Ids
  import opened Marks
  import opened Machine
  import opened Intervals
  import opened Policies
  import opened Reconcile

  // ------------------------------------------------------- rule fragments

  function IfKey(d: Dir): MetaKey {
    if d.Ingress? then IifName else OifName
  }

  /** nfproto and the address of the other side looked up in a set. */
  function MatchRemote(d: Dir, v6: bool, s: SetId): seq<Expr> {
    [Meta(NfProto, false), Cmp(true, Num(if v6 then NFPROTO_IPV6 else NFPROTO_IPV4))] +
    [Payload(NetworkHeader, RemoteOffset(d, v6), if v6 then 16 else 4), Lookup(s)]
  }

  /** Source addresses start at byte 12 (IPv4) or 8 (IPv6), destinations follow. */
  function RemoteOffset(d: Dir, v6: bool): nat {
    (if v6 then 8 else 12) + if d.Ingress? then 0 else if v6 then 16 else 4
  }

  function MarkWith(mask: Mark, xor: Mark): seq<Expr> {
    [Meta(MarkKey, false), Bitwise(mask, xor), Meta(MarkKey, true)]
  }

  const MARK_PORT: seq<Expr> := MarkWith(0xfffeffff, 0x10000)
  const MARK_PEER: seq<Expr> := MarkWith(0xfffdffff, 0x20000)
  const MARK_RESET: seq<Expr> := MarkWith(0xfffcffff, 0)
  const MARK_CHECK: seq<Expr> := [Meta(MarkKey, false), Bitwise(0x30000, 0), Cmp(true, Word(0x30000))]

  const COUNT: seq<Expr> := [Counter(0)]

  function Then(v: Verdict): seq<Expr> {
    [Counter(0), Verdict(v)]
  }

  function FilterRule(c: ChainId, note: Comment, es: seq<Expr>): Rule {
    Rule(FILTER, c, note, es)
  }

  // ----------------------------------------------------------------- rules

  function InterfaceFilter(d: Dir): Rule {
    FilterRule(BaseChain(HookOf(d)), InterfaceFilterNote(HookOf(d)),
               [Meta(IfKey(d), false), Lookup(PodInterfaces)] + Then(Jump(EntryChain(d))))
  }

  const NAT_FILTER: Rule :=
    Rule(NAT, BaseChain(PreroutingHook), InterfaceFilterNote(PreroutingHook),
         [Meta(IifName, false), Lookup(PodInterfaces)] + Then(Return))

  function CommonJump(d: Dir): Rule {
    FilterRule(EntryChain(d), CommonJumpNote(d), Then(Jump(CommonChain(d))))
  }

  function Icmp(d: Dir, v6: bool): Rule {
    FilterRule(CommonChain(d), IcmpNote(v6),
               [Meta(L4Proto, false), Cmp(true, Num(if v6 then ICMPV6 else ICMP))] + Then(Accept))
  }

  function Ndp(d: Dir): Rule {
    FilterRule(CommonChain(d), NdpNote,
               [Meta(NfProto, false), Cmp(true, Num(NFPROTO_IPV6))] +
               [Meta(L4Proto, false), Cmp(true, Num(ICMPV6))] +
               [Payload(TransportHeader, 0, 1), Lookup(NdpTypes)] + Then(Accept))
  }

  function CommonPrefix(d: Dir, v6: bool): Rule {
    FilterRule(CommonChain(d), PrefixNote(CommonSet(d, v6)), MatchRemote(d, v6, CommonSet(d, v6)) + Then(Accept))
  }

  function ConntrackRule(d: Dir): Rule {
    FilterRule(CommonChain(d), ConntrackNote,
               [CtState, Bitwise(6, 0), Cmp(false, Word(0))] + Then(Accept))
  }

  function IfaceJump(d: Dir, k: PolicyKey, i: Iface): Rule {
    FilterRule(EntryChain(d), InterfaceJumpNote(d, k, i.netattach, i.name, i.cni),
               [Meta(IfKey(d), false), Cmp(true, Name(i.name))] + Then(Jump(PolicyChain(d, k))))
  }

  function PolicyMark(d: Dir, k: PolicyKey): Rule {
    FilterRule(EntryChain(d), PolicyMarkNote(k), MARK_CHECK + Then(Return))
  }

  function DropRest(d: Dir): Rule {
    FilterRule(EntryChain(d), DropNote, Then(Drop))
  }

  function ResetRule(d: Dir, k: PolicyKey, n: nat): Rule {
    FilterRule(PolicyChain(d, k), ResetNote(d, k, n), MARK_RESET + COUNT)
  }

  function JumpRule(d: Dir, k: PolicyKey, target: ChainId): Rule {
    FilterRule(PolicyChain(d, k), JumpNote(k, target), Then(Jump(target)))
  }

  function ReturnRule(d: Dir, k: PolicyKey, n: nat): Rule {
    FilterRule(PolicyChain(d, k), ReturnNote(d, k, n), MARK_CHECK + Then(Return))
  }

  function PortsRule(d: Dir, k: PolicyKey, n: nat, proto: Proto): Rule {
    var s := PortsSet(d, k, n, proto);
    FilterRule(PortsChain(d, k, n), PortsNote(s),
               [Meta(L4Proto, false), Cmp(true, Num(L4Number(proto)))] +
               [Payload(TransportHeader, 2, 2), Lookup(s)] + COUNT + MARK_PORT)
  }

  function AllPorts(d: Dir, k: PolicyKey, n: nat): Rule {
    FilterRule(PortsChain(d, k, n), AcceptAllNote(PortsChain(d, k, n)), COUNT + MARK_PORT)
  }

  function AllPeers(d: Dir, k: PolicyKey, n: nat): Rule {
    FilterRule(PeersChain(d, k, n), AcceptAllNote(PeersChain(d, k, n)), COUNT + MARK_PEER)
  }

  function ExceptRule(d: Dir, k: PolicyKey, n: nat, j: nat, cidr: Prefix): Rule {
    FilterRule(PeersChain(d, k, n), CidrNote(d, k, n, cidr, false),
               MatchRemote(d, cidr.v6, ExceptSet(d, k, n, j, cidr.v6)) + Then(Drop))
  }

  function BlockRule(d: Dir, k: PolicyKey, n: nat, j: nat, cidr: Prefix): Rule {
    FilterRule(PeersChain(d, k, n), CidrNote(d, k, n, cidr, true),
               MatchRemote(d, cidr.v6, BlockSet(d, k, n, j, cidr.v6)) + MARK_PEER + Then(Return))
  }

  function SelectorText(peer: PeerSpec): string {
    if peer.pods.Some? then peer.pods.value.text else "<all>"
  }

  function SelectorRule(d: Dir, k: PolicyKey, n: nat, j: nat, v6: bool, text: string): Rule {
    FilterRule(PeersChain(d, k, n), SelectorNote(d, k, n, text, v6),
               MatchRemote(d, v6, SelectorSet(d, k, n, j, v6, text)) + MARK_PEER + Then(Return))
  }

  /** Peers with different pod selectors look up different sets, a peer without one
      that of the text "<all>". */
  lemma SelectorSetsDiffer(d: Dir, k: PolicyKey, n: nat, j: nat, v6: bool, a: PeerSpec, b: PeerSpec)
    requires a.pods.Some? && b.pods.Some? && a.pods.value.text != b.pods.value.text
    ensures SelectorSet(d, k, n, j, v6, SelectorText(a)) != SelectorSet(d, k, n, j, v6, SelectorText(b))
    ensures SelectorText(a.(pods := None)) == "<all>"
  {
  }

  // -------------------------------------------------------------- requests

  function Add(r: Rule): Req { RuleReq(r, false, false) }
  function Insert(r: Rule): Req { RuleReq(r, true, false) }

  function WantSet(s: SetId, interval: bool, elems: set<Elem>): Req {
    SetReq(FILTER, s, SetObj(interval, false, "", elems))
  }

  function IfaceElems(ifs: seq<Iface>): set<Elem> {
    set i | i in ifs :: Elem(Name(i.name), false)
  }

  const BOOT_CHAINS: seq<Req> := [
    TableReq(FILTER), TableReq(NAT),
    ChainReq(FILTER, BaseChain(InputHook)), ChainReq(FILTER, BaseChain(OutputHook)),
    ChainReq(NAT, BaseChain(PreroutingHook)),
    ChainReq(FILTER, EntryChain(Ingress)), ChainReq(FILTER, EntryChain(Egress)),
    ChainReq(FILTER, CommonChain(Ingress)), ChainReq(FILTER, CommonChain(Egress))]

  function BootRules(ifs: seq<Iface>): seq<Req> {
    [SetReq(FILTER, PodInterfaces, SetObj(false, false, "Pod interfaces", IfaceElems(ifs))),
     Insert(InterfaceFilter(Ingress)), Insert(InterfaceFilter(Egress)),
     SetReq(NAT, PodInterfaces, SetObj(false, false, "Pod interfaces NAT", IfaceElems(ifs))),
     Insert(NAT_FILTER), Insert(CommonJump(Ingress)), Insert(CommonJump(Egress))]
  }

  /** bootstrapNetfilterRules */
  function BootReqs(ifs: seq<Iface>): seq<Req> {
    BOOT_CHAINS + BootRules(ifs)
  }

  const NDP_ELEMS: set<Elem> :=
    {Elem(Num(133), false), Elem(Num(134), false), Elem(Num(135), false), Elem(Num(136), false)}

  function NdpReqs(d: Dir): seq<Req> {
    [WantSet(NdpTypes, false, NDP_ELEMS), Insert(Ndp(d))]
  }

  function PrefixFamilyReqs(d: Dir, ps: seq<Prefix>, v6: bool): seq<Req> {
    if PrefixElems(ps, v6) == [] then []
    else [WantSet(CommonSet(d, v6), true, Elems(PrefixElems(ps, v6))), Add(CommonPrefix(d, v6))]
  }

  function PrefixReqs(d: Dir, ps: seq<Prefix>): seq<Req> {
    PrefixFamilyReqs(d, ps, false) + PrefixFamilyReqs(d, ps, true)
  }

  /** applyCommonChainRules */
  function CommonReqs(cfg: Config): seq<Req>
    requires ConfigOk(cfg)
  {
    (if cfg.icmp6 then [Add(Icmp(Ingress, true)), Add(Icmp(Egress, true))] else NdpReqs(Ingress) + NdpReqs(Egress)) +
    (if cfg.icmp then [Add(Icmp(Ingress, false)), Add(Icmp(Egress, false))] else []) +
    PrefixReqs(Ingress, Prefixes(cfg.src)) + PrefixReqs(Egress, Prefixes(cfg.dst)) +
    [Add(ConntrackRule(Ingress)), Add(ConntrackRule(Egress))]
  }

  function ProtoReqs(d: Dir, k: PolicyKey, n: nat, ports: seq<PortSpec>, proto: Proto): seq<Req>
    requires PortsOk(ports)
  {
    if ProtoRanges(ports, proto) == [] then []
    else [WantSet(PortsSet(d, k, n, proto), true, Elems(Encode(ProtoRanges(ports, proto), MAX_PORT + 1))),
          Add(PortsRule(d, k, n, proto))]
  }

  predicate NoRanges(ports: seq<PortSpec>)
    requires PortsOk(ports)
  {
    ProtoRanges(ports, TCP) == [] && ProtoRanges(ports, UDP) == [] && ProtoRanges(ports, SCTP) == []
  }

  /** What applyPolicyPortsRules puts into the ports chain. */
  function PortsBody(d: Dir, k: PolicyKey, n: nat, ports: seq<PortSpec>): seq<Req>
    requires PortsOk(ports)
  {
    ProtoReqs(d, k, n, ports, TCP) + ProtoReqs(d, k, n, ports, UDP) + ProtoReqs(d, k, n, ports, SCTP) +
    if NoRanges(ports) then [Add(AllPorts(d, k, n))] else []
  }

  function PortsReqs(d: Dir, k: PolicyKey, n: nat, ports: seq<PortSpec>): seq<Req>
    requires PortsOk(ports)
  {
    [ChainReq(FILTER, PortsChain(d, k, n)), Add(JumpRule(d, k, PortsChain(d, k, n)))] + PortsBody(d, k, n, ports)
  }

  /** applyPrefixes for the family of the CIDR; the other family has no elements. */
  function BlockReqs(d: Dir, k: PolicyKey, n: nat, j: nat, b: IPBlock): seq<Req>
    requires b.cidr.Parsed? && AllParsed(b.except)
  {
    var cidr, v6 := b.cidr.prefix, b.cidr.prefix.v6;
    var except := PrefixElems(Prefixes(b.except), v6);
    (if except == [] then []
     else [WantSet(ExceptSet(d, k, n, j, v6), true, Elems(except)), Add(ExceptRule(d, k, n, j, cidr))]) +
    [WantSet(BlockSet(d, k, n, j, v6), true, Elems(PrefixElems([cidr], v6))), Add(BlockRule(d, k, n, j, cidr))]
  }

  /** The set elements for the addresses of one family. */
  function FamilyElems(addrs: set<Addr>, v6: bool): set<Elem> {
    set a | a in addrs && a.v6 == v6 :: Elem(Num(a.value), false)
  }

  /** addIPRule for one family. */
  function FamilyReqs(d: Dir, k: PolicyKey, n: nat, j: nat, v6: bool, text: string, addrs: set<Addr>): seq<Req> {
    var elems := FamilyElems(addrs, v6);
    if elems == {} then []
    else [WantSet(SelectorSet(d, k, n, j, v6, text), false, elems), Add(SelectorRule(d, k, n, j, v6, text))]
  }

  function PeerReqs(inp: Input, nets: seq<string>, d: Dir, k: PolicyKey, n: nat, j: nat, peer: PeerSpec): seq<Req>
    requires PeerOk(peer)
  {
    if peer.block.Some? then BlockReqs(d, k, n, j, peer.block.value)
    else
      var addrs := SelectorAddrs(inp.view, inp.ifs, nets, peer);
      FamilyReqs(d, k, n, j, false, SelectorText(peer), addrs) + FamilyReqs(d, k, n, j, true, SelectorText(peer), addrs)
  }

  function PeerListReqs(inp: Input, nets: seq<string>, d: Dir, k: PolicyKey, n: nat, peers: seq<PeerSpec>): seq<Req>
    requires PeersOk(peers)
  {
    if peers == [] then [] else
    var j := |peers| - 1;
    PeerListReqs(inp, nets, d, k, n, peers[..j]) + PeerReqs(inp, nets, d, k, n, j, peers[j])
  }

  /** What applyPolicyPeersRules puts into the peers chain. */
  function PeersBody(inp: Input, nets: seq<string>, d: Dir, k: PolicyKey, n: nat, peers: seq<PeerSpec>): seq<Req>
    requires PeersOk(peers)
  {
    PeerListReqs(inp, nets, d, k, n, peers) + if peers == [] then [Add(AllPeers(d, k, n))] else []
  }

  function PeersReqs(inp: Input, nets: seq<string>, d: Dir, k: PolicyKey, n: nat, peers: seq<PeerSpec>): seq<Req>
    requires PeersOk(peers)
  {
    [ChainReq(FILTER, PeersChain(d, k, n)), Add(JumpRule(d, k, PeersChain(d, k, n)))] +
    PeersBody(inp, nets, d, k, n, peers)
  }

  function RuleReqs(inp: Input, p: PolicySpec, d: Dir, n: nat, r: RuleSpec): seq<Req>
    requires RuleOk(r)
  {
    [Add(ResetRule(d, p.key, n))] + PortsReqs(d, p.key, n, r.ports) +
    PeersReqs(inp, p.nets, d, p.key, n, r.peers) + [Add(ReturnRule(d, p.key, n))]
  }

  function RuleListReqs(inp: Input, p: PolicySpec, d: Dir, rs: seq<RuleSpec>): seq<Req>
    requires RulesOk(rs)
  {
    if rs == [] then [] else
    var n := |rs| - 1;
    RuleListReqs(inp, p, d, rs[..n]) + RuleReqs(inp, p, d, n, rs[n])
  }

  function IfaceReqs(d: Dir, k: PolicyKey, ifs: seq<Iface>): seq<Req> {
    if ifs == [] then []
    else IfaceReqs(d, k, ifs[..|ifs| - 1]) + [Add(IfaceJump(d, k, ifs[|ifs| - 1]))]
  }

  /** applyPodRules followed by applyGeneralMarkCheck. */
  function PolicyReqs(inp: Input, p: PolicySpec, d: Dir): seq<Req>
    requires RulesOk(RulesFor(p, d))
  {
    [ChainReq(FILTER, PolicyChain(d, p.key))] + IfaceReqs(d, p.key, OnNetworks(inp.ifs, p.nets)) +
    RuleListReqs(inp, p, d, RulesFor(p, d)) + [Add(PolicyMark(d, p.key))]
  }

  function PolicyListReqs(inp: Input, ps: seq<PolicySpec>, d: Dir): seq<Req>
    requires PoliciesOk(ps, d)
  {
    if ps == [] then [] else
    var n := |ps| - 1;
    PolicyListReqs(inp, ps[..n], d) + PolicyReqs(inp, ps[n], d)
  }

  function DirReqs(inp: Input, d: Dir, force: bool): seq<Req>
    requires PoliciesOk(PoliciesFor(inp, d), d)
  {
    if PoliciesFor(inp, d) == [] then []
    else PolicyListReqs(inp, PoliciesFor(inp, d), d) + [RuleReq(DropRest(d), false, force)]
  }

  /** All requests of a pass; force says whether drop-remaining is re-added. */
  function PassReqs(inp: Input, forceIn: bool, forceOut: bool): seq<Req>
    requires InputOk(inp)
  {
    BootReqs(inp.ifs) + CommonReqs(inp.cfg) + DirReqs(inp, Ingress, forceIn) + DirReqs(inp, Egress, forceOut)
  }

  // ------------------------------------------------------ selector addresses

  function IpsOn(ifs: seq<Iface>, nets: seq<string>): set<Addr> {
    set i, a | i in ifs && OnNetwork(i, nets) && a in i.ips :: a
  }

  function PodIps(v: View, nets: seq<string>, peer: PeerSpec): set<Addr> {
    set pod, a | pod in v.pods && Selects(v, peer, pod) && a in IpsOn(pod.info.value, nets) :: a
  }

  predicate AnyPeerOn(v: View, nets: seq<string>, peer: PeerSpec) {
    exists pod :: pod in v.pods && Selects(v, peer, pod) && AnyOn(pod.info.value, nets)
  }

  function SelectorAddrs(v: View, ifs: seq<Iface>, nets: seq<string>, peer: PeerSpec): set<Addr> {
    if AnyOn(ifs, nets) && AnyPeerOn(v, nets, peer) then IpsOn(ifs, nets) + PodIps(v, nets, peer) else {}
  }

  lemma OnIsOn(ifs: seq<Iface>, nets: seq<string>)
    ensures forall a :: a in IpsOn(ifs, nets) <==> HasIp(ifs, nets, a)
  {
    forall a ensures a in IpsOn(ifs, nets) <==> HasIp(ifs, nets, a) {
      if a in IpsOn(ifs, nets) {
        var i :| i in ifs && OnNetwork(i, nets) && a in i.ips;
        var k :| 0 <= k < |ifs| && ifs[k] == i;
      }
      if HasIp(ifs, nets, a) {
        var k :| 0 <= k < |ifs| && OnNetwork(ifs[k], nets) && a in ifs[k].ips;
        assert ifs[k] in ifs;
      }
    }
  }

  lemma SelectorAddrsMeaning(v: View, ifs: seq<Iface>, nets: seq<string>, peer: PeerSpec, a: Addr)
    ensures a in SelectorAddrs(v, ifs, nets, peer) <==> SelectorHas(v, ifs, nets, peer, a)
  {
    OnIsOn(ifs, nets);
    forall j | 0 <= j < |v.pods| && v.pods[j].info.Some?
      ensures a in IpsOn(v.pods[j].info.value, nets) <==> HasIp(v.pods[j].info.value, nets, a)
    {
      OnIsOn(v.pods[j].info.value, nets);
    }
    assert AnyPeerOn(v, nets, peer) <==> PeerPresent(v, nets, peer) by {
      if pod :| pod in v.pods && Selects(v, peer, pod) && AnyOn(pod.info.value, nets) {
        var j :| 0 <= j < |v.pods| && v.pods[j] == pod;
      }
      if j :| 0 <= j < |v.pods| && Selects(v, peer, v.pods[j]) && AnyOn(v.pods[j].info.value, nets) {
        assert v.pods[j] in v.pods;
      }
    }
    assert a in PodIps(v, nets, peer) <==> PeerHasIp(v, nets, peer, a) by {
      if pod :| pod in v.pods && Selects(v, peer, pod) && a in IpsOn(pod.info.value, nets) {
        var j :| 0 <= j < |v.pods| && v.pods[j] == pod;
      }
      if j :| 0 <= j < |v.pods| && Selects(v, peer, v.pods[j]) && HasIp(v.pods[j].info.value, nets, a) {
        assert v.pods[j] in v.pods;
      }
    }
  }
}
