/** General properties of the requests of a pass: rules are made of known
    expressions, stay in the managed tables, and refer only to chains and sets
    that the pass requests, too. */
module Requests {
  import opened Ids
  import opened Machine
  import opened Identity
  import opened Intervals
  import opened Policies
  import opened Reconcile
  import opened Compile

  predicate HasChain(w: seq<Req>, t: TableId, c: ChainId) {
    ChainReq(t, c) in w
  }

  ghost predicate HasSet(w: seq<Req>, t: TableId, s: SetId) {
    exists q :: q in w && q.SetReq? && q.t == t && q.s == s
  }

  /** An expression of a rule in table t that only refers to requested objects. */
  ghost predicate GoodExpr(e: Expr, w: seq<Req>, t: TableId) {
    match e
    case Lookup(s) => HasSet(w, t, s)
    case Verdict(Jump(c)) => HasChain(w, t, c)
    case Verdict(Goto(c)) => HasChain(w, t, c)
    case Counter(n) => n == 0
    case Unsupported(_) => false
    case _ => true
  }

  ghost predicate GoodExprs(es: seq<Expr>, w: seq<Req>, t: TableId) {
    forall i :: 0 <= i < |es| ==> GoodExpr(es[i], w, t)
  }

  lemma GoodConcat(a: seq<Expr>, b: seq<Expr>, w: seq<Req>, t: TableId)
    requires GoodExprs(a, w, t) && GoodExprs(b, w, t)
    ensures GoodExprs(a + b, w, t)
  {
  }

  ghost predicate GoodReq(q: Req, w: seq<Req>) {
    && Managed(TableOf(q))
    && (q.RuleReq? ==> HasChain(w, q.rule.table, q.rule.chain) && GoodExprs(q.rule.exprs, w, q.rule.table))
    && (q.SetReq? ==> !q.obj.anonymous)
  }

  ghost predicate GoodPart(part: seq<Req>, w: seq<Req>) {
    forall i :: 0 <= i < |part| ==> GoodReq(part[i], w)
  }

  predicate Includes(w: seq<Req>, part: seq<Req>) {
    forall i :: 0 <= i < |part| ==> part[i] in w
  }

  lemma Good2(a: Req, b: Req, w: seq<Req>)
    requires GoodReq(a, w) && GoodReq(b, w)
    ensures GoodPart([a, b], w)
  {
  }

  lemma GoodJoin(a: seq<Req>, b: seq<Req>, w: seq<Req>)
    requires GoodPart(a, w) && GoodPart(b, w)
    ensures GoodPart(a + b, w)
  {
  }

  lemma IncludesSplit(w: seq<Req>, a: seq<Req>, b: seq<Req>)
    requires Includes(w, a + b)
    ensures Includes(w, a) && Includes(w, b)
  {
    forall i | 0 <= i < |a| ensures a[i] in w {
      assert (a + b)[i] == a[i];
    }
    forall i | 0 <= i < |b| ensures b[i] in w {
      assert (a + b)[|a| + i] == b[i];
    }
  }

  // ------------------------------------------------------- rule fragments

  lemma GoodRemote(d: Dir, v6: bool, s: SetId, w: seq<Req>)
    requires HasSet(w, FILTER, s)
    ensures GoodExprs(MatchRemote(d, v6, s), w, FILTER)
  {
  }

  lemma GoodRemoteRule(d: Dir, v6: bool, s: SetId, tail: seq<Expr>, w: seq<Req>)
    requires HasSet(w, FILTER, s) && GoodExprs(tail, w, FILTER)
    ensures GoodExprs(MatchRemote(d, v6, s) + tail, w, FILTER)
  {
    GoodRemote(d, v6, s, w);
    GoodConcat(MatchRemote(d, v6, s), tail, w, FILTER);
  }

  lemma GoodMarkReturn(d: Dir, v6: bool, s: SetId, w: seq<Req>)
    requires HasSet(w, FILTER, s)
    ensures GoodExprs(MatchRemote(d, v6, s) + MARK_PEER + Then(Return), w, FILTER)
  {
    GoodRemoteRule(d, v6, s, MARK_PEER, w);
    GoodConcat(MatchRemote(d, v6, s) + MARK_PEER, Then(Return), w, FILTER);
  }

  // ------------------------------------------------------ policy requests

  lemma GoodProto(d: Dir, k: PolicyKey, n: nat, ports: seq<PortSpec>, proto: Proto, w: seq<Req>)
    requires PortsOk(ports) && Includes(w, ProtoReqs(d, k, n, ports, proto)) && HasChain(w, FILTER, PortsChain(d, k, n))
    ensures GoodPart(ProtoReqs(d, k, n, ports, proto), w)
  {
    var q := ProtoReqs(d, k, n, ports, proto);
    if q != [] {
      var s := PortsSet(d, k, n, proto);
      assert q[0] in w;
      assert HasSet(w, FILTER, s);
      var a := [Meta(L4Proto, false), Cmp(true, Num(L4Number(proto)))];
      var b := [Payload(TransportHeader, 2, 2), Lookup(s)];
      GoodConcat(a, b, w, FILTER);
      GoodConcat(a + b, COUNT, w, FILTER);
      GoodConcat(a + b + COUNT, MARK_PORT, w, FILTER);
    }
  }

  lemma GoodPorts(d: Dir, k: PolicyKey, n: nat, ports: seq<PortSpec>, w: seq<Req>)
    requires PortsOk(ports) && Includes(w, PortsReqs(d, k, n, ports)) && HasChain(w, FILTER, PolicyChain(d, k))
    ensures GoodPart(PortsReqs(d, k, n, ports), w)
  {
    var head := [ChainReq(FILTER, PortsChain(d, k, n)), Add(JumpRule(d, k, PortsChain(d, k, n)))];
    IncludesSplit(w, head, PortsBody(d, k, n, ports));
    assert head[0] in w;
    assert GoodReq(head[0], w) && GoodReq(head[1], w);
    var a, b, s := ProtoReqs(d, k, n, ports, TCP), ProtoReqs(d, k, n, ports, UDP), ProtoReqs(d, k, n, ports, SCTP);
    var all := if NoRanges(ports) then [Add(AllPorts(d, k, n))] else [];
    assert GoodPart(all, w) by {
      GoodConcat(COUNT, MARK_PORT, w, FILTER);
    }
    hide ProtoReqs, GoodReq, JumpRule, AllPorts;
    IncludesSplit(w, a + b + s, all);
    IncludesSplit(w, a + b, s);
    IncludesSplit(w, a, b);
    GoodProto(d, k, n, ports, TCP, w);
    GoodProto(d, k, n, ports, UDP, w);
    GoodProto(d, k, n, ports, SCTP, w);
    GoodJoin(a, b, w);
    GoodJoin(a + b, s, w);
    GoodJoin(a + b + s, all, w);
    GoodJoin(head, PortsBody(d, k, n, ports), w);
  }

  lemma GoodBlock(d: Dir, k: PolicyKey, n: nat, j: nat, b: IPBlock, w: seq<Req>)
    requires b.cidr.Parsed? && AllParsed(b.except)
    requires Includes(w, BlockReqs(d, k, n, j, b)) && HasChain(w, FILTER, PeersChain(d, k, n))
    ensures GoodPart(BlockReqs(d, k, n, j, b), w)
  {
    hide PrefixElems, MatchRemote;
    var cidr, v6 := b.cidr.prefix, b.cidr.prefix.v6;
    var es := PrefixElems(Prefixes(b.except), v6);
    var x := WantSet(ExceptSet(d, k, n, j, v6), true, Elems(es));
    var y := WantSet(BlockSet(d, k, n, j, v6), true, Elems(PrefixElems([cidr], v6)));
    var q := if es == [] then [] else [x, Add(ExceptRule(d, k, n, j, cidr))];
    var r := [y, Add(BlockRule(d, k, n, j, cidr))];
    IncludesSplit(w, q, r);
    assert r[0] in w;
    assert HasSet(w, FILTER, BlockSet(d, k, n, j, v6));
    GoodMarkReturn(d, v6, BlockSet(d, k, n, j, v6), w);
    if q != [] {
      assert q[0] in w;
      assert HasSet(w, FILTER, ExceptSet(d, k, n, j, v6));
      GoodRemoteRule(d, v6, ExceptSet(d, k, n, j, v6), Then(Drop), w);
    }
    GoodJoin(q, r, w);
  }

  lemma GoodFamily(d: Dir, k: PolicyKey, n: nat, j: nat, v6: bool, text: string, addrs: set<Addr>, w: seq<Req>)
    requires Includes(w, FamilyReqs(d, k, n, j, v6, text, addrs)) && HasChain(w, FILTER, PeersChain(d, k, n))
    ensures GoodPart(FamilyReqs(d, k, n, j, v6, text, addrs), w)
  {
    var q := FamilyReqs(d, k, n, j, v6, text, addrs);
    if q != [] {
      assert q[0] in w;
      assert HasSet(w, FILTER, SelectorSet(d, k, n, j, v6, text));
      GoodMarkReturn(d, v6, SelectorSet(d, k, n, j, v6, text), w);
    }
  }

  lemma GoodPeer(inp: Input, nets: seq<string>, d: Dir, k: PolicyKey, n: nat, j: nat, peer: PeerSpec, w: seq<Req>)
    requires PeerOk(peer) && Includes(w, PeerReqs(inp, nets, d, k, n, j, peer))
    requires HasChain(w, FILTER, PeersChain(d, k, n))
    ensures GoodPart(PeerReqs(inp, nets, d, k, n, j, peer), w)
  {
    hide BlockReqs, FamilyReqs, SelectorAddrs;
    if peer.block.Some? {
      GoodBlock(d, k, n, j, peer.block.value, w);
    } else {
      var addrs, text := SelectorAddrs(inp.view, inp.ifs, nets, peer), SelectorText(peer);
      IncludesSplit(w, FamilyReqs(d, k, n, j, false, text, addrs), FamilyReqs(d, k, n, j, true, text, addrs));
      GoodFamily(d, k, n, j, false, text, addrs, w);
      GoodFamily(d, k, n, j, true, text, addrs, w);
      GoodJoin(FamilyReqs(d, k, n, j, false, text, addrs), FamilyReqs(d, k, n, j, true, text, addrs), w);
    }
  }

  lemma {:induction false} GoodPeerList(inp: Input, nets: seq<string>, d: Dir, k: PolicyKey, n: nat,
                                        peers: seq<PeerSpec>, w: seq<Req>)
    requires PeersOk(peers) && Includes(w, PeerListReqs(inp, nets, d, k, n, peers))
    requires HasChain(w, FILTER, PeersChain(d, k, n))
    ensures GoodPart(PeerListReqs(inp, nets, d, k, n, peers), w)
  {
    hide PeerReqs;
    if peers != [] {
      var j := |peers| - 1;
      IncludesSplit(w, PeerListReqs(inp, nets, d, k, n, peers[..j]), PeerReqs(inp, nets, d, k, n, j, peers[j]));
      GoodPeerList(inp, nets, d, k, n, peers[..j], w);
      GoodPeer(inp, nets, d, k, n, j, peers[j], w);
      GoodJoin(PeerListReqs(inp, nets, d, k, n, peers[..j]), PeerReqs(inp, nets, d, k, n, j, peers[j]), w);
    }
  }

  lemma GoodPeersHead(d: Dir, k: PolicyKey, n: nat, w: seq<Req>)
    requires HasChain(w, FILTER, PolicyChain(d, k)) && HasChain(w, FILTER, PeersChain(d, k, n))
    ensures GoodPart([ChainReq(FILTER, PeersChain(d, k, n)), Add(JumpRule(d, k, PeersChain(d, k, n)))], w)
    ensures GoodPart([Add(AllPeers(d, k, n))], w)
  {
    GoodConcat(COUNT, MARK_PEER, w, FILTER);
  }

  lemma IncludesChain(w: seq<Req>, c: ChainId, rest: seq<Req>)
    requires Includes(w, [ChainReq(FILTER, c)] + rest)
    ensures HasChain(w, FILTER, c)
  {
    assert ([ChainReq(FILTER, c)] + rest)[0] in w;
  }

  lemma GoodNone(w: seq<Req>)
    ensures GoodPart([], w)
  {
  }

  lemma GoodPeers(inp: Input, nets: seq<string>, d: Dir, k: PolicyKey, n: nat, peers: seq<PeerSpec>, w: seq<Req>)
    requires PeersOk(peers) && Includes(w, PeersReqs(inp, nets, d, k, n, peers))
    requires HasChain(w, FILTER, PolicyChain(d, k))
    ensures GoodPart(PeersReqs(inp, nets, d, k, n, peers), w)
  {
    hide PeerListReqs, GoodPart, JumpRule, AllPeers, Includes, HasChain, PeersOk;
    var chain, jump := ChainReq(FILTER, PeersChain(d, k, n)), Add(JumpRule(d, k, PeersChain(d, k, n)));
    var list := PeerListReqs(inp, nets, d, k, n, peers);
    var all := if peers == [] then [Add(AllPeers(d, k, n))] else [];
    IncludesSplit(w, [chain, jump], PeersBody(inp, nets, d, k, n, peers));
    assert [chain, jump] == [chain] + [jump];
    IncludesChain(w, PeersChain(d, k, n), [jump]);
    GoodPeersHead(d, k, n, w);
    GoodNone(w);
    IncludesSplit(w, list, all);
    GoodPeerList(inp, nets, d, k, n, peers, w);
    GoodJoin(list, all, w);
    GoodJoin([chain, jump], PeersBody(inp, nets, d, k, n, peers), w);
  }

  lemma GoodEnds(d: Dir, k: PolicyKey, n: nat, w: seq<Req>)
    requires HasChain(w, FILTER, PolicyChain(d, k))
    ensures GoodPart([Add(ResetRule(d, k, n))], w) && GoodPart([Add(ReturnRule(d, k, n))], w)
  {
    GoodConcat(MARK_RESET, COUNT, w, FILTER);
    GoodConcat(MARK_CHECK, Then(Return), w, FILTER);
  }

  lemma GoodRule(inp: Input, p: PolicySpec, d: Dir, n: nat, r: RuleSpec, w: seq<Req>)
    requires RuleOk(r) && Includes(w, RuleReqs(inp, p, d, n, r)) && HasChain(w, FILTER, PolicyChain(d, p.key))
    ensures GoodPart(RuleReqs(inp, p, d, n, r), w)
  {
    hide PortsReqs, PeersReqs, GoodPart, ResetRule, ReturnRule, HasChain, PortsOk, PeersOk, Includes;
    var k := p.key;
    var first, last := [Add(ResetRule(d, k, n))], [Add(ReturnRule(d, k, n))];
    var ports, peers := PortsReqs(d, k, n, r.ports), PeersReqs(inp, p.nets, d, k, n, r.peers);
    GoodEnds(d, k, n, w);
    IncludesSplit(w, first + ports + peers, last);
    IncludesSplit(w, first + ports, peers);
    IncludesSplit(w, first, ports);
    GoodPorts(d, k, n, r.ports, w);
    GoodPeers(inp, p.nets, d, k, n, r.peers, w);
    GoodJoin(first, ports, w);
    GoodJoin(first + ports, peers, w);
    GoodJoin(first + ports + peers, last, w);
  }

  lemma {:induction false} GoodRuleList(inp: Input, p: PolicySpec, d: Dir, rs: seq<RuleSpec>, w: seq<Req>)
    requires RulesOk(rs) && Includes(w, RuleListReqs(inp, p, d, rs)) && HasChain(w, FILTER, PolicyChain(d, p.key))
    ensures GoodPart(RuleListReqs(inp, p, d, rs), w)
  {
    hide RuleReqs;
    if rs != [] {
      var n := |rs| - 1;
      IncludesSplit(w, RuleListReqs(inp, p, d, rs[..n]), RuleReqs(inp, p, d, n, rs[n]));
      GoodRuleList(inp, p, d, rs[..n], w);
      GoodRule(inp, p, d, n, rs[n], w);
      GoodJoin(RuleListReqs(inp, p, d, rs[..n]), RuleReqs(inp, p, d, n, rs[n]), w);
    }
  }

  lemma {:induction false} GoodIfaces(d: Dir, k: PolicyKey, ifs: seq<Iface>, w: seq<Req>)
    requires HasChain(w, FILTER, EntryChain(d)) && HasChain(w, FILTER, PolicyChain(d, k))
    ensures GoodPart(IfaceReqs(d, k, ifs), w)
  {
    if ifs != [] {
      var n := |ifs| - 1;
      GoodIfaces(d, k, ifs[..n], w);
      GoodConcat([Meta(IfKey(d), false), Cmp(true, Name(ifs[n].name))], Then(Jump(PolicyChain(d, k))), w, FILTER);
      GoodJoin(IfaceReqs(d, k, ifs[..n]), [Add(IfaceJump(d, k, ifs[n]))], w);
    }
  }

  lemma GoodPolicy(inp: Input, p: PolicySpec, d: Dir, w: seq<Req>)
    requires RulesOk(RulesFor(p, d)) && Includes(w, PolicyReqs(inp, p, d)) && HasChain(w, FILTER, EntryChain(d))
    ensures GoodPart(PolicyReqs(inp, p, d), w)
  {
    var first, last := [ChainReq(FILTER, PolicyChain(d, p.key))], [Add(PolicyMark(d, p.key))];
    var ifaces := IfaceReqs(d, p.key, OnNetworks(inp.ifs, p.nets));
    var rules := RuleListReqs(inp, p, d, RulesFor(p, d));
    assert GoodPart(last, w) by {
      GoodConcat(MARK_CHECK, Then(Return), w, FILTER);
    }
    IncludesSplit(w, first + ifaces + rules, last);
    IncludesSplit(w, first + ifaces, rules);
    IncludesSplit(w, first, ifaces);
    assert first[0] in w;
    assert GoodPart(first, w);
    hide RuleListReqs, IfaceReqs, GoodReq, PolicyMark;
    GoodIfaces(d, p.key, OnNetworks(inp.ifs, p.nets), w);
    GoodRuleList(inp, p, d, RulesFor(p, d), w);
    GoodJoin(first, ifaces, w);
    GoodJoin(first + ifaces, rules, w);
    GoodJoin(first + ifaces + rules, last, w);
  }

  lemma {:induction false} GoodPolicyList(inp: Input, ps: seq<PolicySpec>, d: Dir, w: seq<Req>)
    requires PoliciesOk(ps, d) && Includes(w, PolicyListReqs(inp, ps, d)) && HasChain(w, FILTER, EntryChain(d))
    ensures GoodPart(PolicyListReqs(inp, ps, d), w)
  {
    hide PolicyReqs;
    if ps != [] {
      var n := |ps| - 1;
      IncludesSplit(w, PolicyListReqs(inp, ps[..n], d), PolicyReqs(inp, ps[n], d));
      GoodPolicyList(inp, ps[..n], d, w);
      GoodPolicy(inp, ps[n], d, w);
      GoodJoin(PolicyListReqs(inp, ps[..n], d), PolicyReqs(inp, ps[n], d), w);
    }
  }

  lemma GoodDir(inp: Input, d: Dir, force: bool, w: seq<Req>)
    requires PoliciesOk(PoliciesFor(inp, d), d) && Includes(w, DirReqs(inp, d, force))
    requires HasChain(w, FILTER, EntryChain(d))
    ensures GoodPart(DirReqs(inp, d, force), w)
  {
    hide PolicyListReqs;
    if PoliciesFor(inp, d) != [] {
      var list := PolicyListReqs(inp, PoliciesFor(inp, d), d);
      IncludesSplit(w, list, [RuleReq(DropRest(d), false, force)]);
      GoodPolicyList(inp, PoliciesFor(inp, d), d, w);
      GoodJoin(list, [RuleReq(DropRest(d), false, force)], w);
    }
  }

  // ----------------------------------------------------- bootstrap, common

  lemma BootChains(w: seq<Req>)
    requires Includes(w, BOOT_CHAINS)
    ensures forall d :: HasChain(w, FILTER, EntryChain(d)) && HasChain(w, FILTER, CommonChain(d)) &&
                        HasChain(w, FILTER, BaseChain(HookOf(d)))
    ensures HasChain(w, NAT, BaseChain(PreroutingHook))
    ensures TableReq(FILTER) in w && TableReq(NAT) in w
  {
    var b := BOOT_CHAINS;
    assert b[0] in w && b[1] in w && b[2] in w && b[3] in w && b[4] in w;
    assert b[5] in w && b[6] in w && b[7] in w && b[8] in w;
    forall d ensures HasChain(w, FILTER, EntryChain(d)) && HasChain(w, FILTER, CommonChain(d)) &&
                     HasChain(w, FILTER, BaseChain(HookOf(d)))
    {
      match d
      case Ingress =>
      case Egress =>
    }
  }

  lemma GoodInterfaceFilter(d: Dir, w: seq<Req>)
    requires HasSet(w, FILTER, PodInterfaces) && HasChain(w, FILTER, EntryChain(d))
    requires HasChain(w, FILTER, BaseChain(HookOf(d)))
    ensures GoodReq(Insert(InterfaceFilter(d)), w)
  {
    GoodConcat([Meta(IfKey(d), false), Lookup(PodInterfaces)], Then(Jump(EntryChain(d))), w, FILTER);
  }

  lemma GoodBoot(ifs: seq<Iface>, w: seq<Req>)
    requires Includes(w, BootReqs(ifs))
    ensures GoodPart(BootReqs(ifs), w)
  {
    var r := BootRules(ifs);
    IncludesSplit(w, BOOT_CHAINS, r);
    BootChains(w);
    assert r[0] in w && r[3] in w;
    assert HasSet(w, FILTER, PodInterfaces) && HasSet(w, NAT, PodInterfaces);
    GoodInterfaceFilter(Ingress, w);
    GoodInterfaceFilter(Egress, w);
    GoodConcat([Meta(IifName, false), Lookup(PodInterfaces)], Then(Return), w, NAT);
    assert GoodReq(r[4], w);
    assert GoodReq(r[5], w) && GoodReq(r[6], w);
    assert GoodReq(r[0], w) && GoodReq(r[3], w);
    assert GoodPart(BOOT_CHAINS, w);
    hide GoodReq;
    assert GoodPart(r, w);
    GoodJoin(BOOT_CHAINS, r, w);
  }

  lemma GoodNdp(d: Dir, w: seq<Req>)
    requires Includes(w, NdpReqs(d)) && HasChain(w, FILTER, CommonChain(d))
    ensures GoodPart(NdpReqs(d), w)
  {
    assert NdpReqs(d)[0] in w;
    assert HasSet(w, FILTER, NdpTypes);
    var a, b := [Meta(NfProto, false), Cmp(true, Num(NFPROTO_IPV6))], [Meta(L4Proto, false), Cmp(true, Num(ICMPV6))];
    var c := [Payload(TransportHeader, 0, 1), Lookup(NdpTypes)];
    GoodConcat(a, b, w, FILTER);
    GoodConcat(a + b, c, w, FILTER);
    GoodConcat(a + b + c, Then(Accept), w, FILTER);
  }

  lemma GoodIcmp(d: Dir, v6: bool, w: seq<Req>)
    requires HasChain(w, FILTER, CommonChain(d))
    ensures GoodReq(Add(Icmp(d, v6)), w) && GoodReq(Add(ConntrackRule(d)), w)
  {
    GoodConcat([Meta(L4Proto, false), Cmp(true, Num(if v6 then ICMPV6 else ICMP))], Then(Accept), w, FILTER);
    GoodConcat([CtState, Bitwise(6, 0), Cmp(false, Word(0))], Then(Accept), w, FILTER);
  }

  lemma GoodPrefixFamily(d: Dir, ps: seq<Prefix>, v6: bool, w: seq<Req>)
    requires Includes(w, PrefixFamilyReqs(d, ps, v6)) && HasChain(w, FILTER, CommonChain(d))
    ensures GoodPart(PrefixFamilyReqs(d, ps, v6), w)
  {
    var q := PrefixFamilyReqs(d, ps, v6);
    if q != [] {
      assert q[0] in w;
      assert HasSet(w, FILTER, CommonSet(d, v6));
      GoodRemoteRule(d, v6, CommonSet(d, v6), Then(Accept), w);
    }
  }

  lemma GoodPrefixes(d: Dir, ps: seq<Prefix>, w: seq<Req>)
    requires Includes(w, PrefixReqs(d, ps)) && HasChain(w, FILTER, CommonChain(d))
    ensures GoodPart(PrefixReqs(d, ps), w)
  {
    IncludesSplit(w, PrefixFamilyReqs(d, ps, false), PrefixFamilyReqs(d, ps, true));
    GoodPrefixFamily(d, ps, false, w);
    GoodPrefixFamily(d, ps, true, w);
    hide PrefixFamilyReqs;
    GoodJoin(PrefixFamilyReqs(d, ps, false), PrefixFamilyReqs(d, ps, true), w);
  }

  lemma GoodIcmps(cfg: Config, w: seq<Req>)
    requires forall d :: HasChain(w, FILTER, CommonChain(d))
    ensures cfg.icmp6 ==> GoodPart([Add(Icmp(Ingress, true)), Add(Icmp(Egress, true))], w)
    ensures GoodPart([Add(Icmp(Ingress, false)), Add(Icmp(Egress, false))], w)
    ensures GoodPart([Add(ConntrackRule(Ingress)), Add(ConntrackRule(Egress))], w)
  {
    GoodIcmp(Ingress, true, w);
    GoodIcmp(Egress, true, w);
    GoodIcmp(Ingress, false, w);
    GoodIcmp(Egress, false, w);
    hide GoodReq, Icmp, ConntrackRule;
    Good2(Add(Icmp(Ingress, true)), Add(Icmp(Egress, true)), w);
    Good2(Add(Icmp(Ingress, false)), Add(Icmp(Egress, false)), w);
    Good2(Add(ConntrackRule(Ingress)), Add(ConntrackRule(Egress)), w);
  }

  lemma GoodCommon(cfg: Config, w: seq<Req>)
    requires ConfigOk(cfg) && Includes(w, CommonReqs(cfg)) && forall d :: HasChain(w, FILTER, CommonChain(d))
    ensures GoodPart(CommonReqs(cfg), w)
  {
    hide Icmp, NdpReqs, PrefixReqs, ConntrackRule, GoodReq;
    var a :=
      if cfg.icmp6 then [Add(Icmp(Ingress, true)), Add(Icmp(Egress, true))] else NdpReqs(Ingress) + NdpReqs(Egress);
    var b := if cfg.icmp then [Add(Icmp(Ingress, false)), Add(Icmp(Egress, false))] else [];
    var c, e := PrefixReqs(Ingress, Prefixes(cfg.src)), PrefixReqs(Egress, Prefixes(cfg.dst));
    var f := [Add(ConntrackRule(Ingress)), Add(ConntrackRule(Egress))];
    IncludesSplit(w, a + b + c + e, f);
    IncludesSplit(w, a + b + c, e);
    IncludesSplit(w, a + b, c);
    IncludesSplit(w, a, b);
    GoodIcmps(cfg, w);
    if !cfg.icmp6 {
      IncludesSplit(w, NdpReqs(Ingress), NdpReqs(Egress));
      GoodNdp(Ingress, w);
      GoodNdp(Egress, w);
      GoodJoin(NdpReqs(Ingress), NdpReqs(Egress), w);
    }
    GoodPrefixes(Ingress, Prefixes(cfg.src), w);
    GoodPrefixes(Egress, Prefixes(cfg.dst), w);
    GoodJoin(a, b, w);
    GoodJoin(a + b, c, w);
    GoodJoin(a + b + c, e, w);
    GoodJoin(a + b + c + e, f, w);
  }

  /** Every request of a pass is good with respect to the whole pass. */
  lemma PassGood(inp: Input, fi: bool, fe: bool)
    requires InputOk(inp)
    ensures var w := PassReqs(inp, fi, fe);
            GoodPart(w, w) && TableReq(FILTER) in w && TableReq(NAT) in w
  {
    hide BootRules, CommonReqs, DirReqs, GoodReq;
    var w := PassReqs(inp, fi, fe);
    var a, b := BootReqs(inp.ifs), CommonReqs(inp.cfg);
    var x, y := DirReqs(inp, Ingress, fi), DirReqs(inp, Egress, fe);
    assert w == a + b + x + y;
    IncludesSplit(w, a + b + x, y);
    IncludesSplit(w, a + b, x);
    IncludesSplit(w, a, b);
    IncludesSplit(w, BOOT_CHAINS, BootRules(inp.ifs));
    BootChains(w);
    GoodBoot(inp.ifs, w);
    GoodCommon(inp.cfg, w);
    GoodDir(inp, Ingress, fi, w);
    GoodDir(inp, Egress, fe, w);
    GoodJoin(a, b, w);
    GoodJoin(a + b, x, w);
    GoodJoin(a + b + x, y, w);
  }

  lemma GoodCanonical(w: seq<Req>)
    requires GoodPart(w, w)
    ensures CanonicalLog(w)
  {
    forall q | q in w && q.RuleReq? ensures Canonical(q.rule) {
      var i :| 0 <= i < |w| && w[i] == q;
      assert GoodReq(w[i], w);
      forall k | 0 <= k < |q.rule.exprs|
        ensures Supported(q.rule.exprs[k]) && (q.rule.exprs[k].Counter? ==> q.rule.exprs[k].packets == 0)
      {
        assert GoodExpr(q.rule.exprs[k], w, q.rule.table);
      }
    }
  }

  lemma PassCanonical(inp: Input, fi: bool, fe: bool)
    requires InputOk(inp)
    ensures CanonicalLog(PassReqs(inp, fi, fe))
  {
    hide PassReqs;
    PassGood(inp, fi, fe);
    GoodCanonical(PassReqs(inp, fi, fe));
  }
}
