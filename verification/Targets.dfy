/** The wanted rules of each chain as plain rule lists, and what a pass leaves in
    the chains and sets of the filter table. */
module Targets {
  import opened Ids
  import opened Marks
  import opened Machine
  import opened Identity
  import opened Intervals
  import opened Elements
  import opened Kernel
  import opened Reconcile
  import opened Flush
  import opened Cleanup
  import opened Policies
  import opened Compile
  import opened Requests
  import opened Layout
  import opened SetLayout
  import opened Exact
  import opened Passes
  import opened Walks
  import M = Meanings

  /** The rules of a list of rule requests. */
  function Wants(p: seq<Req>): (rs: seq<Rule>)
    requires AllRules(p)
    ensures |rs| == |p| && forall i :: 0 <= i < |p| ==> rs[i] == p[i].rule
  {
    seq(|p|, i requires 0 <= i < |p| => p[i].rule)
  }

  lemma WantsConcat(a: seq<Req>, b: seq<Req>)
    requires AllRules(a) && AllRules(b)
    ensures Wants(a + b) == Wants(a) + Wants(b)
  {
  }

  predicate AllAdds(p: seq<Req>) {
    forall i :: 0 <= i < |p| ==> p[i].RuleReq? && !p[i].insert
  }

  // -------------------------------------------------------- wanted rules

  lemma {:induction false} WantsQuads(d: Dir, k: PolicyKey, n: nat)
    ensures AllRules(QuadListReqs(d, k, n)) && Wants(QuadListReqs(d, k, n)) == Quads(d, k, n)
    ensures AllAdds(QuadListReqs(d, k, n))
  {
    hide ResetRule, JumpRule, ReturnRule;
    if n > 0 {
      WantsQuads(d, k, n - 1);
      WantsConcat(QuadListReqs(d, k, n - 1), QuadReqs(d, k, n - 1));
      assert Wants(QuadReqs(d, k, n - 1)) == Quad(d, k, n - 1);
    }
  }

  lemma {:induction false} WantsJumps(d: Dir, k: PolicyKey, ifs: seq<Iface>)
    ensures AllRules(IfaceReqs(d, k, ifs)) && Wants(IfaceReqs(d, k, ifs)) == Jumps(d, k, ifs)
    ensures AllAdds(IfaceReqs(d, k, ifs))
  {
    hide IfaceJump;
    if ifs != [] {
      var n := |ifs| - 1;
      WantsJumps(d, k, ifs[..n]);
      WantsConcat(IfaceReqs(d, k, ifs[..n]), [Add(IfaceJump(d, k, ifs[n]))]);
    }
  }

  function BlockFor(inp: Input, p: PolicySpec): Block {
    Block(p.key, OnNetworks(inp.ifs, p.nets))
  }

  function BlocksFor(inp: Input, ps: seq<PolicySpec>): (bs: seq<Block>)
    ensures |bs| == |ps|
  {
    seq(|ps|, i requires 0 <= i < |ps| => BlockFor(inp, ps[i]))
  }

  lemma WantsBlock(inp: Input, p: PolicySpec, d: Dir)
    ensures AllRules(BlockReqsOf(inp, p, d)) && AllAdds(BlockReqsOf(inp, p, d))
    ensures Wants(BlockReqsOf(inp, p, d)) == BlockOf(d, p.key, OnNetworks(inp.ifs, p.nets))
  {
    var ifs := OnNetworks(inp.ifs, p.nets);
    WantsJumps(d, p.key, ifs);
    hide IfaceReqs, Jumps, PolicyMark, OnNetworks;
    WantsConcat(IfaceReqs(d, p.key, ifs), [Add(PolicyMark(d, p.key))]);
    assert Wants([Add(PolicyMark(d, p.key))]) == [PolicyMark(d, p.key)];
  }

  lemma {:induction false} WantsEntry(inp: Input, ps: seq<PolicySpec>, d: Dir)
    ensures AllRules(EntryReqs(inp, ps, d)) && AllAdds(EntryReqs(inp, ps, d))
    ensures Wants(EntryReqs(inp, ps, d)) == Flatten(d, BlocksFor(inp, ps))
  {
    hide BlockReqsOf, BlockOf, OnNetworks;
    if ps != [] {
      var n := |ps| - 1;
      WantsEntry(inp, ps[..n], d);
      WantsBlock(inp, ps[n], d);
      WantsConcat(EntryReqs(inp, ps[..n], d), BlockReqsOf(inp, ps[n], d));
      assert BlocksFor(inp, ps)[..n] == BlocksFor(inp, ps[..n]);
    }
  }

  /** A chain part without jumps elsewhere: rules in order, all appended. */
  ghost predicate Yields(log: seq<Req>, c: ChainId, rs: seq<Rule>) {
    var p := Proj(log, FILTER, c);
    AllAdds(p) && Wants(p) == rs
  }

  lemma YieldsConcat(a: seq<Req>, b: seq<Req>, c: ChainId, x: seq<Rule>, y: seq<Rule>)
    requires Yields(a, c, x) && Yields(b, c, y)
    ensures Yields(a + b, c, x + y)
  {
    ProjConcat(a, b, FILTER, c);
    WantsConcat(Proj(a, FILTER, c), Proj(b, FILTER, c));
  }

  lemma YieldsNone(c: ChainId)
    ensures Yields([], c, [])
  {
  }

  lemma YieldsOne(r: Rule)
    requires r.table == FILTER
    ensures Yields([Add(r)], r.chain, [r])
  {
    Proj1(Add(r), r.chain);
  }

  lemma YieldsSetRule(q: Req, r: Rule)
    requires q.SetReq? && r.table == FILTER
    ensures Yields([q, Add(r)], r.chain, [r])
  {
    Proj2(q, Add(r), r.chain);
  }

  lemma WantsProto(d: Dir, k: PolicyKey, n: nat, ports: seq<PortSpec>, proto: Proto)
    requires PortsOk(ports)
    ensures Yields(ProtoReqs(d, k, n, ports, proto), PortsChain(d, k, n), M.ProtoRules(d, k, n, ports, proto))
  {
    hide ProtoRanges, Encode;
    if ProtoRanges(ports, proto) == [] {
      YieldsNone(PortsChain(d, k, n));
    } else {
      YieldsSetRule(ProtoReqs(d, k, n, ports, proto)[0], PortsRule(d, k, n, proto));
    }
  }

  lemma WantsPorts(d: Dir, k: PolicyKey, n: nat, ports: seq<PortSpec>)
    requires PortsOk(ports)
    ensures Yields(PortsBody(d, k, n, ports), PortsChain(d, k, n), M.PortsRules(d, k, n, ports))
  {
    var c := PortsChain(d, k, n);
    WantsProto(d, k, n, ports, TCP);
    WantsProto(d, k, n, ports, UDP);
    WantsProto(d, k, n, ports, SCTP);
    YieldsOne(AllPorts(d, k, n));
    YieldsNone(c);
    hide ProtoReqs, M.ProtoRules, AllPorts, Yields, NoRanges;
    var a, b, s := ProtoReqs(d, k, n, ports, TCP), ProtoReqs(d, k, n, ports, UDP), ProtoReqs(d, k, n, ports, SCTP);
    var x, y, z := M.ProtoRules(d, k, n, ports, TCP), M.ProtoRules(d, k, n, ports, UDP),
                   M.ProtoRules(d, k, n, ports, SCTP);
    YieldsConcat(a, b, c, x, y);
    YieldsConcat(a + b, s, c, x + y, z);
    if NoRanges(ports) {
      YieldsConcat(a + b + s, [Add(AllPorts(d, k, n))], c, x + y + z, [AllPorts(d, k, n)]);
    } else {
      YieldsConcat(a + b + s, [], c, x + y + z, []);
    }
  }

  lemma WantsBlockPeer(d: Dir, k: PolicyKey, n: nat, j: nat, b: IPBlock)
    requires b.cidr.Parsed? && AllParsed(b.except)
    ensures Yields(BlockReqs(d, k, n, j, b), PeersChain(d, k, n), M.BlockRules(d, k, n, j, b))
  {
    hide PrefixElems, Elems, Prefixes;
    var cidr, v6 := b.cidr.prefix, b.cidr.prefix.v6;
    var es := PrefixElems(Prefixes(b.except), v6);
    var q := WantSet(ExceptSet(d, k, n, j, v6), true, Elems(es));
    var r := WantSet(BlockSet(d, k, n, j, v6), true, Elems(PrefixElems([cidr], v6)));
    YieldsSetRule(q, ExceptRule(d, k, n, j, cidr));
    YieldsSetRule(r, BlockRule(d, k, n, j, cidr));
    YieldsNone(PeersChain(d, k, n));
    hide Yields, WantSet;
    if es == [] {
      YieldsConcat([], [r, Add(BlockRule(d, k, n, j, cidr))], PeersChain(d, k, n), [], [BlockRule(d, k, n, j, cidr)]);
    } else {
      YieldsConcat([q, Add(ExceptRule(d, k, n, j, cidr))], [r, Add(BlockRule(d, k, n, j, cidr))], PeersChain(d, k, n),
                   [ExceptRule(d, k, n, j, cidr)], [BlockRule(d, k, n, j, cidr)]);
    }
  }

  lemma WantsFamily(d: Dir, k: PolicyKey, n: nat, j: nat, v6: bool, text: string, addrs: set<Addr>)
    ensures Yields(FamilyReqs(d, k, n, j, v6, text, addrs), PeersChain(d, k, n),
                   M.FamilyRules(d, k, n, j, v6, text, addrs))
  {
    if FamilyElems(addrs, v6) == {} {
      YieldsNone(PeersChain(d, k, n));
    } else {
      YieldsSetRule(FamilyReqs(d, k, n, j, v6, text, addrs)[0], SelectorRule(d, k, n, j, v6, text));
    }
  }

  lemma WantsPeer(inp: Input, nets: seq<string>, d: Dir, k: PolicyKey, n: nat, j: nat, peer: PeerSpec)
    requires PeerOk(peer)
    ensures Yields(PeerReqs(inp, nets, d, k, n, j, peer), PeersChain(d, k, n), M.PeerRules(inp, nets, d, k, n, j, peer))
  {
    hide Yields, BlockReqs, M.BlockRules, FamilyReqs, M.FamilyRules, SelectorAddrs;
    if peer.block.Some? {
      WantsBlockPeer(d, k, n, j, peer.block.value);
    } else {
      var addrs, text := SelectorAddrs(inp.view, inp.ifs, nets, peer), SelectorText(peer);
      WantsFamily(d, k, n, j, false, text, addrs);
      WantsFamily(d, k, n, j, true, text, addrs);
      YieldsConcat(FamilyReqs(d, k, n, j, false, text, addrs), FamilyReqs(d, k, n, j, true, text, addrs),
                   PeersChain(d, k, n),
                   M.FamilyRules(d, k, n, j, false, text, addrs), M.FamilyRules(d, k, n, j, true, text, addrs));
    }
  }

  lemma {:induction false} WantsPeerList(inp: Input, nets: seq<string>, d: Dir, k: PolicyKey, n: nat,
                                         peers: seq<PeerSpec>)
    requires PeersOk(peers)
    ensures Yields(PeerListReqs(inp, nets, d, k, n, peers), PeersChain(d, k, n),
                   M.PeerListRules(inp, nets, d, k, n, peers))
  {
    hide Yields, PeerReqs, M.PeerRules;
    if peers == [] {
      YieldsNone(PeersChain(d, k, n));
    } else {
      var j := |peers| - 1;
      WantsPeerList(inp, nets, d, k, n, peers[..j]);
      WantsPeer(inp, nets, d, k, n, j, peers[j]);
      YieldsConcat(PeerListReqs(inp, nets, d, k, n, peers[..j]), PeerReqs(inp, nets, d, k, n, j, peers[j]),
                   PeersChain(d, k, n),
                   M.PeerListRules(inp, nets, d, k, n, peers[..j]), M.PeerRules(inp, nets, d, k, n, j, peers[j]));
    }
  }

  lemma WantsPeers(inp: Input, nets: seq<string>, d: Dir, k: PolicyKey, n: nat, peers: seq<PeerSpec>)
    requires PeersOk(peers)
    ensures Yields(PeersBody(inp, nets, d, k, n, peers), PeersChain(d, k, n), M.PeersRules(inp, nets, d, k, n, peers))
  {
    var c := PeersChain(d, k, n);
    WantsPeerList(inp, nets, d, k, n, peers);
    YieldsOne(AllPeers(d, k, n));
    YieldsNone(c);
    hide Yields, PeerListReqs, M.PeerListRules, AllPeers;
    if peers == [] {
      YieldsConcat(PeerListReqs(inp, nets, d, k, n, peers), [Add(AllPeers(d, k, n))], c,
                   M.PeerListRules(inp, nets, d, k, n, peers), [AllPeers(d, k, n)]);
    } else {
      YieldsConcat(PeerListReqs(inp, nets, d, k, n, peers), [], c, M.PeerListRules(inp, nets, d, k, n, peers), []);
    }
  }

  // --------------------------------------------------------- common chains

  /** The rule requests of a list for one chain, as a set of rules. */
  ghost predicate Asks(log: seq<Req>, c: ChainId, r: Rule) {
    exists q :: q in log && AimsAt(q, FILTER, c) && q.rule == r
  }

  lemma AsksConcat(a: seq<Req>, b: seq<Req>, c: ChainId, r: Rule)
    ensures Asks(a + b, c, r) <==> Asks(a, c, r) || Asks(b, c, r)
  {
    if q :| q in a + b && AimsAt(q, FILTER, c) && q.rule == r {
      assert q in a || q in b;
    }
    if q :| q in a && AimsAt(q, FILTER, c) && q.rule == r {
      assert q in a + b;
    }
    if q :| q in b && AimsAt(q, FILTER, c) && q.rule == r {
      assert q in a + b;
    }
  }

  lemma Asks2(x: Req, y: Req, c: ChainId, r: Rule)
    ensures Asks([x, y], c, r) <==> (AimsAt(x, FILTER, c) && x.rule == r) || (AimsAt(y, FILTER, c) && y.rule == r)
  {
    assert x in [x, y] && y in [x, y];
  }

  lemma AsksIcmp(cfg: Config, d: Dir, r: Rule)
    ensures Asks(if cfg.icmp6 then [Add(Icmp(Ingress, true)), Add(Icmp(Egress, true))]
                 else NdpReqs(Ingress) + NdpReqs(Egress), CommonChain(d), r)
            <==> r == if cfg.icmp6 then Icmp(d, true) else Ndp(d)
    ensures Asks(if cfg.icmp then [Add(Icmp(Ingress, false)), Add(Icmp(Egress, false))] else [], CommonChain(d), r)
            <==> cfg.icmp && r == Icmp(d, false)
    ensures Asks([Add(ConntrackRule(Ingress)), Add(ConntrackRule(Egress))], CommonChain(d), r) <==>
            r == ConntrackRule(d)
  {
    var c := CommonChain(d);
    Asks2(Add(Icmp(Ingress, true)), Add(Icmp(Egress, true)), c, r);
    Asks2(Add(Icmp(Ingress, false)), Add(Icmp(Egress, false)), c, r);
    Asks2(Add(ConntrackRule(Ingress)), Add(ConntrackRule(Egress)), c, r);
    AsksConcat(NdpReqs(Ingress), NdpReqs(Egress), c, r);
    Asks2(WantSet(NdpTypes, false, NDP_ELEMS), Insert(Ndp(Ingress)), c, r);
    Asks2(WantSet(NdpTypes, false, NDP_ELEMS), Insert(Ndp(Egress)), c, r);
  }

  lemma AsksPrefix(x: Dir, ps: seq<Prefix>, d: Dir, r: Rule)
    ensures Asks(PrefixReqs(x, ps), CommonChain(d), r) <==>
            x == d && (r in M.PrefixRules(d, ps, false) || r in M.PrefixRules(d, ps, true))
  {
    hide PrefixElems, Elems;
    var c := CommonChain(d);
    AsksConcat(PrefixFamilyReqs(x, ps, false), PrefixFamilyReqs(x, ps, true), c, r);
    Asks2(WantSet(CommonSet(x, false), true, Elems(PrefixElems(ps, false))), Add(CommonPrefix(x, false)), c, r);
    Asks2(WantSet(CommonSet(x, true), true, Elems(PrefixElems(ps, true))), Add(CommonPrefix(x, true)), c, r);
  }

  lemma AsksCommon(cfg: Config, d: Dir, r: Rule)
    requires ConfigOk(cfg)
    ensures Asks(CommonReqs(cfg), CommonChain(d), r) <==> r in M.CommonRules(cfg, d)
  {
    hide Icmp, Ndp, ConntrackRule, PrefixReqs, M.PrefixRules, Asks, NdpReqs, Prefixes;
    var c := CommonChain(d);
    var a :=
      if cfg.icmp6 then [Add(Icmp(Ingress, true)), Add(Icmp(Egress, true))] else NdpReqs(Ingress) + NdpReqs(Egress);
    var b := if cfg.icmp then [Add(Icmp(Ingress, false)), Add(Icmp(Egress, false))] else [];
    var x, y := PrefixReqs(Ingress, Prefixes(cfg.src)), PrefixReqs(Egress, Prefixes(cfg.dst));
    var z := [Add(ConntrackRule(Ingress)), Add(ConntrackRule(Egress))];
    AsksConcat(a + b + x + y, z, c, r);
    AsksConcat(a + b + x, y, c, r);
    AsksConcat(a + b, x, c, r);
    AsksConcat(a, b, c, r);
    AsksIcmp(cfg, d, r);
    AsksPrefix(Ingress, Prefixes(cfg.src), d, r);
    AsksPrefix(Egress, Prefixes(cfg.dst), d, r);
    var ps := Prefixes(CommonCidrs(cfg, d));
    var first := if cfg.icmp6 then Icmp(d, true) else Ndp(d);
    var e, f := [first], if cfg.icmp then [Icmp(d, false)] else [];
    var g, h := M.PrefixRules(d, ps, false), M.PrefixRules(d, ps, true);
    assert M.CommonRules(cfg, d) == e + f + g + h + [ConntrackRule(d)];
    M.InConcat(e + f + g + h, [ConntrackRule(d)], r);
    M.InConcat(e + f + g, h, r);
    M.InConcat(e + f, g, r);
    M.InConcat(e, f, r);
  }
}
