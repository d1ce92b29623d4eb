/** Which requests of a pass concern which chain: the projection of the whole
    request list to each chain of the filter table. */
module Layout {
  import opened Ids
  import opened Machine
  import opened Intervals
  import opened Policies
  import opened Reconcile
  import opened Flush
  import opened Compile

  /** Every rule request of the list is for this chain of the filter table. */
  predicate OnlyIn(log: seq<Req>, c: ChainId) {
    forall i :: 0 <= i < |log| && log[i].RuleReq? ==> log[i].rule.table == FILTER && log[i].rule.chain == c
  }

  lemma OnlyInConcat(a: seq<Req>, b: seq<Req>, c: ChainId)
    requires OnlyIn(a, c) && OnlyIn(b, c)
    ensures OnlyIn(a + b, c)
  {
  }

  lemma OnlyElsewhere(log: seq<Req>, c: ChainId, x: ChainId)
    requires OnlyIn(log, c) && x != c
    ensures Proj(log, FILTER, x) == []
  {
    ProjNone(log, FILTER, x);
  }

  lemma Proj1(q: Req, c: ChainId)
    ensures Proj([q], FILTER, c) == if AimsAt(q, FILTER, c) then [q] else []
  {
    assert [q][..0] == [];
  }

  lemma Proj2(a: Req, b: Req, c: ChainId)
    ensures Proj([a, b], FILTER, c) ==
            (if AimsAt(a, FILTER, c) then [a] else []) + (if AimsAt(b, FILTER, c) then [b] else [])
  {
    assert [a, b] == [a] + [b];
    ProjConcat([a], [b], FILTER, c);
    Proj1(a, c);
    Proj1(b, c);
  }

  // ------------------------------------------------------------- one rule

  lemma PortsBodyOnly(d: Dir, k: PolicyKey, n: nat, ports: seq<PortSpec>)
    requires PortsOk(ports)
    ensures OnlyIn(PortsBody(d, k, n, ports), PortsChain(d, k, n))
  {
    var c := PortsChain(d, k, n);
    var a, b, s := ProtoReqs(d, k, n, ports, TCP), ProtoReqs(d, k, n, ports, UDP), ProtoReqs(d, k, n, ports, SCTP);
    OnlyInConcat(a, b, c);
    OnlyInConcat(a + b, s, c);
    OnlyInConcat(a + b + s, if NoRanges(ports) then [Add(AllPorts(d, k, n))] else [], c);
  }

  lemma PeerOnly(inp: Input, nets: seq<string>, d: Dir, k: PolicyKey, n: nat, j: nat, peer: PeerSpec)
    requires PeerOk(peer)
    ensures OnlyIn(PeerReqs(inp, nets, d, k, n, j, peer), PeersChain(d, k, n))
  {
  }

  lemma {:induction false} PeerListOnly(inp: Input, nets: seq<string>, d: Dir, k: PolicyKey, n: nat,
                                        peers: seq<PeerSpec>)
    requires PeersOk(peers)
    ensures OnlyIn(PeerListReqs(inp, nets, d, k, n, peers), PeersChain(d, k, n))
  {
    if peers != [] {
      var j := |peers| - 1;
      PeerListOnly(inp, nets, d, k, n, peers[..j]);
      PeerOnly(inp, nets, d, k, n, j, peers[j]);
      OnlyInConcat(PeerListReqs(inp, nets, d, k, n, peers[..j]), PeerReqs(inp, nets, d, k, n, j, peers[j]),
                   PeersChain(d, k, n));
    }
  }

  lemma PeersBodyOnly(inp: Input, nets: seq<string>, d: Dir, k: PolicyKey, n: nat, peers: seq<PeerSpec>)
    requires PeersOk(peers)
    ensures OnlyIn(PeersBody(inp, nets, d, k, n, peers), PeersChain(d, k, n))
  {
    PeerListOnly(inp, nets, d, k, n, peers);
    OnlyInConcat(PeerListReqs(inp, nets, d, k, n, peers), if peers == [] then [Add(AllPeers(d, k, n))] else [],
                 PeersChain(d, k, n));
  }

  /** The four rules of a policy rule in the policy chain. */
  function QuadReqs(d: Dir, k: PolicyKey, n: nat): seq<Req> {
    [Add(ResetRule(d, k, n)), Add(JumpRule(d, k, PortsChain(d, k, n))),
     Add(JumpRule(d, k, PeersChain(d, k, n))), Add(ReturnRule(d, k, n))]
  }

  function QuadListReqs(d: Dir, k: PolicyKey, n: nat): seq<Req> {
    if n == 0 then [] else QuadListReqs(d, k, n - 1) + QuadReqs(d, k, n - 1)
  }

  /** The requests of one policy rule, chain by chain. */
  function RuleProj(inp: Input, p: PolicySpec, d: Dir, n: nat, r: RuleSpec, c: ChainId): seq<Req>
    requires RuleOk(r)
  {
    if c == PolicyChain(d, p.key) then QuadReqs(d, p.key, n)
    else if c == PortsChain(d, p.key, n) then Proj(PortsBody(d, p.key, n, r.ports), FILTER, c)
    else if c == PeersChain(d, p.key, n) then Proj(PeersBody(inp, p.nets, d, p.key, n, r.peers), FILTER, c)
    else []
  }

  lemma QuadAims(d: Dir, k: PolicyKey, n: nat, c: ChainId)
    ensures AimsAt(Add(ResetRule(d, k, n)), FILTER, c) <==> c == PolicyChain(d, k)
    ensures AimsAt(Add(ReturnRule(d, k, n)), FILTER, c) <==> c == PolicyChain(d, k)
  {
  }

  lemma RuleProjIs(inp: Input, p: PolicySpec, d: Dir, n: nat, r: RuleSpec, c: ChainId)
    requires RuleOk(r)
    ensures Proj(RuleReqs(inp, p, d, n, r), FILTER, c) == RuleProj(inp, p, d, n, r, c)
  {
    hide ResetRule, ReturnRule, JumpRule, PortsBody, PeersBody, PortsReqs, PeersReqs, Proj, AimsAt, Add;
    var k := p.key;
    var first, last := [Add(ResetRule(d, k, n))], [Add(ReturnRule(d, k, n))];
    var ports, peers := PortsReqs(d, k, n, r.ports), PeersReqs(inp, p.nets, d, k, n, r.peers);
    ProjConcat(first + ports + peers, last, FILTER, c);
    ProjConcat(first + ports, peers, FILTER, c);
    ProjConcat(first, ports, FILTER, c);
    Proj1(first[0], c);
    Proj1(last[0], c);
    QuadAims(d, k, n, c);
    PortsProjIs(d, k, n, r.ports, c);
    PeersProjIs(inp, p.nets, d, k, n, r.peers, c);
  }

  lemma PortsProjIs(d: Dir, k: PolicyKey, n: nat, ports: seq<PortSpec>, c: ChainId)
    requires PortsOk(ports)
    ensures Proj(PortsReqs(d, k, n, ports), FILTER, c) ==
            if c == PolicyChain(d, k) then [Add(JumpRule(d, k, PortsChain(d, k, n)))]
            else if c == PortsChain(d, k, n) then Proj(PortsBody(d, k, n, ports), FILTER, c)
            else []
  {
    var head := [ChainReq(FILTER, PortsChain(d, k, n)), Add(JumpRule(d, k, PortsChain(d, k, n)))];
    ProjConcat(head, PortsBody(d, k, n, ports), FILTER, c);
    Proj2(head[0], head[1], c);
    PortsBodyOnly(d, k, n, ports);
    if c != PortsChain(d, k, n) {
      OnlyElsewhere(PortsBody(d, k, n, ports), PortsChain(d, k, n), c);
    }
  }

  lemma PeersProjIs(inp: Input, nets: seq<string>, d: Dir, k: PolicyKey, n: nat, peers: seq<PeerSpec>, c: ChainId)
    requires PeersOk(peers)
    ensures Proj(PeersReqs(inp, nets, d, k, n, peers), FILTER, c) ==
            if c == PolicyChain(d, k) then [Add(JumpRule(d, k, PeersChain(d, k, n)))]
            else if c == PeersChain(d, k, n) then Proj(PeersBody(inp, nets, d, k, n, peers), FILTER, c)
            else []
  {
    var head := [ChainReq(FILTER, PeersChain(d, k, n)), Add(JumpRule(d, k, PeersChain(d, k, n)))];
    ProjConcat(head, PeersBody(inp, nets, d, k, n, peers), FILTER, c);
    Proj2(head[0], head[1], c);
    PeersBodyOnly(inp, nets, d, k, n, peers);
    if c != PeersChain(d, k, n) {
      OnlyElsewhere(PeersBody(inp, nets, d, k, n, peers), PeersChain(d, k, n), c);
    }
  }

  // ------------------------------------------------------------ one policy

  /** The rule number a ports or peers chain belongs to. */
  function RuleListProj(inp: Input, p: PolicySpec, d: Dir, rs: seq<RuleSpec>, c: ChainId): seq<Req>
    requires RulesOk(rs)
  {
    if c == PolicyChain(d, p.key) then QuadListReqs(d, p.key, |rs|)
    else if (c.PortsChain? || c.PeersChain?) && c.dir == d && c.key == p.key && c.index < |rs| then
      RuleProj(inp, p, d, c.index, rs[c.index], c)
    else []
  }

  lemma {:induction false} RuleListProjIs(inp: Input, p: PolicySpec, d: Dir, rs: seq<RuleSpec>, c: ChainId)
    requires RulesOk(rs)
    ensures Proj(RuleListReqs(inp, p, d, rs), FILTER, c) == RuleListProj(inp, p, d, rs, c)
  {
    hide QuadReqs, PortsBody, PeersBody, RuleReqs, RuleOk, Proj;
    if rs == [] {
      ProjNone([], FILTER, c);
    } else {
      var n := |rs| - 1;
      RuleListProjIs(inp, p, d, rs[..n], c);
      RuleProjIs(inp, p, d, n, rs[n], c);
      ProjConcat(RuleListReqs(inp, p, d, rs[..n]), RuleReqs(inp, p, d, n, rs[n]), FILTER, c);
    }
  }

  lemma {:induction false} IfaceProj(d: Dir, k: PolicyKey, ifs: seq<Iface>, c: ChainId)
    ensures Proj(IfaceReqs(d, k, ifs), FILTER, c) == if c == EntryChain(d) then IfaceReqs(d, k, ifs) else []
  {
    if ifs != [] {
      var n := |ifs| - 1;
      IfaceProj(d, k, ifs[..n], c);
      ProjConcat(IfaceReqs(d, k, ifs[..n]), [Add(IfaceJump(d, k, ifs[n]))], FILTER, c);
      Proj1(Add(IfaceJump(d, k, ifs[n])), c);
    }
  }

  /** The requests of a policy for its entry chain. */
  function BlockReqsOf(inp: Input, p: PolicySpec, d: Dir): seq<Req> {
    IfaceReqs(d, p.key, OnNetworks(inp.ifs, p.nets)) + [Add(PolicyMark(d, p.key))]
  }

  function PolicyProj(inp: Input, p: PolicySpec, d: Dir, c: ChainId): seq<Req>
    requires RulesOk(RulesFor(p, d))
  {
    if c == EntryChain(d) then BlockReqsOf(inp, p, d) else RuleListProj(inp, p, d, RulesFor(p, d), c)
  }

  lemma PolicyProjIs(inp: Input, p: PolicySpec, d: Dir, c: ChainId)
    requires RulesOk(RulesFor(p, d))
    ensures Proj(PolicyReqs(inp, p, d), FILTER, c) == PolicyProj(inp, p, d, c)
  {
    hide RuleProj, QuadListReqs, RuleListReqs, IfaceReqs, Proj;
    var first, last := [ChainReq(FILTER, PolicyChain(d, p.key))], [Add(PolicyMark(d, p.key))];
    var ifaces := IfaceReqs(d, p.key, OnNetworks(inp.ifs, p.nets));
    var rules := RuleListReqs(inp, p, d, RulesFor(p, d));
    ProjConcat(first + ifaces + rules, last, FILTER, c);
    ProjConcat(first + ifaces, rules, FILTER, c);
    ProjConcat(first, ifaces, FILTER, c);
    Proj1(first[0], c);
    Proj1(last[0], c);
    IfaceProj(d, p.key, OnNetworks(inp.ifs, p.nets), c);
    RuleListProjIs(inp, p, d, RulesFor(p, d), c);
  }

  // ---------------------------------------------------------- all policies

  predicate DistinctKeys(ps: seq<PolicySpec>) {
    forall i, j :: 0 <= i < j < |ps| ==> ps[i].key != ps[j].key
  }

  function EntryReqs(inp: Input, ps: seq<PolicySpec>, d: Dir): seq<Req> {
    if ps == [] then [] else EntryReqs(inp, ps[..|ps| - 1], d) + BlockReqsOf(inp, ps[|ps| - 1], d)
  }

  /** The requests of a policy list for one chain, last policy apart. */
  lemma ListProjSnoc(inp: Input, ps: seq<PolicySpec>, d: Dir, c: ChainId)
    requires PoliciesOk(ps, d) && ps != []
    ensures var n := |ps| - 1;
            && PoliciesOk(ps[..n], d) && RulesOk(RulesFor(ps[n], d))
            && Proj(PolicyListReqs(inp, ps, d), FILTER, c) ==
               Proj(PolicyListReqs(inp, ps[..n], d), FILTER, c) + PolicyProj(inp, ps[n], d, c)
  {
    hide PolicyReqs, PolicyProj, RulesOk, Proj;
    var n := |ps| - 1;
    PolicyProjIs(inp, ps[n], d, c);
    ProjConcat(PolicyListReqs(inp, ps[..n], d), PolicyReqs(inp, ps[n], d), FILTER, c);
  }

  lemma NoPoliciesProj(inp: Input, d: Dir, c: ChainId)
    ensures PoliciesOk([], d) && Proj(PolicyListReqs(inp, [], d), FILTER, c) == []
  {
  }

  lemma {:induction false} EntryProj(inp: Input, ps: seq<PolicySpec>, d: Dir)
    requires PoliciesOk(ps, d)
    ensures Proj(PolicyListReqs(inp, ps, d), FILTER, EntryChain(d)) == EntryReqs(inp, ps, d)
  {
    hide BlockReqsOf, PolicyListReqs, Proj, RulesOk, RuleListProj;
    if ps == [] {
      NoPoliciesProj(inp, d, EntryChain(d));
    } else {
      ListProjSnoc(inp, ps, d, EntryChain(d));
      EntryProj(inp, ps[..|ps| - 1], d);
    }
  }

  /** The chain belongs to a policy with this key. */
  predicate BelongsTo(c: ChainId, d: Dir, k: PolicyKey) {
    (c.PolicyChain? || c.PortsChain? || c.PeersChain?) && c.dir == d && c.key == k
  }

  lemma NotMine(inp: Input, p: PolicySpec, d: Dir, c: ChainId)
    requires RulesOk(RulesFor(p, d)) && c != EntryChain(d) && !BelongsTo(c, d, p.key)
    ensures PolicyProj(inp, p, d, c) == []
  {
    hide RuleProj, QuadListReqs, RulesOk;
  }

  lemma {:induction false} ListProjNone(inp: Input, ps: seq<PolicySpec>, d: Dir, c: ChainId)
    requires PoliciesOk(ps, d) && c != EntryChain(d)
    requires forall i :: 0 <= i < |ps| ==> !BelongsTo(c, d, ps[i].key)
    ensures Proj(PolicyListReqs(inp, ps, d), FILTER, c) == []
  {
    hide PolicyListReqs, Proj, PolicyProj, RulesOk, BelongsTo;
    if ps == [] {
      NoPoliciesProj(inp, d, c);
    } else {
      var n := |ps| - 1;
      ListProjSnoc(inp, ps, d, c);
      ListProjNone(inp, ps[..n], d, c);
      NotMine(inp, ps[n], d, c);
    }
  }

  lemma {:induction false} ListProjOne(inp: Input, ps: seq<PolicySpec>, d: Dir, i: nat, c: ChainId)
    requires PoliciesOk(ps, d) && DistinctKeys(ps) && i < |ps| && BelongsTo(c, d, ps[i].key)
    ensures Proj(PolicyListReqs(inp, ps, d), FILTER, c) == RuleListProj(inp, ps[i], d, RulesFor(ps[i], d), c)
  {
    hide PolicyListReqs, Proj, BlockReqsOf, RuleListProj, RulesOk;
    var n := |ps| - 1;
    ListProjSnoc(inp, ps, d, c);
    if i < n {
      ListProjOne(inp, ps[..n], d, i, c);
      assert ps[i].key != ps[n].key;
      NotMine(inp, ps[n], d, c);
    } else {
      ListProjNone(inp, ps[..n], d, c);
    }
  }

  // ---------------------------------------------------- bootstrap and common

  lemma Proj7(a: Req, b: Req, c: Req, d: Req, e: Req, f: Req, g: Req, x: ChainId)
    requires !AimsAt(a, FILTER, x) && !AimsAt(d, FILTER, x) && !AimsAt(e, FILTER, x)
    ensures Proj([a, b, c, d, e, f, g], FILTER, x) ==
            (if AimsAt(b, FILTER, x) then [b] else []) + (if AimsAt(c, FILTER, x) then [c] else []) +
            ((if AimsAt(f, FILTER, x) then [f] else []) + (if AimsAt(g, FILTER, x) then [g] else []))
  {
    assert [a, b, c, d, e, f, g] == [a] + [b, c] + [d, e] + [f, g];
    ProjConcat([a] + [b, c] + [d, e], [f, g], FILTER, x);
    ProjConcat([a] + [b, c], [d, e], FILTER, x);
    ProjConcat([a], [b, c], FILTER, x);
    Proj1(a, x);
    Proj2(b, c, x);
    Proj2(d, e, x);
    Proj2(f, g, x);
  }

  lemma BootProj(ifs: seq<Iface>, c: ChainId)
    ensures Proj(BootReqs(ifs), FILTER, c) ==
            match c
            case BaseChain(InputHook) => [Insert(InterfaceFilter(Ingress))]
            case BaseChain(OutputHook) => [Insert(InterfaceFilter(Egress))]
            case EntryChain(d) => [Insert(CommonJump(d))]
            case _ => []
  {
    hide Then, Proj, IfKey;
    ProjConcat(BOOT_CHAINS, BootRules(ifs), FILTER, c);
    ProjNone(BOOT_CHAINS, FILTER, c);
    var r := BootRules(ifs);
    Proj7(r[0], r[1], r[2], r[3], r[4], r[5], r[6], c);
  }

  /** Every rule request is for one of the two common chains. */
  predicate InCommon(log: seq<Req>) {
    forall i :: 0 <= i < |log| && log[i].RuleReq? ==> log[i].rule.table == FILTER && log[i].rule.chain.CommonChain?
  }

  lemma IcmpOnly(cfg: Config)
    ensures InCommon(if cfg.icmp6 then [Add(Icmp(Ingress, true)), Add(Icmp(Egress, true))]
                     else NdpReqs(Ingress) + NdpReqs(Egress))
    ensures InCommon(if cfg.icmp then [Add(Icmp(Ingress, false)), Add(Icmp(Egress, false))] else [])
  {
    InCommonConcat(NdpReqs(Ingress), NdpReqs(Egress));
  }

  lemma PrefixOnly(d: Dir, ps: seq<Prefix>)
    ensures InCommon(PrefixReqs(d, ps))
  {
    InCommonConcat(PrefixFamilyReqs(d, ps, false), PrefixFamilyReqs(d, ps, true));
  }

  lemma CommonOnly(cfg: Config)
    requires ConfigOk(cfg)
    ensures InCommon(CommonReqs(cfg))
  {
    var a :=
      if cfg.icmp6 then [Add(Icmp(Ingress, true)), Add(Icmp(Egress, true))] else NdpReqs(Ingress) + NdpReqs(Egress);
    var b := if cfg.icmp then [Add(Icmp(Ingress, false)), Add(Icmp(Egress, false))] else [];
    var c, e := PrefixReqs(Ingress, Prefixes(cfg.src)), PrefixReqs(Egress, Prefixes(cfg.dst));
    var f := [Add(ConntrackRule(Ingress)), Add(ConntrackRule(Egress))];
    IcmpOnly(cfg);
    PrefixOnly(Ingress, Prefixes(cfg.src));
    PrefixOnly(Egress, Prefixes(cfg.dst));
    assert InCommon(f);
    hide InCommon, PrefixReqs, NdpReqs, Icmp, ConntrackRule;
    InCommonConcat(a, b);
    InCommonConcat(a + b, c);
    InCommonConcat(a + b + c, e);
    InCommonConcat(a + b + c + e, f);
  }

  lemma InCommonConcat(a: seq<Req>, b: seq<Req>)
    requires InCommon(a) && InCommon(b)
    ensures InCommon(a + b)
  {
  }

  lemma DirProj(inp: Input, d: Dir, force: bool, c: ChainId)
    requires PoliciesOk(PoliciesFor(inp, d), d)
    ensures Proj(DirReqs(inp, d, force), FILTER, c) ==
            if PoliciesFor(inp, d) == [] then []
            else Proj(PolicyListReqs(inp, PoliciesFor(inp, d), d), FILTER, c) +
                 if c == EntryChain(d) then [RuleReq(DropRest(d), false, force)] else []
  {
    hide PolicyListReqs;
    if PoliciesFor(inp, d) != [] {
      ProjConcat(PolicyListReqs(inp, PoliciesFor(inp, d), d), [RuleReq(DropRest(d), false, force)], FILTER, c);
      Proj1(RuleReq(DropRest(d), false, force), c);
    }
  }

  lemma PassProj(inp: Input, fi: bool, fe: bool, c: ChainId)
    requires InputOk(inp)
    ensures Proj(PassReqs(inp, fi, fe), FILTER, c) ==
            Proj(BootReqs(inp.ifs), FILTER, c) + Proj(CommonReqs(inp.cfg), FILTER, c) +
            Proj(DirReqs(inp, Ingress, fi), FILTER, c) + Proj(DirReqs(inp, Egress, fe), FILTER, c)
  {
    hide BootReqs, CommonReqs, DirReqs, Proj;
    var a, b := BootReqs(inp.ifs), CommonReqs(inp.cfg);
    var x, y := DirReqs(inp, Ingress, fi), DirReqs(inp, Egress, fe);
    ProjConcat(a + b + x, y, FILTER, c);
    ProjConcat(a + b, x, FILTER, c);
    ProjConcat(a, b, FILTER, c);
  }

  // ---------------------------------------------------- the chains of a pass

  function Flip(d: Dir): Dir {
    if d.Ingress? then Egress else Ingress
  }

  function DropReqs(inp: Input, d: Dir, force: bool): seq<Req> {
    if PoliciesFor(inp, d) == [] then [] else [RuleReq(DropRest(d), false, force)]
  }

  lemma OtherDirNone(inp: Input, d: Dir, force: bool, c: ChainId)
    requires PoliciesOk(PoliciesFor(inp, d), d)
    requires c != EntryChain(d) && forall k :: !BelongsTo(c, d, k)
    ensures Proj(DirReqs(inp, d, force), FILTER, c) == []
  {
    hide PolicyListReqs, DirReqs, Proj;
    DirProj(inp, d, force, c);
    ListProjNone(inp, PoliciesFor(inp, d), d, c);
  }

  lemma CommonElsewhere(cfg: Config, c: ChainId)
    requires ConfigOk(cfg) && !c.CommonChain?
    ensures Proj(CommonReqs(cfg), FILTER, c) == []
  {
    CommonOnly(cfg);
    ProjNone(CommonReqs(cfg), FILTER, c);
  }

  lemma InputParts(inp: Input, d: Dir)
    requires InputOk(inp)
    ensures ConfigOk(inp.cfg) && PoliciesOk(PoliciesFor(inp, d), d)
  {
  }

  /** The chains of one direction get requests from the bootstrap and from that
      direction only. */
  lemma DirLayout(inp: Input, fi: bool, fe: bool, d: Dir, c: ChainId)
    requires InputOk(inp) && PoliciesOk(PoliciesFor(inp, d), d) && !c.CommonChain?
    requires c != EntryChain(Flip(d)) && forall k :: !BelongsTo(c, Flip(d), k)
    ensures Proj(PassReqs(inp, fi, fe), FILTER, c) ==
            Proj(BootReqs(inp.ifs), FILTER, c) + Proj(DirReqs(inp, d, if d.Ingress? then fi else fe), FILTER, c)
  {
    hide PassReqs, BootReqs, CommonReqs, DirReqs, Proj, InputOk, PoliciesOk, ConfigOk, BelongsTo;
    InputParts(inp, Ingress);
    InputParts(inp, Egress);
    PassProj(inp, fi, fe, c);
    CommonElsewhere(inp.cfg, c);
    OtherDirNone(inp, Flip(d), if d.Ingress? then fe else fi, c);
  }

  lemma ApartDirs(c: ChainId, d: Dir, k: PolicyKey)
    requires c == EntryChain(d) || BelongsTo(c, d, k)
    ensures c != EntryChain(Flip(d)) && (forall k :: !BelongsTo(c, Flip(d), k)) && !c.CommonChain?
  {
  }

  /** Entry chain: the common jump, a block per policy, the final drop. */
  lemma EntryLayout(inp: Input, fi: bool, fe: bool, d: Dir)
    requires InputOk(inp)
    ensures Proj(PassReqs(inp, fi, fe), FILTER, EntryChain(d)) ==
            [Insert(CommonJump(d))] + EntryReqs(inp, PoliciesFor(inp, d), d) +
            DropReqs(inp, d, if d.Ingress? then fi else fe)
  {
    var c, force := EntryChain(d), if d.Ingress? then fi else fe;
    InputParts(inp, d);
    ApartDirs(c, d, PolicyKey("", ""));
    BootProj(inp.ifs, c);
    hide PassReqs, BootReqs, DirReqs, Proj, PolicyListReqs, CommonJump, DropRest, EntryReqs, InputOk, PoliciesOk,
         BelongsTo;
    DirLayout(inp, fi, fe, d, c);
    DirProj(inp, d, force, c);
    EntryProj(inp, PoliciesFor(inp, d), d);
    EntrySum(inp, d, force);
  }

  lemma EntrySum(inp: Input, d: Dir, force: bool)
    ensures var list := EntryReqs(inp, PoliciesFor(inp, d), d);
            [Insert(CommonJump(d))] + (if PoliciesFor(inp, d) == [] then []
                                       else list + [RuleReq(DropRest(d), false, force)]) ==
            [Insert(CommonJump(d))] + list + DropReqs(inp, d, force)
  {
    hide CommonJump, DropRest;
  }

  /** The chains of a policy get requests from the policy list only. */
  lemma OwnedLayout(inp: Input, fi: bool, fe: bool, d: Dir, k: PolicyKey, c: ChainId)
    requires InputOk(inp) && BelongsTo(c, d, k)
    ensures PoliciesOk(PoliciesFor(inp, d), d)
    ensures Proj(PassReqs(inp, fi, fe), FILTER, c) == Proj(PolicyListReqs(inp, PoliciesFor(inp, d), d), FILTER, c)
  {
    hide PassReqs, BootReqs, DirReqs, Proj, PolicyListReqs, InputOk, PoliciesOk;
    InputParts(inp, d);
    ApartDirs(c, d, k);
    BootNone(inp.ifs, c);
    DirLayout(inp, fi, fe, d, c);
    DirProj(inp, d, if d.Ingress? then fi else fe, c);
    NoPoliciesProj(inp, d, c);
  }

  lemma BootNone(ifs: seq<Iface>, c: ChainId)
    requires !c.BaseChain? && !c.EntryChain?
    ensures Proj(BootReqs(ifs), FILTER, c) == []
  {
    hide BootReqs, InterfaceFilter, CommonJump, Proj;
    BootProj(ifs, c);
  }

  /** Chains of policies that are not selected get nothing. */
  lemma StaleLayout(inp: Input, fi: bool, fe: bool, d: Dir, k: PolicyKey, c: ChainId)
    requires InputOk(inp) && BelongsTo(c, d, k)
    requires forall i :: 0 <= i < |PoliciesFor(inp, d)| ==> PoliciesFor(inp, d)[i].key != k
    ensures Proj(PassReqs(inp, fi, fe), FILTER, c) == []
  {
    hide PassReqs, Proj, PolicyListReqs, InputOk, PoliciesOk;
    OwnedLayout(inp, fi, fe, d, k, c);
    ListProjNone(inp, PoliciesFor(inp, d), d, c);
  }

  /** Chains of a selected policy get exactly what that policy asks for. */
  lemma PolicyLayout(inp: Input, fi: bool, fe: bool, d: Dir, i: nat, c: ChainId)
    requires InputOk(inp) && DistinctKeys(PoliciesFor(inp, d)) && i < |PoliciesFor(inp, d)|
    requires BelongsTo(c, d, PoliciesFor(inp, d)[i].key)
    ensures var p := PoliciesFor(inp, d)[i];
            RulesOk(RulesFor(p, d)) && Proj(PassReqs(inp, fi, fe), FILTER, c) ==
            RuleListProj(inp, p, d, RulesFor(p, d), c)
  {
    hide PassReqs, Proj, PolicyListReqs, RuleListProj, InputOk, RulesOk;
    OwnedLayout(inp, fi, fe, d, PoliciesFor(inp, d)[i].key, c);
    ListProjOne(inp, PoliciesFor(inp, d), d, i, c);
  }

  lemma CommonLayout(inp: Input, fi: bool, fe: bool, d: Dir)
    requires InputOk(inp)
    ensures Proj(PassReqs(inp, fi, fe), FILTER, CommonChain(d)) == Proj(CommonReqs(inp.cfg), FILTER, CommonChain(d))
  {
    hide PassReqs, BootReqs, CommonReqs, DirReqs, Proj, PolicyListReqs, InterfaceFilter, CommonJump, RuleListProj;
    var c := CommonChain(d);
    PassProj(inp, fi, fe, c);
    BootProj(inp.ifs, c);
    OtherDirNone(inp, Ingress, fi, c);
    OtherDirNone(inp, Egress, fe, c);
  }

  lemma BaseLayout(inp: Input, fi: bool, fe: bool, d: Dir)
    requires InputOk(inp)
    ensures Proj(PassReqs(inp, fi, fe), FILTER, BaseChain(HookOf(d))) == [Insert(InterfaceFilter(d))]
  {
    hide PassReqs, BootReqs, CommonReqs, DirReqs, Proj, PolicyListReqs, InterfaceFilter, CommonJump, RuleListProj;
    var c := BaseChain(HookOf(d));
    PassProj(inp, fi, fe, c);
    BootProj(inp.ifs, c);
    CommonElsewhere(inp.cfg, c);
    OtherDirNone(inp, Ingress, fi, c);
    OtherDirNone(inp, Egress, fe, c);
  }
}
