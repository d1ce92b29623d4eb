/** Which elements a pass wants in which set: every request for a set agrees
    with a single meaning of that set. */
module SetLayout {
  import opened Ids
  import opened Machine
  import opened Intervals
  import opened Policies
  import opened Reconcile
  import opened Compile
  import opened Layout

  /** The index of the policy with key k, or the length of the list. */
  function PolicyAt(ps: seq<PolicySpec>, k: PolicyKey): (i: nat)
    ensures i <= |ps| && (i < |ps| ==> ps[i].key == k)
  {
    if ps == [] then 0
    else
      var i := PolicyAt(ps[..|ps| - 1], k);
      if i < |ps| - 1 then i else if ps[|ps| - 1].key == k then |ps| - 1 else |ps|
  }

  lemma {:induction false} PolicyAtFinds(ps: seq<PolicySpec>, i: nat)
    requires DistinctKeys(ps) && i < |ps|
    ensures PolicyAt(ps, ps[i].key) == i
  {
    var n := |ps| - 1;
    if i < n {
      PolicyAtFinds(ps[..n], i);
    }
  }

  const NO_SET := SetObj(false, false, "", {})

  function Holding(interval: bool, es: set<Elem>): SetObj {
    SetObj(interval, false, "", es)
  }

  /** The meaning of a set that belongs to rule n of a policy. */
  function RuleSet(inp: Input, p: PolicySpec, r: RuleSpec, s: SetId): SetObj
    requires RuleOk(r)
  {
    match s
    case PortsSet(_, _, _, proto) => Holding(true, Elems(Encode(ProtoRanges(r.ports, proto), MAX_PORT + 1)))
    case BlockSet(_, _, _, j, v6) =>
      if j < |r.peers| && r.peers[j].block.Some?
      then Holding(true, Elems(PrefixElems([r.peers[j].block.value.cidr.prefix], v6)))
      else NO_SET
    case ExceptSet(_, _, _, j, v6) =>
      if j < |r.peers| && r.peers[j].block.Some?
      then Holding(true, Elems(PrefixElems(Prefixes(r.peers[j].block.value.except), v6)))
      else NO_SET
    case SelectorSet(_, _, _, j, v6, _) =>
      if j < |r.peers| then Holding(false, FamilyElems(SelectorAddrs(inp.view, inp.ifs, p.nets, r.peers[j]), v6))
      else NO_SET
    case _ => NO_SET
  }

  predicate RuleOwned(s: SetId) {
    s.PortsSet? || s.BlockSet? || s.ExceptSet? || s.SelectorSet?
  }

  function PolicySet(inp: Input, p: PolicySpec, d: Dir, s: SetId): SetObj
    requires RulesOk(RulesFor(p, d)) && RuleOwned(s)
  {
    if s.index < |RulesFor(p, d)| then RuleSet(inp, p, RulesFor(p, d)[s.index], s) else NO_SET
  }

  function Meaning(inp: Input, t: TableId, s: SetId): SetObj
    requires InputOk(inp)
  {
    match s
    case PodInterfaces =>
      SetObj(false, false, if t == FILTER then "Pod interfaces" else "Pod interfaces NAT", IfaceElems(inp.ifs))
    case NdpTypes => Holding(false, NDP_ELEMS)
    case CommonSet(d, v6) => Holding(true, Elems(PrefixElems(Prefixes(CommonCidrs(inp.cfg, d)), v6)))
    case OtherSet(_) => NO_SET
    case _ =>
      var ps := PoliciesFor(inp, s.dir);
      var i := PolicyAt(ps, s.key);
      if i < |ps| then PolicySet(inp, ps[i], s.dir, s) else NO_SET
  }

  // ------------------------------------------------------------- agreement

  /** Set requests of a list belong to rule n of a policy and mean what they say. */
  predicate RuleMeans(log: seq<Req>, inp: Input, p: PolicySpec, d: Dir, n: nat, r: RuleSpec)
    requires RuleOk(r)
  {
    forall i :: 0 <= i < |log| && log[i].SetReq? ==>
      && log[i].t == FILTER && RuleOwned(log[i].s)
      && log[i].s.dir == d && log[i].s.key == p.key && log[i].s.index == n
      && log[i].obj == RuleSet(inp, p, r, log[i].s)
  }

  lemma RuleMeansJoin(a: seq<Req>, b: seq<Req>, inp: Input, p: PolicySpec, d: Dir, n: nat, r: RuleSpec)
    requires RuleOk(r) && RuleMeans(a, inp, p, d, n, r) && RuleMeans(b, inp, p, d, n, r)
    ensures RuleMeans(a + b, inp, p, d, n, r)
  {
    hide RuleSet;
  }

  lemma PortsMean(inp: Input, p: PolicySpec, d: Dir, n: nat, r: RuleSpec)
    requires RuleOk(r)
    ensures RuleMeans(PortsReqs(d, p.key, n, r.ports), inp, p, d, n, r)
  {
    hide Encode, ProtoRanges, PortsRule;
    var head := [ChainReq(FILTER, PortsChain(d, p.key, n)), Add(JumpRule(d, p.key, PortsChain(d, p.key, n)))];
    var a, b, s := ProtoReqs(d, p.key, n, r.ports, TCP), ProtoReqs(d, p.key, n, r.ports, UDP),
                   ProtoReqs(d, p.key, n, r.ports, SCTP);
    var all := if NoRanges(r.ports) then [Add(AllPorts(d, p.key, n))] else [];
    RuleMeansJoin(a, b, inp, p, d, n, r);
    RuleMeansJoin(a + b, s, inp, p, d, n, r);
    RuleMeansJoin(a + b + s, all, inp, p, d, n, r);
    RuleMeansJoin(head, PortsBody(d, p.key, n, r.ports), inp, p, d, n, r);
  }

  lemma PeerMeans(inp: Input, p: PolicySpec, d: Dir, n: nat, r: RuleSpec, j: nat)
    requires RuleOk(r) && j < |r.peers|
    ensures RuleMeans(PeerReqs(inp, p.nets, d, p.key, n, j, r.peers[j]), inp, p, d, n, r)
  {
    hide PrefixElems, SelectorAddrs, Prefixes, BlockRule, ExceptRule, SelectorRule;
  }

  lemma {:induction false} PeerListMeans(inp: Input, p: PolicySpec, d: Dir, n: nat, r: RuleSpec, j: nat)
    requires RuleOk(r) && j <= |r.peers|
    ensures PeersOk(r.peers[..j]) && RuleMeans(PeerListReqs(inp, p.nets, d, p.key, n, r.peers[..j]), inp, p, d, n, r)
  {
    hide PeerReqs, RuleSet;
    if j > 0 {
      PeerListMeans(inp, p, d, n, r, j - 1);
      PeerMeans(inp, p, d, n, r, j - 1);
      assert r.peers[..j][..j - 1] == r.peers[..j - 1];
      RuleMeansJoin(PeerListReqs(inp, p.nets, d, p.key, n, r.peers[..j - 1]),
                    PeerReqs(inp, p.nets, d, p.key, n, j - 1, r.peers[j - 1]), inp, p, d, n, r);
    }
  }

  lemma RuleReqsMean(inp: Input, p: PolicySpec, d: Dir, n: nat, r: RuleSpec)
    requires RuleOk(r)
    ensures RuleMeans(RuleReqs(inp, p, d, n, r), inp, p, d, n, r)
  {
    hide RuleSet, PortsReqs, PeerListReqs, ResetRule, ReturnRule, JumpRule, AllPeers;
    var k := p.key;
    var first, last := [Add(ResetRule(d, k, n))], [Add(ReturnRule(d, k, n))];
    var head := [ChainReq(FILTER, PeersChain(d, k, n)), Add(JumpRule(d, k, PeersChain(d, k, n)))];
    var list := PeerListReqs(inp, p.nets, d, k, n, r.peers);
    var all := if r.peers == [] then [Add(AllPeers(d, k, n))] else [];
    PortsMean(inp, p, d, n, r);
    PeerListMeans(inp, p, d, n, r, |r.peers|);
    assert r.peers[..|r.peers|] == r.peers;
    RuleMeansJoin(list, all, inp, p, d, n, r);
    RuleMeansJoin(head, list + all, inp, p, d, n, r);
    RuleMeansJoin(first, PortsReqs(d, k, n, r.ports), inp, p, d, n, r);
    RuleMeansJoin(first + PortsReqs(d, k, n, r.ports), head + (list + all), inp, p, d, n, r);
    RuleMeansJoin(first + PortsReqs(d, k, n, r.ports) + (head + (list + all)), last, inp, p, d, n, r);
  }

  /** Set requests of a list belong to a policy and mean what they say. */
  predicate PolicyMeans(log: seq<Req>, inp: Input, p: PolicySpec, d: Dir)
    requires RulesOk(RulesFor(p, d))
  {
    forall i :: 0 <= i < |log| && log[i].SetReq? ==>
      && log[i].t == FILTER && RuleOwned(log[i].s)
      && log[i].s.dir == d && log[i].s.key == p.key
      && log[i].obj == PolicySet(inp, p, d, log[i].s)
  }

  lemma PolicyMeansJoin(a: seq<Req>, b: seq<Req>, inp: Input, p: PolicySpec, d: Dir)
    requires RulesOk(RulesFor(p, d)) && PolicyMeans(a, inp, p, d) && PolicyMeans(b, inp, p, d)
    ensures PolicyMeans(a + b, inp, p, d)
  {
    hide PolicySet;
  }

  lemma {:induction false} RuleListMeans(inp: Input, p: PolicySpec, d: Dir, n: nat)
    requires RulesOk(RulesFor(p, d)) && n <= |RulesFor(p, d)|
    ensures RulesOk(RulesFor(p, d)[..n]) && PolicyMeans(RuleListReqs(inp, p, d, RulesFor(p, d)[..n]), inp, p, d)
  {
    hide RuleReqs, RuleSet;
    if n > 0 {
      var rs := RulesFor(p, d);
      RuleListMeans(inp, p, d, n - 1);
      RuleReqsMean(inp, p, d, n - 1, rs[n - 1]);
      assert rs[..n][..n - 1] == rs[..n - 1];
      var q := RuleReqs(inp, p, d, n - 1, rs[n - 1]);
      assert PolicyMeans(q, inp, p, d);
      PolicyMeansJoin(RuleListReqs(inp, p, d, rs[..n - 1]), q, inp, p, d);
    }
  }

  lemma {:induction false} IfacesMean(inp: Input, p: PolicySpec, d: Dir, ifs: seq<Iface>)
    requires RulesOk(RulesFor(p, d))
    ensures PolicyMeans(IfaceReqs(d, p.key, ifs), inp, p, d)
  {
    hide IfaceJump, PolicySet;
    if ifs != [] {
      IfacesMean(inp, p, d, ifs[..|ifs| - 1]);
    }
  }

  lemma PolicyReqsMean(inp: Input, p: PolicySpec, d: Dir)
    requires RulesOk(RulesFor(p, d))
    ensures PolicyMeans(PolicyReqs(inp, p, d), inp, p, d)
  {
    hide PolicySet, RuleListReqs, IfaceReqs, PolicyMark, OnNetworks;
    var first, last := [ChainReq(FILTER, PolicyChain(d, p.key))], [Add(PolicyMark(d, p.key))];
    var ifaces := IfaceReqs(d, p.key, OnNetworks(inp.ifs, p.nets));
    var rules := RuleListReqs(inp, p, d, RulesFor(p, d));
    IfacesMean(inp, p, d, OnNetworks(inp.ifs, p.nets));
    RuleListMeans(inp, p, d, |RulesFor(p, d)|);
    assert RulesFor(p, d)[..|RulesFor(p, d)|] == RulesFor(p, d);
    PolicyMeansJoin(first, ifaces, inp, p, d);
    PolicyMeansJoin(first + ifaces, rules, inp, p, d);
    PolicyMeansJoin(first + ifaces + rules, last, inp, p, d);
  }

  /** Every set request of the list asks for the meaning of its set. */
  predicate Means(log: seq<Req>, inp: Input)
    requires InputOk(inp)
  {
    forall i :: 0 <= i < |log| && log[i].SetReq? ==> log[i].obj == Meaning(inp, log[i].t, log[i].s)
  }

  lemma MeansJoin(a: seq<Req>, b: seq<Req>, inp: Input)
    requires InputOk(inp) && Means(a, inp) && Means(b, inp)
    ensures Means(a + b, inp)
  {
    hide Meaning;
  }

  lemma PolicyMeansMeans(log: seq<Req>, inp: Input, d: Dir, i: nat)
    requires InputOk(inp) && DistinctKeys(PoliciesFor(inp, d)) && i < |PoliciesFor(inp, d)|
    requires PolicyMeans(log, inp, PoliciesFor(inp, d)[i], d)
    ensures Means(log, inp)
  {
    hide PolicySet;
    PolicyAtFinds(PoliciesFor(inp, d), i);
  }

  lemma {:induction false} PolicyListMeans(inp: Input, d: Dir, n: nat)
    requires InputOk(inp) && DistinctKeys(PoliciesFor(inp, d)) && n <= |PoliciesFor(inp, d)|
    ensures PoliciesOk(PoliciesFor(inp, d)[..n], d) && Means(PolicyListReqs(inp, PoliciesFor(inp, d)[..n], d), inp)
  {
    hide PolicyReqs, Meaning, PolicySet;
    if n > 0 {
      var ps := PoliciesFor(inp, d);
      PolicyListMeans(inp, d, n - 1);
      PolicyReqsMean(inp, ps[n - 1], d);
      PolicyMeansMeans(PolicyReqs(inp, ps[n - 1], d), inp, d, n - 1);
      assert ps[..n][..n - 1] == ps[..n - 1];
      MeansJoin(PolicyListReqs(inp, ps[..n - 1], d), PolicyReqs(inp, ps[n - 1], d), inp);
    }
  }

  lemma DirMeans(inp: Input, d: Dir, force: bool)
    requires InputOk(inp) && DistinctKeys(PoliciesFor(inp, d))
    ensures Means(DirReqs(inp, d, force), inp)
  {
    hide Meaning, PolicyListReqs, DropRest;
    var ps := PoliciesFor(inp, d);
    PolicyListMeans(inp, d, |ps|);
    assert ps[..|ps|] == ps;
    MeansJoin(PolicyListReqs(inp, ps, d), [RuleReq(DropRest(d), false, force)], inp);
  }

  lemma PrefixMeans(inp: Input, d: Dir)
    requires InputOk(inp)
    ensures Means(PrefixReqs(d, Prefixes(CommonCidrs(inp.cfg, d))), inp)
  {
    hide PrefixElems, Prefixes, CommonPrefix;
  }

  lemma IcmpMeans(inp: Input)
    requires InputOk(inp)
    ensures Means(if inp.cfg.icmp6 then [Add(Icmp(Ingress, true)), Add(Icmp(Egress, true))]
                  else NdpReqs(Ingress) + NdpReqs(Egress), inp)
    ensures Means(if inp.cfg.icmp then [Add(Icmp(Ingress, false)), Add(Icmp(Egress, false))] else [], inp)
    ensures Means([Add(ConntrackRule(Ingress)), Add(ConntrackRule(Egress))], inp)
  {
    hide Icmp, ConntrackRule, Ndp, InputOk, NDP_ELEMS;
  }

  lemma CommonMeans(inp: Input)
    requires InputOk(inp)
    ensures Means(CommonReqs(inp.cfg), inp)
  {
    hide Means, PrefixReqs, NdpReqs, Icmp, ConntrackRule;
    var cfg := inp.cfg;
    var a :=
      if cfg.icmp6 then [Add(Icmp(Ingress, true)), Add(Icmp(Egress, true))] else NdpReqs(Ingress) + NdpReqs(Egress);
    var b := if cfg.icmp then [Add(Icmp(Ingress, false)), Add(Icmp(Egress, false))] else [];
    var c, e := PrefixReqs(Ingress, Prefixes(cfg.src)), PrefixReqs(Egress, Prefixes(cfg.dst));
    var f := [Add(ConntrackRule(Ingress)), Add(ConntrackRule(Egress))];
    IcmpMeans(inp);
    PrefixMeans(inp, Ingress);
    PrefixMeans(inp, Egress);
    MeansJoin(a, b, inp);
    MeansJoin(a + b, c, inp);
    MeansJoin(a + b + c, e, inp);
    MeansJoin(a + b + c + e, f, inp);
  }

  lemma BootMeans(inp: Input)
    requires InputOk(inp)
    ensures Means(BootReqs(inp.ifs), inp)
  {
    hide InterfaceFilter, CommonJump, IfaceElems;
    assert Means(BootRules(inp.ifs), inp);
    MeansJoin(BOOT_CHAINS, BootRules(inp.ifs), inp);
  }

  predicate DistinctPolicies(inp: Input) {
    DistinctKeys(inp.ingress) && DistinctKeys(inp.egress)
  }

  /** In a pass, every request for a set asks for the meaning of that set. */
  lemma PassMeans(inp: Input, fi: bool, fe: bool)
    requires InputOk(inp) && DistinctPolicies(inp)
    ensures Means(PassReqs(inp, fi, fe), inp)
  {
    hide Meaning, BootReqs, CommonReqs, DirReqs;
    BootMeans(inp);
    CommonMeans(inp);
    DirMeans(inp, Ingress, fi);
    DirMeans(inp, Egress, fe);
    var a, b := BootReqs(inp.ifs), CommonReqs(inp.cfg);
    var x, y := DirReqs(inp, Ingress, fi), DirReqs(inp, Egress, fe);
    MeansJoin(a, b, inp);
    MeansJoin(a + b, x, inp);
    MeansJoin(a + b + x, y, inp);
  }
}
