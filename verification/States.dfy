/** Rulesets that realize an input, and the verdict they give. */
module States {
  import opened Ids
  import opened Marks
  import opened Machine
  import opened Identity
  import opened Intervals
  import opened Elements
  import opened Kernel
  import opened Reconcile
  import opened Flush
  import opened Cleanup
  import opened Policies
  import opened Compile
  import opened Requests
  import opened Layout
  import opened SetLayout
  import opened Exact
  import opened Passes
  import opened Walks
  import opened Targets
  import M = Meanings
  import Effects

  // -------------------------------------------------- a realized policy rule

  /** The chains and sets of one policy rule.  Without excepts the order of the
      peers chain does not matter. */
  ghost predicate RuleRealized(t: Table, inp: Input, p: PolicySpec, d: Dir, n: nat, r: RuleSpec, pkt: Packet)
    requires RuleOk(r)
  {
    && M.Matching(Shape(Chain(t, PortsChain(d, p.key, n))), M.PortsRules(d, p.key, n, r.ports))
    && M.PortSetsRight(t, d, p.key, n, r.ports, pkt)
    && (forall j :: 0 <= j < |r.peers| ==> M.PeerSetsRight(t, inp, p.nets, d, p.key, n, j, r.peers[j], pkt))
    && var s, want := Shape(Chain(t, PeersChain(d, p.key, n))), M.PeersRules(inp, p.nets, d, p.key, n, r.peers);
       s == want || (RuleNoExcept(r) && M.Matching(s, want))
  }

  ghost predicate PolicyRealized(t: Table, inp: Input, p: PolicySpec, d: Dir, pkt: Packet)
    requires RulesOk(RulesFor(p, d))
  {
    && Shape(Chain(t, PolicyChain(d, p.key))) == Quads(d, p.key, |RulesFor(p, d)|)
    && forall n :: 0 <= n < |RulesFor(p, d)| ==> RuleRealized(t, inp, p, d, n, RulesFor(p, d)[n], pkt)
  }

  /** The encodings of a rule are exact for the packet. */
  ghost predicate RuleExact(r: RuleSpec, d: Dir, pkt: Packet)
    requires RuleOk(r)
  {
    M.PortsExact(r.ports, pkt) && forall j :: 0 <= j < |r.peers| ==> M.PeerExact(r.peers[j], d, pkt)
  }

  ghost predicate PolicyExact(p: PolicySpec, d: Dir, pkt: Packet)
    requires RulesOk(RulesFor(p, d))
  {
    forall n :: 0 <= n < |RulesFor(p, d)| ==> RuleExact(RulesFor(p, d)[n], d, pkt)
  }

  ghost predicate PoliciesExact(ps: seq<PolicySpec>, d: Dir, pkt: Packet)
    requires PoliciesOk(ps, d)
  {
    forall i :: 0 <= i < |ps| ==> PolicyExact(ps[i], d, pkt)
  }

  /** The port and prefix lists that concern the packet represent it exactly. */
  ghost predicate InputExact(inp: Input, d: Dir, pkt: Packet)
    requires InputOk(inp)
  {
    && M.CommonExact(inp.cfg, d, pkt)
    && forall i :: 0 <= i < |PoliciesFor(inp, d)| ==>
         RulesOk(RulesFor(PoliciesFor(inp, d)[i], d)) && PolicyExact(PoliciesFor(inp, d)[i], d, pkt)
  }

  /** Lists whose encodings are exact for every packet. */
  ghost predicate RuleSpaced(r: RuleSpec)
    requires RuleOk(r)
  {
    && M.PortsSpaced(r.ports)
    && forall j :: 0 <= j < |r.peers| ==> PeerSpaced(r.peers[j])
  }

  ghost predicate PeerSpaced(peer: PeerSpec)
    requires PeerOk(peer)
  {
    peer.block.Some? ==> M.PrefixesSpaced(Prefixes(peer.block.value.except), peer.block.value.cidr.prefix.v6)
  }

  ghost predicate InputSpaced(inp: Input, d: Dir)
    requires InputOk(inp)
  {
    && (forall v6: bool :: M.PrefixesSpaced(Prefixes(CommonCidrs(inp.cfg, d)), v6))
    && forall i, n :: 0 <= i < |PoliciesFor(inp, d)| && 0 <= n < |RulesFor(PoliciesFor(inp, d)[i], d)| ==>
         RuleOk(RulesFor(PoliciesFor(inp, d)[i], d)[n]) && RuleSpaced(RulesFor(PoliciesFor(inp, d)[i], d)[n])
  }

  lemma SpacedRuleExact(r: RuleSpec, d: Dir, pkt: Packet)
    requires RuleOk(r) && RuleSpaced(r) && ValidPacket(pkt)
    ensures RuleExact(r, d, pkt)
  {
    hide M.PortsSpaced, M.PortsExact, M.PrefixesSpaced, M.PrefixesExact, Top;
    M.SpacedExactly(r.ports);
    forall j | 0 <= j < |r.peers| ensures M.PeerExact(r.peers[j], d, pkt) {
      assert PeerOk(r.peers[j]) && PeerSpaced(r.peers[j]);
      if r.peers[j].block.Some? {
        M.PrefixesSpacedExactly(Prefixes(r.peers[j].block.value.except), r.peers[j].block.value.cidr.prefix.v6);
      }
    }
  }

  /** Well-spaced lists, disjoint ones among them, are exact for every packet. */
  lemma SpacedInputExact(inp: Input, d: Dir, pkt: Packet)
    requires InputOk(inp) && InputSpaced(inp, d) && ValidPacket(pkt)
    ensures InputExact(inp, d, pkt)
  {
    hide RuleSpaced, RuleExact, M.PrefixesSpaced, M.PrefixesExact, Top;
    M.PrefixesSpacedExactly(Prefixes(CommonCidrs(inp.cfg, d)), pkt.v6);
    var ps := PoliciesFor(inp, d);
    forall i | 0 <= i < |ps| ensures RulesOk(RulesFor(ps[i], d)) && PolicyExact(ps[i], d, pkt) {
      forall n | 0 <= n < |RulesFor(ps[i], d)| ensures RuleExact(RulesFor(ps[i], d)[n], d, pkt) {
        assert RuleSpaced(RulesFor(PoliciesFor(inp, d)[i], d)[n]);
        SpacedRuleExact(RulesFor(ps[i], d)[n], d, pkt);
      }
    }
  }

  lemma RuleDecides(t: Table, inp: Input, p: PolicySpec, d: Dir, n: nat, r: RuleSpec, pkt: Packet)
    requires RuleOk(r) && RuleRealized(t, inp, p, d, n, r, pkt) && RuleExact(r, d, pkt) && ValidPacket(pkt)
    ensures PortsRight(t, pkt, PortsChain(d, p.key, n), PortsMatch(r.ports, pkt))
    ensures PeersRight(t, pkt, PeersChain(d, p.key, n), M.RuleOutcome(inp, p.nets, r.peers, d, pkt))
    ensures DecideRule(inp, p.nets, r, d, pkt) ==
            Combine(M.RuleOutcome(inp, p.nets, r.peers, d, pkt), PortsMatch(r.ports, pkt))
  {
    hide M.PortsRules, M.PeersRules, M.PortSetsRight, M.PeerSetsRight, M.PeerExact, M.PortsExact, PortsMatch,
         PeersOutcome, PortsRight, PeersRight, M.Matching;
    M.PortsChainRight(t, pkt, d, p.key, n, r.ports);
    assert M.AllPeersRight(t, inp, pkt, p.nets, d, p.key, n, r.peers);
    if Shape(Chain(t, PeersChain(d, p.key, n))) == M.PeersRules(inp, p.nets, d, p.key, n, r.peers) {
      M.PeersChainInOrder(t, inp, pkt, p.nets, d, p.key, n, r.peers);
    } else {
      M.PeersChainAnyOrder(t, inp, pkt, p.nets, d, p.key, n, r.peers);
    }
  }

  lemma {:induction false} FirstIsDecide(inp: Input, nets: seq<string>, rs: seq<RuleSpec>, d: Dir, pkt: Packet,
                                         xs: seq<Decision>)
    requires RulesOk(rs) && |xs| == |rs|
    requires forall n :: 0 <= n < |rs| ==> xs[n] == DecideRule(inp, nets, rs[n], d, pkt)
    ensures FirstDecision(xs) == DecideRules(inp, nets, rs, d, pkt)
  {
    hide DecideRule;
    if rs != [] {
      FirstIsDecide(inp, nets, rs[1..], d, pkt, xs[1..]);
      FirstFront(xs);
    }
  }

  /** The first decision, taken from the front. */
  lemma {:induction false} FirstFront(xs: seq<Decision>)
    requires xs != []
    ensures FirstDecision(xs) == if xs[0].Next? then FirstDecision(xs[1..]) else xs[0]
  {
    var n := |xs| - 1;
    if n == 0 {
      assert xs[..n] == [] && xs[1..] == [];
    } else {
      FirstFront(xs[..n]);
      assert xs[..n][1..] == xs[1..][..n - 1];
    }
  }

  /** A policy chain in rule order takes the first decision of its rules. */
  lemma PolicyFromRules(t: Table, pkt: Packet, d: Dir, k: PolicyKey, ports: seq<bool>, os: seq<Outcome>,
                        xs: seq<Decision>)
    requires |ports| == |os| == |xs| && Shape(Chain(t, PolicyChain(d, k))) == Quads(d, k, |xs|)
    requires forall n :: 0 <= n < |os| ==> PortsRight(t, pkt, PortsChain(d, k, n), ports[n])
    requires forall n :: 0 <= n < |os| ==> PeersRight(t, pkt, PeersChain(d, k, n), os[n])
    requires forall n :: 0 <= n < |os| ==> xs[n] == Combine(os[n], ports[n])
    ensures PolicyRight(t, pkt, PolicyChain(d, k), FirstDecision(xs))
    ensures PolicyActs(t, pkt, PolicyChain(d, k), FirstDecision(xs), |xs|)
  {
    hide PortsRight, PeersRight, Combine, Walk, Rules, FirstDecision, ChainOut, PolicyOut, Quads;
    var c := PolicyChain(d, k);
    forall m, depth: nat | depth > 0
      ensures PolicyOut(Walk(t, pkt, Rules(t, c), m, depth), m, FirstDecision(xs))
      ensures ChainOut(Walk(t, pkt, Rules(t, c), m, depth), m, FirstDecision(xs), |xs|)
    {
      ShapeWalk(t, pkt, c, m, depth);
      WalkQuads(t, pkt, d, k, ports, os, xs, m, depth);
      ChainOutPolicyOut(Walk(t, pkt, Rules(t, c), m, depth), m, FirstDecision(xs), |xs|);
    }
  }

  /** A realized policy chain decides as its rules do. */
  lemma PolicyDecides(t: Table, inp: Input, p: PolicySpec, d: Dir, pkt: Packet)
    requires RulesOk(RulesFor(p, d)) && PolicyRealized(t, inp, p, d, pkt) && PolicyExact(p, d, pkt) && ValidPacket(pkt)
    ensures PolicyRight(t, pkt, PolicyChain(d, p.key), DecideRules(inp, p.nets, RulesFor(p, d), d, pkt))
    ensures PolicyActs(t, pkt, PolicyChain(d, p.key), DecideRules(inp, p.nets, RulesFor(p, d), d, pkt),
                       |RulesFor(p, d)|)
  {
    hide PortsMatch, DecideRule, M.RuleOutcome, PortsRight, PeersRight, RuleRealized, RuleExact, Combine, DecideRules,
         PolicyRight, PolicyActs, FirstDecision, Quads;
    var rs := RulesFor(p, d);
    var ports := seq(|rs|, n requires 0 <= n < |rs| => PortsMatch(rs[n].ports, pkt));
    var os := seq(|rs|, n requires 0 <= n < |rs| => M.RuleOutcome(inp, p.nets, rs[n].peers, d, pkt));
    var xs := seq(|rs|, n requires 0 <= n < |rs| => DecideRule(inp, p.nets, rs[n], d, pkt));
    forall n | 0 <= n < |rs|
      ensures PortsRight(t, pkt, PortsChain(d, p.key, n), ports[n])
      ensures PeersRight(t, pkt, PeersChain(d, p.key, n), os[n])
      ensures xs[n] == Combine(os[n], ports[n])
    {
      RuleDecides(t, inp, p, d, n, rs[n], pkt);
    }
    FirstIsDecide(inp, p.nets, rs, d, pkt, xs);
    PolicyFromRules(t, pkt, d, p.key, ports, os, xs);
  }

  // ------------------------------------------------------ an installed policy

  /** The chains of one policy hold the wanted rules: the policy chain in rule
      order, ports and peers chains in any order, their sets whatever they hold. */
  ghost predicate PolicyInstalled(t: Table, inp: Input, p: PolicySpec, d: Dir)
    requires RulesOk(RulesFor(p, d))
  {
    && Shape(Chain(t, PolicyChain(d, p.key))) == Quads(d, p.key, |RulesFor(p, d)|)
    && forall n :: 0 <= n < |RulesFor(p, d)| ==> RuleInstalled(t, inp, p, d, n, RulesFor(p, d)[n])
  }

  ghost predicate RuleInstalled(t: Table, inp: Input, p: PolicySpec, d: Dir, n: nat, r: RuleSpec)
    requires RuleOk(r)
  {
    && M.Matching(Shape(Chain(t, PortsChain(d, p.key, n))), M.PortsRules(d, p.key, n, r.ports))
    && M.Matching(Shape(Chain(t, PeersChain(d, p.key, n))), M.PeersRules(inp, p.nets, d, p.key, n, r.peers))
  }

  /** What an installed rule decides: its peers chain in installed order and its
      ports, both by what the sets hold. */
  ghost function RuleHeld(t: Table, d: Dir, k: PolicyKey, n: nat, r: RuleSpec, pkt: Packet): Decision
    requires RuleOk(r)
  {
    Combine(M.FirstActs(t, pkt, Shape(Chain(t, PeersChain(d, k, n)))), M.PortsHeld(t, pkt, d, k, n, r.ports))
  }

  ghost function PolicyHeld(t: Table, p: PolicySpec, d: Dir, pkt: Packet): Decision
    requires RulesOk(RulesFor(p, d))
  {
    var rs := RulesFor(p, d);
    FirstDecision(seq(|rs|, n requires 0 <= n < |rs| => RuleHeld(t, d, p.key, n, rs[n], pkt)))
  }

  /** An installed policy chain decides by its rules in order, each by its chains
      in installed order and its sets as they are. */
  lemma PolicyDecidesHeld(t: Table, inp: Input, p: PolicySpec, d: Dir, pkt: Packet)
    requires RulesOk(RulesFor(p, d)) && PolicyInstalled(t, inp, p, d)
    ensures PolicyActs(t, pkt, PolicyChain(d, p.key), PolicyHeld(t, p, d, pkt), |RulesFor(p, d)|)
  {
    hide PortsRight, PeersRight, Combine, PolicyRight, PolicyActs, FirstDecision, Quads, M.PortsHeld, M.FirstActs,
         M.Matching, M.PortsRules, M.PeersRules;
    var rs, k := RulesFor(p, d), p.key;
    var ports := seq(|rs|, n requires 0 <= n < |rs| => M.PortsHeld(t, pkt, d, k, n, rs[n].ports));
    var os := seq(|rs|, n requires 0 <= n < |rs| => M.FirstActs(t, pkt, Shape(Chain(t, PeersChain(d, k, n)))));
    var xs := seq(|rs|, n requires 0 <= n < |rs| => RuleHeld(t, d, k, n, rs[n], pkt));
    forall n | 0 <= n < |rs|
      ensures PortsRight(t, pkt, PortsChain(d, k, n), ports[n])
      ensures PeersRight(t, pkt, PeersChain(d, k, n), os[n])
      ensures xs[n] == Combine(os[n], ports[n])
    {
      assert RuleInstalled(t, inp, p, d, n, rs[n]);
      M.PortsChainHeld(t, pkt, d, k, n, rs[n].ports);
      M.PeersChainInstalled(t, inp, pkt, p.nets, d, k, n, rs[n].peers);
    }
    PolicyFromRules(t, pkt, d, k, ports, os, xs);
  }

  // ------------------------------------------------------ a realized direction

  /** Blocks in some order for the policies of a list: one block per entry, with
      the interfaces of the policy in some order. */
  ghost predicate BlocksMatch(inp: Input, bs: seq<Block>, ps: seq<PolicySpec>) {
    && |bs| == |ps|
    && forall i :: 0 <= i < |bs| ==> bs[i].key == ps[i].key && SameIfs(bs[i].ifs, OnNetworks(inp.ifs, ps[i].nets))
  }

  /** The same interface names. */
  ghost predicate SameIfs(a: seq<Iface>, b: seq<Iface>) {
    forall n :: Named(a, n) <==> Named(b, n)
  }

  ghost predicate Named(ifs: seq<Iface>, n: string) {
    exists i :: i in ifs && i.name == n
  }

  /** The filter table serves direction d of the input, with the policies in the
      order of ps. */
  ghost predicate Realized(t: Table, inp: Input, d: Dir, bs: seq<Block>, ps: seq<PolicySpec>, pkt: Packet)
    requires InputOk(inp) && PoliciesOk(ps, d)
  {
    && Shape(Chain(t, BaseChain(HookOf(d)))) == [InterfaceFilter(d)]
    && M.Serves(t, PodInterfaces, false, IfaceElems(inp.ifs), Name(IfOf(d, pkt)))
    && Shape(Chain(t, EntryChain(d))) == EntryRules(d, bs)
    && BlocksMatch(inp, bs, ps)
    && M.Matching(Shape(Chain(t, CommonChain(d))), M.CommonRules(inp.cfg, d))
    && M.CommonSetsRight(t, inp.cfg, d, pkt)
    && forall i :: 0 <= i < |ps| ==> PolicyRealized(t, inp, ps[i], d, pkt)
  }

  lemma OnSomeConcerns(inp: Input, p: PolicySpec, b: Block, d: Dir, pkt: Packet)
    requires SameIfs(b.ifs, OnNetworks(inp.ifs, p.nets))
    ensures OnSome(b.ifs, d, pkt) <==> Concerns(inp, p, d, pkt)
  {
    var n, on := IfOf(d, pkt), OnNetworks(inp.ifs, p.nets);
    assert OnSome(b.ifs, d, pkt) <==> Named(on, n);
    if i :| 0 <= i < |inp.ifs| && OnNetwork(inp.ifs[i], p.nets) && inp.ifs[i].name == n {
      OnNetworksMembers(inp.ifs, p.nets, inp.ifs[i]);
    }
    if i :| i in on && i.name == n {
      OnNetworksMembers(inp.ifs, p.nets, i);
      var k :| 0 <= k < |inp.ifs| && inp.ifs[k] == i;
    }
  }

  lemma {:induction false} SeenIsDecide(inp: Input, ps: seq<PolicySpec>, d: Dir, pkt: Packet, ys: seq<Decision>)
    requires PoliciesOk(ps, d) && |ys| == |ps|
    requires forall i :: 0 <= i < |ps| ==> ys[i] == DecidePolicy(inp, ps[i], d, pkt)
    ensures FirstDecision(ys).Allow? <==> DecidePolicies(inp, ps, d, pkt).Allow?
  {
    hide DecidePolicy;
    if ps != [] {
      SeenIsDecide(inp, ps[1..], d, pkt, ys[1..]);
      FirstFront(ys);
    }
  }

  /** The entry chain of a realized direction. */
  lemma EntryVerdict(t: Table, inp: Input, d: Dir, bs: seq<Block>, ps: seq<PolicySpec>, pkt: Packet, m: Mark,
                     depth: nat)
    requires InputOk(inp) && PoliciesOk(ps, d) && Realized(t, inp, d, bs, ps, pkt)
    requires M.CommonExact(inp.cfg, d, pkt) && PoliciesExact(ps, d, pkt) && ValidPacket(pkt) && !Both(m) && depth > 1
    ensures var o := Walk(t, pkt, Rules(t, EntryChain(d)), m, depth);
            && Others(o.mark) == Others(m)
            && (o.fate.Dropped? <==>
                  !CommonAccepts(inp.cfg, d, pkt) && ps != [] && !DecidePolicies(inp, ps, d, pkt).Allow?)
  {
    hide DecideRules, PolicyRight, PolicyRealized, PolicyExact, CommonAccepts, M.CommonRules, M.CommonSetsRight,
         M.CommonExact, RulesOk, Concerns, EntryRules, M.Matching, OnSome, SameIfs, DecidePolicies, Others, Both,
         InputOk;
    var xs := seq(|ps|, i requires 0 <= i < |ps| => DecideRules(inp, ps[i].nets, RulesFor(ps[i], d), d, pkt));
    forall i | 0 <= i < |bs| ensures PolicyRight(t, pkt, PolicyChain(d, bs[i].key), xs[i]) {
      PolicyDecides(t, inp, ps[i], d, pkt);
    }
    assert ConfigOk(inp.cfg) by { InputConfig(inp); }
    forall m', n: nat
      ensures Walk(t, pkt, Rules(t, CommonChain(d)), m', n) ==
              Out(if CommonAccepts(inp.cfg, d, pkt) then Accepted else Ended, m')
    {
      M.CommonChainRight(t, pkt, inp.cfg, d, m', n);
    }
    ShapeWalk(t, pkt, EntryChain(d), m, depth);
    WalkEntry(t, pkt, d, bs, xs, CommonAccepts(inp.cfg, d, pkt), m, depth);
    var ys := Seen(bs, xs, d, pkt);
    forall i | 0 <= i < |ps| ensures ys[i] == DecidePolicy(inp, ps[i], d, pkt) {
      OnSomeConcerns(inp, ps[i], bs[i], d, pkt);
    }
    SeenIsDecide(inp, ps, d, pkt, ys);
  }

  lemma InputConfig(inp: Input)
    requires InputOk(inp)
    ensures ConfigOk(inp.cfg)
  {
  }

  /** A packet passes a realized direction exactly when the decision list over
      the policies, in the order of ps, says so; foreign mark bits survive. */
  lemma RealizedVerdict(t: Table, inp: Input, d: Dir, bs: seq<Block>, ps: seq<PolicySpec>, pkt: Packet, m: Mark)
    requires InputOk(inp) && PoliciesOk(ps, d) && Realized(t, inp, d, bs, ps, pkt)
    requires M.CommonExact(inp.cfg, d, pkt) && PoliciesExact(ps, d, pkt) && ValidPacket(pkt) && !Both(m)
    ensures Admits(t, pkt, HookOf(d), m) <==>
            || !OnPod(inp, d, pkt) || CommonAccepts(inp.cfg, d, pkt) || ps ==
            [] || DecidePolicies(inp, ps, d, pkt).Allow?
    ensures Others(Walk(t, pkt, Rules(t, BaseChain(HookOf(d))), m, JUMP_STACK).mark) == Others(m)
  {
    hide InterfaceFilter, InSet, OnPod, CommonAccepts, DecidePolicies, M.CommonExact, PoliciesExact, Others, Both,
         InputOk, Walk, M.Matching, M.CommonRules, M.CommonSetsRight, PolicyRealized, EntryRules, BlocksMatch;
    PodMembership(t, inp, d, pkt);
    BaseWalk(t, pkt, d, m);
    EntryVerdict(t, inp, d, bs, ps, pkt, m, JUMP_STACK - 1);
  }

  /** A base chain hands packets on pod interfaces to its entry chain. */
  lemma BaseWalk(t: Table, pkt: Packet, d: Dir, m: Mark)
    requires Shape(Chain(t, BaseChain(HookOf(d)))) == [InterfaceFilter(d)]
    ensures var o, e := Walk(t, pkt, Rules(t, BaseChain(HookOf(d))), m, JUMP_STACK),
                    Walk(t, pkt, Rules(t, EntryChain(d)), m, JUMP_STACK - 1);
            if !InSet(t, PodInterfaces, Name(IfOf(d, pkt))) then o == Out(Ended, m)
            else o.mark == e.mark && (o.fate.Dropped? <==> e.fate.Dropped?)
  {
    var rs := [InterfaceFilter(d)];
    ShapeWalk(t, pkt, BaseChain(HookOf(d)), m, JUMP_STACK);
    Effects.ExecInterfaceFilter(t, pkt, d, m);
    hide InterfaceFilter, Exec, InSet, Shape, Rules;
    assert rs[1..] == [];
    if InSet(t, PodInterfaces, Name(IfOf(d, pkt))) {
      WalkJump(t, pkt, rs, EntryChain(d), m, JUMP_STACK);
    } else {
      WalkStep(t, pkt, rs, m, JUMP_STACK);
    }
  }

  lemma PodMembership(t: Table, inp: Input, d: Dir, pkt: Packet)
    requires M.Serves(t, PodInterfaces, false, IfaceElems(inp.ifs), Name(IfOf(d, pkt)))
    ensures InSet(t, PodInterfaces, Name(IfOf(d, pkt))) <==> OnPod(inp, d, pkt)
  {
    if i :| 0 <= i < |inp.ifs| && inp.ifs[i].name == IfOf(d, pkt) {
      assert inp.ifs[i] in inp.ifs;
      assert Elem(Name(inp.ifs[i].name), false) in IfaceElems(inp.ifs);
    }
    if Elem(Name(IfOf(d, pkt)), false) in IfaceElems(inp.ifs) {
      var i :| i in inp.ifs && Elem(Name(i.name), false) == Elem(Name(IfOf(d, pkt)), false);
      var k :| 0 <= k < |inp.ifs| && inp.ifs[k] == i;
    }
  }
}
