/** What a pass makes of the filter table: chains with the wanted rules, sets
    with the wanted elements, and, on empty tables, chains in compiled order. */
module Results {
  import opened Ids
  import opened Marks
  import opened Machine
  import opened Identity
  import opened Intervals
  import opened Elements
  import opened Kernel
  import opened Reconcile
  import opened Flush
  import opened Cleanup
  import opened Policies
  import opened Compile
  import opened Requests
  import opened Layout
  import opened SetLayout
  import opened Exact
  import opened Passes
  import opened Walks
  import opened Targets
  import opened States
  import M = Meanings

  // ------------------------------------------------------- known expressions

  /** All rules of the filter table are made of known expressions. */
  ghost predicate SupportedFilter(rs: Ruleset) {
    forall c, x :: x in ChainAt(rs, FILTER, c) ==> SupportedRule(x.rule)
  }

  lemma StripSupported(r: Rule)
    ensures SupportedRule(Strip(r)) <==> SupportedRule(r)
  {
    var s := Strip(r);
    if SupportedRule(s) {
      forall i | 0 <= i < |r.exprs| ensures Supported(r.exprs[i]) {
        assert Supported(s.exprs[i]);
      }
    }
    if SupportedRule(r) {
      forall i | 0 <= i < |s.exprs| ensures Supported(s.exprs[i]) {
        assert Supported(r.exprs[i]);
      }
    }
  }

  ghost predicate SupportedShape(s: seq<Rule>) {
    forall i :: 0 <= i < |s| ==> SupportedRule(s[i])
  }

  lemma ShapeSupported(l: seq<Installed>)
    ensures SupportedShape(Shape(l)) <==> forall x :: x in l ==> SupportedRule(x.rule)
  {
    if SupportedShape(Shape(l)) {
      forall x | x in l ensures SupportedRule(x.rule) {
        var i :| 0 <= i < |l| && l[i] == x;
        StripSupported(x.rule);
        assert Shape(l)[i] == Strip(x.rule);
      }
    }
    if forall x :: x in l ==> SupportedRule(x.rule) {
      forall i | 0 <= i < |l| ensures SupportedRule(Shape(l)[i]) {
        StripSupported(l[i].rule);
        assert l[i] in l;
      }
    }
  }

  lemma NewSupported(p: seq<Req>, s: seq<Rule>)
    requires AllRules(p) && forall i :: 0 <= i < |p| ==> Canonical(p[i].rule)
    ensures SupportedShape(NewIns(p, s)) && SupportedShape(NewApp(p, s))
  {
    forall i | 0 <= i < |NewIns(p, s)| ensures SupportedRule(NewIns(p, s)[i]) {
      NewMembers(p, s, NewIns(p, s)[i]);
      var q :| q in p && q.rule == NewIns(p, s)[i];
      var k :| 0 <= k < |p| && p[k] == q;
      CanonicalStrip(q.rule);
    }
    forall i | 0 <= i < |NewApp(p, s)| ensures SupportedRule(NewApp(p, s)[i]) {
      NewMembers(p, s, NewApp(p, s)[i]);
      var q :| q in p && q.rule == NewApp(p, s)[i];
      var k :| 0 <= k < |p| && p[k] == q;
      CanonicalStrip(q.rule);
    }
  }

  lemma StageSupported(rs: Ruleset, w: seq<Req>, k: nat)
    requires WellFormed(rs) && CanonicalLog(w) && SupportedFilter(rs)
    ensures SupportedFilter(Stage(rs, w, k))
  {
    if k >= 1 {
      forall c, x | x in ChainAt(Stage(rs, w, k), FILTER, c) ensures SupportedRule(x.rule) {
        FlushSupported(rs, w, c);
        StageChain(rs, w, k, FILTER, c);
        StageOk(rs, w, 1);
        ChainAtOk(Stage(rs, w, 1), FILTER, c);
        TrackedOk(FILTER, c, ChainAt(Stage(rs, w, 1), FILTER, c), Tab(Stage(rs, w, 1), FILTER).next, KeysOf(w));
      }
    }
  }

  lemma FlushSupported(rs: Ruleset, w: seq<Req>, c: ChainId)
    requires WellFormed(rs) && CanonicalLog(w) && SupportedFilter(rs)
    ensures forall x :: x in ChainAt(Stage(rs, w, 1), FILTER, c) ==> SupportedRule(x.rule)
  {
    var l, p := ChainAt(rs, FILTER, c), Proj(w, FILTER, c);
    var ins, app := FlushChain(rs, w, FILTER, c);
    var kept := Minus(l, Dels(p, l));
    ProjCanonical(w, FILTER, c);
    NewSupported(p, Shape(l));
    ShapeSupported(ins);
    ShapeSupported(app);
    forall x: Installed | x in ins + kept + app ensures SupportedRule(x.rule) {
      MinusMembers(l, Dels(p, l), x);
      assert x in ins || x in kept || x in app;
    }
  }

  // ------------------------------------------------------------ wanted rules

  lemma PassSupported(rs: Ruleset, w: seq<Req>, c: ChainId)
    requires WellFormed(rs) && CanonicalLog(w) && SupportedFilter(rs)
    ensures SupportedShape(ShapeAt(Pass(rs, w), FILTER, c))
  {
    hide Stage, WellFormed, CanonicalLog;
    StageSupported(rs, w, LAST_STAGE);
    ShapeSupported(ChainAt(Pass(rs, w), FILTER, c));
  }

  /** After a pass a chain holds the wanted rules, up to order and counters. */
  lemma PassMatching(rs: Ruleset, w: seq<Req>, c: ChainId)
    requires WellFormed(rs) && GoodPart(w, w) && SupportedFilter(rs)
    ensures M.Matching(ShapeAt(Pass(rs, w), FILTER, c), Wants(Proj(w, FILTER, c)))
  {
    hide Stage, GoodReq, KeyOf, Keep, Proj, Canonical, SupportedFilter, WellFormed;
    var s, p := ShapeAt(Pass(rs, w), FILTER, c), Proj(w, FILTER, c);
    var want := Wants(p);
    GoodCanonical(w);
    ProjCanonical(w, FILTER, c);
    forall i | 0 <= i < |want| ensures SupportedRule(want[i]) && want[i] in s {
      ProjMembers(w, FILTER, c, p[i]);
      CanonicalStrip(p[i].rule);
      DeliveredAlways(rs, w, LAST_STAGE, p[i]);
    }
    assert SupportedShape(s) by { PassSupported(rs, w, c); }
    StageShape(rs, w, LAST_STAGE, FILTER, c);
    forall i | 0 <= i < |s| ensures M.HasKey(want, s[i]) {
      KeepMembers(ShapeAt(Stage(rs, w, 1), FILTER, c), p, s[i]);
      assert Wanted(s[i], p);
      var q :| q in p && q.RuleReq? && KeyOf(q.rule) == KeyOf(s[i]);
      var j :| 0 <= j < |p| && p[j] == q;
      assert KeyOf(want[j]) == KeyOf(s[i]);
    }
  }

  lemma WantedLookup(w: seq<Req>, c: ChainId, r: Rule, s: SetId)
    requires GoodPart(w, w) && r in Wants(Proj(w, FILTER, c)) && Lookup(s) in r.exprs
    ensures HasSet(w, FILTER, s)
  {
    var p := Proj(w, FILTER, c);
    var i :| 0 <= i < |p| && Wants(p)[i] == r;
    ProjMembers(w, FILTER, c, p[i]);
    var j :| 0 <= j < |w| && w[j] == p[i];
    assert GoodReq(w[j], w);
    var n :| 0 <= n < |r.exprs| && r.exprs[n] == Lookup(s);
    assert GoodExpr(r.exprs[n], w, FILTER);
  }

  // -------------------------------------------------------------------- sets

  /** An update of the set will leave exactly the wanted elements: keys on both
      sides carry the same interval flags, and the set is of the wanted kind. */
  ghost predicate SetReady(rs: Ruleset, inp: Input, s: SetId)
    requires InputOk(inp)
  {
    s in Tab(rs, FILTER).sets ==>
      && Tab(rs, FILTER).sets[s].interval == Meaning(inp, FILTER, s).interval
      && FlagsAgree(Tab(rs, FILTER).sets[s].elems, Meaning(inp, FILTER, s).elems)
  }

  ghost predicate SetsReady(rs: Ruleset, inp: Input)
    requires InputOk(inp)
  {
    forall s :: HasSet(PassLog(rs, inp), FILTER, s) ==> SetReady(rs, inp, s)
  }

  /** The set matters for the packet in direction d. */
  predicate Looked(s: SetId, d: Dir, pkt: Packet) {
    match s
    case PodInterfaces => true
    case NdpTypes => pkt.v6 && pkt.l4 == ICMPV6
    case CommonSet(e, v6) => e == d && v6 == pkt.v6
    case PortsSet(e, _, _, proto) => e == d && pkt.l4 == L4Number(proto)
    case BlockSet(e, _, _, _, v6) => e == d && v6 == pkt.v6
    case ExceptSet(e, _, _, _, v6) => e == d && v6 == pkt.v6
    case SelectorSet(e, _, _, _, v6, _) => e == d && v6 == pkt.v6
    case OtherSet(_) => false
  }

  /** What is looked up in it. */
  function Sought(s: SetId, d: Dir, pkt: Packet): Val {
    match s
    case PodInterfaces => Name(IfOf(d, pkt))
    case NdpTypes => Num(pkt.icmpType)
    case PortsSet(_, _, _, _) => Num(pkt.dport)
    case _ => Num(Remote(d, pkt))
  }

  /** Once updated, the set will hold the value exactly if the wanted one does. */
  ghost predicate SetServes(rs: Ruleset, inp: Input, s: SetId, v: Val)
    requires InputOk(inp)
  {
    var have, want := Tab(rs, FILTER).sets, Meaning(inp, FILTER, s);
    s in have ==>
      (M.Among(have[s].interval, Updated(have[s].elems, want.elems), v) <==> M.Among(want.interval, want.elems, v))
  }

  /** Every set that matters for the packet will answer right for it. */
  ghost predicate SetsServe(rs: Ruleset, inp: Input, d: Dir, pkt: Packet)
    requires InputOk(inp)
  {
    forall s :: Looked(s, d, pkt) && HasSet(PassLog(rs, inp), FILTER, s) ==> SetServes(rs, inp, s, Sought(s, d, pkt))
  }

  /** Sets that can be brought to the wanted elements serve every packet. */
  lemma ReadyServes(rs: Ruleset, inp: Input, d: Dir, pkt: Packet)
    requires InputOk(inp) && SetsReady(rs, inp)
    ensures SetsServe(rs, inp, d, pkt)
  {
    hide PassLog, Meaning, InputOk, Updated, M.Among, FlagsAgree;
    forall s | HasSet(PassLog(rs, inp), FILTER, s) ensures SetServes(rs, inp, s, Sought(s, d, pkt)) {
      assert SetReady(rs, inp, s);
      if s in Tab(rs, FILTER).sets {
        UpdateExact(Tab(rs, FILTER).sets[s].elems, Meaning(inp, FILTER, s).elems);
      }
    }
  }

  /** A requested set serves a value after the pass exactly when the updated one
      does. */
  lemma ServesExactly(rs: Ruleset, inp: Input, s: SetId, v: Val)
    requires WellFormed(rs) && InputOk(inp) && DistinctPolicies(inp) && HasSet(PassLog(rs, inp), FILTER, s)
    ensures var want := Meaning(inp, FILTER, s);
            M.Serves(Tab(PassOf(rs, inp), FILTER), s, want.interval, want.elems, v) <==> SetServes(rs, inp, s, v)
  {
    hide PassReqs, Force, Meaning, GoodReq, InputOk, DistinctPolicies, Stage, Updated, Covers;
    var fi, fe := Force(rs, inp, Ingress), Force(rs, inp, Egress);
    PassGood(inp, fi, fe);
    PassMeaning(inp, fi, fe, FILTER, s);
    PassSet(rs, PassLog(rs, inp), FILTER, s, Meaning(inp, FILTER, s));
  }

  lemma SetArrives(rs: Ruleset, inp: Input, s: SetId)
    requires WellFormed(rs) && InputOk(inp) && DistinctPolicies(inp)
    requires HasSet(PassLog(rs, inp), FILTER, s) && SetReady(rs, inp, s)
    ensures M.SetIs(Tab(PassOf(rs, inp), FILTER), s, Meaning(inp, FILTER, s).interval, Meaning(inp, FILTER, s).elems)
  {
    hide PassReqs, Force, Meaning, GoodReq, InputOk, DistinctPolicies, Stage, Updated;
    var fi, fe := Force(rs, inp, Ingress), Force(rs, inp, Egress);
    var want := Meaning(inp, FILTER, s);
    PassGood(inp, fi, fe);
    PassMeaning(inp, fi, fe, FILTER, s);
    PassSet(rs, PassLog(rs, inp), FILTER, s, want);
    if s in Tab(rs, FILTER).sets {
      UpdateExact(Tab(rs, FILTER).sets[s].elems, want.elems);
    }
  }

  /** Every set a wanted rule looks up for the packet answers right. */
  lemma LookedUp(rs: Ruleset, inp: Input, c: ChainId, r: Rule, s: SetId, d: Dir, pkt: Packet)
    requires WellFormed(rs) && InputOk(inp) && DistinctPolicies(inp) && SetsServe(rs, inp, d, pkt)
    requires r in Wants(Proj(PassLog(rs, inp), FILTER, c)) && Lookup(s) in r.exprs && Looked(s, d, pkt)
    ensures var want := Meaning(inp, FILTER, s);
            M.Serves(Tab(PassOf(rs, inp), FILTER), s, want.interval, want.elems, Sought(s, d, pkt))
  {
    PassGood(inp, Force(rs, inp, Ingress), Force(rs, inp, Egress));
    hide PassReqs, Force, Meaning, GoodReq;
    WantedLookup(PassLog(rs, inp), c, r, s);
    ServesExactly(rs, inp, s, Sought(s, d, pkt));
  }

  // ------------------------------------------------------------ policy rules

  /** The requests of a pass for the chains of rule n of policy i. */
  lemma RuleTargets(inp: Input, fi: bool, fe: bool, d: Dir, i: nat, n: nat)
    requires InputOk(inp) && DistinctPolicies(inp) && i < |PoliciesFor(inp, d)|
    requires n < |RulesFor(PoliciesFor(inp, d)[i], d)|
    ensures var p := PoliciesFor(inp, d)[i];
            var r := RulesFor(p, d)[n];
            && Yields(PassReqs(inp, fi, fe), PortsChain(d, p.key, n), M.PortsRules(d, p.key, n, r.ports))
            && Yields(PassReqs(inp, fi, fe), PeersChain(d, p.key, n), M.PeersRules(inp, p.nets, d, p.key, n, r.peers))
  {
    hide PassReqs, PortsBody, PeersBody, M.PortsRules, M.PeersRules, RuleListProj;
    var p := PoliciesFor(inp, d)[i];
    var r := RulesFor(p, d)[n];
    assert RulesOk(RulesFor(p, d)) && RuleOk(r);
    PolicyLayout(inp, fi, fe, d, i, PortsChain(d, p.key, n));
    PolicyLayout(inp, fi, fe, d, i, PeersChain(d, p.key, n));
    RuleListProjAt(inp, p, d, RulesFor(p, d), n);
    WantsPorts(d, p.key, n, r.ports);
    WantsPeers(inp, p.nets, d, p.key, n, r.peers);
  }

  lemma RuleListProjAt(inp: Input, p: PolicySpec, d: Dir, rs: seq<RuleSpec>, n: nat)
    requires RulesOk(rs) && n < |rs| && RuleOk(rs[n])
    ensures RuleListProj(inp, p, d, rs, PortsChain(d, p.key, n)) ==
            Proj(PortsBody(d, p.key, n, rs[n].ports), FILTER, PortsChain(d, p.key, n))
    ensures RuleListProj(inp, p, d, rs, PeersChain(d, p.key, n)) ==
            Proj(PeersBody(inp, p.nets, d, p.key, n, rs[n].peers), FILTER, PeersChain(d, p.key, n))
  {
    hide PortsBody, PeersBody, Proj;
  }

  lemma OwnMeaning(inp: Input, d: Dir, i: nat, s: SetId)
    requires InputOk(inp) && DistinctPolicies(inp) && i < |PoliciesFor(inp, d)|
    requires RuleOwned(s) && s.dir == d && s.key == PoliciesFor(inp, d)[i].key
    requires s.index < |RulesFor(PoliciesFor(inp, d)[i], d)|
    ensures RulesOk(RulesFor(PoliciesFor(inp, d)[i], d))
    ensures Meaning(inp, FILTER, s) ==
            RuleSet(inp, PoliciesFor(inp, d)[i], RulesFor(PoliciesFor(inp, d)[i], d)[s.index], s)
  {
    hide RuleSet;
    PolicyAtFinds(PoliciesFor(inp, d), i);
  }

  lemma PortsLookup(d: Dir, k: PolicyKey, n: nat, proto: Proto)
    ensures Lookup(PortsSet(d, k, n, proto)) in PortsRule(d, k, n, proto).exprs
  {
    assert PortsRule(d, k, n, proto).exprs[3] == Lookup(PortsSet(d, k, n, proto));
  }

  lemma RemoteLookup(d: Dir, v6: bool, s: SetId, tail: seq<Expr>)
    ensures Lookup(s) in MatchRemote(d, v6, s) + tail
  {
    assert (MatchRemote(d, v6, s) + tail)[3] == Lookup(s);
  }

  lemma PortSetsArrive(rs: Ruleset, inp: Input, d: Dir, i: nat, n: nat, pkt: Packet)
    requires WellFormed(rs) && InputOk(inp) && DistinctPolicies(inp) && SetsServe(rs, inp, d, pkt)
    requires i < |PoliciesFor(inp, d)| && n < |RulesFor(PoliciesFor(inp, d)[i], d)|
    requires RuleOk(RulesFor(PoliciesFor(inp, d)[i], d)[n])
    ensures var p := PoliciesFor(inp, d)[i];
            M.PortSetsRight(Tab(PassOf(rs, inp), FILTER), d, p.key, n, RulesFor(p, d)[n].ports, pkt)
  {
    hide PassOf, SetsServe, InputOk, DistinctPolicies, Encode, ProtoRanges;
    var p := PoliciesFor(inp, d)[i];
    var ports := RulesFor(p, d)[n].ports;
    forall proto: Proto | ProtoRanges(ports, proto) != [] && pkt.l4 == L4Number(proto)
      ensures M.Serves(Tab(PassOf(rs, inp), FILTER), PortsSet(d, p.key, n, proto), true,
                       Elems(Encode(ProtoRanges(ports, proto), MAX_PORT + 1)), Num(pkt.dport))
    {
      PortSetArrives(rs, inp, d, i, n, proto, pkt);
    }
  }

  lemma PortSetArrives(rs: Ruleset, inp: Input, d: Dir, i: nat, n: nat, proto: Proto, pkt: Packet)
    requires WellFormed(rs) && InputOk(inp) && DistinctPolicies(inp) && SetsServe(rs, inp, d, pkt)
    requires i < |PoliciesFor(inp, d)| && n < |RulesFor(PoliciesFor(inp, d)[i], d)|
    requires RuleOk(RulesFor(PoliciesFor(inp, d)[i], d)[n])
    requires ProtoRanges(RulesFor(PoliciesFor(inp, d)[i], d)[n].ports, proto) != [] && pkt.l4 == L4Number(proto)
    ensures var p := PoliciesFor(inp, d)[i];
            M.Serves(Tab(PassOf(rs, inp), FILTER), PortsSet(d, p.key, n, proto), true,
                     Elems(Encode(ProtoRanges(RulesFor(p, d)[n].ports, proto), MAX_PORT + 1)), Num(pkt.dport))
  {
    hide PassReqs, Force, Meaning, M.PortsRules, PortsRule, SetsServe, InputOk, DistinctPolicies, Encode, ProtoRanges;
    var p := PoliciesFor(inp, d)[i];
    var ports, s := RulesFor(p, d)[n].ports, PortsSet(d, p.key, n, proto);
    RuleTargets(inp, Force(rs, inp, Ingress), Force(rs, inp, Egress), d, i, n);
    M.PortsRulesMembers(d, p.key, n, ports, PortsRule(d, p.key, n, proto));
    PortsLookup(d, p.key, n, proto);
    OwnMeaning(inp, d, i, s);
    LookedUp(rs, inp, PortsChain(d, p.key, n), PortsRule(d, p.key, n, proto), s, d, pkt);
  }

  lemma {:induction false} PeerListHolds(inp: Input, nets: seq<string>, d: Dir, k: PolicyKey, n: nat,
                                         peers: seq<PeerSpec>, j: nat, r: Rule)
    requires PeersOk(peers) && j < |peers| && r in M.PeerRules(inp, nets, d, k, n, j, peers[j])
    ensures r in M.PeerListRules(inp, nets, d, k, n, peers)
  {
    hide M.PeerRules;
    if j < |peers| - 1 {
      PeerListHolds(inp, nets, d, k, n, peers[..|peers| - 1], j, r);
    }
  }

  lemma PeersHold(inp: Input, nets: seq<string>, d: Dir, k: PolicyKey, n: nat, peers: seq<PeerSpec>, j: nat, r: Rule)
    requires PeersOk(peers) && j < |peers| && r in M.PeerRules(inp, nets, d, k, n, j, peers[j])
    ensures r in M.PeersRules(inp, nets, d, k, n, peers)
  {
    PeerListHolds(inp, nets, d, k, n, peers, j, r);
  }

  /** A rule wanted for peer j looks up a set; the set holds its meaning. */
  lemma PeerSetArrives(rs: Ruleset, inp: Input, d: Dir, i: nat, n: nat, j: nat, r: Rule, s: SetId, pkt: Packet)
    requires WellFormed(rs) && InputOk(inp) && DistinctPolicies(inp) && SetsServe(rs, inp, d, pkt)
    requires i < |PoliciesFor(inp, d)| && n < |RulesFor(PoliciesFor(inp, d)[i], d)|
    requires var p := PoliciesFor(inp, d)[i];
             var spec := RulesFor(p, d)[n];
             && RuleOk(spec) && j < |spec.peers|
             && r in M.PeerRules(inp, p.nets, d, p.key, n, j, spec.peers[j]) && Lookup(s) in r.exprs
             && RuleOwned(s) && s.dir == d && s.key == p.key && s.index == n && Looked(s, d, pkt)
    ensures var p := PoliciesFor(inp, d)[i];
            var want := RuleSet(inp, p, RulesFor(p, d)[n], s);
            M.Serves(Tab(PassOf(rs, inp), FILTER), s, want.interval, want.elems, Sought(s, d, pkt))
  {
    var p := PoliciesFor(inp, d)[i];
    var spec := RulesFor(p, d)[n];
    RuleTargets(inp, Force(rs, inp, Ingress), Force(rs, inp, Egress), d, i, n);
    PeersHold(inp, p.nets, d, p.key, n, spec.peers, j, r);
    OwnMeaning(inp, d, i, s);
    hide PassReqs, Force, Meaning, M.PeersRules, M.PeerRules, SetsServe, InputOk, DistinctPolicies, RuleSet;
    LookedUp(rs, inp, PeersChain(d, p.key, n), r, s, d, pkt);
  }

  lemma PeerSetsArrive(rs: Ruleset, inp: Input, d: Dir, i: nat, n: nat, j: nat, pkt: Packet)
    requires WellFormed(rs) && InputOk(inp) && DistinctPolicies(inp) && SetsServe(rs, inp, d, pkt)
    requires i < |PoliciesFor(inp, d)| && n < |RulesFor(PoliciesFor(inp, d)[i], d)|
    requires RuleOk(RulesFor(PoliciesFor(inp, d)[i], d)[n]) && j < |RulesFor(PoliciesFor(inp, d)[i], d)[n].peers|
    ensures var p := PoliciesFor(inp, d)[i];
            M.PeerSetsRight(Tab(PassOf(rs, inp), FILTER), inp, p.nets, d, p.key, n, j, RulesFor(p, d)[n].peers[j], pkt)
  {
    hide PassOf, SetsServe, InputOk, DistinctPolicies, PrefixElems, Prefixes, SelectorAddrs;
    var p := PoliciesFor(inp, d)[i];
    var peer := RulesFor(p, d)[n].peers[j];
    if peer.block.Some? {
      if peer.block.value.cidr.prefix.v6 == pkt.v6 {
        BlockSetArrives(rs, inp, d, i, n, j, pkt);
        if PrefixElems(Prefixes(peer.block.value.except), pkt.v6) != [] {
          ExceptSetArrives(rs, inp, d, i, n, j, pkt);
        }
      }
    } else if FamilyElems(SelectorAddrs(inp.view, inp.ifs, p.nets, peer), pkt.v6) != {} {
      SelectorSetArrives(rs, inp, d, i, n, j, pkt);
    }
  }

  lemma BlockSetArrives(rs: Ruleset, inp: Input, d: Dir, i: nat, n: nat, j: nat, pkt: Packet)
    requires WellFormed(rs) && InputOk(inp) && DistinctPolicies(inp) && SetsServe(rs, inp, d, pkt)
    requires i < |PoliciesFor(inp, d)| && n < |RulesFor(PoliciesFor(inp, d)[i], d)|
    requires RuleOk(RulesFor(PoliciesFor(inp, d)[i], d)[n]) && j < |RulesFor(PoliciesFor(inp, d)[i], d)[n].peers|
    requires RulesFor(PoliciesFor(inp, d)[i], d)[n].peers[j].block.Some?
    requires RulesFor(PoliciesFor(inp, d)[i], d)[n].peers[j].block.value.cidr.prefix.v6 == pkt.v6
    ensures var p := PoliciesFor(inp, d)[i];
            var cidr := RulesFor(p, d)[n].peers[j].block.value.cidr.prefix;
            M.Serves(Tab(PassOf(rs, inp), FILTER), BlockSet(d, p.key, n, j, cidr.v6), true,
                     Elems(PrefixElems([cidr], cidr.v6)), Num(Remote(d, pkt)))
  {
    hide PassOf, SetsServe, InputOk, DistinctPolicies, PrefixElems, Prefixes, MatchRemote, ExceptRule;
    var p := PoliciesFor(inp, d)[i];
    var b := RulesFor(p, d)[n].peers[j].block.value;
    var cidr := b.cidr.prefix;
    var s := BlockSet(d, p.key, n, j, cidr.v6);
    RemoteLookup(d, cidr.v6, s, MARK_PEER);
    assert Lookup(s) in BlockRule(d, p.key, n, j, cidr).exprs;
    PeerSetArrives(rs, inp, d, i, n, j, BlockRule(d, p.key, n, j, cidr), s, pkt);
  }

  lemma ExceptSetArrives(rs: Ruleset, inp: Input, d: Dir, i: nat, n: nat, j: nat, pkt: Packet)
    requires WellFormed(rs) && InputOk(inp) && DistinctPolicies(inp) && SetsServe(rs, inp, d, pkt)
    requires i < |PoliciesFor(inp, d)| && n < |RulesFor(PoliciesFor(inp, d)[i], d)|
    requires RuleOk(RulesFor(PoliciesFor(inp, d)[i], d)[n]) && j < |RulesFor(PoliciesFor(inp, d)[i], d)[n].peers|
    requires RulesFor(PoliciesFor(inp, d)[i], d)[n].peers[j].block.Some?
    requires var b := RulesFor(PoliciesFor(inp, d)[i], d)[n].peers[j].block.value;
             b.cidr.prefix.v6 == pkt.v6 && PrefixElems(Prefixes(b.except), b.cidr.prefix.v6) != []
    ensures var p := PoliciesFor(inp, d)[i];
            var b := RulesFor(p, d)[n].peers[j].block.value;
            M.Serves(Tab(PassOf(rs, inp), FILTER), ExceptSet(d, p.key, n, j, b.cidr.prefix.v6), true,
                     Elems(PrefixElems(Prefixes(b.except), b.cidr.prefix.v6)), Num(Remote(d, pkt)))
  {
    hide PassOf, SetsServe, InputOk, DistinctPolicies, PrefixElems, Prefixes, MatchRemote, BlockRule;
    var p := PoliciesFor(inp, d)[i];
    var b := RulesFor(p, d)[n].peers[j].block.value;
    var cidr := b.cidr.prefix;
    var s := ExceptSet(d, p.key, n, j, cidr.v6);
    RemoteLookup(d, cidr.v6, s, Then(Drop));
    PeerSetArrives(rs, inp, d, i, n, j, ExceptRule(d, p.key, n, j, cidr), s, pkt);
  }

  lemma SelectorSetArrives(rs: Ruleset, inp: Input, d: Dir, i: nat, n: nat, j: nat, pkt: Packet)
    requires WellFormed(rs) && InputOk(inp) && DistinctPolicies(inp) && SetsServe(rs, inp, d, pkt)
    requires i < |PoliciesFor(inp, d)| && n < |RulesFor(PoliciesFor(inp, d)[i], d)|
    requires RuleOk(RulesFor(PoliciesFor(inp, d)[i], d)[n]) && j < |RulesFor(PoliciesFor(inp, d)[i], d)[n].peers|
    requires var p := PoliciesFor(inp, d)[i];
             var peer := RulesFor(p, d)[n].peers[j];
             peer.block.None? && FamilyElems(SelectorAddrs(inp.view, inp.ifs, p.nets, peer), pkt.v6) != {}
    ensures var p := PoliciesFor(inp, d)[i];
            var peer := RulesFor(p, d)[n].peers[j];
            M.Serves(Tab(PassOf(rs, inp), FILTER), SelectorSet(d, p.key, n, j, pkt.v6, SelectorText(peer)), false,
                     FamilyElems(SelectorAddrs(inp.view, inp.ifs, p.nets, peer), pkt.v6), Num(Remote(d, pkt)))
  {
    hide PassOf, SetsServe, InputOk, DistinctPolicies, SelectorAddrs, MatchRemote;
    var p := PoliciesFor(inp, d)[i];
    var peer := RulesFor(p, d)[n].peers[j];
    var addrs, text, v6 := SelectorAddrs(inp.view, inp.ifs, p.nets, peer), SelectorText(peer), pkt.v6;
    var s, r := SelectorSet(d, p.key, n, j, v6, text), SelectorRule(d, p.key, n, j, v6, text);
    RemoteLookup(d, v6, s, MARK_PEER);
    assert Lookup(s) in r.exprs;
    assert r in M.FamilyRules(d, p.key, n, j, v6, text, addrs);
    PeerSetArrives(rs, inp, d, i, n, j, r, s, pkt);
  }

  /** Ports and peers chains of a rule hold the wanted rules after every pass. */
  lemma RuleIn(rs: Ruleset, inp: Input, d: Dir, i: nat, n: nat)
    requires WellFormed(rs) && InputOk(inp) && DistinctPolicies(inp) && SupportedFilter(rs)
    requires i < |PoliciesFor(inp, d)| && n < |RulesFor(PoliciesFor(inp, d)[i], d)|
    requires RuleOk(RulesFor(PoliciesFor(inp, d)[i], d)[n])
    ensures var p := PoliciesFor(inp, d)[i];
            RuleInstalled(Tab(PassOf(rs, inp), FILTER), inp, p, d, n, RulesFor(p, d)[n])
  {
    var p := PoliciesFor(inp, d)[i];
    var fi, fe := Force(rs, inp, Ingress), Force(rs, inp, Egress);
    RuleTargets(inp, fi, fe, d, i, n);
    PassGood(inp, fi, fe);
    hide PassReqs, Force, M.PortsRules, M.PeersRules, InputOk, DistinctPolicies, GoodReq, M.Matching;
    PassMatching(rs, PassLog(rs, inp), PortsChain(d, p.key, n));
    PassMatching(rs, PassLog(rs, inp), PeersChain(d, p.key, n));
  }

  /** After a pass every policy rule is realized if its peers chain is in
      compiled order or the rule has no excepts. */
  lemma RuleArrives(rs: Ruleset, inp: Input, d: Dir, i: nat, n: nat, pkt: Packet)
    requires WellFormed(rs) && InputOk(inp) && DistinctPolicies(inp) && SetsServe(rs, inp, d, pkt)
    requires SupportedFilter(rs)
    requires i < |PoliciesFor(inp, d)| && n < |RulesFor(PoliciesFor(inp, d)[i], d)|
    requires RuleOk(RulesFor(PoliciesFor(inp, d)[i], d)[n])
    requires var p := PoliciesFor(inp, d)[i];
             var r := RulesFor(p, d)[n];
             RuleNoExcept(r) || ShapeAt(PassOf(rs, inp), FILTER, PeersChain(d, p.key, n)) ==
             M.PeersRules(inp, p.nets, d, p.key, n, r.peers)
    ensures var p := PoliciesFor(inp, d)[i];
            RuleRealized(Tab(PassOf(rs, inp), FILTER), inp, p, d, n, RulesFor(p, d)[n], pkt)
  {
    hide PassOf, M.PortsRules, M.PeersRules, SetsServe, InputOk, DistinctPolicies, M.PeerSetsRight, M.PortSetsRight,
         M.Matching, WellFormed, SupportedFilter;
    var p := PoliciesFor(inp, d)[i];
    var r := RulesFor(p, d)[n];
    RuleIn(rs, inp, d, i, n);
    PortSetsArrive(rs, inp, d, i, n, pkt);
    forall j | 0 <= j < |r.peers|
      ensures M.PeerSetsRight(Tab(PassOf(rs, inp), FILTER), inp, p.nets, d, p.key, n, j, r.peers[j], pkt)
    {
      PeerSetsArrive(rs, inp, d, i, n, j, pkt);
    }
  }

  // ------------------------------------------------------------- common parts

  lemma CommonMatching(rs: Ruleset, inp: Input, d: Dir)
    requires WellFormed(rs) && InputOk(inp) && SupportedFilter(rs)
    ensures M.Matching(ShapeAt(PassOf(rs, inp), FILTER, CommonChain(d)), M.CommonRules(inp.cfg, d))
  {
    var c, fi, fe := CommonChain(d), Force(rs, inp, Ingress), Force(rs, inp, Egress);
    var w, s := PassLog(rs, inp), ShapeAt(PassOf(rs, inp), FILTER, c);
    PassGood(inp, fi, fe);
    CommonLayout(inp, fi, fe, d);
    hide PassReqs, Force, M.CommonRules, CommonReqs, GoodReq;
    PassMatching(rs, w, c);
    var p, want := Proj(CommonReqs(inp.cfg), FILTER, c), M.CommonRules(inp.cfg, d);
    forall r ensures r in Wants(p) <==> r in want {
      AsksCommon(inp.cfg, d, r);
      WantsAsks(CommonReqs(inp.cfg), c, r);
    }
    MatchingSame(s, Wants(p), want);
  }

  lemma WantsAsks(log: seq<Req>, c: ChainId, r: Rule)
    ensures r in Wants(Proj(log, FILTER, c)) <==> Asks(log, c, r)
  {
    var p := Proj(log, FILTER, c);
    if r in Wants(p) {
      var i :| 0 <= i < |p| && Wants(p)[i] == r;
      ProjMembers(log, FILTER, c, p[i]);
    }
    if q :| q in log && AimsAt(q, FILTER, c) && q.rule == r {
      ProjMembers(log, FILTER, c, q);
      var i :| 0 <= i < |p| && p[i] == q;
      assert Wants(p)[i] == r;
    }
  }

  lemma MatchingSame(s: seq<Rule>, a: seq<Rule>, b: seq<Rule>)
    requires M.Matching(s, a) && forall r :: r in a <==> r in b
    ensures M.Matching(s, b)
  {
    forall i | 0 <= i < |b| ensures SupportedRule(b[i]) && b[i] in s {
      assert b[i] in a;
      var j :| 0 <= j < |a| && a[j] == b[i];
    }
    forall i | 0 <= i < |s| ensures M.HasKey(b, s[i]) {
      assert M.HasKey(a, s[i]);
      var j :| 0 <= j < |a| && KeyOf(a[j]) == KeyOf(s[i]);
      assert a[j] in b;
      var k :| 0 <= k < |b| && b[k] == a[j];
    }
  }

  lemma CommonSetsArrive(rs: Ruleset, inp: Input, d: Dir, pkt: Packet)
    requires WellFormed(rs) && InputOk(inp) && DistinctPolicies(inp) && SetsServe(rs, inp, d, pkt)
    ensures M.CommonSetsRight(Tab(PassOf(rs, inp), FILTER), inp.cfg, d, pkt)
  {
    hide PassOf, SetsServe, InputOk, DistinctPolicies, PrefixElems, Prefixes, M.CommonRules, MatchRemote, IfaceElems;
    assert ConfigOk(inp.cfg) by { InputConfig(inp); }
    var cfg, ps := inp.cfg, Prefixes(CommonCidrs(inp.cfg, d));
    var first := if cfg.icmp6 then Icmp(d, true) else Ndp(d);
    M.CommonMembers(EMPTY_TABLE, Packet("", "", false, 0, 0, 0, 0, 0, 0), cfg, d, first);
    if !cfg.icmp6 && pkt.v6 && pkt.l4 == ICMPV6 {
      NdpLookup(d);
      CommonLookedUp(rs, inp, d, Ndp(d), NdpTypes, pkt);
    }
    if PrefixElems(ps, pkt.v6) != [] {
      RemoteLookup(d, pkt.v6, CommonSet(d, pkt.v6), Then(Accept));
      CommonLookedUp(rs, inp, d, CommonPrefix(d, pkt.v6), CommonSet(d, pkt.v6), pkt);
    }
  }

  lemma NdpLookup(d: Dir)
    ensures Lookup(NdpTypes) in Ndp(d).exprs
  {
    assert Ndp(d).exprs[5] == Lookup(NdpTypes);
  }

  lemma CommonWanted(rs: Ruleset, inp: Input, d: Dir)
    requires InputOk(inp)
    ensures forall r :: r in M.CommonRules(inp.cfg, d) ==> r in Wants(Proj(PassLog(rs, inp), FILTER, CommonChain(d)))
  {
    CommonLayout(inp, Force(rs, inp, Ingress), Force(rs, inp, Egress), d);
    hide PassReqs, Force, M.CommonRules, CommonReqs;
    forall r | r in M.CommonRules(inp.cfg, d) ensures r in Wants(Proj(PassLog(rs, inp), FILTER, CommonChain(d))) {
      AsksCommon(inp.cfg, d, r);
      WantsAsks(CommonReqs(inp.cfg), CommonChain(d), r);
    }
  }

  lemma CommonLookedUp(rs: Ruleset, inp: Input, d: Dir, r: Rule, s: SetId, pkt: Packet)
    requires WellFormed(rs) && InputOk(inp) && DistinctPolicies(inp) && SetsServe(rs, inp, d, pkt)
    requires r in M.CommonRules(inp.cfg, d) && Lookup(s) in r.exprs && Looked(s, d, pkt)
    ensures var want := Meaning(inp, FILTER, s);
            M.Serves(Tab(PassOf(rs, inp), FILTER), s, want.interval, want.elems, Sought(s, d, pkt))
  {
    CommonWanted(rs, inp, d);
    hide PassLog, M.CommonRules, Meaning, SetsServe, InputOk;
    LookedUp(rs, inp, CommonChain(d), r, s, d, pkt);
  }

  lemma PodLookup()
    ensures Lookup(PodInterfaces) in InterfaceFilter(Ingress).exprs
  {
    assert InterfaceFilter(Ingress).exprs[1] == Lookup(PodInterfaces);
  }

  lemma PodSetMeaning(inp: Input)
    requires InputOk(inp)
    ensures Meaning(inp, FILTER, PodInterfaces).interval == false
    ensures Meaning(inp, FILTER, PodInterfaces).elems == IfaceElems(inp.ifs)
  {
    hide InputOk;
  }

  lemma PodWanted(rs: Ruleset, inp: Input)
    requires InputOk(inp)
    ensures InterfaceFilter(Ingress) in Wants(Proj(PassLog(rs, inp), FILTER, BaseChain(InputHook)))
  {
    hide PassReqs, Force, InputOk, InterfaceFilter, Proj;
    BaseLayout(inp, Force(rs, inp, Ingress), Force(rs, inp, Egress), Ingress);
    var r := InterfaceFilter(Ingress);
    assert Wants([Insert(r)])[0] == r;
  }

  lemma PodSetArrives(rs: Ruleset, inp: Input, d: Dir, pkt: Packet)
    requires WellFormed(rs) && InputOk(inp) && DistinctPolicies(inp) && SetsServe(rs, inp, d, pkt)
    ensures M.Serves(Tab(PassOf(rs, inp), FILTER), PodInterfaces, false, IfaceElems(inp.ifs), Name(IfOf(d, pkt)))
  {
    PodLookup();
    PodSetMeaning(inp);
    hide PassLog, SetsServe, InputOk, DistinctPolicies, InterfaceFilter, Meaning, Proj, Stage, IfaceElems;
    PodWanted(rs, inp);
    LookedUp(rs, inp, BaseChain(InputHook), InterfaceFilter(Ingress), PodInterfaces, d, pkt);
  }

  // ---------------------------------------------------------- a whole direction

  /** Everything of a realized direction but the entry chain. */
  ghost predicate RestRealized(t: Table, inp: Input, d: Dir, ps: seq<PolicySpec>, pkt: Packet)
    requires InputOk(inp) && PoliciesOk(ps, d)
  {
    && Shape(Chain(t, BaseChain(HookOf(d)))) == [InterfaceFilter(d)]
    && M.Serves(t, PodInterfaces, false, IfaceElems(inp.ifs), Name(IfOf(d, pkt)))
    && M.Matching(Shape(Chain(t, CommonChain(d))), M.CommonRules(inp.cfg, d))
    && M.CommonSetsRight(t, inp.cfg, d, pkt)
    && forall i :: 0 <= i < |ps| ==> PolicyRealized(t, inp, ps[i], d, pkt)
  }

  /** After a pass, a direction is realized if its policy chains are in order
      and, where there are excepts, its peers chains too. */
  lemma RestArrives(rs: Ruleset, inp: Input, d: Dir, ps: seq<PolicySpec>, pkt: Packet)
    requires WellFormed(rs) && InputOk(inp) && DistinctPolicies(inp) && SetsServe(rs, inp, d, pkt)
    requires SupportedFilter(rs)
    requires PoliciesOk(ps, d) && forall p :: p in ps ==> p in PoliciesFor(inp, d)
    requires ShapeAt(PassOf(rs, inp), FILTER, BaseChain(HookOf(d))) == [InterfaceFilter(d)]
    requires forall i :: 0 <= i < |ps| ==>
               ShapeAt(PassOf(rs, inp), FILTER, PolicyChain(d, ps[i].key)) == Quads(d, ps[i].key, |RulesFor(ps[i], d)|)
    requires forall i, n :: 0 <= i < |ps| && 0 <= n < |RulesFor(ps[i], d)| ==>
               PeersSettled(PassOf(rs, inp), inp, ps[i], d, n)
    ensures RestRealized(Tab(PassOf(rs, inp), FILTER), inp, d, ps, pkt)
  {
    hide PassOf, RuleRealized, SetsServe, InputOk, DistinctPolicies, Quads, SupportedFilter, M.CommonRules,
         M.CommonSetsRight, M.Matching, PeersSettled, InterfaceFilter, WellFormed, IfaceElems;
    PodSetArrives(rs, inp, d, pkt);
    CommonMatching(rs, inp, d);
    CommonSetsArrive(rs, inp, d, pkt);
    forall i | 0 <= i < |ps| ensures PolicyRealized(Tab(PassOf(rs, inp), FILTER), inp, ps[i], d, pkt) {
      assert ps[i] in PoliciesFor(inp, d);
      var k :| 0 <= k < |PoliciesFor(inp, d)| && PoliciesFor(inp, d)[k] == ps[i];
      forall n | 0 <= n < |RulesFor(ps[i], d)|
        ensures RuleRealized(Tab(PassOf(rs, inp), FILTER), inp, ps[i], d, n, RulesFor(ps[i], d)[n], pkt)
      {
        assert PeersSettled(PassOf(rs, inp), inp, ps[i], d, n);
        RuleArrivesSettled(rs, inp, d, k, n, pkt);
      }
    }
  }

  lemma WithEntry(t: Table, inp: Input, d: Dir, bs: seq<Block>, ps: seq<PolicySpec>, pkt: Packet)
    requires InputOk(inp) && PoliciesOk(ps, d) && RestRealized(t, inp, d, ps, pkt)
    requires Shape(Chain(t, EntryChain(d))) == EntryRules(d, bs) && BlocksMatch(inp, bs, ps)
    ensures Realized(t, inp, d, bs, ps, pkt)
  {
    hide InterfaceFilter, IfaceElems, M.Matching, M.CommonRules, M.CommonSetsRight, PolicyRealized, EntryRules,
         BlocksMatch;
  }

  lemma RuleArrivesSettled(rs: Ruleset, inp: Input, d: Dir, i: nat, n: nat, pkt: Packet)
    requires WellFormed(rs) && InputOk(inp) && DistinctPolicies(inp) && SetsServe(rs, inp, d, pkt)
    requires SupportedFilter(rs)
    requires i < |PoliciesFor(inp, d)| && n < |RulesFor(PoliciesFor(inp, d)[i], d)|
    requires RulesOk(RulesFor(PoliciesFor(inp, d)[i], d))
    requires PeersSettled(PassOf(rs, inp), inp, PoliciesFor(inp, d)[i], d, n)
    ensures var p := PoliciesFor(inp, d)[i];
            RuleRealized(Tab(PassOf(rs, inp), FILTER), inp, p, d, n, RulesFor(p, d)[n], pkt)
  {
    hide PassOf, RuleRealized, SetsServe, InputOk, DistinctPolicies, SupportedFilter, M.PeersRules;
    RuleArrives(rs, inp, d, i, n, pkt);
  }

  ghost predicate PeersSettled(st: Ruleset, inp: Input, p: PolicySpec, d: Dir, n: nat)
    requires n < |RulesFor(p, d)| && RulesOk(RulesFor(p, d))
  {
    var r := RulesFor(p, d)[n];
    RuleNoExcept(r) || ShapeAt(st, FILTER, PeersChain(d, p.key, n)) == M.PeersRules(inp, p.nets, d, p.key, n, r.peers)
  }
}
