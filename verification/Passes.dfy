/** A reconcile pass for given inputs, and what is met once it is done. */
module Passes {
  import opened Ids
  import opened Machine
  import opened Identity
  import opened Intervals
  import opened Elements
  import opened Kernel
  import opened Reconcile
  import opened Flush
  import opened Cleanup
  import opened Policies
  import opened Compile
  import opened Requests
  import opened Layout
  import opened SetLayout
  import opened Exact

  /** Some interface jump of the policy is not installed yet. */
  ghost predicate NewJump(rs: Ruleset, inp: Input, d: Dir, p: PolicySpec) {
    exists i :: i in OnNetworks(inp.ifs, p.nets) &&
                Find(ChainAt(rs, FILTER, EntryChain(d)), IfaceJump(d, p.key, i)).None?
  }

  /** Drop-remaining is re-added when an interface jump of the direction is new. */
  ghost predicate Force(rs: Ruleset, inp: Input, d: Dir) {
    exists p :: p in PoliciesFor(inp, d) && NewJump(rs, inp, d, p)
  }

  ghost function PassLog(rs: Ruleset, inp: Input): seq<Req>
    requires InputOk(inp)
  {
    PassReqs(inp, Force(rs, inp, Ingress), Force(rs, inp, Egress))
  }

  /** The ruleset after k commits of a pass. */
  ghost function PassStage(rs: Ruleset, inp: Input, k: nat): Ruleset
    requires InputOk(inp)
  {
    Stage(rs, PassLog(rs, inp), k)
  }

  ghost function PassOf(rs: Ruleset, inp: Input): Ruleset
    requires InputOk(inp)
  {
    PassStage(rs, inp, LAST_STAGE)
  }

  // ------------------------------------------------ requests up to forcing

  predicate SameReq(a: Req, b: Req) {
    a == b || (a.RuleReq? && b.RuleReq? && a.rule == b.rule && a.insert == b.insert)
  }

  predicate SameReqs(a: seq<Req>, b: seq<Req>) {
    |a| == |b| && forall i :: 0 <= i < |a| ==> SameReq(a[i], b[i])
  }

  lemma SameJoin(a: seq<Req>, a': seq<Req>, b: seq<Req>, b': seq<Req>)
    requires SameReqs(a, a') && SameReqs(b, b')
    ensures SameReqs(a + b, a' + b')
  {
  }

  lemma SameDir(inp: Input, d: Dir, f: bool, g: bool)
    requires PoliciesOk(PoliciesFor(inp, d), d)
    ensures SameReqs(DirReqs(inp, d, f), DirReqs(inp, d, g))
  {
    hide PolicyListReqs, DropRest;
    if PoliciesFor(inp, d) != [] {
      var l := PolicyListReqs(inp, PoliciesFor(inp, d), d);
      SameJoin(l, l, [RuleReq(DropRest(d), false, f)], [RuleReq(DropRest(d), false, g)]);
    }
  }

  lemma SamePass(inp: Input, f: bool, g: bool, f': bool, g': bool)
    requires InputOk(inp)
    ensures SameReqs(PassReqs(inp, f, g), PassReqs(inp, f', g'))
  {
    hide BootReqs, CommonReqs, DirReqs;
    SameDir(inp, Ingress, f, f');
    SameDir(inp, Egress, g, g');
    var a := BootReqs(inp.ifs) + CommonReqs(inp.cfg);
    SameJoin(a, a, DirReqs(inp, Ingress, f), DirReqs(inp, Ingress, f'));
    SameJoin(a + DirReqs(inp, Ingress, f), a + DirReqs(inp, Ingress, f'),
             DirReqs(inp, Egress, g), DirReqs(inp, Egress, g'));
  }

  lemma SameTracking(a: seq<Req>, b: seq<Req>)
    requires SameReqs(a, b)
    ensures KeysOf(a) == KeysOf(b) && SetsOf(a) == SetsOf(b) && ChainsOf(a) == ChainsOf(b)
  {
    TrackingSub(a, b);
    forall i | 0 <= i < |b| ensures SameReq(b[i], a[i]) {
      assert SameReq(a[i], b[i]);
    }
    TrackingSub(b, a);
  }

  lemma TrackingSub(a: seq<Req>, b: seq<Req>)
    requires SameReqs(a, b)
    ensures KeysOf(a) <= KeysOf(b) && SetsOf(a) <= SetsOf(b) && ChainsOf(a) <= ChainsOf(b)
  {
    forall q | q in a
      ensures (q.RuleReq? ==> KeyOf(q.rule) in KeysOf(b)) && (q.SetReq? ==> (q.t, q.s) in SetsOf(b))
      ensures q.ChainReq? ==> (q.t, q.c) in ChainsOf(b)
    {
      var i :| 0 <= i < |a| && a[i] == q;
      assert SameReq(a[i], b[i]);
      assert b[i] in b;
    }
  }

  // -------------------------------------------------------- no forced update

  predicate NoForce(log: seq<Req>) {
    forall i :: 0 <= i < |log| && log[i].RuleReq? ==> !log[i].force
  }

  lemma NoForceJoin(a: seq<Req>, b: seq<Req>)
    requires NoForce(a) && NoForce(b)
    ensures NoForce(a + b)
  {
  }

  lemma NoForcePorts(d: Dir, k: PolicyKey, n: nat, ports: seq<PortSpec>)
    requires PortsOk(ports)
    ensures NoForce(PortsReqs(d, k, n, ports))
  {
    hide Encode, ProtoRanges, PortsRule, AllPorts, JumpRule;
    var head := [ChainReq(FILTER, PortsChain(d, k, n)), Add(JumpRule(d, k, PortsChain(d, k, n)))];
    var a, b, s := ProtoReqs(d, k, n, ports, TCP), ProtoReqs(d, k, n, ports, UDP), ProtoReqs(d, k, n, ports, SCTP);
    NoForceJoin(a, b);
    NoForceJoin(a + b, s);
    NoForceJoin(a + b + s, if NoRanges(ports) then [Add(AllPorts(d, k, n))] else []);
    NoForceJoin(head, PortsBody(d, k, n, ports));
  }

  lemma NoForcePeer(inp: Input, nets: seq<string>, d: Dir, k: PolicyKey, n: nat, j: nat, peer: PeerSpec)
    requires PeerOk(peer)
    ensures NoForce(PeerReqs(inp, nets, d, k, n, j, peer))
  {
    hide PrefixElems, SelectorAddrs, Prefixes, BlockRule, ExceptRule, SelectorRule;
  }

  lemma {:induction false} NoForcePeerList(inp: Input, nets: seq<string>, d: Dir, k: PolicyKey, n: nat,
                                           peers: seq<PeerSpec>)
    requires PeersOk(peers)
    ensures NoForce(PeerListReqs(inp, nets, d, k, n, peers))
  {
    hide PeerReqs;
    if peers != [] {
      var j := |peers| - 1;
      NoForcePeerList(inp, nets, d, k, n, peers[..j]);
      NoForcePeer(inp, nets, d, k, n, j, peers[j]);
    }
  }

  lemma NoForceRule(inp: Input, p: PolicySpec, d: Dir, n: nat, r: RuleSpec)
    requires RuleOk(r)
    ensures NoForce(RuleReqs(inp, p, d, n, r))
  {
    hide PortsReqs, PeerListReqs, ResetRule, ReturnRule, JumpRule, AllPeers;
    var k := p.key;
    var first, last := [Add(ResetRule(d, k, n))], [Add(ReturnRule(d, k, n))];
    var head := [ChainReq(FILTER, PeersChain(d, k, n)), Add(JumpRule(d, k, PeersChain(d, k, n)))];
    var list := PeerListReqs(inp, p.nets, d, k, n, r.peers);
    var all := if r.peers == [] then [Add(AllPeers(d, k, n))] else [];
    NoForcePorts(d, k, n, r.ports);
    NoForcePeerList(inp, p.nets, d, k, n, r.peers);
    NoForceJoin(list, all);
    NoForceJoin(head, list + all);
    NoForceJoin(first, PortsReqs(d, k, n, r.ports));
    NoForceJoin(first + PortsReqs(d, k, n, r.ports), head + (list + all));
    NoForceJoin(first + PortsReqs(d, k, n, r.ports) + (head + (list + all)), last);
  }

  lemma {:induction false} NoForceRuleList(inp: Input, p: PolicySpec, d: Dir, rs: seq<RuleSpec>)
    requires RulesOk(rs)
    ensures NoForce(RuleListReqs(inp, p, d, rs))
  {
    hide RuleReqs;
    if rs != [] {
      NoForceRuleList(inp, p, d, rs[..|rs| - 1]);
      NoForceRule(inp, p, d, |rs| - 1, rs[|rs| - 1]);
    }
  }

  lemma {:induction false} NoForceIfaces(d: Dir, k: PolicyKey, ifs: seq<Iface>)
    ensures NoForce(IfaceReqs(d, k, ifs))
  {
    hide IfaceJump;
    if ifs != [] {
      NoForceIfaces(d, k, ifs[..|ifs| - 1]);
    }
  }

  lemma {:induction false} NoForcePolicies(inp: Input, ps: seq<PolicySpec>, d: Dir)
    requires PoliciesOk(ps, d)
    ensures NoForce(PolicyListReqs(inp, ps, d))
  {
    hide RuleListReqs, IfaceReqs, PolicyMark, OnNetworks;
    if ps != [] {
      var p := ps[|ps| - 1];
      NoForcePolicies(inp, ps[..|ps| - 1], d);
      var first, last := [ChainReq(FILTER, PolicyChain(d, p.key))], [Add(PolicyMark(d, p.key))];
      var ifaces, rules := IfaceReqs(d, p.key, OnNetworks(inp.ifs, p.nets)), RuleListReqs(inp, p, d, RulesFor(p, d));
      NoForceIfaces(d, p.key, OnNetworks(inp.ifs, p.nets));
      NoForceRuleList(inp, p, d, RulesFor(p, d));
      NoForceJoin(first, ifaces);
      NoForceJoin(first + ifaces, rules);
      NoForceJoin(first + ifaces + rules, last);
      NoForceJoin(PolicyListReqs(inp, ps[..|ps| - 1], d), PolicyReqs(inp, p, d));
    }
  }

  lemma NoForceCommon(cfg: Config)
    requires ConfigOk(cfg)
    ensures NoForce(CommonReqs(cfg))
  {
    hide Icmp, Ndp, ConntrackRule, CommonPrefix, PrefixElems;
    var a :=
      if cfg.icmp6 then [Add(Icmp(Ingress, true)), Add(Icmp(Egress, true))] else NdpReqs(Ingress) + NdpReqs(Egress);
    var b := if cfg.icmp then [Add(Icmp(Ingress, false)), Add(Icmp(Egress, false))] else [];
    var c, e := PrefixReqs(Ingress, Prefixes(cfg.src)), PrefixReqs(Egress, Prefixes(cfg.dst));
    NoForceJoin(a, b);
    NoForceJoin(a + b, c);
    NoForceJoin(a + b + c, e);
    NoForceJoin(a + b + c + e, [Add(ConntrackRule(Ingress)), Add(ConntrackRule(Egress))]);
  }

  /** Only drop-remaining is ever forced. */
  lemma NoForcePass(inp: Input)
    requires InputOk(inp)
    ensures NoForce(PassReqs(inp, false, false))
  {
    assert NoForce(BootReqs(inp.ifs)) by {
      hide InterfaceFilter, CommonJump;
      NoForceJoin(BOOT_CHAINS, BootRules(inp.ifs));
    }
    hide BootReqs, CommonReqs, PolicyListReqs, DropRest;
    NoForceCommon(inp.cfg);
    NoForcePolicies(inp, inp.ingress, Ingress);
    NoForcePolicies(inp, inp.egress, Egress);
    NoForceJoin(PolicyListReqs(inp, inp.ingress, Ingress), [RuleReq(DropRest(Ingress), false, false)]);
    NoForceJoin(PolicyListReqs(inp, inp.egress, Egress), [RuleReq(DropRest(Egress), false, false)]);
    NoForceJoin(BootReqs(inp.ifs), CommonReqs(inp.cfg));
    NoForceJoin(BootReqs(inp.ifs) + CommonReqs(inp.cfg), DirReqs(inp, Ingress, false));
    NoForceJoin(BootReqs(inp.ifs) + CommonReqs(inp.cfg) + DirReqs(inp, Ingress, false), DirReqs(inp, Egress, false));
  }

  // ------------------------------------------------------- what a pass has met

  /** The meaning of the sets of a pass, request by request. */
  lemma PassMeaning(inp: Input, fi: bool, fe: bool, t: TableId, s: SetId)
    requires InputOk(inp) && DistinctPolicies(inp)
    ensures forall q :: q in PassReqs(inp, fi, fe) && NamesSet(q, t, s) ==> q.obj == Meaning(inp, t, s)
  {
    hide PassReqs, Meaning;
    PassMeans(inp, fi, fe);
    var w := PassReqs(inp, fi, fe);
    forall q | q in w && NamesSet(q, t, s) ensures q.obj == Meaning(inp, t, s) {
      var i :| 0 <= i < |w| && w[i] == q;
    }
  }

  lemma MetRule(rs: Ruleset, w: seq<Req>, x: Req, q: Req)
    requires WellFormed(rs) && GoodPart(w, w) && x in w && x.RuleReq?
    requires q.RuleReq? && q.rule == x.rule && !q.force
    ensures OpsFor(q, Pass(rs, w)) == []
  {
    var s, r := Pass(rs, w), q.rule;
    assert GoodReq(x, w) by {
      var i :| 0 <= i < |w| && w[i] == x;
    }
    GoodCanonical(w);
    DeliveredAlways(rs, w, LAST_STAGE, x);
    StageOk(rs, w, LAST_STAGE);
    ChainAtOk(s, r.table, r.chain);
    FindShape(r.table, r.chain, ChainAt(s, r.table, r.chain), Tab(s, r.table).next, r);
  }

  lemma MetSet(rs: Ruleset, w: seq<Req>, q: Req)
    requires WellFormed(rs) && GoodPart(w, w) && q in w && q.SetReq? && TableReq(q.t) in w && Managed(q.t)
    requires forall x :: x in w && NamesSet(x, q.t, q.s) ==> x.obj == q.obj
    ensures OpsFor(q, Pass(rs, w)) == []
  {
    assert HasSet(w, q.t, q.s);
    PassSet(rs, w, q.t, q.s, q.obj);
    SettledSet(SetAt(rs, q.t, q.s), q.obj);
  }

  lemma MetObject(rs: Ruleset, w: seq<Req>, q: Req)
    requires WellFormed(rs) && GoodPart(w, w) && q in w && (q.TableReq? || q.ChainReq?) && TableReq(q.t) in w
    requires Managed(q.t)
    ensures OpsFor(q, Pass(rs, w)) == []
  {
    CleanupExact(rs, w, q.t);
    if q.ChainReq? {
      assert HasChain(w, q.t, q.c);
    }
  }

  /** After a pass, every request of the same inputs is already met. */
  lemma NothingToAdd(rs: Ruleset, inp: Input, q: Req)
    requires WellFormed(rs) && InputOk(inp) && DistinctPolicies(inp)
    requires q in PassReqs(inp, false, false)
    ensures OpsFor(q, PassOf(rs, inp)) == []
  {
    hide PassReqs, Force, GoodReq, OpsFor, Meaning, InputOk, DistinctPolicies;
    var fi, fe := Force(rs, inp, Ingress), Force(rs, inp, Egress);
    var w, w' := PassReqs(inp, fi, fe), PassReqs(inp, false, false);
    PassGood(inp, fi, fe);
    SamePass(inp, false, false, fi, fe);
    NoForcePass(inp);
    var i :| 0 <= i < |w'| && w'[i] == q;
    assert SameReq(w'[i], w[i]);
    assert GoodReq(w[i], w);
    GoodTable(w[i], w);
    if q.RuleReq? {
      MetRule(rs, w, w[i], q);
    } else if q.SetReq? {
      PassMeaning(inp, fi, fe, q.t, q.s);
      MetSet(rs, w, q);
    } else {
      MetObject(rs, w, q);
    }
  }

  lemma GoodTable(q: Req, w: seq<Req>)
    requires GoodReq(q, w) && TableReq(FILTER) in w && TableReq(NAT) in w
    ensures Managed(TableOf(q)) && TableReq(TableOf(q)) in w
  {
  }

  lemma PassLogSame(rs: Ruleset, inp: Input)
    requires InputOk(inp)
    ensures SameReqs(PassReqs(inp, false, false), PassLog(rs, inp))
  {
    hide PassReqs, Force;
    SamePass(inp, false, false, Force(rs, inp, Ingress), Force(rs, inp, Egress));
  }

  lemma SettledSet(have: Option<SetObj>, want: SetObj)
    ensures Missing(SetResult(have, want).elems, want.elems) == {}
    ensures Missing(want.elems, SetResult(have, want).elems) == {}
  {
    if have.Some? {
      NothingMissing(have.value.elems, want.elems);
    } else {
      SameFlagsAgree(want.elems);
    }
  }

  lemma {:induction false} NoOps(log: seq<Req>, rs: Ruleset)
    requires forall i :: 0 <= i < |log| ==> OpsFor(log[i], rs) == []
    ensures Ops(log, rs) == []
  {
    hide OpsFor;
    if log != [] {
      NoOps(log[..|log| - 1], rs);
    }
  }

  lemma {:induction false} TrackedAll(l: seq<Installed>, keys: set<Key>)
    requires forall i :: 0 <= i < |l| ==> KeyOf(l[i].rule) in keys
    ensures Tracked(l, keys) == l
  {
    if l != [] {
      TrackedAll(l[..|l| - 1], keys);
      assert l == l[..|l| - 1] + [l[|l| - 1]];
    }
  }

  lemma NoNewJump(rs: Ruleset, inp: Input, d: Dir)
    requires WellFormed(rs) && InputOk(inp) && DistinctPolicies(inp)
    ensures !Force(PassOf(rs, inp), inp, d)
  {
    hide PassReqs, PassLog, InputOk, DistinctPolicies, Stage;
    var s := PassOf(rs, inp);
    var l := ChainAt(s, FILTER, EntryChain(d));
    forall p, i | p in PoliciesFor(inp, d) && i in OnNetworks(inp.ifs, p.nets)
      ensures Find(l, IfaceJump(d, p.key, i)).Some?
    {
      JumpRequested(inp, d, p, i);
      NothingToAdd(rs, inp, Add(IfaceJump(d, p.key, i)));
      MetFound(s, IfaceJump(d, p.key, i));
    }
  }

  lemma MetFound(rs: Ruleset, r: Rule)
    requires OpsFor(Add(r), rs) == []
    ensures Find(ChainAt(rs, r.table, r.chain), r).Some?
  {
  }

  lemma {:induction false} IfaceReqsHold(d: Dir, k: PolicyKey, ifs: seq<Iface>, i: Iface)
    requires i in ifs
    ensures Add(IfaceJump(d, k, i)) in IfaceReqs(d, k, ifs)
  {
    if i != ifs[|ifs| - 1] {
      IfaceReqsHold(d, k, ifs[..|ifs| - 1], i);
    }
  }

  lemma {:induction false} EntryReqsHold(inp: Input, ps: seq<PolicySpec>, d: Dir, p: PolicySpec, q: Req)
    requires p in ps && q in BlockReqsOf(inp, p, d)
    ensures q in EntryReqs(inp, ps, d)
  {
    hide BlockReqsOf;
    if p != ps[|ps| - 1] {
      EntryReqsHold(inp, ps[..|ps| - 1], d, p, q);
    }
  }

  lemma JumpRequested(inp: Input, d: Dir, p: PolicySpec, i: Iface)
    requires InputOk(inp) && p in PoliciesFor(inp, d) && i in OnNetworks(inp.ifs, p.nets)
    ensures Add(IfaceJump(d, p.key, i)) in PassReqs(inp, false, false)
  {
    var q := Add(IfaceJump(d, p.key, i));
    IfaceReqsHold(d, p.key, OnNetworks(inp.ifs, p.nets), i);
    EntryReqsHold(inp, PoliciesFor(inp, d), d, p, q);
    EntryLayout(inp, false, false, d);
    hide PassReqs;
    ProjMembers(PassReqs(inp, false, false), FILTER, EntryChain(d), q);
  }

  lemma OnTableSame(rs: Ruleset, t: TableId)
    ensures OnTable(rs, t, Tab(rs, t)) == rs
  {
  }

  lemma {:induction false} StableStages(s: Ruleset, w: seq<Req>, k: nat)
    requires Ops(w, s) == []
    requires forall t :: Managed(t) ==>
               CleanTable(t, Tab(s, t), KeysOf(w), SetsOf(w)) == Tab(s, t) &&
                 DropChains(t, Tab(s, t), ChainsOf(w)) == Tab(s, t)
    ensures Stage(s, w, k) == s
    decreases k
  {
    if k > 1 {
      StableStages(s, w, k - 1);
      OnTableSame(s, FILTER);
      OnTableSame(s, NAT);
    }
  }
}
