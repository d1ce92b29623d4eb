/** Idempotence under real conditions: between two passes counters have moved,
    other tables have changed, and pods are listed in another order. */
module Repeats {
  import opened Ids
  import opened Machine
  import opened Identity
  import opened Kernel
  import opened Reconcile
  import opened Cleanup
  import opened Policies
  import opened Compile
  import opened Requests
  import opened Layout
  import opened SetLayout
  import opened Exact
  import opened Passes
  import opened Runs

  // ------------------------------------------------------------- reordered pods

  /** The same pods, listed in any order and any number of times. */
  ghost predicate SameView(v: View, w: View) {
    w.namespaces == v.namespaces && w.matches == v.matches && forall pod :: pod in v.pods <==> pod in w.pods
  }

  lemma SameAddrs(v: View, w: View, ifs: seq<Iface>, nets: seq<string>, peer: PeerSpec)
    requires SameView(v, w)
    ensures SelectorAddrs(v, ifs, nets, peer) == SelectorAddrs(w, ifs, nets, peer)
  {
    hide AnyOn, IpsOn;
    assert forall pod :: Selects(v, peer, pod) == Selects(w, peer, pod);
    assert AnyPeerOn(v, nets, peer) == AnyPeerOn(w, nets, peer);
    assert PodIps(v, nets, peer) == PodIps(w, nets, peer);
  }

  function Reviewed(inp: Input, w: View): Input {
    inp.(view := w)
  }

  lemma {:induction false} SamePeerList(inp: Input, w: View, nets: seq<string>, d: Dir, k: PolicyKey, n: nat,
                                        peers: seq<PeerSpec>)
    requires SameView(inp.view, w) && PeersOk(peers)
    ensures PeerListReqs(Reviewed(inp, w), nets, d, k, n, peers) == PeerListReqs(inp, nets, d, k, n, peers)
  {
    hide SelectorAddrs, BlockReqs, FamilyReqs, SameView;
    if peers != [] {
      var j := |peers| - 1;
      SamePeerList(inp, w, nets, d, k, n, peers[..j]);
      SameAddrs(inp.view, w, inp.ifs, nets, peers[j]);
    }
  }

  lemma {:induction false} SameRuleList(inp: Input, w: View, p: PolicySpec, d: Dir, rs: seq<RuleSpec>)
    requires SameView(inp.view, w) && RulesOk(rs)
    ensures RuleListReqs(Reviewed(inp, w), p, d, rs) == RuleListReqs(inp, p, d, rs)
  {
    hide PeerListReqs, PortsReqs, SameView, ResetRule, ReturnRule, JumpRule, AllPeers;
    if rs != [] {
      var n := |rs| - 1;
      SameRuleList(inp, w, p, d, rs[..n]);
      SamePeerList(inp, w, p.nets, d, p.key, n, rs[n].peers);
    }
  }

  lemma {:induction false} SamePolicyList(inp: Input, w: View, ps: seq<PolicySpec>, d: Dir)
    requires SameView(inp.view, w) && PoliciesOk(ps, d)
    ensures PolicyListReqs(Reviewed(inp, w), ps, d) == PolicyListReqs(inp, ps, d)
  {
    hide RuleListReqs, IfaceReqs, OnNetworks, PolicyMark, SameView;
    if ps != [] {
      var n := |ps| - 1;
      SamePolicyList(inp, w, ps[..n], d);
      SameRuleList(inp, w, ps[n], d, RulesFor(ps[n], d));
    }
  }

  /** A pass asks for the same, whatever the order of the pods. */
  lemma SamePodsSameLog(rs: Ruleset, inp: Input, w: View)
    requires SameView(inp.view, w) && InputOk(inp)
    ensures InputOk(Reviewed(inp, w)) && PassLog(rs, Reviewed(inp, w)) == PassLog(rs, inp)
  {
    hide PolicyListReqs, BootReqs, CommonReqs, DropRest, SameView, NewJump;
    SamePolicyList(inp, w, inp.ingress, Ingress);
    SamePolicyList(inp, w, inp.egress, Egress);
    assert PoliciesOk(inp.ingress, Ingress) && PoliciesOk(inp.egress, Egress);
    SameForce(rs, inp, w, Ingress);
    SameForce(rs, inp, w, Egress);
  }

  lemma SameForce(rs: Ruleset, inp: Input, w: View, d: Dir)
    ensures Force(rs, Reviewed(inp, w), d) == Force(rs, inp, d)
  {
    hide IfaceJump, Find, OnNetworks;
    forall p ensures NewJump(rs, Reviewed(inp, w), d, p) == NewJump(rs, inp, d, p) {
    }
  }

  // ------------------------------------------------------------- moved counters

  lemma TickedFind(a: Ruleset, b: Ruleset, t: TableId, r: Rule)
    requires WellFormed(a) && Ticked(a, b) && Managed(t) && Canonical(r) && r.table == t
    ensures Find(ChainAt(a, t, r.chain), r).Some? <==> Find(ChainAt(b, t, r.chain), r).Some?
  {
    hide Canonical, Find, Shape, ChainAt, WellFormed;
    assert WellFormed(b);
    ChainAtOk(a, t, r.chain);
    ChainAtOk(b, t, r.chain);
    FindShape(t, r.chain, ChainAt(a, t, r.chain), Tab(a, t).next, r);
    FindShape(t, r.chain, ChainAt(b, t, r.chain), Tab(b, t).next, r);
    TickedShape(a, b, t, r.chain);
  }

  lemma TickedTable(a: Ruleset, b: Ruleset, t: TableId)
    requires Ticked(a, b) && Managed(t)
    ensures (t in a <==> t in b) && Tab(a, t).sets == Tab(b, t).sets && Tab(a, t).chains.Keys == Tab(b, t).chains.Keys
    ensures forall c :: c in Tab(a, t).chains ==> SameChain(Tab(a, t).chains[c], Tab(b, t).chains[c])
  {
    hide WellFormed;
    if t in a {
      assert SameTable(a[t], b[t]);
    }
  }

  /** What is met stays met. */
  lemma TickedMet(a: Ruleset, b: Ruleset, q: Req)
    requires WellFormed(a) && Ticked(a, b) && Managed(TableOf(q)) && OpsFor(q, a) == []
    requires q.RuleReq? ==> Canonical(q.rule) && !q.force
    ensures OpsFor(q, b) == []
  {
    hide Canonical, Find, WellFormed, SetOps, SameChain;
    TickedTable(a, b, TableOf(q));
    if q.RuleReq? {
      TickedFind(a, b, q.rule.table, q.rule);
      hide Ticked;
    }
  }

  lemma NoForceMember(w: seq<Req>, q: Req)
    requires NoForce(w) && q in w && q.RuleReq?
    ensures !q.force
  {
    var i :| 0 <= i < |w| && w[i] == q;
  }

  lemma TickedNoForce(a: Ruleset, b: Ruleset, inp: Input, d: Dir)
    requires WellFormed(a) && Ticked(a, b) && !Force(a, inp, d)
    ensures !Force(b, inp, d)
  {
    hide IfaceJump, Find, OnNetworks, Ticked, WellFormed;
    forall p, i | p in PoliciesFor(inp, d) && i in OnNetworks(inp.ifs, p.nets)
      ensures Find(ChainAt(b, FILTER, EntryChain(d)), IfaceJump(d, p.key, i)).Some?
    {
      assert !NewJump(a, inp, d, p);
      JumpPlain(d, p.key, i);
      TickedFind(a, b, FILTER, IfaceJump(d, p.key, i));
    }
  }

  lemma JumpPlain(d: Dir, k: PolicyKey, i: Iface)
    ensures var r := IfaceJump(d, k, i); Canonical(r) && r.table == FILTER && r.chain == EntryChain(d)
  {
  }

  /** Tracked keys stay tracked. */
  lemma TickedTracked(a: seq<Installed>, b: seq<Installed>, keys: set<Key>)
    requires SameChain(a, b) && forall x :: x in a ==> KeyOf(x.rule) in keys
    ensures Tracked(b, keys) == b
  {
    hide KeyOf, Strip;
    forall i | 0 <= i < |b| ensures KeyOf(b[i].rule) in keys {
      StripKey(a[i].rule);
      StripKey(b[i].rule);
      assert a[i] in a;
    }
    TrackedAll(b, keys);
  }

  lemma TickedClean(rs: Ruleset, w: seq<Req>, s: Ruleset, t: TableId)
    requires WellFormed(rs) && GoodPart(w, w) && TableReq(t) in w && Managed(t) && Ticked(Pass(rs, w), s)
    ensures CleanTable(t, Tab(s, t), KeysOf(w), SetsOf(w)) == Tab(s, t)
    ensures DropChains(t, Tab(s, t), ChainsOf(w)) == Tab(s, t)
  {
    hide GoodPart, Pass, Ticked, WellFormed, KeyOf, Tracked, SameChain;
    var a, b := Tab(Pass(rs, w), t), Tab(s, t);
    CleanupExact(rs, w, t);
    TickedTable(Pass(rs, w), s, t);
    forall c | c in b.chains ensures Tracked(b.chains[c], KeysOf(w)) == b.chains[c] {
      forall x | x in a.chains[c] ensures KeyOf(x.rule) in KeysOf(w) {
        assert x in ChainAt(Pass(rs, w), t, c);
        KeyTracked(rs, w, t, c, x);
      }
      TickedTracked(a.chains[c], b.chains[c], KeysOf(w));
    }
    forall x | x in b.sets ensures (t, x) in SetsOf(w) || b.sets[x].anonymous {
      assert x in a.sets;
    }
    forall c | c in b.chains ensures (t, c) in ChainsOf(w) {
      assert HasChain(w, t, c);
    }
    assert CleanTable(t, b, KeysOf(w), SetsOf(w)).chains == b.chains;
    assert CleanTable(t, b, KeysOf(w), SetsOf(w)).sets == b.sets;
    assert DropChains(t, b, ChainsOf(w)).chains == b.chains;
  }

  // ---------------------------------------------------------------- idempotence

  lemma TickedIdempotent(rs: Ruleset, inp: Input, s: Ruleset, k: nat)
    requires WellFormed(rs) && InputOk(inp) && DistinctPolicies(inp) && Ticked(PassOf(rs, inp), s)
    ensures Ops(PassLog(s, inp), s) == [] && PassStage(s, inp, k) == s
  {
    hide PassReqs, Force, OpsFor, InputOk, DistinctPolicies, GoodReq, Stage, CleanTable, DropChains, Ticked, WellFormed,
         Canonical, NoForce, TableOf;
    var s0 := PassOf(rs, inp);
    var w, w' := PassLog(rs, inp), PassReqs(inp, false, false);
    StageOk(rs, w, LAST_STAGE);
    NoNewJump(rs, inp, Ingress);
    NoNewJump(rs, inp, Egress);
    TickedNoForce(s0, s, inp, Ingress);
    TickedNoForce(s0, s, inp, Egress);
    assert PassLog(s, inp) == w';
    PassLogSame(rs, inp);
    SameTracking(w', w);
    PassGood(inp, Force(rs, inp, Ingress), Force(rs, inp, Egress));
    forall i | 0 <= i < |w'| ensures OpsFor(w'[i], s) == [] {
      NothingToAdd(rs, inp, w'[i]);
      RequestFacts(inp, w'[i]);
      TickedMet(s0, s, w'[i]);
    }
    NoOps(w', s);
    TickedClean(rs, w, s, FILTER);
    TickedClean(rs, w, s, NAT);
    StableStages(s, w', k);
  }

  lemma RequestFacts(inp: Input, q: Req)
    requires InputOk(inp) && q in PassReqs(inp, false, false)
    ensures Managed(TableOf(q)) && (q.RuleReq? ==> Canonical(q.rule) && !q.force)
  {
    hide PassReqs, InputOk, GoodReq, NoForce, Canonical;
    PassGood(inp, false, false);
    PassCanonical(inp, false, false);
    NoForcePass(inp);
    var w := PassReqs(inp, false, false);
    var i :| 0 <= i < |w| && w[i] == q;
    assert GoodReq(w[i], w);
    GoodTable(w[i], w);
    if q.RuleReq? {
      NoForceMember(w, q);
    }
  }

  /** A pass with the same input queues nothing and none of its stages changes
      anything, although counters have moved, other programs have changed other
      tables, and the pods are listed in another order. */
  lemma Repeats(rs: Ruleset, inp: Input, s: Ruleset, w: View, k: nat)
    requires WellFormed(rs) && InputOk(inp) && DistinctPolicies(inp) && Ticked(PassOf(rs, inp), s)
    requires SameView(inp.view, w)
    ensures InputOk(Reviewed(inp, w)) && Ops(PassLog(s, Reviewed(inp, w)), s) == []
    ensures PassStage(s, Reviewed(inp, w), k) == s
  {
    hide PassOf, PassLog, InputOk, DistinctPolicies, Ticked, WellFormed, SameView, Stage;
    SamePodsSameLog(s, inp, w);
    TickedIdempotent(rs, inp, s, k);
  }
}
