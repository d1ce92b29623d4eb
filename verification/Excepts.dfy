/** Peers chains with excepts: exactly when a pass leaves them in order, and the
    verdict, which is then that of the decision list in the order in which the
    policies were first installed. */
module Excepts {
  import opened Ids
  import opened Marks
  import opened Machine
  import opened Identity
  import opened Intervals
  import opened Kernel
  import opened Reconcile
  import opened Flush
  import opened Cleanup
  import opened Policies
  import opened Compile
  import opened Requests
  import opened Layout
  import opened SetLayout
  import opened Exact
  import opened Passes
  import opened Walks
  import opened Targets
  import opened States
  import opened Results
  import opened Correct
  import opened Entry
  import opened Runs
  import opened Blocks
  import opened Incremental
  import opened Histories
  import M = Meanings

  // -------------------------------------------------------- peers chains stay

  lemma ProjNoForce(log: seq<Req>, c: ChainId)
    requires NoForce(log)
    ensures NoForce(Proj(log, FILTER, c))
  {
    var p := Proj(log, FILTER, c);
    forall i | 0 <= i < |p| ensures !p[i].force {
      ProjMembers(log, FILTER, c, p[i]);
      var j :| 0 <= j < |log| && log[j] == p[i];
    }
  }

  lemma PeersBodyUnforced(inp: Input, nets: seq<string>, d: Dir, k: PolicyKey, n: nat, peers: seq<PeerSpec>)
    requires PeersOk(peers)
    ensures NoForce(PeersBody(inp, nets, d, k, n, peers))
  {
    hide PeerListReqs, AllPeers;
    NoForcePeerList(inp, nets, d, k, n, peers);
    NoForceJoin(PeerListReqs(inp, nets, d, k, n, peers), if peers == [] then [Add(AllPeers(d, k, n))] else []);
  }

  /** The requests of a pass for a peers chain. */
  lemma PeersReqsAre(rs: Ruleset, inp: Input, d: Dir, i: nat, n: nat)
    requires InputOk(inp) && DistinctPolicies(inp) && i < |PoliciesFor(inp, d)|
    requires n < |RulesFor(PoliciesFor(inp, d)[i], d)|
    ensures RulesOk(RulesFor(PoliciesFor(inp, d)[i], d)) && CanonicalLog(PassLog(rs, inp))
    ensures var p := PoliciesFor(inp, d)[i];
            var q := Proj(PassLog(rs, inp), FILTER, PeersChain(d, p.key, n));
            AllAdds(q) && NoForce(q) && Wants(q) == M.PeersRules(inp, p.nets, d, p.key, n, RulesFor(p, d)[n].peers)
  {
    hide PassReqs, Force, PeersBody, PortsBody, M.PeersRules, M.PortsRules, RuleListProj, NoForce, CanonicalLog, Proj;
    var p, fi, fe := PoliciesFor(inp, d)[i], Force(rs, inp, Ingress), Force(rs, inp, Egress);
    var rules, c := RulesFor(p, d), PeersChain(d, p.key, n);
    assert RulesOk(rules) && RuleOk(rules[n]);
    PassCanonical(inp, fi, fe);
    RuleTargets(inp, fi, fe, d, i, n);
    PolicyLayout(inp, fi, fe, d, i, c);
    RuleListProjAt(inp, p, d, rules, n);
    PeersBodyUnforced(inp, p.nets, d, p.key, n, rules[n].peers);
    ProjNoForce(PeersBody(inp, p.nets, d, p.key, n, rules[n].peers), c);
  }

  // ------------------------------------------------- wanted peers rules differ

  /** A rule that looks up a set of peer j. */
  predicate OfPeer(r: Rule, j: nat) {
    |r.exprs| > 3 && r.exprs[3].Lookup? && SetPeerIs(r.exprs[3].set_, j)
  }

  predicate SetPeerIs(s: SetId, j: nat) {
    (s.BlockSet? || s.ExceptSet? || s.SelectorSet?) && s.peer == j
  }

  predicate DistinctRules(s: seq<Rule>) {
    forall i, j :: 0 <= i < j < |s| ==> s[i] != s[j]
  }

  lemma LookupFirst(d: Dir, v6: bool, s: SetId, tail: seq<Expr>)
    ensures var es := MatchRemote(d, v6, s) + tail; |es| > 3 && es[3] == Lookup(s)
  {
  }

  lemma LookupsAre(d: Dir, k: PolicyKey, n: nat, j: nat, cidr: Prefix, v6: bool, text: string)
    ensures var r := ExceptRule(d, k, n, j, cidr); |r.exprs| > 3 && r.exprs[3] == Lookup(ExceptSet(d, k, n, j, cidr.v6))
    ensures var r := BlockRule(d, k, n, j, cidr); |r.exprs| > 3 && r.exprs[3] == Lookup(BlockSet(d, k, n, j, cidr.v6))
    ensures var r := SelectorRule(d, k, n, j, v6, text);
            |r.exprs| > 3 && r.exprs[3] == Lookup(SelectorSet(d, k, n, j, v6, text))
  {
    hide MatchRemote;
    LookupFirst(d, cidr.v6, ExceptSet(d, k, n, j, cidr.v6), Then(Drop));
    LookupFirst(d, cidr.v6, BlockSet(d, k, n, j, cidr.v6), MARK_PEER);
    LookupFirst(d, v6, SelectorSet(d, k, n, j, v6, text), MARK_PEER);
  }

  lemma TwoDiffer(a: Rule, b: Rule, first: bool, second: bool, j: nat)
    requires OfPeer(a, j) && OfPeer(b, j) && a.exprs[3] != b.exprs[3]
    ensures var s := (if first then [a] else []) + (if second then [b] else []);
            DistinctRules(s) && forall r :: r in s ==> OfPeer(r, j)
  {
  }

  lemma PeerRulesDiffer(inp: Input, nets: seq<string>, d: Dir, k: PolicyKey, n: nat, j: nat, peer: PeerSpec)
    requires PeerOk(peer)
    ensures DistinctRules(M.PeerRules(inp, nets, d, k, n, j, peer))
    ensures forall r :: r in M.PeerRules(inp, nets, d, k, n, j, peer) ==> OfPeer(r, j)
  {
    hide ExceptRule, BlockRule, SelectorRule, PrefixElems, Prefixes, SelectorAddrs, FamilyElems, SelectorText,
         DistinctRules;
    var text := SelectorText(peer);
    if peer.block.Some? {
      var b := peer.block.value;
      var cidr := b.cidr.prefix;
      LookupsAre(d, k, n, j, cidr, false, text);
      TwoDiffer(ExceptRule(d, k, n, j, cidr), BlockRule(d, k, n, j, cidr),
                PrefixElems(Prefixes(b.except), cidr.v6) != [],
                true, j);
    } else {
      var addrs := SelectorAddrs(inp.view, inp.ifs, nets, peer);
      LookupsAre(d, k, n, j, Prefix(false, 0, 0), false, text);
      LookupsAre(d, k, n, j, Prefix(false, 0, 0), true, text);
      TwoDiffer(SelectorRule(d, k, n, j, false, text), SelectorRule(d, k, n, j, true, text),
                FamilyElems(addrs, false) != {}, FamilyElems(addrs, true) != {}, j);
    }
  }

  ghost predicate PeersBelow(rs: seq<Rule>, n: nat) {
    forall r :: r in rs ==> exists j: nat :: j < n && OfPeer(r, j)
  }

  lemma {:induction false} PeerListDiffers(inp: Input, nets: seq<string>, d: Dir, k: PolicyKey, n: nat,
                                           peers: seq<PeerSpec>)
    requires PeersOk(peers)
    ensures DistinctRules(M.PeerListRules(inp, nets, d, k, n, peers))
    ensures PeersBelow(M.PeerListRules(inp, nets, d, k, n, peers), |peers|)
  {
    hide M.PeerRules, OfPeer;
    if peers != [] {
      var j := |peers| - 1;
      PeerListDiffers(inp, nets, d, k, n, peers[..j]);
      PeerRulesDiffer(inp, nets, d, k, n, j, peers[j]);
      JoinDiffers(M.PeerListRules(inp, nets, d, k, n, peers[..j]), M.PeerRules(inp, nets, d, k, n, j, peers[j]), j);
    }
  }

  lemma JoinDiffers(x: seq<Rule>, y: seq<Rule>, j: nat)
    requires DistinctRules(x) && DistinctRules(y) && PeersBelow(x, j) && forall r :: r in y ==> OfPeer(r, j)
    ensures DistinctRules(x + y) && PeersBelow(x + y, j + 1)
  {
    forall r | r in x ensures r !in y {
      var i: nat :| i < j && OfPeer(r, i);
    }
    hide OfPeer;
    var l := x + y;
    forall a, b | 0 <= a < b < |l| ensures l[a] != l[b] {
      if b < |x| {
        assert l[a] == x[a] && l[b] == x[b];
      } else if a >= |x| {
        assert l[a] == y[a - |x|] && l[b] == y[b - |x|];
      } else {
        assert l[a] == x[a] && l[b] == y[b - |x|] && x[a] in x && y[b - |x|] in y;
      }
    }
    forall r | r in x + y ensures exists i: nat :: i < j + 1 && OfPeer(r, i) {
      if r in x {
        var i: nat :| i < j && OfPeer(r, i);
      }
    }
  }

  lemma PeersDiffer(inp: Input, nets: seq<string>, d: Dir, k: PolicyKey, n: nat, peers: seq<PeerSpec>)
    requires PeersOk(peers)
    ensures DistinctRules(M.PeersRules(inp, nets, d, k, n, peers))
  {
    PeerListDiffers(inp, nets, d, k, n, peers);
    hide AllPeers, M.PeerRules;
    if peers == [] {
      assert M.PeersRules(inp, nets, d, k, n, peers) == [AllPeers(d, k, n)];
    } else {
      assert M.PeersRules(inp, nets, d, k, n, peers) == M.PeerListRules(inp, nets, d, k, n, peers);
    }
  }

  // ------------------------------------------------------ the order after a pass

  /** The rules of a chain that are wanted, in their order. */
  ghost function Standing(s: seq<Rule>, want: seq<Rule>): seq<Rule> {
    if s == [] then []
    else Standing(s[..|s| - 1], want) + if M.HasKey(want, s[|s| - 1]) then [s[|s| - 1]] else []
  }

  lemma WantedKey(r: Rule, p: seq<Req>)
    requires AllRules(p)
    ensures Wanted(r, p) <==> M.HasKey(Wants(p), r)
  {
    hide KeyOf;
    if q :| q in p && q.RuleReq? && KeyOf(q.rule) == KeyOf(r) {
      var i :| 0 <= i < |p| && p[i] == q;
      assert KeyOf(Wants(p)[i]) == KeyOf(r);
    }
    if j :| 0 <= j < |Wants(p)| && KeyOf(Wants(p)[j]) == KeyOf(r) {
      assert p[j] in p && p[j].rule == Wants(p)[j];
    }
  }

  lemma {:induction false} KeepStanding(s: seq<Rule>, p: seq<Req>)
    requires AllRules(p)
    ensures Keep(s, p) == Standing(s, Wants(p))
  {
    hide Wanted, M.HasKey, Wants;
    if s != [] {
      KeepStanding(s[..|s| - 1], p);
      WantedKey(s[|s| - 1], p);
    }
  }

  /** A chain of plain additions after a pass: what was wanted stays, what is
      missing follows. */
  lemma AddsAfter(rs: Ruleset, w: seq<Req>, c: ChainId)
    requires WellFormed(rs) && CanonicalLog(w) && AllAdds(Proj(w, FILTER, c)) && NoForce(Proj(w, FILTER, c))
    ensures var p, s := Proj(w, FILTER, c), ShapeAt(rs, FILTER, c);
            ShapeAt(Pass(rs, w), FILTER, c) == Keep(s, p) + NewApp(p, s)
  {
    hide Stage, Proj, Keep, NewIns, NewApp, CanonicalLog, WellFormed;
    var p, s := Proj(w, FILTER, c), ShapeAt(rs, FILTER, c);
    NoForceUnforced(p, s);
    NoIns(p, s);
    FlushPlain(rs, w, FILTER, c);
    assert [] + s + NewApp(p, s) == s + NewApp(p, s);
    StageShape(rs, w, LAST_STAGE, FILTER, c);
    KeepConcat(s, NewApp(p, s), p);
    AllWanted(p, s);
    assert [] + NewApp(p, s) == NewApp(p, s);
  }

  lemma {:induction false} NewSuffix(p: seq<Req>, s: seq<Rule>, m: nat)
    requires AllAdds(p) && NoForce(p) && m <= |p|
    requires forall i :: 0 <= i < |p| ==> (p[i].rule in s <==> i < m)
    ensures AllRules(p) && NewApp(p, s) == Wants(p)[m..]
  {
    hide NewApp;
    if m == |p| {
      NoneNew(p, s);
    } else {
      var init, q := p[..|p| - 1], p[|p| - 1];
      NewSuffix(init, s, m);
      NewSnoc(init, q, s);
      assert init + [q] == p;
      WantsSnoc(init, q);
    }
  }

  lemma WantsSnoc(p: seq<Req>, q: Req)
    requires AllRules(p) && q.RuleReq?
    ensures AllRules(p + [q]) && Wants(p + [q]) == Wants(p) + [q.rule]
  {
  }

  /** The chain ends up in the order of the requests if and only if the wanted
      rules that are installed are, in order, a prefix of the requested ones. */
  lemma OrderExactly(rs: Ruleset, w: seq<Req>, c: ChainId)
    requires WellFormed(rs) && CanonicalLog(w) && AllAdds(Proj(w, FILTER, c)) && NoForce(Proj(w, FILTER, c))
    requires DistinctRules(Wants(Proj(w, FILTER, c)))
    ensures var want := Wants(Proj(w, FILTER, c));
            ShapeAt(Pass(rs, w), FILTER, c) == want <==> Standing(ShapeAt(rs, FILTER, c), want) <= want
  {
    hide Pass, Proj, Keep, CanonicalLog, WellFormed, NewApp, Standing, Wanted, AllAdds, NoForce;
    var p, s := Proj(w, FILTER, c), ShapeAt(rs, FILTER, c);
    var want, kept := Wants(p), Keep(s, p);
    AddsAfter(rs, w, c);
    KeepStanding(s, p);
    if kept <= want {
      forall i | 0 <= i < |p| ensures p[i].rule in s <==> i < |kept| {
        PrefixPlace(s, p, i);
      }
      NewSuffix(p, s, |kept|);
      assert want[..|kept|] == kept && want[..|kept|] + want[|kept|..] == want;
    }
  }

  lemma PrefixPlace(s: seq<Rule>, p: seq<Req>, i: nat)
    requires AllRules(p) && DistinctRules(Wants(p)) && Keep(s, p) <= Wants(p) && i < |p|
    ensures p[i].rule in s <==> i < |Keep(s, p)|
  {
    hide Keep, KeyOf;
    var want, kept := Wants(p), Keep(s, p);
    assert want[i] == p[i].rule && p[i] in p;
    KeepMembers(s, p, want[i]);
    if want[i] in kept {
      var j :| 0 <= j < |kept| && kept[j] == want[i];
      assert want[j] == kept[j];
    }
    if i < |kept| {
      assert kept[i] == want[i];
    }
  }

  /** The peers chain of a rule after a pass is in compiled order if and only if
      the wanted rules installed before it are, in order, its first ones. */
  lemma PeersOrderExactly(rs: Ruleset, inp: Input, d: Dir, i: nat, n: nat)
    requires WellFormed(rs) && InputOk(inp) && DistinctPolicies(inp) && i < |PoliciesFor(inp, d)|
    requires n < |RulesFor(PoliciesFor(inp, d)[i], d)| && RuleOk(RulesFor(PoliciesFor(inp, d)[i], d)[n])
    ensures var p := PoliciesFor(inp, d)[i];
            var want := M.PeersRules(inp, p.nets, d, p.key, n, RulesFor(p, d)[n].peers);
            ShapeAt(PassOf(rs, inp), FILTER, PeersChain(d, p.key, n)) == want <==>
            Standing(ShapeAt(rs, FILTER, PeersChain(d, p.key, n)), want) <= want
  {
    hide PassLog, InputOk, DistinctPolicies, Stage, M.PeersRules, WellFormed, Proj, CanonicalLog, RulesOk,
         DistinctRules, Standing, NoForce, AllAdds;
    var p := PoliciesFor(inp, d)[i];
    PeersReqsAre(rs, inp, d, i, n);
    PeersDiffer(inp, p.nets, d, p.key, n, RulesFor(p, d)[n].peers);
    OrderExactly(rs, PassLog(rs, inp), PeersChain(d, p.key, n));
  }

  /** The wanted rules of the peers chain are its first ones, in order, or the rule
      has no excepts. */
  ghost predicate PeersReady(rs: Ruleset, inp: Input, p: PolicySpec, d: Dir, n: nat)
    requires n < |RulesFor(p, d)| && RulesOk(RulesFor(p, d))
  {
    var r := RulesFor(p, d)[n];
    RuleNoExcept(r) ||
    var want := M.PeersRules(inp, p.nets, d, p.key, n, r.peers);
    Standing(ShapeAt(rs, FILTER, PeersChain(d, p.key, n)), want) <= want
  }

  ghost predicate AllReady(rs: Ruleset, inp: Input, d: Dir) {
    forall p, n :: p in PoliciesFor(inp, d) && 0 <= n < |RulesFor(p, d)| ==> RuleReady(rs, inp, p, d, n)
  }

  ghost predicate RuleReady(rs: Ruleset, inp: Input, p: PolicySpec, d: Dir, n: int) {
    0 <= n < |RulesFor(p, d)| && RulesOk(RulesFor(p, d)) && PeersReady(rs, inp, p, d, n)
  }

  lemma RuleSettles(rs: Ruleset, inp: Input, d: Dir, p: PolicySpec, n: nat)
    requires WellFormed(rs) && InputOk(inp) && DistinctPolicies(inp) && p in PoliciesFor(inp, d) && n < |RulesFor(p, d)|
    ensures RuleSettled(PassOf(rs, inp), inp, p, d, n) <==> RuleReady(rs, inp, p, d, n)
  {
    hide PassOf, InputOk, DistinctPolicies, M.PeersRules, RuleNoExcept, WellFormed, RulesOk, Standing;
    var ps := PoliciesFor(inp, d);
    var i :| 0 <= i < |ps| && ps[i] == p;
    InputRules(inp, d, p);
    OneRuleOk(RulesFor(p, d), n);
    PeersOrderExactly(rs, inp, d, i, n);
  }

  /** So all peers chains with excepts are in compiled order after a pass exactly
      when that holds of each of them before. */
  lemma PassSettles(rs: Ruleset, inp: Input, d: Dir)
    requires WellFormed(rs) && InputOk(inp) && DistinctPolicies(inp)
    ensures AllSettled(PassOf(rs, inp), inp, d) <==> AllReady(rs, inp, d)
  {
    hide PassOf, InputOk, DistinctPolicies, WellFormed, RuleSettled, RuleReady;
    forall p, n | p in PoliciesFor(inp, d) && 0 <= n < |RulesFor(p, d)|
      ensures RuleSettled(PassOf(rs, inp), inp, p, d, n) <==> RuleReady(rs, inp, p, d, n)
    {
      RuleSettles(rs, inp, d, p, n);
    }
  }

  lemma OneRuleOk(rs: seq<RuleSpec>, n: nat)
    requires RulesOk(rs) && n < |rs|
    ensures RuleOk(rs[n])
  {
  }

  lemma {:induction false} StandingAll(s: seq<Rule>, want: seq<Rule>)
    requires forall r :: r in s ==> r in want
    ensures Standing(s, want) == s
  {
    hide KeyOf;
    if s != [] {
      StandingAll(s[..|s| - 1], want);
      var r := s[|s| - 1];
      assert r in s;
      var j :| 0 <= j < |want| && want[j] == r;
      assert M.HasKey(want, r);
    }
  }

  /** A chain that is empty or in order is ready. */
  lemma SettledReady(rs: Ruleset, inp: Input, p: PolicySpec, d: Dir, n: nat)
    requires n < |RulesFor(p, d)| && RulesOk(RulesFor(p, d))
    requires ShapeAt(rs, FILTER, PeersChain(d, p.key, n)) == [] || PeersSettled(rs, inp, p, d, n)
    ensures RuleReady(rs, inp, p, d, n)
  {
    hide M.PeersRules, M.HasKey, ShapeAt;
    var r := RulesFor(p, d)[n];
    if !RuleNoExcept(r) {
      StandingAll(ShapeAt(rs, FILTER, PeersChain(d, p.key, n)), M.PeersRules(inp, p.nets, d, p.key, n, r.peers));
    }
  }

  // ------------------------------------------------------------- between passes

  predicate OnlyBlocks(peers: seq<PeerSpec>) {
    forall i :: 0 <= i < |peers| ==> peers[i].block.Some?
  }

  lemma {:induction false} BlocksSame(a: Input, b: Input, m: seq<string>, nets: seq<string>, d: Dir, k: PolicyKey,
                                      n: nat, peers: seq<PeerSpec>)
    requires PeersOk(peers) && OnlyBlocks(peers)
    ensures M.PeerListRules(a, m, d, k, n, peers) == M.PeerListRules(b, nets, d, k, n, peers)
  {
    hide M.BlockRules;
    if peers != [] {
      BlocksSame(a, b, m, nets, d, k, n, peers[..|peers| - 1]);
    }
  }

  /** A rule with excepts that was there before has kept its peers, and they are
      all IP blocks. */
  ghost predicate ExceptsFixed(a: Input, b: Input, d: Dir) {
    forall p, q, n ::
      p in PoliciesFor(a, d) && q in PoliciesFor(b, d) && p.key == q.key &&
      0 <= n < |RulesFor(q, d)| && n < |RulesFor(p, d)| ==>
      SamePeers(RulesFor(p, d)[n], RulesFor(q, d)[n])
  }

  predicate SamePeers(r: RuleSpec, s: RuleSpec) {
    RuleNoExcept(s) || (r.peers == s.peers && OnlyBlocks(s.peers))
  }

  /** The peers chain of a rule that a pass does not know is empty after it. */
  lemma UnknownEmpty(rs: Ruleset, a: Input, d: Dir, k: PolicyKey, n: nat)
    requires WellFormed(rs) && InputOk(a) && DistinctPolicies(a)
    requires forall p :: p in PoliciesFor(a, d) && p.key == k ==> |RulesFor(p, d)| <= n
    ensures ShapeAt(PassOf(rs, a), FILTER, PeersChain(d, k, n)) == []
  {
    hide PassReqs, Force, DistinctPolicies, Stage, Keep, Proj, WellFormed, RulesOk;
    var c, ps := PeersChain(d, k, n), PoliciesFor(a, d);
    var fi, fe := Force(rs, a, Ingress), Force(rs, a, Egress);
    if i :| 0 <= i < |ps| && ps[i].key == k {
      assert DistinctKeys(ps) by { DistinctDir(a, d); }
      assert ps[i] in ps;
      PolicyLayout(a, fi, fe, d, i, c);
    } else {
      StaleLayout(a, fi, fe, d, k, c);
    }
    StageShape(rs, PassLog(rs, a), LAST_STAGE, FILTER, c);
    KeepNone(ShapeAt(Stage(rs, PassLog(rs, a), 1), FILTER, c), []);
  }

  lemma NextReady(rs: Ruleset, st: Ruleset, a: Input, b: Input, d: Dir)
    requires WellFormed(rs) && InputOk(a) && DistinctPolicies(a) && InputOk(b) && ExceptsFixed(a, b, d)
    requires AllSettled(PassOf(rs, a), a, d) && Ticked(PassOf(rs, a), st)
    ensures AllReady(st, b, d)
  {
    hide PassOf, InputOk, DistinctPolicies, WellFormed, Ticked, PeersSettled, PeersReady, RuleNoExcept, RulesOk,
         SamePeers;
    forall q, n | q in PoliciesFor(b, d) && 0 <= n < |RulesFor(q, d)| ensures RuleReady(st, b, q, d, n) {
      InputRules(b, d, q);
      TickedShape(PassOf(rs, a), st, FILTER, PeersChain(d, q.key, n));
      if p :| p in PoliciesFor(a, d) && p.key == q.key && n < |RulesFor(p, d)| {
        assert SamePeers(RulesFor(p, d)[n], RulesFor(q, d)[n]);
        assert RuleSettled(PassOf(rs, a), a, p, d, n);
        StillSettled(PassOf(rs, a), st, a, b, d, p, q, n);
      } else {
        UnknownEmpty(rs, a, d, q.key, n);
      }
      SettledReady(st, b, q, d, n);
    }
  }

  lemma InputRules(inp: Input, d: Dir, p: PolicySpec)
    requires InputOk(inp) && p in PoliciesFor(inp, d)
    ensures RulesOk(RulesFor(p, d))
  {
    hide RulesOk;
    var i :| 0 <= i < |PoliciesFor(inp, d)| && PoliciesFor(inp, d)[i] == p;
  }

  lemma StillSettled(old_: Ruleset, st: Ruleset, a: Input, b: Input, d: Dir, p: PolicySpec, q: PolicySpec, n: nat)
    requires p.key == q.key && n < |RulesFor(p, d)| && n < |RulesFor(q, d)| && RulesOk(RulesFor(p, d))
    requires RulesOk(RulesFor(q, d))
    requires ShapeAt(old_, FILTER, PeersChain(d, q.key, n)) == ShapeAt(st, FILTER, PeersChain(d, q.key, n))
    requires SamePeers(RulesFor(p, d)[n], RulesFor(q, d)[n]) && PeersSettled(old_, a, p, d, n)
    ensures PeersSettled(st, b, q, d, n)
  {
    hide M.PeerListRules, ShapeAt;
    var r, s := RulesFor(p, d)[n], RulesFor(q, d)[n];
    if !RuleNoExcept(s) {
      assert RuleNoExcept(r) <==> RuleNoExcept(s);
      BlocksSame(a, b, p.nets, q.nets, d, q.key, n, s.peers);
    }
  }

  // ----------------------------------------------------------------- histories

  /** A history in which excepts are fixed in direction d. */
  ghost predicate ExceptHistory(states: seq<Ruleset>, inps: seq<Input>, d: Dir) {
    History(states, inps) && forall i :: 0 < i < |inps| ==> ExceptsFixed(inps[i - 1], inps[i], d)
  }

  lemma EmptyReady(rs: Ruleset, inp: Input, d: Dir)
    requires EmptyFilter(rs) && InputOk(inp)
    ensures AllReady(rs, inp, d)
  {
    hide RulesOk, PeersSettled, PeersReady, InputOk;
    forall p, n | p in PoliciesFor(inp, d) && 0 <= n < |RulesFor(p, d)| ensures RuleReady(rs, inp, p, d, n) {
      InputRules(inp, d, p);
      assert ChainAt(rs, FILTER, PeersChain(d, p.key, n)) == [];
      SettledReady(rs, inp, p, d, n);
    }
  }

  /** As long as a surviving rule with excepts keeps its peers and these are all IP
      blocks, every pass finds peers chains that it leaves in order. */
  lemma {:induction false} HistoryReady(states: seq<Ruleset>, inps: seq<Input>, n: nat, d: Dir)
    requires ExceptHistory(states, inps, d) && n < |inps|
    ensures AllReady(states[n], inps[n], d)
  {
    hide AllReady, AllSettled, PassOf, InputOk, DistinctPolicies, Selected, Compatible, Ticked, WellFormed, EmptyFilter,
         ExceptsFixed, SupportedFilter, NoneAnonymous, Ordered, Follows;
    if n == 0 {
      EmptyReady(states[0], inps[0], d);
    } else {
      HistoryReady(states, inps, n - 1, d);
      HistorySteady(states, inps, n - 1);
      PassSettles(states[n - 1], inps[n - 1], d);
      NextReady(states[n - 1], states[n], inps[n - 1], inps[n], d);
    }
  }

  /** The policies of the input in the order of the blocks of the entry chain. */
  ghost predicate BlockOrder(rs: Ruleset, inp: Input, d: Dir, qs: seq<PolicySpec>) {
    && (forall p :: p in qs <==> p in PoliciesFor(inp, d))
    && exists bs :: BlocksMatch(inp, bs, qs) && ShapeAt(rs, FILTER, EntryChain(d)) == EntryRules(d, bs)
  }

  /** With excepts, the verdict after every pass that leaves its peers chains in
      order is the decision list over the policies in the order of their blocks. */
  lemma VerdictInBlockOrder(states: seq<Ruleset>, inps: seq<Input>, n: nat, d: Dir, pkt: Packet, m: Mark)
    returns (qs: seq<PolicySpec>)
    requires History(states, inps) && n < |inps| && AllReady(states[n], inps[n], d)
    requires Fit(inps[n]) && InputExact(inps[n], d, pkt) && ValidPacket(pkt) && !Both(m)
    ensures PoliciesOk(qs, d) && BlockOrder(states[n + 1], inps[n], d, qs)
    ensures Admits(Tab(states[n + 1], FILTER), pkt, HookOf(d), m) <==>
            || !OnPod(inps[n], d, pkt) || CommonAccepts(inps[n].cfg, d, pkt) || PoliciesFor(inps[n], d) == []
            || DecidePolicies(inps[n], qs, d, pkt).Allow?
  {
    hide PassOf, InputOk, DistinctPolicies, Selected, Compatible, Ticked, WellFormed, EmptyFilter, Ordered, SetsReady,
         SetsServe, NoGain, Admits, InputExact, SupportedFilter, Both, AllReady, AllSettled, OnPod,
         CommonAccepts, DecidePolicies, M.CommonExact, PoliciesExact, PoliciesOk, EntryRules, BlocksMatch,
         DistinctBlocks, M.Matching, M.CommonRules, M.CommonSetsRight, PolicyRealized, InterfaceFilter, NoneAnonymous;
    var rs, inp := states[n], inps[n];
    HistorySteady(states, inps, n);
    assert d == Ingress || d == Egress;
    PassSettles(rs, inp, d);
    var bs;
    ReadyServes(rs, inp, d, pkt);
    bs, qs := PassRealized(rs, inp, d, pkt);
    ExactIn(inp, d, qs, pkt);
    SameEmpty(qs, PoliciesFor(inp, d));
    RealizedVerdict(Tab(PassOf(rs, inp), FILTER), inp, d, bs, qs, pkt, m);
    TickedAdmits(PassOf(rs, inp), states[n + 1], FILTER, pkt, HookOf(d), m);
    TickedShape(PassOf(rs, inp), states[n + 1], FILTER, EntryChain(d));
  }

  /** Two lists of the same policies decide alike unless one policy allows what
      another denies. */
  lemma Uncontested(inp: Input, ps: seq<PolicySpec>, qs: seq<PolicySpec>, d: Dir, pkt: Packet)
    requires PoliciesOk(ps, d) && PoliciesOk(qs, d) && forall p :: p in ps <==> p in qs
    requires !(SomeDecides(inp, ps, d, pkt, Allow) && SomeDecides(inp, ps, d, pkt, Deny))
    ensures DecidePolicies(inp, ps, d, pkt) == DecidePolicies(inp, qs, d, pkt)
  {
    hide DecidePolicies, SomeDecides;
    PermutedDecides(inp, ps, qs, d, pkt, Allow);
    PermutedDecides(inp, ps, qs, d, pkt, Deny);
    DecidesFirst(inp, ps, d, pkt);
    DecidesFirst(inp, qs, d, pkt);
  }

  /** Incremental equals fresh, excepts included: every packet that is not allowed
      by one policy and denied by another gets the verdict of a fresh compile. */
  lemma FreshUnlessContested(states: seq<Ruleset>, inps: seq<Input>, n: nat, blank: Ruleset, d: Dir, pkt: Packet,
                             m: Mark)
    requires History(states, inps) && n < |inps| && AllReady(states[n], inps[n], d)
    requires WellFormed(blank) && EmptyFilter(blank)
    requires Fit(inps[n]) && InputExact(inps[n], d, pkt) && ValidPacket(pkt) && !Both(m)
    requires PoliciesOk(PoliciesFor(inps[n], d), d)
    requires !(SomeDecides(inps[n], PoliciesFor(inps[n], d), d, pkt, Allow) &&
               SomeDecides(inps[n], PoliciesFor(inps[n], d), d, pkt, Deny))
    ensures Admits(Tab(states[n + 1], FILTER), pkt, HookOf(d), m) <==> MayPass(inps[n], d, pkt)
    ensures Admits(Tab(states[n + 1], FILTER), pkt, HookOf(d), m) <==>
            Admits(Tab(PassOf(blank, inps[n]), FILTER), pkt, HookOf(d), m)
  {
    hide History, AllReady, PassOf, InputOk, DistinctPolicies, Selected, WellFormed, EmptyFilter, Admits, InputExact,
         Both, OnPod, CommonAccepts, DecidePolicies, SomeDecides, ValidPacket, PoliciesOk;
    var qs := VerdictInBlockOrder(states, inps, n, d, pkt, m);
    Uncontested(inps[n], PoliciesFor(inps[n], d), qs, d, pkt);
    CompilerCorrect(blank, inps[n], d, pkt, m);
  }
}
