/** Compiler correctness: on empty managed tables a pass installs chains whose
    verdict is the decision list of the policies. */
module Correct {
  import opened Ids
  import opened Marks
  import opened Machine
  import opened Identity
  import opened Intervals
  import opened Elements
  import opened Kernel
  import opened Reconcile
  import opened Flush
  import opened Cleanup
  import opened Policies
  import opened Compile
  import opened Requests
  import opened Layout
  import opened SetLayout
  import opened Exact
  import opened Passes
  import opened Walks
  import opened Targets
  import opened States
  import opened Results
  import M = Meanings
  import Effects
  import S = Spelled

  /** The filter table is absent, or has no rules and no sets. */
  ghost predicate EmptyFilter(rs: Ruleset) {
    (forall c :: ChainAt(rs, FILTER, c) == []) && Tab(rs, FILTER).sets == map[]
  }

  lemma {:induction false} AddsOnEmpty(p: seq<Req>)
    requires AllAdds(p)
    ensures AllRules(p) && NewApp(p, []) == Wants(p) && NewIns(p, []) == []
  {
    if p != [] {
      var n := |p| - 1;
      AddsOnEmpty(p[..n]);
      assert Wants(p) == Wants(p[..n]) + [p[n].rule];
    }
  }

  lemma FreshUnforced(p: seq<Req>)
    requires AllRules(p)
    ensures Unforced(p, [])
  {
  }

  lemma AllWanted(p: seq<Req>, s: seq<Rule>)
    requires AllRules(p)
    ensures Keep(NewIns(p, s) + NewApp(p, s), p) == NewIns(p, s) + NewApp(p, s)
  {
    var rs := NewIns(p, s) + NewApp(p, s);
    forall i | 0 <= i < |rs| ensures Wanted(rs[i], p) {
      NewMembers(p, s, rs[i]);
      assert rs[i] in NewIns(p, s) || rs[i] in NewApp(p, s);
    }
    KeepAll(rs, p);
  }

  /** On empty tables a chain gets the inserted rules and then the appended ones. */
  lemma FreshShape(rs: Ruleset, w: seq<Req>, c: ChainId)
    requires WellFormed(rs) && EmptyFilter(rs) && CanonicalLog(w)
    ensures var p := Proj(w, FILTER, c);
            ShapeAt(Pass(rs, w), FILTER, c) == NewIns(p, []) + NewApp(p, [])
  {
    hide Stage, NewIns, NewApp, Proj, Keep;
    var p := Proj(w, FILTER, c);
    assert ShapeAt(rs, FILTER, c) == [];
    FreshUnforced(p);
    FlushPlain(rs, w, FILTER, c);
    assert NewIns(p, []) + [] + NewApp(p, []) == NewIns(p, []) + NewApp(p, []);
    StageShape(rs, w, LAST_STAGE, FILTER, c);
    AllWanted(p, []);
  }

  lemma FreshAdds(rs: Ruleset, w: seq<Req>, c: ChainId, x: seq<Rule>)
    requires WellFormed(rs) && EmptyFilter(rs) && CanonicalLog(w) && Yields(w, c, x)
    ensures ShapeAt(Pass(rs, w), FILTER, c) == x
  {
    FreshShape(rs, w, c);
    AddsOnEmpty(Proj(w, FILTER, c));
  }

  lemma InsertOnly(q: Req)
    requires q.RuleReq? && q.insert
    ensures NewIns([q], []) == [q.rule] && NewApp([q], []) == []
  {
    assert [q][..0] == [];
  }

  lemma {:induction false} InsertFirst(q: Req, p: seq<Req>)
    requires q.RuleReq? && q.insert && AllAdds(p)
    ensures AllRules([q] + p) && NewIns([q] + p, []) == [q.rule] && NewApp([q] + p, []) == Wants(p)
  {
    hide NewIns, NewApp;
    if p == [] {
      assert [q] + p == [q];
      InsertOnly(q);
    } else {
      var init, x := p[..|p| - 1], p[|p| - 1];
      InsertFirst(q, init);
      NewSnoc([q] + init, x, []);
      assert ([q] + init) + [x] == [q] + p;
      assert Wants(p) == Wants(init) + [x.rule];
    }
  }

  lemma FreshBase(rs: Ruleset, inp: Input, d: Dir)
    requires WellFormed(rs) && EmptyFilter(rs) && InputOk(inp)
    ensures ShapeAt(PassOf(rs, inp), FILTER, BaseChain(HookOf(d))) == [InterfaceFilter(d)]
  {
    hide PassReqs, Force, InterfaceFilter, EmptyFilter, InputOk;
    var fi, fe := Force(rs, inp, Ingress), Force(rs, inp, Egress);
    PassCanonical(inp, fi, fe);
    BaseLayout(inp, fi, fe, d);
    FreshShape(rs, PassLog(rs, inp), BaseChain(HookOf(d)));
    InsertFirst(Insert(InterfaceFilter(d)), []);
    assert [Insert(InterfaceFilter(d))] + [] == [Insert(InterfaceFilter(d))];
  }

  lemma InsertThenAdds(q: Req, list: seq<Req>, drop: seq<Req>)
    requires q.RuleReq? && q.insert && AllAdds(list) && AllAdds(drop)
    ensures AllRules([q] + list + drop)
    ensures NewIns([q] + list + drop, []) + NewApp([q] + list + drop, []) == [q.rule] + Wants(list) + Wants(drop)
  {
    InsertFirst(q, list + drop);
    WantsConcat(list, drop);
    assert [q] + (list + drop) == [q] + list + drop;
    assert [q.rule] + (Wants(list) + Wants(drop)) == [q.rule] + Wants(list) + Wants(drop);
  }

  lemma FreshEntry(rs: Ruleset, inp: Input, d: Dir)
    requires WellFormed(rs) && EmptyFilter(rs) && InputOk(inp)
    ensures ShapeAt(PassOf(rs, inp), FILTER, EntryChain(d)) == EntryRules(d, BlocksFor(inp, PoliciesFor(inp, d)))
  {
    hide PassReqs, Force, CommonJump, DropRest, EmptyFilter, InputOk, EntryReqs, Flatten, BlockFor, NewIns, NewApp,
         Proj;
    var fi, fe := Force(rs, inp, Ingress), Force(rs, inp, Egress);
    var ps := PoliciesFor(inp, d);
    var list, drop := EntryReqs(inp, ps, d), DropReqs(inp, d, if d.Ingress? then fi else fe);
    PassCanonical(inp, fi, fe);
    EntryLayout(inp, fi, fe, d);
    WantsEntry(inp, ps, d);
    FreshShape(rs, PassLog(rs, inp), EntryChain(d));
    InsertThenAdds(Insert(CommonJump(d)), list, drop);
    assert Wants(drop) == if ps == [] then [] else [DropRest(d)];
  }

  lemma PolicyTargets(inp: Input, fi: bool, fe: bool, d: Dir, i: nat)
    requires InputOk(inp) && DistinctPolicies(inp) && i < |PoliciesFor(inp, d)|
    ensures var p := PoliciesFor(inp, d)[i];
            Yields(PassReqs(inp, fi, fe), PolicyChain(d, p.key), Quads(d, p.key, |RulesFor(p, d)|))
  {
    hide PassReqs, RuleProj, QuadListReqs, Quads;
    var p := PoliciesFor(inp, d)[i];
    PolicyLayout(inp, fi, fe, d, i, PolicyChain(d, p.key));
    WantsQuads(d, p.key, |RulesFor(p, d)|);
  }

  lemma FreshPolicy(rs: Ruleset, inp: Input, d: Dir, i: nat)
    requires WellFormed(rs) && EmptyFilter(rs) && InputOk(inp) && DistinctPolicies(inp) && i < |PoliciesFor(inp, d)|
    ensures var p := PoliciesFor(inp, d)[i];
            ShapeAt(PassOf(rs, inp), FILTER, PolicyChain(d, p.key)) == Quads(d, p.key, |RulesFor(p, d)|)
  {
    hide PassReqs, Force, Quads, Yields, EmptyFilter, InputOk, DistinctPolicies;
    var p := PoliciesFor(inp, d)[i];
    var fi, fe := Force(rs, inp, Ingress), Force(rs, inp, Egress);
    PassCanonical(inp, fi, fe);
    PolicyTargets(inp, fi, fe, d, i);
    FreshAdds(rs, PassLog(rs, inp), PolicyChain(d, p.key), Quads(d, p.key, |RulesFor(p, d)|));
  }

  lemma FreshPeers(rs: Ruleset, inp: Input, d: Dir, i: nat, n: nat)
    requires WellFormed(rs) && EmptyFilter(rs) && InputOk(inp) && DistinctPolicies(inp) && i < |PoliciesFor(inp, d)|
    requires RulesOk(RulesFor(PoliciesFor(inp, d)[i], d)) && n < |RulesFor(PoliciesFor(inp, d)[i], d)|
    ensures PeersSettled(PassOf(rs, inp), inp, PoliciesFor(inp, d)[i], d, n)
  {
    hide PassReqs, Force, Yields, M.PeersRules, M.PortsRules, EmptyFilter, InputOk, DistinctPolicies;
    var p := PoliciesFor(inp, d)[i];
    var fi, fe := Force(rs, inp, Ingress), Force(rs, inp, Egress);
    PassCanonical(inp, fi, fe);
    RuleTargets(inp, fi, fe, d, i, n);
    FreshAdds(rs, PassLog(rs, inp), PeersChain(d, p.key, n),
              M.PeersRules(inp, p.nets, d, p.key, n, RulesFor(p, d)[n].peers));
  }

  lemma FreshSets(rs: Ruleset, inp: Input)
    requires EmptyFilter(rs) && InputOk(inp)
    ensures SetsReady(rs, inp) && SupportedFilter(rs)
  {
    hide PassLog;
  }

  lemma BlocksForMatch(inp: Input, ps: seq<PolicySpec>)
    ensures BlocksMatch(inp, BlocksFor(inp, ps), ps)
  {
  }

  /** A pass on empty tables realizes both directions, policies in list order. */
  lemma FreshRealized(rs: Ruleset, inp: Input, d: Dir, pkt: Packet)
    requires WellFormed(rs) && EmptyFilter(rs) && InputOk(inp) && DistinctPolicies(inp)
    ensures PoliciesOk(PoliciesFor(inp, d), d)
    ensures Realized(Tab(PassOf(rs, inp), FILTER), inp, d, BlocksFor(inp, PoliciesFor(inp, d)), PoliciesFor(inp, d),
                     pkt)
  {
    var ps := PoliciesFor(inp, d);
    assert PoliciesOk(ps, d);
    hide PassOf, Realized, EmptyFilter, InputOk, DistinctPolicies, Quads, EntryRules, BlocksFor, SetsReady, SetsServe,
         BlocksMatch, RuleOk, InterfaceFilter, PeersSettled;
    FreshBase(rs, inp, d);
    FreshEntry(rs, inp, d);
    FreshSets(rs, inp);
    ReadyServes(rs, inp, d, pkt);
    BlocksForMatch(inp, ps);
    forall i | 0 <= i < |ps|
      ensures ShapeAt(PassOf(rs, inp), FILTER, PolicyChain(d, ps[i].key)) == Quads(d, ps[i].key, |RulesFor(ps[i], d)|)
    {
      FreshPolicy(rs, inp, d, i);
    }
    forall i, n | 0 <= i < |ps| && 0 <= n < |RulesFor(ps[i], d)|
      ensures PeersSettled(PassOf(rs, inp), inp, ps[i], d, n)
    {
      FreshPeers(rs, inp, d, i, n);
    }
    RestArrives(rs, inp, d, ps, pkt);
    hide RestRealized;
    WithEntry(Tab(PassOf(rs, inp), FILTER), inp, d, BlocksFor(inp, ps), ps, pkt);
  }

  lemma ExactDir(inp: Input, d: Dir, pkt: Packet)
    requires InputOk(inp) && InputExact(inp, d, pkt)
    ensures M.CommonExact(inp.cfg, d, pkt) && PoliciesOk(PoliciesFor(inp, d), d)
    ensures PoliciesExact(PoliciesFor(inp, d), d, pkt)
  {
  }

  /** Compiler correctness: for every accepted input with distinct policy names,
      every packet that the encodings of the lists concerned represent exactly and
      every initial mark that lacks one of the two bits, the installed chains let
      the packet pass exactly when the decision list does, and foreign mark bits
      survive the walk. */
  lemma CompilerCorrect(rs: Ruleset, inp: Input, d: Dir, pkt: Packet, m: Mark)
    requires WellFormed(rs) && EmptyFilter(rs)
    requires InputOk(inp) && DistinctPolicies(inp) && InputExact(inp, d, pkt) && ValidPacket(pkt) && !Both(m)
    ensures Admits(Tab(PassOf(rs, inp), FILTER), pkt, HookOf(d), m) <==> MayPass(inp, d, pkt)
    ensures var t := Tab(PassOf(rs, inp), FILTER);
            Others(Walk(t, pkt, Rules(t, BaseChain(HookOf(d))), m, JUMP_STACK).mark) == Others(m)
  {
    FreshRealized(rs, inp, d, pkt);
    ExactDir(inp, d, pkt);
    hide PassOf, Realized, EmptyFilter, DistinctPolicies, InputExact, M.CommonExact, PoliciesExact, Admits, Others,
         CommonAccepts, DecidePolicies, BlocksFor, InputOk;
    RealizedVerdict(Tab(PassOf(rs, inp), FILTER), inp, d, BlocksFor(inp, PoliciesFor(inp, d)), PoliciesFor(inp, d), pkt,
                    m);
  }

  /** The same for incoming packets with the policies spelled out on their ingress
      lists and rules, source addresses and numbers. */
  lemma CompiledIngress(rs: Ruleset, inp: Input, pkt: Packet, m: Mark)
    requires WellFormed(rs) && EmptyFilter(rs)
    requires InputOk(inp) && DistinctPolicies(inp) && InputExact(inp, Ingress, pkt) && ValidPacket(pkt) && !Both(m)
    ensures Admits(Tab(PassOf(rs, inp), FILTER), pkt, InputHook, m) <==> S.MayEnter(inp, pkt)
  {
    hide PassOf, EmptyFilter, InputOk, DistinctPolicies, InputExact, Admits, MayPass, S.MayEnter, WellFormed, Both,
         ValidPacket;
    CompilerCorrect(rs, inp, Ingress, pkt, m);
    S.EnterMeans(inp, pkt);
  }

  /** And for outgoing packets, on egress lists and rules and destinations. */
  lemma CompiledEgress(rs: Ruleset, inp: Input, pkt: Packet, m: Mark)
    requires WellFormed(rs) && EmptyFilter(rs)
    requires InputOk(inp) && DistinctPolicies(inp) && InputExact(inp, Egress, pkt) && ValidPacket(pkt) && !Both(m)
    ensures Admits(Tab(PassOf(rs, inp), FILTER), pkt, OutputHook, m) <==> S.MayLeave(inp, pkt)
  {
    hide PassOf, EmptyFilter, InputOk, DistinctPolicies, InputExact, Admits, MayPass, S.MayLeave, WellFormed, Both,
         ValidPacket;
    CompilerCorrect(rs, inp, Egress, pkt, m);
    S.LeaveMeans(inp, pkt);
  }

  // ------------------------------------------------------- the initial mark

  /** With both bits set from the start, the mark check of the first policy lets
      through every packet that is not on an interface of that policy. */
  lemma FirstCheckReturns(t: Table, p: Packet, d: Dir, bs: seq<Block>, x: Decision, m: Mark, depth: nat)
    requires bs != [] && Both(m) && depth > 1 && !OnSome(bs[0].ifs, d, p)
    requires PolicyRight(t, p, PolicyChain(d, bs[0].key), x)
    ensures Walk(t, p, Flatten(d, bs), m, depth) == Out(Returned, m)
  {
    var k, ifs := bs[0].key, bs[0].ifs;
    WalkJumps(t, p, d, k, ifs, x, m, depth);
    Effects.ExecChecks(t, p, d, k, 0, m);
    hide PolicyMark, Exec, PolicyRight, Jumps, OnSome;
    var last := [PolicyMark(d, k)];
    WalkConcat(t, p, Jumps(d, k, ifs), last, m, depth);
    WalkStep(t, p, last, m, depth);
    FlattenFront(d, bs);
    WalkConcat(t, p, BlockOf(d, k, ifs), Flatten(d, bs[1..]), m, depth);
  }

  lemma FlattenLast(d: Dir, bs: seq<Block>, b: Block)
    ensures Flatten(d, bs + [b]) == Flatten(d, bs) + BlockOf(d, b.key, b.ifs)
  {
    hide BlockOf;
    assert (bs + [b])[..|bs|] == bs;
  }

  lemma {:induction false} FlattenFront(d: Dir, bs: seq<Block>)
    requires bs != []
    ensures Flatten(d, bs) == BlockOf(d, bs[0].key, bs[0].ifs) + Flatten(d, bs[1..])
  {
    hide BlockOf, Flatten;
    var init, b := bs[..|bs| - 1], bs[|bs| - 1];
    FlattenLast(d, init, b);
    assert bs == init + [b];
    if init == [] {
      FlattenNone(d);
      assert bs[1..] == [] && bs[0] == b;
      assert [] + BlockOf(d, b.key, b.ifs) == BlockOf(d, b.key, b.ifs) + [];
    } else {
      FlattenFront(d, init);
      FlattenLast(d, init[1..], b);
      assert bs[1..] == init[1..] + [b];
    }
  }

  lemma BothBitsBypass(rs: Ruleset, inp: Input, d: Dir, pkt: Packet, m: Mark)
    requires WellFormed(rs) && EmptyFilter(rs) && InputOk(inp) && DistinctPolicies(inp) && InputExact(inp, d, pkt)
    requires ValidPacket(pkt)
    requires Both(m) && PoliciesFor(inp, d) != [] && !Concerns(inp, PoliciesFor(inp, d)[0], d, pkt)
    ensures Admits(Tab(PassOf(rs, inp), FILTER), pkt, HookOf(d), m)
  {
    var t, ps := Tab(PassOf(rs, inp), FILTER), PoliciesFor(inp, d);
    var bs := BlocksFor(inp, ps);
    FreshRealized(rs, inp, d, pkt);
    ExactDir(inp, d, pkt);
    PolicyDecides(t, inp, ps[0], d, pkt);
    OnSomeConcerns(inp, ps[0], bs[0], d, pkt);
    hide PassOf, PolicyRight, OnSome, Concerns, DistinctPolicies, InputExact, DecideRules, Both, PolicyRealized,
         PoliciesExact, EmptyFilter;
    FirstCheckReturns(t, pkt, d, bs, DecideRules(inp, ps[0].nets, RulesFor(ps[0], d), d, pkt), m, JUMP_STACK - 1);
    EntryBypass(t, inp, d, bs, ps, pkt, m);
  }

  lemma EntryBypass(t: Table, inp: Input, d: Dir, bs: seq<Block>, ps: seq<PolicySpec>, pkt: Packet, m: Mark)
    requires InputOk(inp) && PoliciesOk(ps, d) && Realized(t, inp, d, bs, ps, pkt) && M.CommonExact(inp.cfg, d, pkt)
    requires ValidPacket(pkt)
    requires bs != [] && Walk(t, pkt, Flatten(d, bs), m, JUMP_STACK - 1) == Out(Returned, m)
    ensures Admits(t, pkt, HookOf(d), m)
  {
    EntryReturns(t, inp, d, bs, ps, pkt, m);
    hide InterfaceFilter, InSet, Walk, M.CommonExact, M.CommonSetsRight, M.Matching, PolicyRealized, EntryRules,
         BlocksMatch;
    BaseWalk(t, pkt, d, m);
  }

  lemma EntryReturns(t: Table, inp: Input, d: Dir, bs: seq<Block>, ps: seq<PolicySpec>, pkt: Packet, m: Mark)
    requires InputOk(inp) && PoliciesOk(ps, d) && Realized(t, inp, d, bs, ps, pkt) && M.CommonExact(inp.cfg, d, pkt)
    requires ValidPacket(pkt)
    requires bs != [] && Walk(t, pkt, Flatten(d, bs), m, JUMP_STACK - 1) == Out(Returned, m)
    ensures !Walk(t, pkt, Rules(t, EntryChain(d)), m, JUMP_STACK - 1).fate.Dropped?
  {
    hide InterfaceFilter, Exec, CommonAccepts, Flatten, CommonJump, DropRest, M.CommonExact, M.CommonSetsRight,
         M.Matching, PolicyRealized, Walk, Rules, BlocksMatch, ValidPacket;
    ShapeWalk(t, pkt, EntryChain(d), m, JUMP_STACK - 1);
    Effects.ExecJumps(t, pkt, d, PolicyKey("", ""), CommonChain(d), m);
    M.CommonChainRight(t, pkt, inp.cfg, d, m, JUMP_STACK - 2);
    var head, last := [CommonJump(d)], [DropRest(d)];
    assert head[1..] == [];
    WalkConcat(t, pkt, head + Flatten(d, bs), last, m, JUMP_STACK - 1);
    WalkConcat(t, pkt, head, Flatten(d, bs), m, JUMP_STACK - 1);
    WalkJump(t, pkt, head, CommonChain(d), m, JUMP_STACK - 1);
    WalkNone(t, pkt, m, JUMP_STACK - 1);
  }

  // The two bits of the initial mark, exactly.

  /** The compiler serves the packet right from the initial mark m. */
  ghost predicate CorrectAt(rs: Ruleset, inp: Input, d: Dir, pkt: Packet, m: Mark) {
    WellFormed(rs) && EmptyFilter(rs) && InputOk(inp) && DistinctPolicies(inp) && InputExact(inp, d, pkt) &&
    ValidPacket(pkt) ==>
      (Admits(Tab(PassOf(rs, inp), FILTER), pkt, HookOf(d), m) <==> MayPass(inp, d, pkt))
  }

  /** A pod with two interfaces and one policy that denies all on the first. */
  const DENY_FIRST: Input :=
    Input([Iface("a", "net1", "", []), Iface("b", "net2", "", [])], Config(false, false, [], []),
          [PolicySpec(PolicyKey("ns", "deny"), ["a"], [], [])], [], View([], map[], {}))

  const ON_SECOND: Packet := Packet("net2", "", false, 6, 0, 0, 80, 0, 0)

  lemma DenyFirst()
    ensures InputOk(DENY_FIRST) && DistinctPolicies(DENY_FIRST) && InputExact(DENY_FIRST, Ingress, ON_SECOND)
    ensures ValidPacket(ON_SECOND)
    ensures !Concerns(DENY_FIRST, DENY_FIRST.ingress[0], Ingress, ON_SECOND) && !MayPass(DENY_FIRST, Ingress, ON_SECOND)
  {
    var inp, pkt, p := DENY_FIRST, ON_SECOND, DENY_FIRST.ingress[0];
    assert !Concerns(inp, p, Ingress, pkt);
    assert OnPod(inp, Ingress, pkt) by { assert inp.ifs[1].name == IfOf(Ingress, pkt); }
    assert Prefixes(inp.cfg.src) == [] && Prefixes(inp.cfg.dst) == [];
    assert !CommonAccepts(inp.cfg, Ingress, pkt);
    assert DecidePolicy(inp, p, Ingress, pkt) == Next;
    assert inp.ingress[1..] == [];
    assert DecidePolicies(inp, inp.ingress, Ingress, pkt) == Deny;
  }

  lemma CorrectUnmarked(rs: Ruleset, inp: Input, d: Dir, pkt: Packet, m: Mark)
    requires !Both(m)
    ensures CorrectAt(rs, inp, d, pkt, m)
  {
    hide PassOf, Admits, MayPass, EmptyFilter, InputExact, Both, WellFormed, InputOk, DistinctPolicies, ValidPacket;
    if WellFormed(rs) && EmptyFilter(rs) && InputOk(inp) && DistinctPolicies(inp) && InputExact(inp, d, pkt) &&
       ValidPacket(pkt) {
      CompilerCorrect(rs, inp, d, pkt, m);
    }
  }

  lemma WrongMarked(m: Mark) returns (rs: Ruleset)
    requires Both(m)
    ensures !CorrectAt(rs, DENY_FIRST, Ingress, ON_SECOND, m)
  {
    DenyFirst();
    rs := map[];
    assert WellFormed(rs) && EmptyFilter(rs);
    hide PassOf, Admits, MayPass, EmptyFilter, InputExact, Both, Concerns, WellFormed, InputOk, DistinctPolicies,
         ValidPacket;
    BothBitsBypass(rs, DENY_FIRST, Ingress, ON_SECOND, m);
  }

  /** The compiled chains serve all inputs and packets right from a mark exactly
      when that mark lacks one of the two bits. */
  lemma InitialMarkExact(m: Mark)
    ensures (forall rs, inp, d, pkt :: CorrectAt(rs, inp, d, pkt, m)) <==> !Both(m)
  {
    hide CorrectAt, Both;
    if !Both(m) {
      forall rs, inp, d, pkt ensures CorrectAt(rs, inp, d, pkt, m) {
        CorrectUnmarked(rs, inp, d, pkt, m);
      }
    } else {
      var rs := WrongMarked(m);
    }
  }
}
