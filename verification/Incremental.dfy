/** One pass on chains that earlier passes have left: policy chains stay in rule
    order and base chains filter interfaces at every commit, and, unless an
    installed policy gains an interface, the pass realizes its input. */
module Incremental {
  import opened Ids
  import opened Marks
  import opened Machine
  import opened Identity
  import opened Intervals
  import opened Elements
  import opened Kernel
  import opened Reconcile
  import opened Flush
  import opened Cleanup
  import opened Policies
  import opened Compile
  import opened Requests
  import opened Layout
  import opened SetLayout
  import opened Exact
  import opened Passes
  import opened Walks
  import opened Targets
  import opened States
  import opened Results
  import opened Correct
  import opened Entry
  import opened Runs
  import opened Blocks
  import M = Meanings

  // ----------------------------------------------------------- policy chains

  lemma QuadNotes(d: Dir, k: PolicyKey, n: nat)
    ensures Quad(d, k, n)[0].comment == ResetNote(d, k, n)
    ensures Quad(d, k, n)[1].comment == JumpNote(k, PortsChain(d, k, n))
    ensures Quad(d, k, n)[2].comment == JumpNote(k, PeersChain(d, k, n))
    ensures Quad(d, k, n)[3].comment == ReturnNote(d, k, n)
  {
  }

  /** Rules of different quads have different comments. */
  lemma QuadsApart(d: Dir, k: PolicyKey, i: nat, j: nat, a: nat, b: nat)
    requires a < 4 && b < 4 && Quad(d, k, i)[a].comment == Quad(d, k, j)[b].comment
    ensures i == j
  {
    QuadNotes(d, k, i);
    QuadNotes(d, k, j);
    hide Quad;
  }

  lemma {:induction false} QuadsMembers(d: Dir, k: PolicyKey, n: nat, r: Rule)
    ensures r in Quads(d, k, n) <==> exists i: nat :: i < n && r in Quad(d, k, i)
  {
    hide Quad;
    if n > 0 {
      QuadsMembers(d, k, n - 1, r);
    }
  }

  lemma QuadWanted(d: Dir, k: PolicyKey, n: nat, i: nat, a: nat)
    requires a < 4
    ensures AllRules(QuadListReqs(d, k, n)) && (Wanted(Quad(d, k, i)[a], QuadListReqs(d, k, n)) <==> i < n)
    ensures Quad(d, k, i)[a] in Quads(d, k, n) <==> i < n
  {
    hide Quad, Quads, QuadListReqs;
    var r, p := Quad(d, k, i)[a], QuadListReqs(d, k, n);
    WantsQuads(d, k, n);
    QuadsMembers(d, k, n, r);
    if i < n {
      assert r in Quad(d, k, i);
      var m :| 0 <= m < |p| && Wants(p)[m] == r;
      assert p[m] in p;
    }
    if q :| q in p && q.RuleReq? && KeyOf(q.rule) == KeyOf(r) {
      var m :| 0 <= m < |p| && p[m] == q;
      assert Wants(p)[m] == q.rule;
      QuadsMembers(d, k, n, q.rule);
      var j: nat :| j < n && q.rule in Quad(d, k, j);
      var b :| 0 <= b < 4 && Quad(d, k, j)[b] == q.rule;
      QuadsApart(d, k, i, j, a, b);
    }
    if r in Quads(d, k, n) {
      var j: nat :| j < n && r in Quad(d, k, j);
      var b :| 0 <= b < 4 && Quad(d, k, j)[b] == r;
      QuadsApart(d, k, i, j, a, b);
    }
  }

  lemma {:induction false} KeepQuads(d: Dir, k: PolicyKey, m: nat, n: nat)
    ensures Keep(Quads(d, k, m), QuadListReqs(d, k, n)) == Quads(d, k, if m <= n then m else n)
  {
    hide Quad, QuadListReqs, Wanted, Keep;
    var p := QuadListReqs(d, k, n);
    if m == 0 {
      KeepNone([], p);
    } else {
      KeepQuads(d, k, m - 1, n);
      KeepConcat(Quads(d, k, m - 1), Quad(d, k, m - 1), p);
      var q := Quad(d, k, m - 1);
      forall a | 0 <= a < |q| ensures Wanted(q[a], p) <==> m - 1 < n {
        QuadWanted(d, k, n, m - 1, a);
      }
      if m <= n {
        KeepAll(Quad(d, k, m - 1), p);
      } else {
        KeepNone(Quad(d, k, m - 1), p);
      }
    }
  }

  lemma QuadAdds(d: Dir, k: PolicyKey, i: nat, s: seq<Rule>, all: bool)
    requires var quad := Quad(d, k, i); forall a :: 0 <= a < |quad| ==> (quad[a] in s <==> !all)
    ensures AllRules(QuadReqs(d, k, i)) && NewApp(QuadReqs(d, k, i), s) == if all then Quad(d, k, i) else []
  {
    var p := QuadReqs(d, k, i);
    assert forall a: nat :: a < 4 ==> p[a] == Add(Quad(d, k, i)[a]);
    hide Quad, QuadReqs;
    if all {
      AllNew(p, s);
    } else {
      NoneNew(p, s);
    }
  }

  lemma {:induction false} QuadListAdds(d: Dir, k: PolicyKey, n: nat)
    ensures AllAdds(QuadListReqs(d, k, n)) && NoForce(QuadListReqs(d, k, n)) && AllRules(QuadListReqs(d, k, n))
  {
    hide QuadReqs;
    if n > 0 {
      QuadListAdds(d, k, n - 1);
      OneQuad(d, k, n - 1);
    }
  }

  lemma NextQuad(d: Dir, k: PolicyKey, m: nat, i: nat)
    ensures AllRules(QuadReqs(d, k, i))
    ensures NewApp(QuadReqs(d, k, i), Quads(d, k, m)) == if m <= i then Quad(d, k, i) else []
  {
    hide Quad, Quads, QuadReqs, NewApp;
    var s, quad := Quads(d, k, m), Quad(d, k, i);
    forall a | 0 <= a < |quad| ensures quad[a] in s <==> !(m <= i) {
      QuadWanted(d, k, m, i, a);
    }
    QuadAdds(d, k, i, s, m <= i);
  }

  /** Installed quads stay, missing ones are appended in order. */
  lemma {:induction false} AddQuads(d: Dir, k: PolicyKey, m: nat, n: nat)
    ensures AllRules(QuadListReqs(d, k, n))
    ensures Quads(d, k, m) + NewApp(QuadListReqs(d, k, n), Quads(d, k, m)) == Quads(d, k, if m <= n then n else m)
  {
    hide Quad, QuadReqs, NewApp;
    var s := Quads(d, k, m);
    QuadListAdds(d, k, n);
    if n == 0 {
      NoneNew([], s);
      assert s + [] == s;
    } else {
      AddQuads(d, k, m, n - 1);
      var p, q := QuadListReqs(d, k, n - 1), QuadReqs(d, k, n - 1);
      NextQuad(d, k, m, n - 1);
      NewAppConcat(p, q, s);
      assert s + (NewApp(p, s) + NewApp(q, s)) == (s + NewApp(p, s)) + NewApp(q, s);
    }
  }

  lemma OneQuad(d: Dir, k: PolicyKey, n: nat)
    ensures AllAdds(QuadReqs(d, k, n)) && NoForce(QuadReqs(d, k, n))
  {
  }

  ghost predicate QuadChain(rs: Ruleset, d: Dir, k: PolicyKey) {
    exists m :: ShapeAt(rs, FILTER, PolicyChain(d, k)) == Quads(d, k, m)
  }

  lemma NoForceUnforced(p: seq<Req>, s: seq<Rule>)
    requires AllRules(p) && NoForce(p)
    ensures Unforced(p, s)
  {
  }

  lemma QuadReqsAre(rs: Ruleset, inp: Input, d: Dir, i: nat)
    requires InputOk(inp) && DistinctPolicies(inp) && i < |PoliciesFor(inp, d)|
    ensures CanonicalLog(PassLog(rs, inp))
    ensures var p := PoliciesFor(inp, d)[i];
            Proj(PassLog(rs, inp), FILTER, PolicyChain(d, p.key)) == QuadListReqs(d, p.key, |RulesFor(p, d)|)
  {
    hide PassReqs, Force, QuadListReqs, Proj, CanonicalLog, RulesOk;
    PassCanonical(inp, Force(rs, inp, Ingress), Force(rs, inp, Egress));
    PolicyLayout(inp, Force(rs, inp, Ingress), Force(rs, inp, Egress), d, i,
                 PolicyChain(d, PoliciesFor(inp, d)[i].key));
  }

  lemma PassQuads(rs: Ruleset, inp: Input, d: Dir, i: nat)
    requires WellFormed(rs) && InputOk(inp) && DistinctPolicies(inp) && i < |PoliciesFor(inp, d)|
    requires QuadChain(rs, d, PoliciesFor(inp, d)[i].key)
    ensures var p := PoliciesFor(inp, d)[i];
            ShapeAt(PassOf(rs, inp), FILTER, PolicyChain(d, p.key)) == Quads(d, p.key, |RulesFor(p, d)|)
  {
    hide PassLog, InputOk, DistinctPolicies, Quads, QuadListReqs, Stage, Keep, NewApp, NewIns, Proj, AllAdds, NoForce,
         Unforced;
    var p := PoliciesFor(inp, d)[i];
    var k, n := p.key, |RulesFor(p, d)|;
    var w := PassLog(rs, inp);
    QuadReqsAre(rs, inp, d, i);
    var m: nat :| ShapeAt(rs, FILTER, PolicyChain(d, k)) == Quads(d, k, m);
    FlushQuads(rs, w, d, k, m, n);
    StageShape(rs, w, LAST_STAGE, FILTER, PolicyChain(d, k));
    KeepQuads(d, k, if m <= n then n else m, n);
  }

  /** The requests for a policy chain are quads, none if the policy is unknown. */
  lemma QuadProj(rs: Ruleset, inp: Input, d: Dir, k: PolicyKey) returns (n: nat)
    requires InputOk(inp) && DistinctPolicies(inp)
    ensures CanonicalLog(PassLog(rs, inp))
    ensures Proj(PassLog(rs, inp), FILTER, PolicyChain(d, k)) == QuadListReqs(d, k, n)
  {
    hide PassReqs, Force, InputOk, DistinctPolicies, QuadListReqs, Proj, CanonicalLog;
    var fi, fe := Force(rs, inp, Ingress), Force(rs, inp, Egress);
    PassCanonical(inp, fi, fe);
    if i :| 0 <= i < |PoliciesFor(inp, d)| && PoliciesFor(inp, d)[i].key == k {
      n := |RulesFor(PoliciesFor(inp, d)[i], d)|;
      QuadReqsAre(rs, inp, d, i);
    } else {
      n := 0;
      StaleLayout(inp, fi, fe, d, k, PolicyChain(d, k));
      NoQuads(d, k);
    }
  }

  lemma NoQuads(d: Dir, k: PolicyKey)
    ensures QuadListReqs(d, k, 0) == []
  {
  }

  /** Whatever the policies, at every commit of a pass every policy chain is in
      rule order. */
  lemma StageQuadChain(rs: Ruleset, inp: Input, d: Dir, k: PolicyKey, stage: nat)
    requires WellFormed(rs) && InputOk(inp) && DistinctPolicies(inp) && QuadChain(rs, d, k)
    ensures QuadChain(PassStage(rs, inp, stage), d, k)
  {
    if stage > 0 {
      hide PassLog, InputOk, DistinctPolicies, Quads, QuadListReqs, Stage, Keep, NewApp, NewIns, Proj, AllAdds, NoForce,
           Unforced, CanonicalLog;
      var w := PassLog(rs, inp);
      var n := QuadProj(rs, inp, d, k);
      var m: nat :| ShapeAt(rs, FILTER, PolicyChain(d, k)) == Quads(d, k, m);
      FlushQuads(rs, w, d, k, m, n);
      StageShape(rs, w, stage, FILTER, PolicyChain(d, k));
      KeepQuads(d, k, if m <= n then n else m, n);
    }
  }

  lemma FlushQuads(rs: Ruleset, w: seq<Req>, d: Dir, k: PolicyKey, m: nat, n: nat)
    requires WellFormed(rs) && CanonicalLog(w) && Proj(w, FILTER, PolicyChain(d, k)) == QuadListReqs(d, k, n)
    requires ShapeAt(rs, FILTER, PolicyChain(d, k)) == Quads(d, k, m)
    ensures ShapeAt(Stage(rs, w, 1), FILTER, PolicyChain(d, k)) == Quads(d, k, if m <= n then n else m)
  {
    hide Quads, QuadListReqs, Stage, Keep, NewApp, NewIns, Proj, AllAdds, NoForce, Unforced, CanonicalLog, WellFormed;
    var q, s := QuadListReqs(d, k, n), Quads(d, k, m);
    QuadListAdds(d, k, n);
    AddQuads(d, k, m, n);
    NoForceUnforced(q, s);
    NoIns(q, s);
    FlushPlain(rs, w, FILTER, PolicyChain(d, k));
    assert [] + s + NewApp(q, s) == s + NewApp(q, s);
  }

  lemma PassQuadChain(rs: Ruleset, inp: Input, d: Dir, k: PolicyKey)
    requires WellFormed(rs) && InputOk(inp) && DistinctPolicies(inp) && QuadChain(rs, d, k)
    ensures QuadChain(PassOf(rs, inp), d, k)
  {
    hide PassLog, InputOk, DistinctPolicies, Stage, QuadChain, WellFormed;
    StageQuadChain(rs, inp, d, k, LAST_STAGE);
  }

  // -------------------------------------------------------------- base chain

  ghost predicate BaseOk(rs: Ruleset, d: Dir) {
    var s := ShapeAt(rs, FILTER, BaseChain(HookOf(d)));
    s == [] || s == [InterfaceFilter(d)]
  }

  lemma BaseReqsAre(rs: Ruleset, inp: Input, d: Dir)
    requires InputOk(inp)
    ensures CanonicalLog(PassLog(rs, inp))
    ensures Proj(PassLog(rs, inp), FILTER, BaseChain(HookOf(d))) == [Insert(InterfaceFilter(d))]
  {
    hide PassReqs, Force, Proj, CanonicalLog, InputOk, InterfaceFilter;
    PassCanonical(inp, Force(rs, inp, Ingress), Force(rs, inp, Egress));
    BaseLayout(inp, Force(rs, inp, Ingress), Force(rs, inp, Egress), d);
  }

  /** From its first commit on, a pass leaves just the interface filter there. */
  lemma StageBase(rs: Ruleset, inp: Input, d: Dir, stage: nat)
    requires WellFormed(rs) && InputOk(inp) && BaseOk(rs, d) && stage >= 1
    ensures ShapeAt(PassStage(rs, inp, stage), FILTER, BaseChain(HookOf(d))) == [InterfaceFilter(d)]
  {
    hide PassLog, InputOk, Stage, Keep, NewApp, NewIns, Proj, InterfaceFilter;
    BaseReqsAre(rs, inp, d);
    var c, s := BaseChain(HookOf(d)), ShapeAt(rs, FILTER, BaseChain(HookOf(d)));
    var w, r := PassLog(rs, inp), InterfaceFilter(d);
    var p := [Insert(r)];
    NewInsert(p[0], s);
    FlushPlain(rs, w, FILTER, c);
    assert [] + [r] + [] == [r] && [r] + [] + [] == [r];
    StageShape(rs, w, stage, FILTER, c);
    assert p[0] in p;
    KeepAll([r], p);
  }

  lemma PassBase(rs: Ruleset, inp: Input, d: Dir)
    requires WellFormed(rs) && InputOk(inp) && BaseOk(rs, d)
    ensures ShapeAt(PassOf(rs, inp), FILTER, BaseChain(HookOf(d))) == [InterfaceFilter(d)]
  {
    hide PassLog, InputOk, Stage, InterfaceFilter, BaseOk, WellFormed;
    StageBase(rs, inp, d, LAST_STAGE);
  }

  // ------------------------------------------------------------- a direction

  /** What the incremental passes rely on: base chain, entry chain in blocks, and
      policy chains in rule order. */
  ghost predicate Ordered(rs: Ruleset, d: Dir) {
    && BaseOk(rs, d)
    && (exists bs :: DistinctBlocks(bs) && HasBlocks(d, ShapeAt(rs, FILTER, EntryChain(d)), bs))
    && (forall k :: QuadChain(rs, d, k))
  }

  lemma EntryForm(d: Dir, fb: seq<Block>, policies: bool)
    requires policies <==> fb != []
    ensures Form(d, Flatten(d, fb), policies) == EntryRules(d, fb)
  {
  }

  lemma MatchNonempty(inp: Input, d: Dir, fb: seq<Block>, qs: seq<PolicySpec>)
    requires BlocksMatch(inp, fb, qs) && forall p :: p in qs <==> p in PoliciesFor(inp, d)
    ensures (PoliciesFor(inp, d) != [] <==> fb != []) && (PoliciesFor(inp, d) == [] <==> qs == [])
  {
    if PoliciesFor(inp, d) != [] {
      assert PoliciesFor(inp, d)[0] in qs;
    }
    if qs != [] {
      assert qs[0] in PoliciesFor(inp, d);
    }
  }

  lemma PoliciesOkIn(inp: Input, d: Dir, qs: seq<PolicySpec>)
    requires InputOk(inp) && forall p :: p in qs ==> p in PoliciesFor(inp, d)
    ensures PoliciesOk(qs, d)
  {
    forall i | 0 <= i < |qs| ensures RulesOk(RulesFor(qs[i], d)) {
      assert qs[i] in PoliciesFor(inp, d);
      var j :| 0 <= j < |PoliciesFor(inp, d)| && PoliciesFor(inp, d)[j] == qs[i];
    }
  }

  lemma ExactIn(inp: Input, d: Dir, qs: seq<PolicySpec>, pkt: Packet)
    requires InputOk(inp) && InputExact(inp, d, pkt) && forall p :: p in qs ==> p in PoliciesFor(inp, d)
    ensures PoliciesOk(qs, d) && M.CommonExact(inp.cfg, d, pkt) && PoliciesExact(qs, d, pkt)
  {
    hide M.CommonExact, PolicyExact, InputOk, RulesOk;
    PoliciesOkIn(inp, d, qs);
    forall i | 0 <= i < |qs| ensures PolicyExact(qs[i], d, pkt) {
      assert qs[i] in PoliciesFor(inp, d);
      var j :| 0 <= j < |PoliciesFor(inp, d)| && PoliciesFor(inp, d)[j] == qs[i];
    }
  }

  lemma NoExceptIn(inp: Input, d: Dir, qs: seq<PolicySpec>)
    requires InputNoExcept(inp, d) && forall p :: p in qs ==> p in PoliciesFor(inp, d)
    ensures forall i :: 0 <= i < |qs| ==> PolicyNoExcept(qs[i], d)
  {
    forall i | 0 <= i < |qs| ensures PolicyNoExcept(qs[i], d) {
      assert qs[i] in PoliciesFor(inp, d);
      var j :| 0 <= j < |PoliciesFor(inp, d)| && PoliciesFor(inp, d)[j] == qs[i];
    }
  }

  /** Every peers chain of the direction is in compiled order, or in any order if
      its rule has no excepts. */
  ghost predicate AllSettled(st: Ruleset, inp: Input, d: Dir) {
    forall p, n :: p in PoliciesFor(inp, d) && 0 <= n < |RulesFor(p, d)| ==> RuleSettled(st, inp, p, d, n)
  }

  ghost predicate RuleSettled(st: Ruleset, inp: Input, p: PolicySpec, d: Dir, n: int) {
    0 <= n < |RulesFor(p, d)| && RulesOk(RulesFor(p, d)) && PeersSettled(st, inp, p, d, n)
  }

  lemma NoExceptSettled(st: Ruleset, inp: Input, d: Dir)
    requires InputOk(inp) && InputNoExcept(inp, d)
    ensures AllSettled(st, inp, d)
  {
    forall p, n | p in PoliciesFor(inp, d) && 0 <= n < |RulesFor(p, d)| ensures RuleSettled(st, inp, p, d, n) {
      var i :| 0 <= i < |PoliciesFor(inp, d)| && PoliciesFor(inp, d)[i] == p;
      assert PolicyNoExcept(PoliciesFor(inp, d)[i], d);
    }
  }

  /** One pass on an ordered direction realizes the input, with the policies in
      the order of the blocks. */
  lemma PassRealized(rs: Ruleset, inp: Input, d: Dir, pkt: Packet) returns (bs: seq<Block>, qs: seq<PolicySpec>)
    requires WellFormed(rs) && SupportedFilter(rs) && Ordered(rs, d)
    requires InputOk(inp) && DistinctPolicies(inp) && Selected(inp) && SetsServe(rs, inp, d, pkt)
    requires NoGain(inp, d, ShapeAt(rs, FILTER, EntryChain(d))) && AllSettled(PassOf(rs, inp), inp, d)
    ensures PoliciesOk(qs, d) && (forall p :: p in qs <==> p in PoliciesFor(inp, d))
    ensures Realized(Tab(PassOf(rs, inp), FILTER), inp, d, bs, qs, pkt) && DistinctBlocks(bs)
  {
    hide PassOf, Realized, InputOk, DistinctPolicies, Quads, SetsServe, BlocksMatch, InterfaceFilter, QuadChain,
         HasBlocks, NoGain, FinalBlocks, Selected, DistinctBlocks, SupportedFilter;
    var s := ShapeAt(rs, FILTER, EntryChain(d));
    var bs0 :| DistinctBlocks(bs0) && HasBlocks(d, s, bs0);
    assert DistinctKeys(PoliciesFor(inp, d)) by { DistinctDir(inp, d); }
    PassBlocks(rs, inp, d, bs0);
    bs := FinalBlocks(inp, d, s, bs0);
    FinalDistinct(inp, d, s, bs0);
    qs := FinalMatch(inp, d, s, bs0);
    MatchNonempty(inp, d, bs, qs);
    EntryForm(d, bs, PoliciesFor(inp, d) != []);
    PoliciesOkIn(inp, d, qs);
    PassBase(rs, inp, d);
    hide EntryRules, Form, BaseOk;
    forall i | 0 <= i < |qs|
      ensures ShapeAt(PassOf(rs, inp), FILTER, PolicyChain(d, qs[i].key)) == Quads(d, qs[i].key, |RulesFor(qs[i], d)|)
    {
      assert qs[i] in PoliciesFor(inp, d);
      var j :| 0 <= j < |PoliciesFor(inp, d)| && PoliciesFor(inp, d)[j] == qs[i];
      assert QuadChain(rs, d, PoliciesFor(inp, d)[j].key);
      PassQuads(rs, inp, d, j);
    }
    hide PeersSettled;
    forall i, n | 0 <= i < |qs| && 0 <= n < |RulesFor(qs[i], d)|
      ensures PeersSettled(PassOf(rs, inp), inp, qs[i], d, n)
    {
      assert qs[i] in PoliciesFor(inp, d);
      assert RuleSettled(PassOf(rs, inp), inp, qs[i], d, n);
    }
    RestArrives(rs, inp, d, qs, pkt);
    hide RestRealized;
    WithEntry(Tab(PassOf(rs, inp), FILTER), inp, d, bs, qs, pkt);
  }

  lemma DistinctDir(inp: Input, d: Dir)
    requires DistinctPolicies(inp)
    ensures DistinctKeys(PoliciesFor(inp, d))
  {
  }

  lemma PassOrdered(rs: Ruleset, inp: Input, d: Dir)
    requires WellFormed(rs) && Ordered(rs, d)
    requires InputOk(inp) && DistinctPolicies(inp) && Selected(inp)
    requires NoGain(inp, d, ShapeAt(rs, FILTER, EntryChain(d)))
    ensures Ordered(PassOf(rs, inp), d)
  {
    hide PassOf, InputOk, DistinctPolicies, InterfaceFilter, QuadChain, NoGain, FinalBlocks, Selected, DistinctBlocks,
         Form, Flatten;
    var s := ShapeAt(rs, FILTER, EntryChain(d));
    var bs0 :| DistinctBlocks(bs0) && HasBlocks(d, s, bs0);
    assert DistinctKeys(PoliciesFor(inp, d)) by { DistinctDir(inp, d); }
    PassBlocks(rs, inp, d, bs0);
    FinalDistinct(inp, d, s, bs0);
    assert HasBlocks(d, ShapeAt(PassOf(rs, inp), FILTER, EntryChain(d)), FinalBlocks(inp, d, s, bs0));
    PassBase(rs, inp, d);
    forall k ensures QuadChain(PassOf(rs, inp), d, k) {
      PassQuadChain(rs, inp, d, k);
    }
  }

  /** The verdict after a pass on an ordered direction. */
  lemma PassVerdict(rs: Ruleset, inp: Input, d: Dir, pkt: Packet, m: Mark)
    requires WellFormed(rs) && SupportedFilter(rs) && Ordered(rs, d)
    requires InputOk(inp) && DistinctPolicies(inp) && Selected(inp) && SetsServe(rs, inp, d, pkt)
    requires InputExact(inp, d, pkt)
    requires NoGain(inp, d, ShapeAt(rs, FILTER, EntryChain(d))) && InputNoExcept(inp, d)
    requires ValidPacket(pkt) && !Both(m)
    ensures Admits(Tab(PassOf(rs, inp), FILTER), pkt, HookOf(d), m) <==> MayPass(inp, d, pkt)
  {
    hide PassOf, Realized, DistinctPolicies, InputExact, M.CommonExact, PoliciesExact, Admits, CommonAccepts,
         DecidePolicies, InputOk, SetsServe, Selected, SupportedFilter, Ordered, NoGain, Both, DistinctBlocks,
         PolicyNoExcept, InputNoExcept, RulesOk, AllSettled, WellFormed, OnPod;
    var ps := PoliciesFor(inp, d);
    ExactIn(inp, d, ps, pkt);
    NoExceptIn(inp, d, ps);
    NoExceptSettled(PassOf(rs, inp), inp, d);
    var bs, qs := PassRealized(rs, inp, d, pkt);
    ExactIn(inp, d, qs, pkt);
    NoExceptIn(inp, d, qs);
    SameEmpty(qs, ps);
    RealizedVerdict(Tab(PassOf(rs, inp), FILTER), inp, d, bs, qs, pkt, m);
    OrderFree(inp, qs, ps, d, pkt);
  }

  lemma SameEmpty(qs: seq<PolicySpec>, ps: seq<PolicySpec>)
    requires forall p :: p in qs <==> p in ps
    ensures qs == [] <==> ps == []
  {
    if ps != [] {
      assert ps[0] in qs;
    }
    if qs != [] {
      assert qs[0] in ps;
    }
  }
}
