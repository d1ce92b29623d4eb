/** What every run keeps, whatever policies, interfaces, flags and excepts change
    and wherever passes are cut short, and the verdicts after a pass on it. */
module Soundness {
  import opened Ids
  import opened Marks
  import opened Machine
  import opened Identity
  import opened Intervals
  import opened Kernel
  import opened Reconcile
  import opened Flush
  import opened Cleanup
  import opened Policies
  import opened Compile
  import opened Requests
  import opened Layout
  import opened SetLayout
  import opened Exact
  import opened Passes
  import opened Walks
  import opened Targets
  import opened States
  import opened Results
  import opened Correct
  import opened Entry
  import opened Runs
  import opened Blocks
  import opened Incremental
  import opened Histories
  import opened Travels
  import opened Gains
  import M = Meanings

  // ------------------------------------------------------------ the invariant

  /** One direction: the base chain empty or filtering interfaces, the entry chain
      of the form and tight, and every policy chain in rule order. */
  ghost predicate SoundDir(rs: Ruleset, d: Dir) {
    && BaseOk(rs, d)
    && EntryOk(d, ShapeAt(rs, FILTER, EntryChain(d)))
    && Tight(ShapeAt(rs, FILTER, EntryChain(d)))
    && forall k :: QuadChain(rs, d, k)
  }

  ghost predicate Sound(rs: Ruleset) {
    WellFormed(rs) && SupportedFilter(rs) && SoundDir(rs, Ingress) && SoundDir(rs, Egress)
  }

  lemma EmptySound(rs: Ruleset)
    requires WellFormed(rs) && EmptyFilter(rs)
    ensures Sound(rs)
  {
    forall d: Dir ensures SoundDir(rs, d) {
      assert forall c :: ShapeAt(rs, FILTER, c) == [];
      forall k ensures QuadChain(rs, d, k) {
        assert Quads(d, k, 0) == [];
      }
    }
  }

  lemma SoundAt(rs: Ruleset, d: Dir)
    requires Sound(rs)
    ensures WellFormed(rs) && SupportedFilter(rs) && SoundDir(rs, d)
  {
  }

  lemma StageSoundDir(rs: Ruleset, inp: Input, d: Dir, k: nat)
    requires WellFormed(rs) && Fit(inp) && SoundDir(rs, d)
    ensures SoundDir(PassStage(rs, inp, k), d)
  {
    if k > 0 {
      assert DistinctKeys(PoliciesFor(inp, d)) by { DistinctDir(inp, d); }
      hide PassStage, InputOk, DistinctPolicies, Selected, EntryOk, Tight, QuadChain, WellFormed, DistinctKeys,
           DropLast;
      StageBase(rs, inp, d, k);
      PassEntry(rs, inp, d, k);
      StageTight(rs, inp, d, k);
      forall p ensures QuadChain(PassStage(rs, inp, k), d, p) {
        StageQuadChain(rs, inp, d, p, k);
      }
    }
  }

  /** Every pass keeps it, whatever its input and wherever it is cut short. */
  lemma StageSound(rs: Ruleset, inp: Input, k: nat)
    requires Sound(rs) && Fit(inp)
    ensures Sound(PassStage(rs, inp, k))
  {
    PassCanonical(inp, Force(rs, inp, Ingress), Force(rs, inp, Egress));
    hide PassLog, InputOk, DistinctPolicies, Selected, SoundDir, WellFormed, SupportedFilter, Stage, CanonicalLog;
    StageOk(rs, PassLog(rs, inp), k);
    StageSupported(rs, PassLog(rs, inp), k);
    StageSoundDir(rs, inp, Ingress, k);
    StageSoundDir(rs, inp, Egress, k);
  }

  lemma TickedSound(a: Ruleset, b: Ruleset)
    requires Ticked(a, b) && Sound(a)
    ensures Sound(b) && Tab(a, FILTER).sets == Tab(b, FILTER).sets
  {
    assert WellFormed(b);
    hide Ticked, WellFormed, EntryOk, Tight, SupportedFilter;
    TickedShapes(a, b);
    TickedTables(a, b);
    forall d: Dir ensures SoundDir(b, d) {
      assert d == Ingress || d == Egress;
      assert SoundDir(a, d);
      forall k ensures QuadChain(b, d, k) {
        assert QuadChain(a, d, k);
      }
    }
  }

  // ---------------------------------------------------------------- the scenes

  ghost function PolicyKeys(ps: seq<PolicySpec>): set<PolicyKey> {
    set p | p in ps :: p.key
  }

  /** What the installed chain of a policy decides, by order and sets as they are. */
  ghost function HeldJudge(t: Table, ps: seq<PolicySpec>, d: Dir, pkt: Packet, k: PolicyKey): Judged
    requires PoliciesOk(ps, d)
  {
    var i := PolicyAt(ps, k);
    if i < |ps| then Judged(PolicyHeld(t, ps[i], d, pkt), |RulesFor(ps[i], d)|) else Judged(Next, 0)
  }

  /** What the rules of a policy say. */
  ghost function MeantJudge(inp: Input, ps: seq<PolicySpec>, d: Dir, pkt: Packet, k: PolicyKey): Judged
    requires PoliciesOk(ps, d)
  {
    var i := PolicyAt(ps, k);
    if i < |ps| then Judged(DecideRules(inp, ps[i].nets, RulesFor(ps[i], d), d, pkt), |RulesFor(ps[i], d)|)
    else Judged(Next, 0)
  }

  /** The packet as the installed table treats it. */
  ghost function HeldScene(t: Table, inp: Input, d: Dir, pkt: Packet): Scene
    requires InputOk(inp)
  {
    var ps := PoliciesFor(inp, d);
    Scene(d, pkt, M.CommonHeld(t, inp.cfg, d, pkt), map k | k in PolicyKeys(ps) :: HeldJudge(t, ps, d, pkt, k))
  }

  /** The packet as the input means it to be treated. */
  ghost function MeantScene(inp: Input, d: Dir, pkt: Packet): Scene
    requires InputOk(inp)
  {
    var ps := PoliciesFor(inp, d);
    Scene(d, pkt, CommonAccepts(inp.cfg, d, pkt), map k | k in PolicyKeys(ps) :: MeantJudge(inp, ps, d, pkt, k))
  }

  lemma KeyHasPolicy(inp: Input, d: Dir, k: PolicyKey) returns (p: PolicySpec, i: nat)
    requires DistinctPolicies(inp) && k in PolicyKeys(PoliciesFor(inp, d))
    ensures i < |PoliciesFor(inp, d)| && PoliciesFor(inp, d)[i] == p && p.key == k
    ensures PolicyAt(PoliciesFor(inp, d), k) == i
  {
    DistinctDir(inp, d);
    var ps := PoliciesFor(inp, d);
    p :| p in ps && p.key == k;
    i :| 0 <= i < |ps| && ps[i] == p;
    PolicyAtFinds(ps, i);
  }

  // ------------------------------------------------------- after a pass

  lemma PolicyIn(rs: Ruleset, inp: Input, d: Dir, i: nat)
    requires WellFormed(rs) && SupportedFilter(rs) && InputOk(inp) && DistinctPolicies(inp) && SoundDir(rs, d)
    requires i < |PoliciesFor(inp, d)|
    ensures RulesOk(RulesFor(PoliciesFor(inp, d)[i], d))
    ensures PolicyInstalled(Tab(PassOf(rs, inp), FILTER), inp, PoliciesFor(inp, d)[i], d)
  {
    var p := PoliciesFor(inp, d)[i];
    assert RulesOk(RulesFor(p, d));
    hide PassOf, InputOk, DistinctPolicies, Quads, RuleInstalled, WellFormed, SupportedFilter, EntryOk, Tight, BaseOk,
         RuleOk;
    assert QuadChain(rs, d, p.key);
    PassQuads(rs, inp, d, i);
    forall n | 0 <= n < |RulesFor(p, d)|
      ensures RuleInstalled(Tab(PassOf(rs, inp), FILTER), inp, p, d, n, RulesFor(p, d)[n])
    {
      RuleIn(rs, inp, d, i, n);
    }
  }

  lemma HeldPolicy(rs: Ruleset, inp: Input, d: Dir, pkt: Packet, k: PolicyKey)
    requires WellFormed(rs) && SupportedFilter(rs) && Fit(inp) && SoundDir(rs, d)
    requires PoliciesOk(PoliciesFor(inp, d), d) && k in PolicyKeys(PoliciesFor(inp, d))
    ensures var t := Tab(PassOf(rs, inp), FILTER);
            var j := HeldJudge(t, PoliciesFor(inp, d), d, pkt, k);
            PolicyActs(t, pkt, PolicyChain(d, k), j.x, j.rules)
  {
    hide PassOf, InputOk, DistinctPolicies, Selected, SoundDir, PolicyHeld, PolicyActs, PolicyInstalled, RulesOk,
         WellFormed, SupportedFilter, PolicyKeys, PolicyAt;
    var p, i := KeyHasPolicy(inp, d, k);
    PolicyIn(rs, inp, d, i);
    PolicyDecidesHeld(Tab(PassOf(rs, inp), FILTER), inp, p, d, pkt);
  }

  /** Common chain and policy chains act as the installed scene says. */
  lemma HeldActed(rs: Ruleset, inp: Input, d: Dir, pkt: Packet)
    requires WellFormed(rs) && SupportedFilter(rs) && Fit(inp) && SoundDir(rs, d)
    ensures Acted(Tab(PassOf(rs, inp), FILTER), HeldScene(Tab(PassOf(rs, inp), FILTER), inp, d, pkt))
  {
    hide PassOf, InputOk, DistinctPolicies, Selected, SoundDir, M.CommonHeld, M.CommonRules, M.Matching, HeldJudge,
         PolicyActs, Walk, Rules, RulesOk, WellFormed, SupportedFilter, PolicyKeys, ShapeAt;
    var t, ps := Tab(PassOf(rs, inp), FILTER), PoliciesFor(inp, d);
    assert ConfigOk(inp.cfg) by { InputConfig(inp); }
    PoliciesOkIn(inp, d, ps);
    CommonIn(rs, inp, d, pkt);
    forall k | k in PolicyKeys(ps)
      ensures var j := HeldJudge(t, ps, d, pkt, k); PolicyActs(t, pkt, PolicyChain(d, k), j.x, j.rules)
    {
      HeldPolicy(rs, inp, d, pkt, k);
    }
  }

  lemma CommonIn(rs: Ruleset, inp: Input, d: Dir, pkt: Packet)
    requires WellFormed(rs) && SupportedFilter(rs) && InputOk(inp) && ConfigOk(inp.cfg)
    ensures var t := Tab(PassOf(rs, inp), FILTER);
            forall m, n: nat :: Walk(t, pkt, Rules(t, CommonChain(d)), m, n) ==
              Out(if M.CommonHeld(t, inp.cfg, d, pkt) then Accepted else Ended, m)
  {
    hide PassOf, InputOk, M.CommonHeld, M.CommonRules, M.Matching, Walk, Rules, WellFormed, SupportedFilter;
    var t := Tab(PassOf(rs, inp), FILTER);
    CommonMatching(rs, inp, d);
    forall m, n: nat
      ensures Walk(t, pkt, Rules(t, CommonChain(d)), m, n) ==
              Out(if M.CommonHeld(t, inp.cfg, d, pkt) then Accepted else Ended, m)
    {
      M.CommonChainHeld(t, pkt, inp.cfg, d, m, n);
    }
  }

  lemma MeantPolicy(t: Table, inp: Input, d: Dir, pkt: Packet, k: PolicyKey)
    requires Fit(inp) && InputExact(inp, d, pkt) && ValidPacket(pkt) && PoliciesOk(PoliciesFor(inp, d), d)
    requires RestRealized(t, inp, d, PoliciesFor(inp, d), pkt) && k in PolicyKeys(PoliciesFor(inp, d))
    ensures var j := MeantJudge(inp, PoliciesFor(inp, d), d, pkt, k);
            PolicyActs(t, pkt, PolicyChain(d, k), j.x, j.rules)
  {
    hide InputOk, DistinctPolicies, Selected, PolicyActs, PolicyRealized, RulesOk, PolicyKeys, PolicyAt, PolicyExact,
         M.Matching, M.CommonSetsRight, M.CommonRules, M.CommonExact, ValidPacket, InterfaceFilter, IfaceElems,
         DecideRules, PolicyRight, Shape;
    var ps := PoliciesFor(inp, d);
    var p, i := KeyHasPolicy(inp, d, k);
    assert PolicyRealized(t, inp, ps[i], d, pkt) && PolicyExact(ps[i], d, pkt);
    PolicyDecides(t, inp, p, d, pkt);
  }

  lemma MeantCommon(t: Table, inp: Input, d: Dir, pkt: Packet)
    requires InputOk(inp) && InputExact(inp, d, pkt) && ValidPacket(pkt) && PoliciesOk(PoliciesFor(inp, d), d)
    requires RestRealized(t, inp, d, PoliciesFor(inp, d), pkt) && ConfigOk(inp.cfg)
    ensures forall m, n: nat :: Walk(t, pkt, Rules(t, CommonChain(d)), m, n) ==
              Out(if CommonAccepts(inp.cfg, d, pkt) then Accepted else Ended, m)
    ensures InSet(t, PodInterfaces, Name(IfOf(d, pkt))) <==> OnPod(inp, d, pkt)
  {
    hide InputOk, PolicyRealized, RulesOk, PolicyExact, M.Matching, M.CommonSetsRight, M.CommonRules, M.CommonExact,
         ValidPacket, InterfaceFilter, IfaceElems, CommonAccepts, Walk, Rules, Shape, InSet, OnPod;
    PodMembership(t, inp, d, pkt);
    forall m, n: nat
      ensures Walk(t, pkt, Rules(t, CommonChain(d)), m, n) ==
              Out(if CommonAccepts(inp.cfg, d, pkt) then Accepted else Ended, m)
    {
      M.CommonChainRight(t, pkt, inp.cfg, d, m, n);
    }
  }

  /** And as the input means, if the sets answer right for the packet, the lists
      represent it and peers chains with excepts are in order. */
  lemma MeantActed(rs: Ruleset, inp: Input, d: Dir, pkt: Packet)
    requires WellFormed(rs) && SupportedFilter(rs) && Fit(inp) && SoundDir(rs, d)
    requires SetsServe(rs, inp, d, pkt) && InputExact(inp, d, pkt) && ValidPacket(pkt)
    requires AllSettled(PassOf(rs, inp), inp, d)
    ensures Acted(Tab(PassOf(rs, inp), FILTER), MeantScene(inp, d, pkt))
    ensures InSet(Tab(PassOf(rs, inp), FILTER), PodInterfaces, Name(IfOf(d, pkt))) <==> OnPod(inp, d, pkt)
  {
    hide PassOf, InputOk, DistinctPolicies, Selected, SoundDir, PolicyActs, Walk, Rules, RulesOk, WellFormed,
         SupportedFilter, MeantJudge, InputExact, SetsServe, AllSettled, CommonAccepts, OnPod, InSet, RestRealized,
         PolicyKeys, ValidPacket;
    var t, ps := Tab(PassOf(rs, inp), FILTER), PoliciesFor(inp, d);
    assert ConfigOk(inp.cfg) by { InputConfig(inp); }
    RestIn(rs, inp, d, pkt);
    MeantCommon(t, inp, d, pkt);
    forall k | k in PolicyKeys(ps)
      ensures var j := MeantJudge(inp, ps, d, pkt, k); PolicyActs(t, pkt, PolicyChain(d, k), j.x, j.rules)
    {
      MeantPolicy(t, inp, d, pkt, k);
    }
  }

  lemma RestIn(rs: Ruleset, inp: Input, d: Dir, pkt: Packet)
    requires WellFormed(rs) && SupportedFilter(rs) && Fit(inp) && SoundDir(rs, d)
    requires SetsServe(rs, inp, d, pkt) && AllSettled(PassOf(rs, inp), inp, d)
    ensures PoliciesOk(PoliciesFor(inp, d), d)
    ensures RestRealized(Tab(PassOf(rs, inp), FILTER), inp, d, PoliciesFor(inp, d), pkt)
  {
    var ps := PoliciesFor(inp, d);
    PoliciesOkIn(inp, d, ps);
    hide PassOf, InputOk, DistinctPolicies, Quads, SetsServe, InterfaceFilter, QuadChain, Selected, SupportedFilter,
         WellFormed, EntryOk, Tight, BaseOk, PeersSettled, RestRealized, RulesOk;
    PassBase(rs, inp, d);
    forall i | 0 <= i < |ps|
      ensures ShapeAt(PassOf(rs, inp), FILTER, PolicyChain(d, ps[i].key)) == Quads(d, ps[i].key, |RulesFor(ps[i], d)|)
    {
      assert QuadChain(rs, d, ps[i].key);
      PassQuads(rs, inp, d, i);
    }
    forall i, n | 0 <= i < |ps| && 0 <= n < |RulesFor(ps[i], d)|
      ensures PeersSettled(PassOf(rs, inp), inp, ps[i], d, n)
    {
      assert ps[i] in ps;
      assert RuleSettled(PassOf(rs, inp), inp, ps[i], d, n);
    }
    RestArrives(rs, inp, d, ps, pkt);
  }

  // ------------------------------------------------------- the entry chain

  /** A wanted jump belongs to a policy on an interface of that name. */
  lemma JumpOwner(inp: Input, d: Dir, k: PolicyKey, i: Iface) returns (p: PolicySpec, j: Iface)
    requires IfaceJump(d, k, i) in EntryWants(inp, d)
    ensures p in PoliciesFor(inp, d) && p.key == k && j in OnNetworks(inp.ifs, p.nets) && j.name == i.name
  {
    hide IfaceJump, PolicyMark, Flatten, CommonJump, DropRest, Jumps;
    var ps := PoliciesFor(inp, d);
    var bs := BlocksFor(inp, ps);
    FormMembers(d, Flatten(d, bs), ps != [], IfaceJump(d, k, i));
    EntryNotes(d, k, i);
    JumpHasBlock(d, bs, k, i);
    var b :| b in bs && b.key == k && IfaceJump(d, k, i) in Jumps(d, k, b.ifs);
    JumpsMembers(d, k, b.ifs, IfaceJump(d, k, i));
    j :| j in b.ifs && IfaceJump(d, k, i) == IfaceJump(d, k, j);
    SameName(d, k, i, j);
    var n :| 0 <= n < |ps| && bs[n] == b;
    p := ps[n];
  }

  /** After a pass the entry chain has the form, with the drop iff there are
      policies, and every jump in it is wanted. */
  lemma EntryAfter(rs: Ruleset, inp: Input, d: Dir) returns (mid: seq<Rule>)
    requires WellFormed(rs) && SupportedFilter(rs) && Fit(inp) && SoundDir(rs, d)
    ensures Middle(d, mid) && ShapeAt(PassOf(rs, inp), FILTER, EntryChain(d)) == Form(d, mid, PoliciesFor(inp, d) != [])
    ensures EntryExact(PassOf(rs, inp), inp, d) && EntryOnly(d, Form(d, mid, PoliciesFor(inp, d) != []))
  {
    PassStageLast(rs, inp);
    hide PassOf, PassStage, InputOk, DistinctPolicies, Selected, WellFormed, SupportedFilter, EntryOk, Tight, BaseOk,
         QuadChain, EntryExact, Middle, Form, EntryOnly;
    PassEntry(rs, inp, d, LAST_STAGE);
    PassEntryExact(rs, inp, d);
    mid :| Middle(d, mid) && ShapeAt(PassOf(rs, inp), FILTER, EntryChain(d)) == Form(d, mid, PoliciesFor(inp, d) != []);
    FormOnly(d, mid, PoliciesFor(inp, d) != []);
  }

  lemma PassStageLast(rs: Ruleset, inp: Input)
    requires InputOk(inp)
    ensures PassStage(rs, inp, LAST_STAGE) == PassOf(rs, inp)
  {
  }

  /** The owner of a jump in the chain. */
  lemma JumpIn(st: Ruleset, inp: Input, d: Dir, r: Rule, k: PolicyKey) returns (p: PolicySpec, j: Iface)
    requires EntryExact(st, inp, d) && r in ShapeAt(st, FILTER, EntryChain(d)) && EntryRule(d, r) && JumpOf(r, k)
    ensures p in PoliciesFor(inp, d) && p.key == k && j in OnNetworks(inp.ifs, p.nets) && j.name == r.comment.iface
  {
    ByComment(d, r, k);
    hide IfaceJump, EntryWants, OnNetworks, CommonJump, DropRest, PolicyMark, ShapeAt;
    var i :| r == IfaceJump(d, k, i);
    EntryNotes(d, k, i);
    assert IsJump(d, r);
    p, j := JumpOwner(inp, d, k, i);
  }

  lemma AllKeyed(st: Ruleset, inp: Input, d: Dir)
    requires EntryExact(st, inp, d) && EntryOnly(d, ShapeAt(st, FILTER, EntryChain(d)))
    ensures forall i, k ::
              0 <= i < |ShapeAt(st, FILTER, EntryChain(d))| && JumpOf(ShapeAt(st, FILTER, EntryChain(d))[i], k) ==>
                k in PolicyKeys(PoliciesFor(inp, d))
  {
    hide EntryExact, EntryRule, ShapeAt, OnNetworks, JumpOf;
    var s := ShapeAt(st, FILTER, EntryChain(d));
    forall i, k | 0 <= i < |s| && JumpOf(s[i], k) ensures k in PolicyKeys(PoliciesFor(inp, d)) {
      assert EntryRule(d, s[i]) && s[i] in s;
      var p, j := JumpIn(st, inp, d, s[i], k);
    }
  }

  // ------------------------------------------------------------- exact verdicts

  lemma SceneJudged(st: Ruleset, inp: Input, d: Dir, sc: Scene)
    requires EntryExact(st, inp, d) && EntryOnly(d, ShapeAt(st, FILTER, EntryChain(d)))
    requires sc.judged.Keys == PolicyKeys(PoliciesFor(inp, d))
    ensures AllJudged(ShapeAt(st, FILTER, EntryChain(d)), sc)
  {
    hide EntryExact, EntryRule, ShapeAt, JumpOf, PolicyKeys;
    AllKeyed(st, inp, d);
  }

  /** The exact verdict after a pass on any table that runs can reach, for every
      mark: a packet on an installed pod interface is dropped exactly when the
      entry chain, read rule by rule, says so, each policy deciding by its peers
      chains in installed order and its sets as they are. */
  lemma InstalledVerdict(rs: Ruleset, inp: Input, d: Dir, pkt: Packet, m: Mark)
    requires Sound(rs) && Fit(inp)
    ensures var st := PassOf(rs, inp);
            var t := Tab(st, FILTER);
            Admits(t, pkt, HookOf(d), m) <==>
            || !InSet(t, PodInterfaces, Name(IfOf(d, pkt)))
            || Travel(ShapeAt(st, FILTER, EntryChain(d)), HeldScene(t, inp, d, pkt), Go(Both(m))) != Stop(false)
  {
    hide PassOf, InputOk, DistinctPolicies, Selected, WellFormed, SupportedFilter, SoundDir, Acted, Travel, InSet, Both,
         Admits, EntryExact, EntryOnly, AllJudged, Form, Middle, InterfaceFilter, PolicyKeys, HeldScene, Sound;
    SoundAt(rs, d);
    HeldKeys(Tab(PassOf(rs, inp), FILTER), inp, d, pkt);
    var st, t := PassOf(rs, inp), Tab(PassOf(rs, inp), FILTER);
    var sc := HeldScene(t, inp, d, pkt);
    var mid := EntryAfter(rs, inp, d);
    SoundBase(rs, inp, d);
    HeldActed(rs, inp, d, pkt);
    SceneJudged(st, inp, d, sc);
    TravelVerdict(t, sc, m);
  }

  lemma HeldKeys(t: Table, inp: Input, d: Dir, pkt: Packet)
    requires InputOk(inp)
    ensures HeldScene(t, inp, d, pkt).d == d && HeldScene(t, inp, d, pkt).pkt == pkt
    ensures HeldScene(t, inp, d, pkt).judged.Keys == PolicyKeys(PoliciesFor(inp, d))
  {
    hide HeldJudge, M.CommonHeld;
  }

  lemma SoundBase(rs: Ruleset, inp: Input, d: Dir)
    requires WellFormed(rs) && InputOk(inp) && SoundDir(rs, d)
    ensures ShapeAt(PassOf(rs, inp), FILTER, BaseChain(HookOf(d))) == [InterfaceFilter(d)]
  {
    hide PassOf, InputOk, WellFormed, EntryOk, Tight, QuadChain, InterfaceFilter, BaseOk;
    PassBase(rs, inp, d);
  }

  /** The same in terms of the input, for packets that the updated sets and the
      lists represent right: only the order of the entry chain counts. */
  lemma MeantVerdict(rs: Ruleset, inp: Input, d: Dir, pkt: Packet, m: Mark)
    requires Sound(rs) && Fit(inp) && SetsServe(rs, inp, d, pkt) && InputExact(inp, d, pkt) && ValidPacket(pkt)
    requires AllSettled(PassOf(rs, inp), inp, d)
    ensures var st := PassOf(rs, inp);
            Admits(Tab(st, FILTER), pkt, HookOf(d), m) <==>
            || !OnPod(inp, d, pkt)
            || Travel(ShapeAt(st, FILTER, EntryChain(d)), MeantScene(inp, d, pkt), Go(Both(m))) != Stop(false)
  {
    hide PassOf, InputOk, DistinctPolicies, Selected, WellFormed, SupportedFilter, SoundDir, Acted, Travel, InSet, Both,
         Admits, EntryExact, EntryOnly, AllJudged, Form, Middle, InterfaceFilter, PolicyKeys, MeantScene, Sound,
         SetsServe, InputExact, ValidPacket, AllSettled, OnPod;
    SoundAt(rs, d);
    MeantDir(inp, d, pkt);
    var st, t := PassOf(rs, inp), Tab(PassOf(rs, inp), FILTER);
    var sc := MeantScene(inp, d, pkt);
    var mid := EntryAfter(rs, inp, d);
    SoundBase(rs, inp, d);
    MeantActed(rs, inp, d, pkt);
    SceneJudged(st, inp, d, sc);
    TravelVerdict(t, sc, m);
  }

  // ---------------------------------------------------- never too much, and right

  lemma MiddleInner(d: Dir, mid: seq<Rule>)
    requires Middle(d, mid)
    ensures Inner(mid)
  {
    hide IfaceJump, PolicyMark;
    forall i | 0 <= i < |mid| ensures mid[i].comment.InterfaceJumpNote? || mid[i].comment.PolicyMarkNote? {
      assert IsJump(d, mid[i]) || IsMark(d, mid[i]);
      if k, f :| mid[i] == IfaceJump(d, k, f) {
        EntryNotes(d, k, f);
      } else {
        var k :| mid[i] == PolicyMark(d, k);
        EntryNotes(d, k, Iface("", "", "", []));
      }
    }
  }

  /** Without excepts no policy denies. */
  lemma MeantDenies(inp: Input, d: Dir, pkt: Packet)
    requires InputOk(inp) && InputNoExcept(inp, d)
    ensures NoneDenied(MeantScene(inp, d, pkt))
  {
    var ps := PoliciesFor(inp, d);
    NoExceptIn(inp, d, ps);
    hide DecideRules, PolicyNoExcept, CommonAccepts, RulesOk;
    forall k ensures !MeantJudge(inp, ps, d, pkt, k).x.Deny? {
      var i := PolicyAt(ps, k);
      if i < |ps| {
        NeverDenies(inp, ps[i], d, pkt);
      }
    }
  }

  lemma NeverDenies(inp: Input, p: PolicySpec, d: Dir, pkt: Packet)
    requires PolicyNoExcept(p, d) && RulesOk(RulesFor(p, d))
    ensures !DecideRules(inp, p.nets, RulesFor(p, d), d, pkt).Deny?
  {
    RulesNoExcept(inp, p.nets, RulesFor(p, d), d, pkt);
  }

  lemma NoneDenies(inp: Input, ps: seq<PolicySpec>, d: Dir, pkt: Packet)
    requires PoliciesOk(ps, d) && forall i :: 0 <= i < |ps| ==> PolicyNoExcept(ps[i], d)
    ensures !SomeDecides(inp, ps, d, pkt, Deny)
  {
    hide PolicyNoExcept, DecideRules, Concerns;
    forall i | 0 <= i < |ps| ensures DecidePolicy(inp, ps[i], d, pkt) != Deny {
      NeverDenies(inp, ps[i], d, pkt);
    }
  }

  /** Without excepts a packet passes iff some policy on its interface allows it. */
  lemma PassesIff(inp: Input, d: Dir, pkt: Packet)
    requires InputOk(inp) && PoliciesOk(PoliciesFor(inp, d), d) && InputNoExcept(inp, d)
    ensures MayPass(inp, d, pkt) <==>
            || !OnPod(inp, d, pkt) || CommonAccepts(inp.cfg, d, pkt) || PoliciesFor(inp, d) == []
            || SomeDecides(inp, PoliciesFor(inp, d), d, pkt, Allow)
  {
    hide SomeDecides, OnPod, CommonAccepts, RulesOk;
    var ps := PoliciesFor(inp, d);
    NoExceptIn(inp, d, ps);
    NoneDenies(inp, ps, d, pkt);
    DecidesFirst(inp, ps, d, pkt);
  }

  lemma OnConcerns(inp: Input, p: PolicySpec, d: Dir, pkt: Packet, i: Iface)
    requires i in OnNetworks(inp.ifs, p.nets) && i.name == IfOf(d, pkt)
    ensures Concerns(inp, p, d, pkt)
  {
    OnNetworksMembers(inp.ifs, p.nets, i);
    var k :| 0 <= k < |inp.ifs| && inp.ifs[k] == i;
  }

  lemma MeantAt(inp: Input, d: Dir, pkt: Packet, p: PolicySpec) returns (i: nat)
    requires InputOk(inp) && DistinctPolicies(inp) && p in PoliciesFor(inp, d) && PoliciesOk(PoliciesFor(inp, d), d)
    ensures i < |PoliciesFor(inp, d)| && PoliciesFor(inp, d)[i] == p && p.key in MeantScene(inp, d, pkt).judged
    ensures MeantScene(inp, d, pkt).judged[p.key] ==
            Judged(DecideRules(inp, p.nets, RulesFor(p, d), d, pkt), |RulesFor(p, d)|)
  {
    hide DecideRules, CommonAccepts, RulesOk;
    var ps := PoliciesFor(inp, d);
    DistinctDir(inp, d);
    i :| 0 <= i < |ps| && ps[i] == p;
    PolicyAtFinds(ps, i);
  }

  /** A jump that lets the packet in is that of a policy which allows it. */
  lemma LetsInAllows(st: Ruleset, inp: Input, d: Dir, pkt: Packet, r: Rule)
    requires InputOk(inp) && DistinctPolicies(inp) && PoliciesOk(PoliciesFor(inp, d), d) && EntryExact(st, inp, d)
    requires r in ShapeAt(st, FILTER, EntryChain(d)) && EntryRule(d, r) && LetsIn(r, MeantScene(inp, d, pkt))
    ensures SomeDecides(inp, PoliciesFor(inp, d), d, pkt, Allow)
  {
    hide EntryExact, ShapeAt, EntryRule, DecideRules, Concerns, OnNetworks, InputOk, DistinctPolicies, RulesOk,
         CommonAccepts, MeantJudge, PolicyKeys;
    var p, j := JumpIn(st, inp, d, r, r.comment.key);
    OnConcerns(inp, p, d, pkt, j);
    var i := MeantAt(inp, d, pkt, p);
    assert DecidePolicy(inp, PoliciesFor(inp, d)[i], d, pkt) == Allow;
  }

  /** The packet is none of the policies' business. */
  ghost predicate Exempt(inp: Input, d: Dir, pkt: Packet)
    requires InputOk(inp)
  {
    !OnPod(inp, d, pkt) || CommonAccepts(inp.cfg, d, pkt) || PoliciesFor(inp, d) == []
  }

  /** Whatever has been gained before or is gained now, and whatever the order of
      the policies: a packet passes only if some policy allows it. */
  lemma NeverTooMuch(rs: Ruleset, inp: Input, d: Dir, pkt: Packet, m: Mark)
    requires Sound(rs) && Fit(inp) && SetsServe(rs, inp, d, pkt) && InputExact(inp, d, pkt) && ValidPacket(pkt)
    requires AllSettled(PassOf(rs, inp), inp, d) && PoliciesOk(PoliciesFor(inp, d), d) && !Both(m)
    requires Admits(Tab(PassOf(rs, inp), FILTER), pkt, HookOf(d), m)
    ensures Exempt(inp, d, pkt) || SomeDecides(inp, PoliciesFor(inp, d), d, pkt, Allow)
    ensures InputNoExcept(inp, d) ==> MayPass(inp, d, pkt)
  {
    hide PassOf, InputOk, DistinctPolicies, Selected, WellFormed, SupportedFilter, SoundDir, Travel, Both, Admits,
         EntryExact, Form, Middle, Sound, SetsServe, InputExact, ValidPacket, AllSettled, OnPod, CommonAccepts, MayPass,
         SomeDecides, PoliciesOk, InputNoExcept, MeantScene, EntryRule, LetsIn, Inner;
    var st, ps, sc := PassOf(rs, inp), PoliciesFor(inp, d), MeantScene(inp, d, pkt);
    SoundAt(rs, d);
    MeantDir(inp, d, pkt);
    MeantVerdict(rs, inp, d, pkt, m);
    var mid := EntryAfter(rs, inp, d);
    TravelForm(mid, ps != [], sc, false);
    if !sc.common && ps != [] && Travel(mid, sc, Go(false)) == Stop(true) {
      AllowedOnly(st, inp, d, pkt, mid, ps != []);
    }
    if InputNoExcept(inp, d) {
      PassesIff(inp, d, pkt);
    }
  }

  lemma AllowedOnly(st: Ruleset, inp: Input, d: Dir, pkt: Packet, mid: seq<Rule>, drop: bool)
    requires InputOk(inp) && DistinctPolicies(inp) && PoliciesOk(PoliciesFor(inp, d), d) && EntryExact(st, inp, d)
    requires Middle(d, mid) && ShapeAt(st, FILTER, EntryChain(d)) == Form(d, mid, drop)
    requires EntryOnly(d, Form(d, mid, drop)) && Travel(mid, MeantScene(inp, d, pkt), Go(false)) == Stop(true)
    ensures SomeDecides(inp, PoliciesFor(inp, d), d, pkt, Allow)
  {
    hide InputOk, DistinctPolicies, EntryExact, Middle, EntryOnly, Travel, MeantScene, SomeDecides, PoliciesOk, LetsIn,
         Inner, Form, EntryRule;
    var sc := MeantScene(inp, d, pkt);
    MiddleInner(d, mid);
    TravelAllows(mid, sc);
    var a :| 0 <= a < |mid| && LetsIn(mid[a], sc);
    MiddleMember(d, mid, drop, a);
    LetsInAllows(st, inp, d, pkt, mid[a]);
  }

  lemma MiddleMember(d: Dir, mid: seq<Rule>, drop: bool, a: nat)
    requires a < |mid| && EntryOnly(d, Form(d, mid, drop))
    ensures mid[a] in Form(d, mid, drop) && EntryRule(d, mid[a])
  {
    hide CommonJump, DropRest, EntryRule;
    assert Form(d, mid, drop)[a + 1] == mid[a];
  }

  /** In a chain in which every jump stands in front of its check the packets of a
      policy that allows them get through, unless some policy denies. */
  lemma GuardedReaches(st: Ruleset, inp: Input, sc: Scene, mid: seq<Rule>, drop: bool, p: PolicySpec, both: bool)
    requires EntryExact(st, inp, sc.d) && Middle(sc.d, mid)
    requires ShapeAt(st, FILTER, EntryChain(sc.d)) == Form(sc.d, mid, drop)
    requires Tight(Form(sc.d, mid, drop)) && Guarded(Form(sc.d, mid, drop)) && NoneDenied(sc)
    requires p in PoliciesFor(inp, sc.d) && Concerns(inp, p, sc.d, sc.pkt)
    requires p.key in sc.judged && sc.judged[p.key].x.Allow?
    ensures Travel(mid, sc, Go(both)) == Stop(true)
  {
    hide EntryExact, Middle, NoneDenied, Travel, Tight, Guarded, Concerns, ShapeAt;
    var a := JumpPlace(st, inp, sc.d, sc.pkt, mid, drop, p);
    MiddleInner(sc.d, mid);
    var b := CheckPlace(sc.d, mid, drop, a, p.key);
    TightForm(sc.d, mid, drop);
    BetweenTight(mid, a, b, p.key);
    TravelReaches(mid, sc, both, a, b);
  }

  lemma MeantDir(inp: Input, d: Dir, pkt: Packet)
    requires InputOk(inp)
    ensures MeantScene(inp, d, pkt).d == d && MeantScene(inp, d, pkt).pkt == pkt
    ensures MeantScene(inp, d, pkt).common == CommonAccepts(inp.cfg, d, pkt)
    ensures MeantScene(inp, d, pkt).judged.Keys == PolicyKeys(PoliciesFor(inp, d))
  {
    hide MeantJudge, CommonAccepts;
  }

  lemma BetweenTight(s: seq<Rule>, a: nat, b: nat, k: PolicyKey)
    requires Tight(s) && a < b < |s| && JumpOf(s[a], k) && MarkOf(s[b], k)
    ensures forall i :: a < i < b ==> JumpOf(s[i], k)
  {
    hide JumpOf, MarkOf;
  }

  lemma CheckPlace(d: Dir, mid: seq<Rule>, drop: bool, a: nat, k: PolicyKey) returns (b: nat)
    requires Guarded(Form(d, mid, drop)) && a < |mid| && JumpOf(mid[a], k)
    ensures a < b < |mid| && MarkOf(mid[b], k)
  {
    FormEnds(d, k);
    hide CommonJump, DropRest, JumpOf, MarkOf;
    var s := Form(d, mid, drop);
    assert s[a + 1] == mid[a];
    assert CheckBehind(s, a + 1, k);
    var c :| a + 1 < c < |s| && MarkOf(s[c], k);
    b := c - 1;
  }

  lemma JumpPlace(st: Ruleset, inp: Input, d: Dir, pkt: Packet, mid: seq<Rule>, drop: bool, p: PolicySpec)
    returns (a: nat)
    requires EntryExact(st, inp, d) && ShapeAt(st, FILTER, EntryChain(d)) == Form(d, mid, drop)
    requires p in PoliciesFor(inp, d) && Concerns(inp, p, d, pkt)
    ensures a < |mid| && JumpOf(mid[a], p.key) && mid[a].comment.iface == IfOf(d, pkt)
  {
    hide IfaceJump, EntryWants, CommonJump, DropRest, OnNetworks, Flatten, ShapeAt, Form;
    var n :| 0 <= n < |inp.ifs| && OnNetwork(inp.ifs[n], p.nets) && inp.ifs[n].name == IfOf(d, pkt);
    var i := inp.ifs[n];
    OnNetworksMembers(inp.ifs, p.nets, i);
    JumpInFlat(inp, d, p, i);
    FlatWanted(inp, d, IfaceJump(d, p.key, i));
    assert IsJump(d, IfaceJump(d, p.key, i));
    EntryNotes(d, p.key, i);
    FormMembers(d, mid, drop, IfaceJump(d, p.key, i));
    a :| 0 <= a < |mid| && mid[a] == IfaceJump(d, p.key, i);
  }

  /** Incremental equals meant: if every jump of the entry chain stands in front of
      its check, a packet passes exactly when the policies let it. */
  lemma GuardedVerdict(rs: Ruleset, inp: Input, d: Dir, pkt: Packet, m: Mark)
    requires Sound(rs) && Fit(inp) && SetsServe(rs, inp, d, pkt) && InputExact(inp, d, pkt) && ValidPacket(pkt)
    requires InputNoExcept(inp, d) && !Both(m)
    requires Guarded(ShapeAt(PassOf(rs, inp), FILTER, EntryChain(d)))
    ensures Admits(Tab(PassOf(rs, inp), FILTER), pkt, HookOf(d), m) <==> MayPass(inp, d, pkt)
  {
    hide PassOf, InputOk, DistinctPolicies, Selected, WellFormed, SupportedFilter, SoundDir, Travel, Both, Admits,
         EntryExact, Form, Middle, Sound, SetsServe, InputExact, ValidPacket, AllSettled, OnPod, CommonAccepts, MayPass,
         PoliciesOk, InputNoExcept, PolicyKeys, MeantScene, EntryRule, Guarded, SomeDecides, Tight;
    SoundAt(rs, d);
    PoliciesOkIn(inp, d, PoliciesFor(inp, d));
    MeantDir(inp, d, pkt);
    var st, ps, sc := PassOf(rs, inp), PoliciesFor(inp, d), MeantScene(inp, d, pkt);
    NoExceptSettled(st, inp, d);
    if Admits(Tab(st, FILTER), pkt, HookOf(d), m) {
      NeverTooMuch(rs, inp, d, pkt, m);
    }
    MeantVerdict(rs, inp, d, pkt, m);
    PassesIff(inp, d, pkt);
    var mid := EntryAfter(rs, inp, d);
    TravelForm(mid, ps != [], sc, false);
    assert Tight(ShapeAt(st, FILTER, EntryChain(d))) by { PassTight(rs, inp, d); }
    GuardedLets(st, inp, d, pkt, mid, ps != []);
  }

  lemma GuardedLets(st: Ruleset, inp: Input, d: Dir, pkt: Packet, mid: seq<Rule>, drop: bool)
    requires InputOk(inp) && DistinctPolicies(inp) && InputNoExcept(inp, d) && PoliciesOk(PoliciesFor(inp, d), d)
    requires EntryExact(st, inp, d) && Middle(d, mid) && ShapeAt(st, FILTER, EntryChain(d)) == Form(d, mid, drop)
    requires Tight(Form(d, mid, drop)) && Guarded(Form(d, mid, drop))
    ensures Travel(mid, MeantScene(inp, d, pkt), Go(false)) != Stop(false)
    ensures SomeDecides(inp, PoliciesFor(inp, d), d, pkt, Allow) ==>
              Travel(mid, MeantScene(inp, d, pkt), Go(false)) == Stop(true)
  {
    hide InputOk, DistinctPolicies, InputNoExcept, RulesOk, EntryExact, Middle, Form, Tight, Guarded, Travel,
         MeantScene, NoneDenied, Inner, DecidePolicy, Concerns, ShapeAt;
    var ps, sc := PoliciesFor(inp, d), MeantScene(inp, d, pkt);
    MeantDir(inp, d, pkt);
    MiddleInner(d, mid);
    MeantDenies(inp, d, pkt);
    TravelNoDeny(mid, sc, false);
    if SomeDecides(inp, ps, d, pkt, Allow) {
      var i :| 0 <= i < |ps| && DecidePolicy(inp, ps[i], d, pkt) == Allow;
      MeantAllows(inp, d, pkt, i);
      GuardedReaches(st, inp, sc, mid, drop, ps[i], false);
    }
  }

  lemma MeantAllows(inp: Input, d: Dir, pkt: Packet, i: nat)
    requires InputOk(inp) && DistinctPolicies(inp) && PoliciesOk(PoliciesFor(inp, d), d) && i < |PoliciesFor(inp, d)|
    requires DecidePolicy(inp, PoliciesFor(inp, d)[i], d, pkt) == Allow
    ensures var p, sc := PoliciesFor(inp, d)[i], MeantScene(inp, d, pkt);
            p in PoliciesFor(inp, d) && Concerns(inp, p, d, pkt) && p.key in sc.judged && sc.judged[p.key].x.Allow?
  {
    hide InputOk, DistinctPolicies, DecideRules, Concerns, CommonAccepts, RulesOk, MeantScene;
    var j := MeantAt(inp, d, pkt, PoliciesFor(inp, d)[i]);
  }

  /** What the sets as they are let in passes, whatever the input means. */
  lemma HeldAdmits(rs: Ruleset, inp: Input, d: Dir, pkt: Packet, m: Mark, i: nat)
    requires Sound(rs) && Fit(inp) && Guarded(ShapeAt(PassOf(rs, inp), FILTER, EntryChain(d)))
    requires i < |PoliciesFor(inp, d)| && Concerns(inp, PoliciesFor(inp, d)[i], d, pkt)
    requires NoneDenied(HeldScene(Tab(PassOf(rs, inp), FILTER), inp, d, pkt))
    requires PoliciesOk(PoliciesFor(inp, d), d)
    requires PolicyHeld(Tab(PassOf(rs, inp), FILTER), PoliciesFor(inp, d)[i], d, pkt).Allow?
    ensures Admits(Tab(PassOf(rs, inp), FILTER), pkt, HookOf(d), m)
  {
    SoundAt(rs, d);
    hide PassOf, InputOk, DistinctPolicies, Selected, WellFormed, SupportedFilter, SoundDir, Travel, Both, Admits,
         EntryExact, Form, Middle, Sound, RulesOk, HeldScene, EntryRule, Guarded, NoneDenied, Tight, Concerns,
         PolicyHeld, InSet;
    var st, ps := PassOf(rs, inp), PoliciesFor(inp, d);
    var t, p := Tab(st, FILTER), ps[i];
    var sc := HeldScene(t, inp, d, pkt);
    InstalledVerdict(rs, inp, d, pkt, m);
    var mid := EntryAfter(rs, inp, d);
    PassTight(rs, inp, d);
    HeldAt(t, inp, d, pkt, i);
    GuardedReaches(st, inp, sc, mid, ps != [], p, Both(m));
    TravelForm(mid, ps != [], sc, Both(m));
  }

  lemma HeldAt(t: Table, inp: Input, d: Dir, pkt: Packet, i: nat)
    requires InputOk(inp) && DistinctPolicies(inp) && i < |PoliciesFor(inp, d)| && PoliciesOk(PoliciesFor(inp, d), d)
    ensures var p, sc := PoliciesFor(inp, d)[i], HeldScene(t, inp, d, pkt);
            && p in PoliciesFor(inp, d) && sc.d == d && sc.pkt == pkt
            && p.key in sc.judged && sc.judged[p.key] == Judged(PolicyHeld(t, p, d, pkt), |RulesFor(p, d)|)
  {
    hide PolicyHeld, M.CommonHeld, RulesOk;
    DistinctDir(inp, d);
    PolicyAtFinds(PoliciesFor(inp, d), i);
  }

  lemma PassTight(rs: Ruleset, inp: Input, d: Dir)
    requires WellFormed(rs) && Fit(inp) && SoundDir(rs, d)
    ensures Tight(ShapeAt(PassOf(rs, inp), FILTER, EntryChain(d)))
  {
    hide PassStage, PassOf, InputOk, DistinctPolicies, Selected, WellFormed, BaseOk, EntryOk, Tight, QuadChain;
    StageSoundDir(rs, inp, d, LAST_STAGE);
    PassStageLast(rs, inp);
  }
}
