/** Inputs on which the daemon falls short, each in two passes from empty tables:
    an interface is gained, an interval flag changes, a first except arrives. */
module Witnesses {
  import opened Ids
  import opened Marks
  import opened Machine
  import opened Identity
  import opened Intervals
  import opened Elements
  import opened Kernel
  import opened Reconcile
  import opened Flush
  import opened Cleanup
  import opened Policies
  import opened Compile
  import opened Requests
  import opened Layout
  import opened SetLayout
  import opened Exact
  import opened Passes
  import opened Effects
  import opened Walks
  import opened Targets
  import opened States
  import opened Results
  import opened Correct
  import opened Entry
  import opened Runs
  import opened Blocks
  import opened Incremental
  import opened Histories
  import opened Travels
  import opened Gains
  import opened Soundness
  import opened Excepts
  import M = Meanings
  import Repeats

  const KEY: PolicyKey := PolicyKey("ns", "policy")
  const NET1: Iface := Iface("n", "net1", "", [])
  const NET2: Iface := Iface("n", "net2", "", [])
  const PLAIN: Config := Config(false, false, [], [])
  const NOBODY: View := View([], map[], {})
  const NOTHING: Ruleset := map[]

  /** A pod with these interfaces and one ingress policy of one rule. */
  function Only(ifs: seq<Iface>, r: RuleSpec): Input {
    Input(ifs, PLAIN, [Policy(r)], [], NOBODY)
  }

  function Policy(r: RuleSpec): PolicySpec {
    PolicySpec(KEY, ["n"], [r], [])
  }

  lemma OnlyIfs()
    ensures OnNetworks([NET1], ["n"]) == [NET1] && OnNetworks([NET1, NET2], ["n"]) == [NET1, NET2]
  {
    assert OnNetwork(NET1, ["n"]) && OnNetwork(NET2, ["n"]);
    assert [NET1][..0] == [] && [NET1, NET2][..1] == [NET1];
    assert OnNetworks([], ["n"]) == [];
  }

  lemma OnlyFits(ifs: seq<Iface>, r: RuleSpec)
    requires RuleOk(r) && ifs in {[NET1], [NET1, NET2]}
    ensures Fit(Only(ifs, r)) && PoliciesOk([Policy(r)], Ingress)
  {
    hide RuleOk, OnNetworks;
    OnlyIfs();
    var inp := Only(ifs, r);
    assert RulesOk([r]);
    forall d: Dir, p | p in PoliciesFor(inp, d) ensures OnNetworks(inp.ifs, p.nets) != [] {
      assert p == Policy(r);
    }
  }

  lemma NothingOk()
    ensures WellFormed(NOTHING) && EmptyFilter(NOTHING) && Sound(NOTHING)
  {
    EmptySound(NOTHING);
  }

  lemma FirstSound(inp: Input)
    requires Fit(inp)
    ensures Sound(PassOf(NOTHING, inp))
  {
    hide InputOk, DistinctPolicies, Selected, PassOf, PassStage, Sound;
    NothingOk();
    StageSound(NOTHING, inp, LAST_STAGE);
    PassStageLast(NOTHING, inp);
  }

  lemma EntryOf(rs: Ruleset, d: Dir)
    requires Sound(rs)
    ensures WellFormed(rs) && SupportedFilter(rs) && SoundDir(rs, d) && EntryOk(d, ShapeAt(rs, FILTER, EntryChain(d)))
  {
    SoundAt(rs, d);
  }

  /** Two passes that gain nothing leave every jump in front of its check. */
  lemma TwiceGuarded(a: Input, b: Input, d: Dir)
    requires Fit(a) && Fit(b) && GainsNothing(a, b)
    ensures Guarded(ShapeAt(PassOf(PassOf(NOTHING, a), b), FILTER, EntryChain(d)))
  {
    var rs := PassOf(NOTHING, a);
    NothingOk();
    assert ShapeAt(NOTHING, FILTER, EntryChain(d)) == [];
    hide InputOk, DistinctPolicies, Selected, PassOf, Sound, WellFormed, SupportedFilter, EntryOk, GainsNothing,
         EntryExact, NoGain, SoundDir;
    EntryOf(NOTHING, d);
    GuardedExactly(NOTHING, a, d);
    NoGainEmpty(a, d);
    FirstSound(a);
    EntryOf(rs, d);
    PassEntryExact(NOTHING, a, d);
    NoGainFrom(rs, a, b, d);
    GuardedExactly(rs, b, d);
  }

  lemma NoGainEmpty(inp: Input, d: Dir)
    ensures NoGain(inp, d, [])
  {
    hide PolicyMark, IfaceJump;
  }

  lemma SameIfsGainNothing(ifs: seq<Iface>, r: RuleSpec, s: RuleSpec)
    ensures GainsNothing(Only(ifs, r), Only(ifs, s))
  {
    hide OnNetworks;
  }

  lemma OnlyMeaning(ifs: seq<Iface>, r: RuleSpec, pkt: Packet)
    requires RuleOk(r) && NET1 in ifs && pkt.iif == "net1" && !pkt.v6 && pkt.l4 == 6 && pkt.ct == 0
    requires InputOk(Only(ifs, r))
    ensures OnPod(Only(ifs, r), Ingress, pkt) && Concerns(Only(ifs, r), Policy(r), Ingress, pkt)
    ensures !CommonAccepts(PLAIN, Ingress, pkt)
    ensures MayPass(Only(ifs, r), Ingress, pkt) <==> DecideRule(Only(ifs, r), ["n"], r, Ingress, pkt).Allow?
  {
    hide DecideRule;
    var inp := Only(ifs, r);
    var k :| 0 <= k < |ifs| && ifs[k] == NET1;
    assert inp.ifs[k].name == IfOf(Ingress, pkt) && OnNetwork(inp.ifs[k], ["n"]);
    assert Prefixes(PLAIN.src) == [];
    assert !Conntracked(pkt);
    assert [r][1..] == [] && [Policy(r)][1..] == [];
    var x := DecideRule(inp, ["n"], r, Ingress, pkt);
    assert DecideRules(inp, ["n"], [r], Ingress, pkt) == x;
    assert DecidePolicy(inp, Policy(r), Ingress, pkt) == x;
    assert DecidePolicies(inp, [Policy(r)], Ingress, pkt) == if x.Next? then Deny else x;
  }

  /** If the one installed rule holds the packet, the packet is admitted. */
  lemma OnlyAdmits(ifs: seq<Iface>, a: RuleSpec, b: RuleSpec, pkt: Packet, m: Mark)
    requires RuleOk(a) && RuleOk(b) && ifs in {[NET1], [NET1, NET2]}
    requires Fit(Only(ifs, a)) && Fit(Only(ifs, b)) && Concerns(Only(ifs, b), Policy(b), Ingress, pkt)
    requires var t := Tab(PassOf(PassOf(NOTHING, Only(ifs, a)), Only(ifs, b)), FILTER);
             RuleHeld(t, Ingress, KEY, 0, b, pkt) == Allow
    ensures Admits(Tab(PassOf(PassOf(NOTHING, Only(ifs, a)), Only(ifs, b)), FILTER), pkt, InputHook, m)
  {
    hide InputOk, DistinctPolicies, Selected, PassOf, Sound, GainsNothing, Guarded, RuleHeld, Admits, Concerns, RuleOk,
         HeldScene;
    var x, y := Only(ifs, a), Only(ifs, b);
    var rs := PassOf(NOTHING, x);
    var t := Tab(PassOf(rs, y), FILTER);
    FirstSound(x);
    SameIfsGainNothing(ifs, a, b);
    TwiceGuarded(x, y, Ingress);
    OnlyFits(ifs, b);
    OnlyHeld(t, b, pkt);
    OnlyDenied(t, ifs, b, pkt);
    HeldAdmits(rs, y, Ingress, pkt, m, 0);
  }

  lemma OnlyHeld(t: Table, r: RuleSpec, pkt: Packet)
    requires RuleOk(r) && RulesOk(RulesFor(Policy(r), Ingress))
    ensures PolicyHeld(t, Policy(r), Ingress, pkt) == RuleHeld(t, Ingress, KEY, 0, r, pkt)
  {
    hide RuleHeld;
    var xs := [RuleHeld(t, Ingress, KEY, 0, r, pkt)];
    assert xs[..0] == [];
    assert FirstDecision(xs) == xs[0];
    var rs := RulesFor(Policy(r), Ingress);
    assert seq(|rs|, n requires 0 <= n < |rs| => RuleHeld(t, Ingress, KEY, n, rs[n], pkt)) == xs;
  }

  lemma OnlyDenied(t: Table, ifs: seq<Iface>, r: RuleSpec, pkt: Packet)
    requires RuleOk(r) && InputOk(Only(ifs, r)) && RuleHeld(t, Ingress, KEY, 0, r, pkt) == Allow
    ensures NoneDenied(HeldScene(t, Only(ifs, r), Ingress, pkt))
  {
    hide RuleHeld, M.CommonHeld, PolicyHeld;
    var inp := Only(ifs, r);
    var sc := HeldScene(t, inp, Ingress, pkt);
    assert RulesOk(RulesFor(Policy(r), Ingress));
    OnlyHeld(t, r, pkt);
    forall k | k in sc.judged ensures !sc.judged[k].x.Deny? {
      assert k == KEY;
      PolicyAtFinds(inp.ingress, 0);
    }
  }

  // ------------------------------------------------------- a gained interface

  const OPEN: RuleSpec := RuleSpec([], [])

  /** A pod with one open policy on its network, before and after it gains a
      second interface there. */
  const FIRST: Input := Only([NET1], OPEN)
  const SECOND: Input := Only([NET1, NET2], OPEN)
  const TO_NET2: Packet := Packet("net2", "", false, 6, 0, 0, 80, 0, 0)

  lemma GainFits()
    ensures Fit(FIRST) && Fit(SECOND) && InputExact(SECOND, Ingress, TO_NET2) && InputNoExcept(SECOND, Ingress)
    ensures FlagsKept(FIRST, SECOND)
  {
    OnlyFits([NET1], OPEN);
    OnlyFits([NET1, NET2], OPEN);
    hide FlagsKept, OnNetworks, Selected;
    forall d: Dir, p, q | p in PoliciesFor(FIRST, d) && q in PoliciesFor(SECOND, d) && p.key == q.key
      ensures RulesFor(p, d) == RulesFor(q, d)
    {
      assert p == Policy(OPEN) && q == Policy(OPEN);
    }
    SameRulesKeepFlags(FIRST, SECOND);
  }

  lemma GainMeaning()
    requires InputOk(SECOND)
    ensures OnPod(SECOND, Ingress, TO_NET2) && MayPass(SECOND, Ingress, TO_NET2)
    ensures var sc := MeantScene(SECOND, Ingress, TO_NET2);
            !sc.common && KEY in sc.judged && sc.judged[KEY].x == Allow
  {
    var inp, pkt := SECOND, TO_NET2;
    assert inp.ifs[1].name == IfOf(Ingress, pkt) && OnNetwork(inp.ifs[1], ["n"]);
    assert Prefixes(PLAIN.src) == [];
    assert DecideRule(inp, ["n"], OPEN, Ingress, pkt) == Allow;
    assert DecideRules(inp, ["n"], [OPEN], Ingress, pkt) == Allow;
    assert DecidePolicy(inp, Policy(OPEN), Ingress, pkt) == Allow;
    assert Policy(OPEN) in inp.ingress;
    PolicyAtFinds(inp.ingress, 0);
  }

  /** The entry chain after the first pass. */
  function FirstEntry(): seq<Rule> {
    Form(Ingress, [IfaceJump(Ingress, KEY, NET1), PolicyMark(Ingress, KEY)], true)
  }

  lemma FirstEntryIs()
    ensures EntryRules(Ingress, BlocksFor(FIRST, FIRST.ingress)) == FirstEntry()
    ensures MiddleOf(Ingress, FirstEntry()) == [IfaceJump(Ingress, KEY, NET1), PolicyMark(Ingress, KEY)]
  {
    OnlyIfs();
    hide IfaceJump, PolicyMark, OnNetworks, CommonJump, DropRest, MiddleOf, Middle;
    var j1, c := IfaceJump(Ingress, KEY, NET1), PolicyMark(Ingress, KEY);
    assert [NET1][..0] == [];
    assert Jumps(Ingress, KEY, [NET1]) == [j1];
    var bs := BlocksFor(FIRST, FIRST.ingress);
    assert bs == [Block(KEY, [NET1])] && bs[..0] == [];
    assert Flatten(Ingress, bs) == [j1, c];
    FlattenMiddle(Ingress, bs);
    MiddleForm(Ingress, [j1, c], true);
  }

  lemma FirstHas()
    ensures IfaceJump(Ingress, KEY, NET1) in FirstEntry() && PolicyMark(Ingress, KEY) in FirstEntry()
    ensures IfaceJump(Ingress, KEY, NET2) !in FirstEntry()
  {
    EntryNotes(Ingress, KEY, NET1);
    EntryNotes(Ingress, KEY, NET2);
    hide IfaceJump, PolicyMark, CommonJump, DropRest, Form;
    var mid := [IfaceJump(Ingress, KEY, NET1), PolicyMark(Ingress, KEY)];
    FormMembers(Ingress, mid, true, IfaceJump(Ingress, KEY, NET1));
    FormMembers(Ingress, mid, true, IfaceJump(Ingress, KEY, NET2));
    FormMembers(Ingress, mid, true, PolicyMark(Ingress, KEY));
  }

  /** What the second pass appends to it. */
  lemma SecondAppends()
    ensures MoreAll(SECOND, SECOND.ingress, Ingress, FirstEntry()) == [IfaceJump(Ingress, KEY, NET2)]
  {
    FirstHas();
    OnlyIfs();
    hide IfaceJump, PolicyMark, OnNetworks, FirstEntry;
    var s, two := FirstEntry(), [NET1, NET2];
    assert two[..1] == [NET1] && [NET1][..0] == [] && [NET2][..0] == [];
    assert NewIfs(Ingress, KEY, [NET1], s) == [];
    assert NewIfs(Ingress, KEY, two, s) == [NET2];
    assert Jumps(Ingress, KEY, [NET2]) == [IfaceJump(Ingress, KEY, NET2)];
    assert SECOND.ingress == [Policy(OPEN)] && SECOND.ingress[..0] == [];
    assert More(SECOND, Policy(OPEN), Ingress, s) == [IfaceJump(Ingress, KEY, NET2)];
  }

  /** The entry chain after the second pass: the new jump behind the check. */
  lemma SecondEntryIs(rs: Ruleset)
    requires Sound(rs) && Fit(SECOND) && ShapeAt(rs, FILTER, EntryChain(Ingress)) == FirstEntry()
    ensures ShapeAt(PassOf(rs, SECOND), FILTER, EntryChain(Ingress)) ==
            Form(Ingress, [IfaceJump(Ingress, KEY, NET1), PolicyMark(Ingress, KEY), IfaceJump(Ingress, KEY, NET2)],
                 true)
  {
    hide PassLog, InputOk, DistinctPolicies, Selected, Sound, WellFormed, SupportedFilter, EntryOk, SoundDir, Form,
         FirstEntry, MiddleOf, MoreAll, IfaceJump, PolicyMark, Stage, Keep, Wanted, EntryWants, Proj, OnNetworks;
    var d, p := Ingress, Proj(PassLog(rs, SECOND), FILTER, EntryChain(Ingress));
    var mid := [IfaceJump(d, KEY, NET1), PolicyMark(d, KEY), IfaceJump(d, KEY, NET2)];
    EntryOf(rs, d);
    FirstEntryIs();
    SecondAppends();
    assert PoliciesFor(SECOND, d) == SECOND.ingress && SECOND.ingress != [];
    var drop := FlushMiddle(rs, SECOND, d);
    assert [mid[0], mid[1]] + [mid[2]] == mid;
    PassLogWants(rs, SECOND, d);
    StageShape(rs, PassLog(rs, SECOND), LAST_STAGE, FILTER, EntryChain(d));
    KeepForm(d, mid, drop, p, SECOND);
    forall i | 0 <= i < |mid| ensures Wanted(mid[i], p) {
      SecondWants(p, mid[i]);
    }
    KeepAll(mid, p);
  }

  lemma SecondWants(p: seq<Req>, r: Rule)
    requires AllRules(p) && Wants(p) == EntryWants(SECOND, Ingress)
    requires r in [IfaceJump(Ingress, KEY, NET1), PolicyMark(Ingress, KEY), IfaceJump(Ingress, KEY, NET2)]
    ensures Wanted(r, p)
  {
    OnlyIfs();
    hide IfaceJump, PolicyMark, OnNetworks, EntryWants, Wanted, Flatten;
    var d, q := Ingress, Policy(OPEN);
    assert q in PoliciesFor(SECOND, d) && OnNetworks(SECOND.ifs, q.nets) == [NET1, NET2];
    assert IsJump(d, IfaceJump(d, KEY, NET1)) && IsJump(d, IfaceJump(d, KEY, NET2)) && IsMark(d, PolicyMark(d, KEY));
    JumpInFlat(SECOND, d, q, NET1);
    JumpInFlat(SECOND, d, q, NET2);
    FlatWanted(SECOND, d, IfaceJump(d, KEY, NET1));
    FlatWanted(SECOND, d, IfaceJump(d, KEY, NET2));
    MarkWanted(SECOND, d, KEY);
    EntryWanted(SECOND, d, p, r);
  }

  /** Read rule by rule: the bits are set too late. */
  lemma GainTravel(sc: Scene)
    requires sc.d == Ingress && sc.pkt == TO_NET2 && !sc.common && KEY in sc.judged && sc.judged[KEY].x == Allow
    ensures var mid := [IfaceJump(Ingress, KEY, NET1), PolicyMark(Ingress, KEY), IfaceJump(Ingress, KEY, NET2)];
            Travel(Form(Ingress, mid, true), sc, Go(false)) == Stop(false)
  {
    EntryNotes(Ingress, KEY, NET1);
    EntryNotes(Ingress, KEY, NET2);
    hide IfaceJump, PolicyMark, Form;
    var mid := [IfaceJump(Ingress, KEY, NET1), PolicyMark(Ingress, KEY), IfaceJump(Ingress, KEY, NET2)];
    TravelForm(mid, true, sc, false);
    assert mid[..2] == [mid[0], mid[1]] && mid[..2][..1] == [mid[0]] && [mid[0]][..0] == [];
    assert Travel([mid[0]], sc, Go(false)) == Go(false);
    assert Travel(mid[..2], sc, Go(false)) == Go(false);
    assert Travel(mid, sc, Go(false)) == Go(true);
  }

  lemma FirstShape()
    requires Fit(FIRST)
    ensures ShapeAt(PassOf(NOTHING, FIRST), FILTER, EntryChain(Ingress)) == FirstEntry()
  {
    hide PassOf, InputOk, DistinctPolicies, Selected, FirstEntry, EntryRules, BlocksFor, EmptyFilter;
    NothingOk();
    FreshEntry(NOTHING, FIRST, Ingress);
    FirstEntryIs();
  }

  /** Two passes from empty tables: the one policy allows everything, and yet the
      packet on the interface the pod has gained is dropped; a third pass with the
      same input, which gains nothing, does not mend it. */
  lemma GainedInterfaceDrops(m: Mark)
    requires !Both(m)
    ensures Fit(FIRST) && Fit(SECOND) && MayPass(SECOND, Ingress, TO_NET2)
    ensures var rs := PassOf(PassOf(NOTHING, FIRST), SECOND);
            && !Admits(Tab(rs, FILTER), TO_NET2, InputHook, m)
            && !Admits(Tab(PassOf(rs, SECOND), FILTER), TO_NET2, InputHook, m)
  {
    GainFits();
    GainMeaning();
    hide PassOf, InputOk, DistinctPolicies, Selected, Sound, SetsReady, SetsServe, InputExact, InputNoExcept, MayPass,
         OnPod, Both, Admits, Travel, Form, MeantScene, FirstEntry, AllSettled, IfaceJump, PolicyMark, EmptyFilter,
         FlagsKept, NoneAnonymous, SetsSettled, WellFormed, ShapeAt;
    var rs := PassOf(NOTHING, FIRST);
    NothingOk();
    FirstSound(FIRST);
    FirstShape();
    FirstSettled(FIRST);
    ReadyFrom(rs, FIRST, SECOND);
    ReadyServes(rs, SECOND, Ingress, TO_NET2);
    NoExceptSettled(PassOf(rs, SECOND), SECOND, Ingress);
    MeantDir(SECOND, Ingress, TO_NET2);
    MeantVerdict(rs, SECOND, Ingress, TO_NET2, m);
    SecondEntryIs(rs);
    GainTravel(MeantScene(SECOND, Ingress, TO_NET2));
    AgainSame(rs, SECOND);
  }

  lemma FirstSettled(inp: Input)
    requires Fit(inp)
    ensures SetsSettled(PassOf(NOTHING, inp), inp)
  {
    NothingOk();
    FreshSets(NOTHING, inp);
    assert NoneAnonymous(NOTHING);
    hide PassOf, InputOk, DistinctPolicies, Selected, Sound, SetsReady, EmptyFilter, WellFormed;
    PassSettled(NOTHING, inp);
  }

  /** A pass with the same input changes nothing. */
  lemma AgainSame(rs: Ruleset, inp: Input)
    requires Sound(rs) && Fit(inp)
    ensures PassOf(PassOf(rs, inp), inp) == PassOf(rs, inp)
  {
    hide PassOf, PassStage, InputOk, DistinctPolicies, Selected, Sound, WellFormed, SupportedFilter, SoundDir, Ticked,
         EntryOk;
    EntryOf(rs, Ingress);
    StageSound(rs, inp, LAST_STAGE);
    PassStageLast(rs, inp);
    EntryOf(PassOf(rs, inp), Ingress);
    TickedSelf(PassOf(rs, inp));
    Repeats.TickedIdempotent(rs, inp, PassOf(rs, inp), LAST_STAGE);
    PassStageLast(PassOf(rs, inp), inp);
  }

  lemma TickedSelf(a: Ruleset)
    requires WellFormed(a)
    ensures Ticked(a, a)
  {
    hide WellFormed;
    forall t | t in a ensures SameTable(a[t], a[t]) {
    }
  }

  // ----------------------------------------------------- a changed interval flag

  const P80: PortSpec := PortSpec(Some(TCP), Some(PortNum(80)), None)
  const P81: PortSpec := PortSpec(Some(TCP), Some(PortNum(81)), None)

  /** Ports 80 and 81, then 80 only. */
  const BOTH: RuleSpec := RuleSpec([P80, P81], [])
  const LESS: RuleSpec := RuleSpec([P80], [])

  function ToPort(x: nat): Packet {
    Packet("net1", "", false, 6, 0, 0, x, 0, 0)
  }

  lemma PortRanges()
    ensures RuleOk(BOTH) && RuleOk(LESS)
    ensures ProtoRanges(BOTH.ports, TCP) == [Range(80, 80), Range(81, 81)]
    ensures ProtoRanges(LESS.ports, TCP) == [Range(80, 80)]
  {
    assert BOTH.ports[..1] == [P80] && [P80][..0] == [];
    assert ProtoRanges([P80], TCP) == [Range(80, 80)];
  }

  /** A ports set after a pass. */
  lemma PortSetIs(rs: Ruleset, inp: Input, d: Dir, i: nat, n: nat, proto: Proto)
    requires WellFormed(rs) && InputOk(inp) && DistinctPolicies(inp)
    requires i < |PoliciesFor(inp, d)| && n < |RulesFor(PoliciesFor(inp, d)[i], d)|
    requires RuleOk(RulesFor(PoliciesFor(inp, d)[i], d)[n])
    requires ProtoRanges(RulesFor(PoliciesFor(inp, d)[i], d)[n].ports, proto) != []
    ensures var p := PoliciesFor(inp, d)[i];
            var s := PortsSet(d, p.key, n, proto);
            var want := Holding(true, Elems(Encode(ProtoRanges(RulesFor(p, d)[n].ports, proto), MAX_PORT + 1)));
            SetAt(PassOf(rs, inp), FILTER, s) == Some(SetResult(SetAt(rs, FILTER, s), want))
  {
    hide PassReqs, Force, Meaning, M.PortsRules, PortsRule, InputOk, DistinctPolicies, Encode, ProtoRanges, GoodReq,
         Stage, SetResult, SetAt;
    var p := PoliciesFor(inp, d)[i];
    var ports, s := RulesFor(p, d)[n].ports, PortsSet(d, p.key, n, proto);
    var fi, fe := Force(rs, inp, Ingress), Force(rs, inp, Egress);
    RuleTargets(inp, fi, fe, d, i, n);
    M.PortsRulesMembers(d, p.key, n, ports, PortsRule(d, p.key, n, proto));
    PortsLookup(d, p.key, n, proto);
    OwnMeaning(inp, d, i, s);
    PassGood(inp, fi, fe);
    PassMeaning(inp, fi, fe, FILTER, s);
    WantedLookup(PassLog(rs, inp), PortsChain(d, p.key, n), PortsRule(d, p.key, n, proto), s);
    PassSet(rs, PassLog(rs, inp), FILTER, s, Meaning(inp, FILTER, s));
  }

  /** The set of the rule after both passes: a start at 81 that nothing closes. */
  lemma PortSetOpen(x: nat)
    requires x > 81 && Fit(Only([NET1], BOTH)) && Fit(Only([NET1], LESS))
    ensures InSet(Tab(PassOf(PassOf(NOTHING, Only([NET1], BOTH)), Only([NET1], LESS)), FILTER),
                  PortsSet(Ingress, KEY, 0, TCP), Num(x))
  {
    hide PassOf, InputOk, DistinctPolicies, Selected, Encode, ProtoRanges, Covers, Updated, Sound, WellFormed,
         SupportedFilter, SoundDir, EntryOk;
    var a, b := Only([NET1], BOTH), Only([NET1], LESS);
    var rs := PassOf(NOTHING, a);
    PortRanges();
    NothingOk();
    FirstSound(a);
    EntryOf(rs, Ingress);
    PortSetIs(NOTHING, a, Ingress, 0, 0, TCP);
    PortSetIs(rs, b, Ingress, 0, 0, TCP);
    DroppedRangeOpens(x);
  }

  lemma NoPeersHit(rs: Ruleset, r: RuleSpec, pkt: Packet)
    requires Sound(rs) && RuleOk(r) && r.peers == [] && Fit(Only([NET1], r))
    ensures var t := Tab(PassOf(rs, Only([NET1], r)), FILTER);
            M.FirstActs(t, pkt, Shape(Chain(t, PeersChain(Ingress, KEY, 0)))) == Hit
  {
    hide PassOf, InputOk, DistinctPolicies, Selected, Sound, WellFormed, SupportedFilter, SoundDir, EntryOk, M.Matching,
         M.PeersRules, M.PortsRules, RuleOk, Shape, M.FirstActs;
    var inp := Only([NET1], r);
    EntryOf(rs, Ingress);
    assert RulesFor(PoliciesFor(inp, Ingress)[0], Ingress)[0] == r;
    RuleIn(rs, inp, Ingress, 0, 0);
    M.EveryPeer(Tab(PassOf(rs, inp), FILTER), inp, pkt, ["n"], Ingress, KEY, 0);
  }

  lemma NoSuchPort(x: nat)
    requires x > 81 && RuleOk(LESS)
    ensures !DecideRule(Only([NET1], LESS), ["n"], LESS, Ingress, ToPort(x)).Allow?
  {
    assert NamesPorts(LESS.ports) by { assert PortRange(LESS.ports[0]).Some?; }
    assert !PortsMatch(LESS.ports, ToPort(x));
  }

  /** Two passes from empty tables, ports 80 and 81 and then 80 only: no packet to
      a higher port may pass, before or after, and in the end all are admitted. */
  lemma DroppedPortOpensOthers(x: nat, m: Mark)
    requires 81 < x <= MAX_PORT
    ensures var a, b := Only([NET1], BOTH), Only([NET1], LESS);
            && Fit(a) && Fit(b) && ValidPacket(ToPort(x))
            && !MayPass(b, Ingress, ToPort(x))
            && Admits(Tab(PassOf(PassOf(NOTHING, a), b), FILTER), ToPort(x), InputHook, m)
  {
    hide PassOf, InputOk, DistinctPolicies, Selected, Sound, ProtoRanges, MayPass, Admits, Concerns, InSet, M.FirstActs,
         Shape, RuleOk, DecideRule, Top, OnPod, CommonAccepts, NoRanges;
    var a, b, pkt := Only([NET1], BOTH), Only([NET1], LESS), ToPort(x);
    PortRanges();
    SmallValid(pkt);
    OnlyFits([NET1], BOTH);
    OnlyFits([NET1], LESS);
    OnlyMeaning([NET1], LESS, pkt);
    NoSuchPort(x);
    FirstSound(a);
    PortSetOpen(x);
    var t := Tab(PassOf(PassOf(NOTHING, a), b), FILTER);
    assert M.Listed(t, pkt, Ingress, KEY, 0, LESS.ports, TCP);
    NoPeersHit(PassOf(NOTHING, a), LESS, pkt);
    OnlyAdmits([NET1], BOTH, LESS, pkt, m);
  }

  lemma SmallValid(pkt: Packet)
    requires pkt.src == 0 && pkt.dst == 0 && !pkt.v6 && pkt.dport <= MAX_PORT
    ensures ValidPacket(pkt)
  {
  }

  // -------------------------------------------------------------- a first except

  const ZERO: Cidr := Parsed(Prefix(false, 0, 32))

  /** An IP block without and then with an except. */
  const BLOCK: RuleSpec := RuleSpec([], [PeerSpec(Some(IPBlock(ZERO, [])), None, None)])
  const SPARED: RuleSpec := RuleSpec([], [PeerSpec(Some(IPBlock(ZERO, [ZERO])), None, None)])

  const FROM_ZERO: Packet := Packet("net1", "", false, 6, 0, 0, 80, 0, 0)

  lemma ExceptMeans()
    ensures RuleOk(BLOCK) && RuleOk(SPARED)
    ensures !DecideRule(Only([NET1], SPARED), ["n"], SPARED, Ingress, FROM_ZERO).Allow?
  {
    var except := Prefixes(SPARED.peers[0].block.value.except);
    assert InPrefixes(except, false, 0) by { assert Contains(except[0], 0); }
    assert PeerOutcome(Only([NET1], SPARED), ["n"], SPARED.peers[0], Ingress, FROM_ZERO) == Denied;
  }

  /** The rules wanted before and after. */
  lemma ExceptRules(inp: Input)
    requires RuleOk(BLOCK) && RuleOk(SPARED)
    ensures M.PeersRules(inp, ["n"], Ingress, KEY, 0, BLOCK.peers) == [BlockRule(Ingress, KEY, 0, 0, ZERO.prefix)]
    ensures M.PeersRules(inp, ["n"], Ingress, KEY, 0, SPARED.peers) ==
            [ExceptRule(Ingress, KEY, 0, 0, ZERO.prefix), BlockRule(Ingress, KEY, 0, 0, ZERO.prefix)]
  {
    hide BlockRule, ExceptRule;
    assert Prefixes([]) == [];
    M.NoExceptElems(BLOCK.peers[0].block.value);
    assert PrefixElems(Prefixes([ZERO]), false) != [];
    hide PrefixElems, Prefixes;
    assert BLOCK.peers[..0] == [] && SPARED.peers[..0] == [];
    assert M.PeerListRules(inp, ["n"], Ingress, KEY, 0, []) == [];
  }

  lemma ExceptFlags()
    requires Fit(Only([NET1], BLOCK)) && Fit(Only([NET1], SPARED))
    ensures Compatible(Only([NET1], BLOCK), Only([NET1], SPARED))
  {
    hide InputOk, DistinctPolicies, Selected, Asked, GainsNothing;
    var a, b := Only([NET1], BLOCK), Only([NET1], SPARED);
    SameIfsGainNothing([NET1], BLOCK, SPARED);
    forall s ensures Agree(Meaning(a, FILTER, s), Meaning(b, FILTER, s)) {
      ExceptAgree(s);
    }
  }

  lemma ExceptAgree(s: SetId)
    requires InputOk(Only([NET1], BLOCK)) && InputOk(Only([NET1], SPARED))
    ensures Agree(Meaning(Only([NET1], BLOCK), FILTER, s), Meaning(Only([NET1], SPARED), FILTER, s))
  {
    var a, b := Only([NET1], BLOCK), Only([NET1], SPARED);
    if RuleOwned(s) && PolicyAt(PoliciesFor(a, s.dir), s.key) < |PoliciesFor(a, s.dir)| {
      hide RuleSet, InputOk, Agree;
      var x, y := PoliciesFor(a, s.dir)[0], PoliciesFor(b, s.dir)[0];
      assert RulesOk(RulesFor(x, s.dir)) && RulesOk(RulesFor(y, s.dir));
      if s.index == 0 {
        ExceptRuleAgree(s);
      } else {
        NoSetAgrees();
      }
    } else {
      hide PrefixElems, Prefixes;
      SameFlagsAgree(Meaning(a, FILTER, s).elems);
    }
  }

  lemma NoSetAgrees()
    ensures Agree(NO_SET, NO_SET)
  {
    SameFlagsAgree(NO_SET.elems);
  }

  lemma ExceptRuleAgree(s: SetId)
    requires RuleOwned(s) && RuleOk(BLOCK) && RuleOk(SPARED)
    ensures Agree(RuleSet(Only([NET1], BLOCK), Policy(BLOCK), BLOCK, s),
                  RuleSet(Only([NET1], SPARED), Policy(SPARED), SPARED, s))
  {
    hide PrefixElems, Encode, ProtoRanges, SelectorAddrs;
    var a, b := Only([NET1], BLOCK), Only([NET1], SPARED);
    var x, y := RuleSet(a, Policy(BLOCK), BLOCK, s), RuleSet(b, Policy(SPARED), SPARED, s);
    if s.ExceptSet? {
      assert Prefixes([]) == [];
      NoPrefixSet(s.v6);
      NoneAgree(y.elems);
    } else if s.SelectorSet? {
      PlainFlagsAgree(x.elems, y.elems);
    } else {
      SameFlagsAgree(x.elems);
    }
  }

  lemma NoneAgree(es: set<Elem>)
    ensures FlagsAgree({}, es)
  {
  }

  lemma NoPrefixSet(v6: bool)
    ensures Elems(PrefixElems([], v6)) == {}
  {
  }

  /** The accept rule is known by its CIDR alone and stays in front. */
  lemma ExceptShape(rs: Ruleset)
    requires Sound(rs) && Fit(Only([NET1], SPARED)) && RuleOk(BLOCK) && RuleOk(SPARED)
    requires ShapeAt(rs, FILTER, PeersChain(Ingress, KEY, 0)) == [BlockRule(Ingress, KEY, 0, 0, ZERO.prefix)]
    ensures ShapeAt(PassOf(rs, Only([NET1], SPARED)), FILTER, PeersChain(Ingress, KEY, 0)) ==
            [BlockRule(Ingress, KEY, 0, 0, ZERO.prefix), ExceptRule(Ingress, KEY, 0, 0, ZERO.prefix)]
  {
    hide PassLog, InputOk, DistinctPolicies, Selected, Sound, WellFormed, SupportedFilter, SoundDir, EntryOk, RuleOk,
         Stage, BlockRule, ExceptRule, Proj, Keep, NewApp, AllAdds, NoForce, CanonicalLog, M.PeersRules;
    var inp, c := Only([NET1], SPARED), PeersChain(Ingress, KEY, 0);
    var w, q := PassLog(rs, inp), Proj(PassLog(rs, inp), FILTER, c);
    EntryOf(rs, Ingress);
    PeersReqsAre(rs, inp, Ingress, 0, 0);
    ExceptRules(inp);
    AddsAfter(rs, w, c);
    ExceptNotBlock();
    ExceptParts(q, ExceptRule(Ingress, KEY, 0, 0, ZERO.prefix), BlockRule(Ingress, KEY, 0, 0, ZERO.prefix));
  }

  lemma ExceptParts(q: seq<Req>, e: Rule, r: Rule)
    requires AllAdds(q) && NoForce(q) && Wants(q) == [e, r] && e != r
    ensures AllRules(q) && Keep([r], q) == [r] && NewApp(q, [r]) == [e]
  {
    hide KeyOf, NewApp, Keep;
    assert |Wants(q)| == 2 && q[0].rule == e && q[1].rule == r;
    assert q[1] in q && Wanted(r, q);
    KeepAll([r], q);
    assert q == [q[0]] + [q[1]];
    NewAppConcat([q[0]], [q[1]], [r]);
    NewOne(q[0], [r]);
    NewOne(q[1], [r]);
  }

  lemma ExceptNotBlock()
    ensures ExceptRule(Ingress, KEY, 0, 0, ZERO.prefix) != BlockRule(Ingress, KEY, 0, 0, ZERO.prefix)
  {
    LookupsAre(Ingress, KEY, 0, 0, ZERO.prefix, false, "");
    hide BlockRule, ExceptRule;
  }

  lemma ExceptHeld(t: Table)
    requires Shape(Chain(t, PeersChain(Ingress, KEY, 0))) ==
             [BlockRule(Ingress, KEY, 0, 0, ZERO.prefix), ExceptRule(Ingress, KEY, 0, 0, ZERO.prefix)]
    requires InSet(t, BlockSet(Ingress, KEY, 0, 0, false), Num(0)) && RuleOk(SPARED)
    ensures RuleHeld(t, Ingress, KEY, 0, SPARED, FROM_ZERO) == Allow
  {
    hide BlockRule, ExceptRule, InSet, Shape, M.ActsAs;
    M.PeerRulesActAs(t, FROM_ZERO, Ingress, KEY, 0, 0, ZERO.prefix, false, "");
    M.ActsOnce(t, FROM_ZERO, BlockRule(Ingress, KEY, 0, 0, ZERO.prefix), Hit);
    assert NoRanges(SPARED.ports);
  }

  lemma BlockSetHolds(rs: Ruleset)
    requires Sound(rs) && Fit(Only([NET1], SPARED)) && RuleOk(SPARED) && RuleOk(BLOCK)
    requires SetsReady(rs, Only([NET1], SPARED))
    ensures InSet(Tab(PassOf(rs, Only([NET1], SPARED)), FILTER), BlockSet(Ingress, KEY, 0, 0, false), Num(0))
  {
    hide PassOf, InputOk, DistinctPolicies, Selected, Sound, WellFormed, SupportedFilter, SoundDir, EntryOk, SetsReady,
         SetsServe, PrefixElems, InSet, Top, RuleOk;
    var inp := Only([NET1], SPARED);
    EntryOf(rs, Ingress);
    ReadyServes(rs, inp, Ingress, FROM_ZERO);
    assert RulesFor(PoliciesFor(inp, Ingress)[0], Ingress)[0] == SPARED;
    BlockSetArrives(rs, inp, Ingress, 0, 0, 0, FROM_ZERO);
    SmallValid(FROM_ZERO);
    M.OnePrefix(Tab(PassOf(rs, inp), FILTER), BlockSet(Ingress, KEY, 0, 0, false), ZERO.prefix, 0);
    assert Contains(ZERO.prefix, 0);
  }

  /** Two passes from empty tables with an IP block that is excepted from the second
      on: the inputs are compatible, the packet may not pass and is admitted. */
  lemma FirstExceptIgnored(m: Mark)
    ensures var a, b := Only([NET1], BLOCK), Only([NET1], SPARED);
            && Fit(a) && Fit(b) && Compatible(a, b) && ValidPacket(FROM_ZERO)
            && !MayPass(b, Ingress, FROM_ZERO)
            && Admits(Tab(PassOf(PassOf(NOTHING, a), b), FILTER), FROM_ZERO, InputHook, m)
  {
    hide PassOf, InputOk, DistinctPolicies, Selected, Sound, MayPass, Admits, Concerns, InSet, Shape, RuleOk,
         DecideRule, Top, OnPod, CommonAccepts, RuleHeld, FlagsKept, GainsNothing, SetsReady, SetsSettled, BlockRule,
         ExceptRule, EmptyFilter, WellFormed;
    var a, b := Only([NET1], BLOCK), Only([NET1], SPARED);
    ExceptMeans();
    SmallValid(FROM_ZERO);
    OnlyFits([NET1], BLOCK);
    OnlyFits([NET1], SPARED);
    OnlyMeaning([NET1], SPARED, FROM_ZERO);
    ExceptFlags();
    var rs := PassOf(NOTHING, a);
    FirstSound(a);
    FirstSettled(a);
    ReadyFrom(rs, a, b);
    BlockSetHolds(rs);
    FirstPeers();
    ExceptShape(rs);
    ExceptHeld(Tab(PassOf(rs, b), FILTER));
    OnlyAdmits([NET1], BLOCK, SPARED, FROM_ZERO, m);
  }

  lemma FirstPeers()
    requires Fit(Only([NET1], BLOCK)) && RuleOk(BLOCK) && RuleOk(SPARED)
    ensures ShapeAt(PassOf(NOTHING, Only([NET1], BLOCK)), FILTER, PeersChain(Ingress, KEY, 0)) ==
            [BlockRule(Ingress, KEY, 0, 0, ZERO.prefix)]
  {
    hide PassReqs, Force, Yields, M.PeersRules, M.PortsRules, EmptyFilter, InputOk, DistinctPolicies, Selected, RuleOk,
         BlockRule, ExceptRule, Stage, Sound, WellFormed;
    var inp := Only([NET1], BLOCK);
    var fi, fe := Force(NOTHING, inp, Ingress), Force(NOTHING, inp, Egress);
    NothingOk();
    PassCanonical(inp, fi, fe);
    assert RulesFor(PoliciesFor(inp, Ingress)[0], Ingress)[0] == BLOCK;
    RuleTargets(inp, fi, fe, Ingress, 0, 0);
    FreshAdds(NOTHING, PassLog(NOTHING, inp), PeersChain(Ingress, KEY, 0),
              M.PeersRules(inp, ["n"], Ingress, KEY, 0, BLOCK.peers));
    ExceptRules(inp);
  }
}
