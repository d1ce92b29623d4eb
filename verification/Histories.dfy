/** Runs of complete passes from empty tables in which no surviving policy gains an
    interface and no interval flag changes: incremental reconciliation gives the
    verdicts of a fresh compile. */
module Histories {
  import opened Ids
  import opened Marks
  import opened Machine
  import opened Identity
  import opened Intervals
  import opened Elements
  import opened Kernel
  import opened Reconcile
  import opened Flush
  import opened Cleanup
  import opened Policies
  import opened Compile
  import opened Requests
  import opened Layout
  import opened SetLayout
  import opened Exact
  import opened Passes
  import opened Walks
  import opened Targets
  import opened States
  import opened Results
  import opened Correct
  import opened Entry
  import opened Runs
  import opened Blocks
  import opened Incremental
  import M = Meanings

  // ------------------------------------------------------- counters and walks

  lemma {:induction false} SameRun(a: Table, b: Table, p: Packet, es: seq<Expr>, st: Mach)
    requires a.sets == b.sets
    ensures Machine.Run(a, p, es, st) == Machine.Run(b, p, es, st)
  {
    if es != [] {
      assert Machine.Step(a, p, es[0], st) == Machine.Step(b, p, es[0], st);
      SameRun(a, b, p, es[1..], Machine.Step(a, p, es[0], st));
    }
  }

  lemma SameRules(a: Table, b: Table, c: ChainId)
    requires SameTable(a, b)
    ensures |Rules(a, c)| == |Rules(b, c)|
    ensures forall i :: 0 <= i < |Rules(a, c)| ==> Bare(Rules(a, c)[i].exprs) == Bare(Rules(b, c)[i].exprs)
  {
    if c in a.chains {
      var x, y := a.chains[c], b.chains[c];
      assert SameChain(x, y);
      forall i | 0 <= i < |x| ensures Bare(x[i].rule.exprs) == Bare(y[i].rule.exprs) {
        BareZeroed(x[i].rule.exprs, Strip(x[i].rule).exprs);
        BareZeroed(y[i].rule.exprs, Strip(y[i].rule).exprs);
      }
    }
  }

  lemma {:induction false} SameWalk(a: Table, b: Table, p: Packet, x: seq<Rule>, y: seq<Rule>, m: Mark, depth: nat)
    requires SameTable(a, b)
    requires |x| == |y| && forall i :: 0 <= i < |x| ==> Bare(x[i].exprs) == Bare(y[i].exprs)
    ensures Walk(a, p, x, m, depth) == Walk(b, p, y, m, depth)
    decreases depth, |x|
  {
    hide Bare, Rules, Machine.Run;
    if x != [] {
      var st := Running(Num(0), m);
      BareRun(a, p, x[0].exprs, st);
      BareRun(b, p, y[0].exprs, st);
      SameRun(a, b, p, Bare(x[0].exprs), st);
      var e := Exec(a, p, x[0], m);
      assert e == Exec(b, p, y[0], m);
      forall m' ensures Walk(a, p, x[1..], m', depth) == Walk(b, p, y[1..], m', depth) {
        SameWalk(a, b, p, x[1..], y[1..], m', depth);
      }
      if e.Decided? && (e.verdict.Jump? || e.verdict.Goto?) && depth > 0 {
        SameRules(a, b, e.verdict.target);
        SameWalk(a, b, p, Rules(a, e.verdict.target), Rules(b, e.verdict.target), e.mark, depth - 1);
      }
    }
  }

  /** Traffic moves counters and changes no verdict. */
  lemma TickedAdmits(a: Ruleset, b: Ruleset, t: TableId, p: Packet, h: Hook, m: Mark)
    requires Ticked(a, b) && Managed(t)
    ensures Admits(Tab(a, t), p, h, m) <==> Admits(Tab(b, t), p, h, m)
  {
    if t in a {
      SameRules(a[t], b[t], BaseChain(h));
      SameWalk(a[t], b[t], p, Rules(a[t], BaseChain(h)), Rules(b[t], BaseChain(h)), m, JUMP_STACK);
    }
  }

  // -------------------------------------------------------- what may change

  predicate SameTag(i: Iface, j: Iface) {
    i.netattach == j.netattach && i.name == j.name && i.cni == j.cni
  }

  /** The new form q of policy p asks for no interface jump that p did not. */
  ghost predicate KeepsIfaces(a: Input, b: Input, p: PolicySpec, q: PolicySpec) {
    forall i :: i in OnNetworks(b.ifs, q.nets) ==> exists j :: j in OnNetworks(a.ifs, p.nets) && SameTag(i, j)
  }

  /** No surviving policy gains an interface. */
  ghost predicate GainsNothing(a: Input, b: Input) {
    forall d: Dir, p, q :: p in PoliciesFor(a, d) && q in PoliciesFor(b, d) && p.key == q.key ==>
      KeepsIfaces(a, b, p, q)
  }

  /** A pass with the input asks for the set. */
  ghost predicate Asked(inp: Input, s: SetId)
    requires InputOk(inp)
  {
    HasSet(PassReqs(inp, false, false), FILTER, s)
  }

  ghost predicate Agree(x: SetObj, y: SetObj) {
    x.interval == y.interval && FlagsAgree(x.elems, y.elems)
  }

  /** No set that both inputs ask for changes its kind, and no key in both forms
      of a set changes its interval flag. */
  ghost predicate FlagsKept(a: Input, b: Input)
    requires InputOk(a) && InputOk(b)
  {
    forall s :: Asked(a, s) && Asked(b, s) ==> Agree(Meaning(a, FILTER, s), Meaning(b, FILTER, s))
  }

  /** Two inputs that may follow each other.  Policies come, go and change their
      rules and networks, and configuration, cluster view, addresses and order
      change, as long as no interval flag changes and no interface is gained. */
  ghost predicate Compatible(a: Input, b: Input)
    requires InputOk(a) && InputOk(b)
  {
    FlagsKept(a, b) && GainsNothing(a, b)
  }

  // --------------------------------------------------------------- the sets

  predicate Owned(inp: Input, s: SetId) {
    RuleOwned(s) ==> PolicyAt(PoliciesFor(inp, s.dir), s.key) < |PoliciesFor(inp, s.dir)|
  }

  ghost predicate AllOwned(log: seq<Req>, inp: Input) {
    forall i :: 0 <= i < |log| && log[i].SetReq? ==> Owned(inp, log[i].s)
  }

  lemma OwnedJoin(a: seq<Req>, b: seq<Req>, inp: Input)
    requires AllOwned(a, inp) && AllOwned(b, inp)
    ensures AllOwned(a + b, inp)
  {
    hide Owned;
  }

  lemma {:induction false} PolicyListOwned(inp: Input, d: Dir, n: nat)
    requires InputOk(inp) && DistinctKeys(PoliciesFor(inp, d)) && n <= |PoliciesFor(inp, d)|
    ensures PoliciesOk(PoliciesFor(inp, d)[..n], d) && AllOwned(PolicyListReqs(inp, PoliciesFor(inp, d)[..n], d), inp)
  {
    hide PolicyReqs, PolicySet;
    if n > 0 {
      var ps := PoliciesFor(inp, d);
      PolicyListOwned(inp, d, n - 1);
      PolicyReqsMean(inp, ps[n - 1], d);
      PolicyAtFinds(ps, n - 1);
      assert AllOwned(PolicyReqs(inp, ps[n - 1], d), inp);
      assert ps[..n][..n - 1] == ps[..n - 1];
      OwnedJoin(PolicyListReqs(inp, ps[..n - 1], d), PolicyReqs(inp, ps[n - 1], d), inp);
    }
  }

  lemma DirOwned(inp: Input, d: Dir, force: bool)
    requires InputOk(inp) && DistinctKeys(PoliciesFor(inp, d))
    ensures AllOwned(DirReqs(inp, d, force), inp)
  {
    hide PolicyListReqs, DropRest;
    var ps := PoliciesFor(inp, d);
    PolicyListOwned(inp, d, |ps|);
    assert ps[..|ps|] == ps;
    OwnedJoin(PolicyListReqs(inp, ps, d), [RuleReq(DropRest(d), false, force)], inp);
  }

  lemma CommonOwned(inp: Input)
    requires ConfigOk(inp.cfg)
    ensures AllOwned(CommonReqs(inp.cfg), inp) && AllOwned(BootReqs(inp.ifs), inp)
  {
    hide Icmp, Ndp, ConntrackRule, CommonPrefix, PrefixElems, InterfaceFilter, CommonJump, IfaceElems, NAT_FILTER,
         NDP_ELEMS;
    var cfg := inp.cfg;
    var a :=
      if cfg.icmp6 then [Add(Icmp(Ingress, true)), Add(Icmp(Egress, true))] else NdpReqs(Ingress) + NdpReqs(Egress);
    var b := if cfg.icmp then [Add(Icmp(Ingress, false)), Add(Icmp(Egress, false))] else [];
    var c, e := PrefixReqs(Ingress, Prefixes(cfg.src)), PrefixReqs(Egress, Prefixes(cfg.dst));
    OwnedJoin(NdpReqs(Ingress), NdpReqs(Egress), inp);
    OwnedJoin(PrefixFamilyReqs(Ingress, Prefixes(cfg.src), false), PrefixFamilyReqs(Ingress, Prefixes(cfg.src), true),
              inp);
    OwnedJoin(PrefixFamilyReqs(Egress, Prefixes(cfg.dst), false), PrefixFamilyReqs(Egress, Prefixes(cfg.dst), true),
              inp);
    OwnedJoin(a, b, inp);
    OwnedJoin(a + b, c, inp);
    OwnedJoin(a + b + c, e, inp);
    OwnedJoin(a + b + c + e, [Add(ConntrackRule(Ingress)), Add(ConntrackRule(Egress))], inp);
    OwnedJoin(BOOT_CHAINS, BootRules(inp.ifs), inp);
  }

  /** Every policy set a pass asks for belongs to a policy of its input. */
  lemma SetOwner(rs: Ruleset, inp: Input, s: SetId)
    requires InputOk(inp) && DistinctPolicies(inp) && HasSet(PassLog(rs, inp), FILTER, s)
    ensures Owned(inp, s)
  {
    hide BootReqs, CommonReqs, DirReqs, Force, Owned;
    var fi, fe := Force(rs, inp, Ingress), Force(rs, inp, Egress);
    var a, b, x, y := BootReqs(inp.ifs), CommonReqs(inp.cfg), DirReqs(inp, Ingress, fi), DirReqs(inp, Egress, fe);
    CommonOwned(inp);
    DirOwned(inp, Ingress, fi);
    DirOwned(inp, Egress, fe);
    OwnedJoin(a, b, inp);
    OwnedJoin(a + b, x, inp);
    OwnedJoin(a + b + x, y, inp);
    var w := PassLog(rs, inp);
    assert AllOwned(w, inp);
    hide PassLog;
    var q :| q in w && q.SetReq? && q.t == FILTER && q.s == s;
    var i :| 0 <= i < |w| && w[i] == q;
  }

  lemma AskedLog(rs: Ruleset, inp: Input, s: SetId)
    requires InputOk(inp)
    ensures HasSet(PassLog(rs, inp), FILTER, s) <==> Asked(inp, s)
  {
    hide PassReqs, Force, InputOk;
    PassLogSame(rs, inp);
    SameSets(PassReqs(inp, false, false), PassLog(rs, inp), s);
  }

  lemma SameSets(a: seq<Req>, b: seq<Req>, s: SetId)
    requires SameReqs(a, b)
    ensures HasSet(a, FILTER, s) <==> HasSet(b, FILTER, s)
  {
    if q :| q in a && q.SetReq? && q.t == FILTER && q.s == s {
      var i :| 0 <= i < |a| && a[i] == q;
      assert SameReq(a[i], b[i]) && b[i] in b;
    }
    if q :| q in b && q.SetReq? && q.t == FILTER && q.s == s {
      var i :| 0 <= i < |b| && b[i] == q;
      assert SameReq(a[i], b[i]) && a[i] in a;
    }
  }

  lemma RuleSetsAgree(a: Input, b: Input, p: PolicySpec, q: PolicySpec, r: RuleSpec, s: SetId)
    requires RuleOk(r) && RuleOwned(s)
    ensures Agree(RuleSet(a, p, r, s), RuleSet(b, q, r, s))
  {
    hide Encode, ProtoRanges, PrefixElems, Prefixes, SelectorAddrs;
    var x, y := RuleSet(a, p, r, s), RuleSet(b, q, r, s);
    if s.SelectorSet? {
      PlainFlagsAgree(x.elems, y.elems);
    } else {
      SameFlagsAgree(x.elems);
    }
  }

  lemma PolicySetsAgree(a: Input, b: Input, d: Dir, p: PolicySpec, q: PolicySpec, s: SetId)
    requires RulesOk(RulesFor(p, d)) && RulesFor(p, d) == RulesFor(q, d) && RuleOwned(s)
    ensures Agree(PolicySet(a, p, d, s), PolicySet(b, q, d, s))
  {
    hide RuleSet, RuleOk;
    if s.index < |RulesFor(p, d)| {
      RuleSetsAgree(a, b, p, q, RulesFor(p, d)[s.index], s);
    } else {
      SameFlagsAgree({});
    }
  }

  /** The plainest compatible change: whole policies come and go, the cluster view
      and addresses change, and what survives is the same policy as before. */
  ghost predicate WholePolicies(a: Input, b: Input) {
    && a.cfg == b.cfg && GainsNothing(a, b)
    && forall d: Dir, p, q :: p in PoliciesFor(a, d) && q in PoliciesFor(b, d) && p.key == q.key ==>
       RulesFor(p, d) == RulesFor(q, d)
  }

  /** A surviving policy may name other networks. */
  lemma SameRulesAgree(a: Input, b: Input, s: SetId)
    requires InputOk(a) && InputOk(b) && a.cfg == b.cfg && Owned(a, s) && Owned(b, s)
    requires forall d: Dir, p, q :: p in PoliciesFor(a, d) && q in PoliciesFor(b, d) && p.key == q.key ==>
               RulesFor(p, d) == RulesFor(q, d)
    ensures Agree(Meaning(a, FILTER, s), Meaning(b, FILTER, s))
  {
    if RuleOwned(s) {
      hide PolicySet, RulesOk;
      var d := s.dir;
      var p, q := PoliciesFor(a, d)[PolicyAt(PoliciesFor(a, d), s.key)],
                  PoliciesFor(b, d)[PolicyAt(PoliciesFor(b, d), s.key)];
      assert p in PoliciesFor(a, d) && q in PoliciesFor(b, d) && p.key == q.key;
      PolicySetsAgree(a, b, d, p, q, s);
    } else {
      hide PrefixElems, Prefixes;
      var x, y := Meaning(a, FILTER, s), Meaning(b, FILTER, s);
      if s.PodInterfaces? {
        PlainFlagsAgree(x.elems, y.elems);
      } else {
        SameFlagsAgree(x.elems);
      }
    }
  }

  lemma SameRulesKeepFlags(a: Input, b: Input)
    requires InputOk(a) && InputOk(b) && DistinctPolicies(a) && DistinctPolicies(b) && a.cfg == b.cfg
    requires forall d: Dir, p, q :: p in PoliciesFor(a, d) && q in PoliciesFor(b, d) && p.key == q.key ==>
               RulesFor(p, d) == RulesFor(q, d)
    ensures FlagsKept(a, b)
  {
    hide PassReqs, InputOk, DistinctPolicies, Meaning, Owned, Agree;
    forall s | Asked(a, s) && Asked(b, s) ensures Agree(Meaning(a, FILTER, s), Meaning(b, FILTER, s)) {
      AskedLog(map[], a, s);
      AskedLog(map[], b, s);
      SetOwner(map[], a, s);
      SetOwner(map[], b, s);
      SameRulesAgree(a, b, s);
    }
  }

  lemma WholePoliciesCompatible(a: Input, b: Input)
    requires InputOk(a) && InputOk(b) && DistinctPolicies(a) && DistinctPolicies(b) && WholePolicies(a, b)
    ensures Compatible(a, b)
  {
    hide InputOk, DistinctPolicies, FlagsKept, GainsNothing;
    SameRulesKeepFlags(a, b);
  }

  /** Every set of the filter table holds its meaning for the input. */
  ghost predicate SetsSettled(rs: Ruleset, inp: Input)
    requires InputOk(inp)
  {
    forall s :: s in Tab(rs, FILTER).sets ==> SetSettled(Tab(rs, FILTER).sets[s], inp, s)
  }

  ghost predicate SetSettled(x: SetObj, inp: Input, s: SetId)
    requires InputOk(inp)
  {
    && Asked(inp, s) && !x.anonymous
    && x.interval == Meaning(inp, FILTER, s).interval && x.elems == Meaning(inp, FILTER, s).elems
  }

  ghost predicate NoneAnonymous(rs: Ruleset) {
    forall s :: s in Tab(rs, FILTER).sets ==> !Tab(rs, FILTER).sets[s].anonymous
  }

  lemma NamedMeaning(inp: Input, s: SetId)
    requires InputOk(inp)
    ensures !Meaning(inp, FILTER, s).anonymous
  {
    hide RulesOk, PrefixElems, Prefixes, Encode, ProtoRanges, SelectorAddrs;
  }

  lemma PassSettled(rs: Ruleset, inp: Input)
    requires WellFormed(rs) && InputOk(inp) && DistinctPolicies(inp) && SetsReady(rs, inp) && NoneAnonymous(rs)
    ensures SetsSettled(PassOf(rs, inp), inp)
  {
    hide PassLog, InputOk, DistinctPolicies, Meaning, Asked, Stage, SetsReady;
    forall s | s in Tab(PassOf(rs, inp), FILTER).sets ensures SetSettled(Tab(PassOf(rs, inp), FILTER).sets[s], inp, s) {
      PassSetKept(rs, inp, s);
      AskedLog(rs, inp, s);
      assert SetReady(rs, inp, s) by { ReadyOne(rs, inp, s); }
      SetArrives(rs, inp, s);
    }
  }

  lemma ReadyOne(rs: Ruleset, inp: Input, s: SetId)
    requires InputOk(inp) && SetsReady(rs, inp) && HasSet(PassLog(rs, inp), FILTER, s)
    ensures SetReady(rs, inp, s)
  {
    hide PassLog, SetReady;
  }

  /** Only requested sets are left, none of them anonymous. */
  lemma PassSetKept(rs: Ruleset, inp: Input, s: SetId)
    requires WellFormed(rs) && InputOk(inp) && DistinctPolicies(inp) && NoneAnonymous(rs)
    requires s in Tab(PassOf(rs, inp), FILTER).sets
    ensures HasSet(PassLog(rs, inp), FILTER, s) && !Tab(PassOf(rs, inp), FILTER).sets[s].anonymous
  {
    var fi, fe := Force(rs, inp, Ingress), Force(rs, inp, Egress);
    PassGood(inp, fi, fe);
    PassMeaning(inp, fi, fe, FILTER, s);
    NamedMeaning(inp, s);
    hide PassReqs, Force, Meaning, GoodReq, InputOk, DistinctPolicies, Stage, OpsFor, SetResult, HasSet;
    var w := PassLog(rs, inp);
    KeptSet(rs, w, s, Meaning(inp, FILTER, s));
  }

  lemma KeptSet(rs: Ruleset, w: seq<Req>, s: SetId, want: SetObj)
    requires TableReq(FILTER) in w && NoneAnonymous(rs) && !want.anonymous && s in Tab(Pass(rs, w), FILTER).sets
    requires forall q :: q in w && NamesSet(q, FILTER, s) ==> q.obj == want
    ensures HasSet(w, FILTER, s) && !Tab(Pass(rs, w), FILTER).sets[s].anonymous
  {
    hide Ops, Pass;
    SetsAfter(rs, w, FILTER);
    FlushSet(rs, w, FILTER, s, want);
    assert Stage(rs, w, 1) == ApplyAll(rs, Ops(w, rs));
    if (FILTER, s) in SetsOf(w) {
      var q :| q in w && q.SetReq? && q.t == FILTER && q.s == s;
    }
  }

  /** Once a pass with input a has left its sets, they can be brought to those of
      input b exactly if and only if flags are kept. */
  lemma ReadyExactly(rs: Ruleset, a: Input, b: Input)
    requires InputOk(a) && InputOk(b) && SetsSettled(rs, a) && forall s :: Asked(a, s) ==> s in Tab(rs, FILTER).sets
    ensures SetsReady(rs, b) <==> FlagsKept(a, b)
  {
    hide PassLog, InputOk, Meaning, Asked;
    forall s ensures HasSet(PassLog(rs, b), FILTER, s) <==> Asked(b, s) {
      AskedLog(rs, b, s);
    }
    forall s | s in Tab(rs, FILTER).sets
      ensures Asked(a, s) && (SetReady(rs, b, s) <==> Agree(Meaning(a, FILTER, s), Meaning(b, FILTER, s)))
    {
      assert SetSettled(Tab(rs, FILTER).sets[s], a, s);
    }
    if SetsReady(rs, b) {
      forall s | Asked(a, s) && Asked(b, s) ensures Agree(Meaning(a, FILTER, s), Meaning(b, FILTER, s)) {
        assert HasSet(PassLog(rs, b), FILTER, s) && SetReady(rs, b, s);
      }
    }
  }

  lemma PassAsked(rs: Ruleset, inp: Input, s: SetId)
    requires WellFormed(rs) && InputOk(inp) && Asked(inp, s)
    ensures s in Tab(PassOf(rs, inp), FILTER).sets
  {
    hide PassLog, InputOk, Asked, Stage, GoodPart;
    AskedLog(rs, inp, s);
    PassLogGood(rs, inp);
    PassLogTables(rs, inp);
    CleanupExact(rs, PassLog(rs, inp), FILTER);
  }

  /** So after a pass with input a the flag condition is exactly what the next pass
      needs for its sets. */
  lemma NextReadyExactly(rs: Ruleset, a: Input, b: Input)
    requires WellFormed(rs) && NoneAnonymous(rs) && InputOk(a) && DistinctPolicies(a) && SetsReady(rs, a) && InputOk(b)
    ensures SetsReady(PassOf(rs, a), b) <==> FlagsKept(a, b)
  {
    hide PassOf, InputOk, DistinctPolicies, SetsReady, FlagsKept, Asked, SetSettled, WellFormed, NoneAnonymous;
    PassSettled(rs, a);
    forall s | Asked(a, s) ensures s in Tab(PassOf(rs, a), FILTER).sets {
      PassAsked(rs, a, s);
    }
    ReadyExactly(PassOf(rs, a), a, b);
  }

  lemma PassLogTables(rs: Ruleset, inp: Input)
    requires InputOk(inp)
    ensures TableReq(FILTER) in PassLog(rs, inp)
  {
    hide PassReqs, Force, InputOk;
    PassGood(inp, Force(rs, inp, Ingress), Force(rs, inp, Egress));
  }

  lemma ReadyFrom(rs: Ruleset, a: Input, b: Input)
    requires InputOk(a) && InputOk(b) && FlagsKept(a, b) && SetsSettled(rs, a)
    ensures SetsReady(rs, b)
  {
    hide PassLog, InputOk, Meaning, Asked;
    forall s | HasSet(PassLog(rs, b), FILTER, s) ensures SetReady(rs, b, s) {
      AskedLog(rs, b, s);
      if s in Tab(rs, FILTER).sets {
        assert SetSettled(Tab(rs, FILTER).sets[s], a, s);
        assert Agree(Meaning(a, FILTER, s), Meaning(b, FILTER, s));
      }
    }
  }

  // -------------------------------------------------------- the entry chains

  /** The jumps and checks of an entry chain are the wanted ones. */
  ghost predicate EntryExact(rs: Ruleset, inp: Input, d: Dir) {
    forall r :: IsJump(d, r) || IsMark(d, r) ==> (r in ShapeAt(rs, FILTER, EntryChain(d)) <==> r in EntryWants(inp, d))
  }

  lemma PassEntryExact(rs: Ruleset, inp: Input, d: Dir)
    requires WellFormed(rs) && InputOk(inp) && SupportedFilter(rs)
    ensures EntryExact(PassOf(rs, inp), inp, d)
  {
    hide PassLog, InputOk, EntryWants, IsJump, IsMark, Stage, M.Matching;
    PassLogGood(rs, inp);
    PassLogWants(rs, inp, d);
    PassMatching(rs, PassLog(rs, inp), EntryChain(d));
    MatchingExact(ShapeAt(PassOf(rs, inp), FILTER, EntryChain(d)), inp, d);
  }

  lemma PassLogGood(rs: Ruleset, inp: Input)
    requires InputOk(inp)
    ensures GoodPart(PassLog(rs, inp), PassLog(rs, inp))
  {
    hide PassReqs, Force, GoodPart, InputOk;
    PassGood(inp, Force(rs, inp, Ingress), Force(rs, inp, Egress));
  }

  lemma MatchingExact(s: seq<Rule>, inp: Input, d: Dir)
    requires M.Matching(s, EntryWants(inp, d))
    ensures forall r :: IsJump(d, r) || IsMark(d, r) ==> (r in s <==> r in EntryWants(inp, d))
  {
    hide EntryWants, IsJump, IsMark, CommonJump, DropRest;
    var want := EntryWants(inp, d);
    forall r | IsJump(d, r) || IsMark(d, r) ensures r in s <==> r in want {
      if r in s {
        var i :| 0 <= i < |s| && s[i] == r;
        assert M.HasKey(want, s[i]);
        var j :| 0 <= j < |want| && KeyOf(want[j]) == KeyOf(r);
        EntrySort(inp, d, want[j]);
        SameNote(d, want[j], r);
      }
      if r in want {
        var i :| 0 <= i < |want| && want[i] == r;
      }
    }
  }

  lemma NoGainFrom(rs: Ruleset, a: Input, b: Input, d: Dir)
    requires DistinctPolicies(a) && EntryExact(rs, a, d) && GainsNothing(a, b)
    ensures NoGain(b, d, ShapeAt(rs, FILTER, EntryChain(d)))
  {
    hide EntryWants, IfaceJump, PolicyMark, OnNetworks;
    var s := ShapeAt(rs, FILTER, EntryChain(d));
    DistinctDir(a, d);
    forall q, i | q in PoliciesFor(b, d) && i in OnNetworks(b.ifs, q.nets) && PolicyMark(d, q.key) in s
      ensures IfaceJump(d, q.key, i) in s
    {
      assert IsMark(d, PolicyMark(d, q.key)) && IsJump(d, IfaceJump(d, q.key, i));
      MarkWanted(a, d, q.key);
      var p :| p in PoliciesFor(a, d) && p.key == q.key;
      assert KeepsIfaces(a, b, p, q);
      var j :| j in OnNetworks(a.ifs, p.nets) && SameTag(i, j);
      SameTagJump(d, q.key, i, j);
      JumpWanted(a, d, p, i);
    }
  }

  lemma SameTagJump(d: Dir, k: PolicyKey, i: Iface, j: Iface)
    requires SameTag(i, j)
    ensures IfaceJump(d, k, i) == IfaceJump(d, k, j)
  {
  }

  // ------------------------------------------------------------- histories

  /** Inputs as policy selection delivers them. */
  ghost predicate Fit(inp: Input) {
    InputOk(inp) && DistinctPolicies(inp) && Selected(inp)
  }

  /** Complete passes from empty tables, with traffic in between. */
  ghost predicate History(states: seq<Ruleset>, inps: seq<Input>) {
    && |states| == |inps| + 1
    && WellFormed(states[0]) && EmptyFilter(states[0])
    && (forall i :: 0 <= i < |inps| ==> Fit(inps[i]) && Ticked(PassOf(states[i], inps[i]), states[i + 1]))
    && (forall i :: 0 < i < |inps| ==> Compatible(inps[i - 1], inps[i]))
  }

  ghost predicate Steady(rs: Ruleset) {
    WellFormed(rs) && SupportedFilter(rs) && NoneAnonymous(rs) && Ordered(rs, Ingress) && Ordered(rs, Egress)
  }

  /** The input fits what is installed. */
  ghost predicate Follows(rs: Ruleset, inp: Input)
    requires InputOk(inp)
  {
    SetsReady(rs, inp) && forall d: Dir :: NoGain(inp, d, ShapeAt(rs, FILTER, EntryChain(d)))
  }

  lemma EmptySteady(rs: Ruleset, inp: Input)
    requires WellFormed(rs) && EmptyFilter(rs) && InputOk(inp)
    ensures Steady(rs) && Follows(rs, inp)
  {
    FreshSets(rs, inp);
    hide SetsReady, InputOk, IfaceJump, PolicyMark;
    forall d: Dir ensures Ordered(rs, d) {
      assert forall c :: ShapeAt(rs, FILTER, c) == [];
      assert DistinctBlocks([]) && HasBlocks(d, [], []);
      forall k ensures QuadChain(rs, d, k) {
        assert Quads(d, k, 0) == [];
      }
    }
  }

  lemma TickedSteady(a: Ruleset, b: Ruleset)
    requires Ticked(a, b) && Steady(a)
    ensures Steady(b) && Tab(a, FILTER).sets == Tab(b, FILTER).sets
  {
    assert WellFormed(b);
    hide Ticked, WellFormed, SupportedFilter;
    TickedShapes(a, b);
    TickedTables(a, b);
    forall d: Dir ensures Ordered(b, d) {
      assert d == Ingress || d == Egress;
      assert Ordered(a, d);
      forall k ensures QuadChain(b, d, k) {
        assert QuadChain(a, d, k);
      }
    }
  }

  lemma TickedShapes(a: Ruleset, b: Ruleset)
    requires Ticked(a, b)
    ensures forall c :: ShapeAt(a, FILTER, c) == ShapeAt(b, FILTER, c)
    ensures SupportedFilter(a) ==> SupportedFilter(b)
  {
    hide Ticked;
    forall c ensures ShapeAt(a, FILTER, c) == ShapeAt(b, FILTER, c) {
      TickedShape(a, b, FILTER, c);
    }
    if SupportedFilter(a) {
      forall c, x | x in ChainAt(b, FILTER, c) ensures SupportedRule(x.rule) {
        TickedShape(a, b, FILTER, c);
        ShapeSupported(ChainAt(a, FILTER, c));
        ShapeSupported(ChainAt(b, FILTER, c));
      }
    }
  }

  lemma TickedTables(a: Ruleset, b: Ruleset)
    requires Ticked(a, b)
    ensures Tab(a, FILTER).sets == Tab(b, FILTER).sets
  {
    if FILTER in a {
      assert SameTable(a[FILTER], b[FILTER]);
    }
  }

  /** A complete pass keeps the table steady and ready for a compatible input. */
  lemma PassSteady(rs: Ruleset, inp: Input)
    requires Steady(rs) && Fit(inp) && Follows(rs, inp)
    ensures Steady(PassOf(rs, inp)) && SetsSettled(PassOf(rs, inp), inp)
    ensures EntryExact(PassOf(rs, inp), inp, Ingress) && EntryExact(PassOf(rs, inp), inp, Egress)
  {
    PassCanonical(inp, Force(rs, inp, Ingress), Force(rs, inp, Egress));
    hide PassLog, InputOk, DistinctPolicies, SetsReady, Ordered, SupportedFilter, EntryExact, NoGain, Selected,
         CanonicalLog, WellFormed, Stage;
    StageOk(rs, PassLog(rs, inp), LAST_STAGE);
    StageSupported(rs, PassLog(rs, inp), LAST_STAGE);
    PassSettled(rs, inp);
    PassOrdered(rs, inp, Ingress);
    PassOrdered(rs, inp, Egress);
    PassEntryExact(rs, inp, Ingress);
    PassEntryExact(rs, inp, Egress);
  }

  lemma NextFollows(rs: Ruleset, st: Ruleset, a: Input, b: Input)
    requires InputOk(a) && DistinctPolicies(a) && InputOk(b) && DistinctPolicies(b) && Compatible(a, b)
    requires Ticked(rs, st) && SetsSettled(rs, a) && EntryExact(rs, a, Ingress) && EntryExact(rs, a, Egress)
    ensures Follows(st, b)
  {
    hide InputOk, DistinctPolicies, FlagsKept, GainsNothing, IsJump, IsMark, EntryWants, SetSettled, Stage, NoGain,
         SetsReady;
    TickedTables(rs, st);
    ReadyFrom(st, a, b);
    forall d: Dir ensures NoGain(b, d, ShapeAt(st, FILTER, EntryChain(d))) {
      TickedShape(rs, st, FILTER, EntryChain(d));
      assert d == Ingress || d == Egress;
      assert EntryExact(st, a, d);
      NoGainFrom(st, a, b, d);
    }
  }

  lemma {:induction false} HistorySteady(states: seq<Ruleset>, inps: seq<Input>, n: nat)
    requires History(states, inps) && n < |inps|
    ensures Steady(states[n]) && Follows(states[n], inps[n])
  {
    hide Steady, Follows, PassOf, InputOk, DistinctPolicies, Selected, Compatible, Ticked, WellFormed, EmptyFilter,
         SetsSettled, EntryExact;
    if n == 0 {
      EmptySteady(states[0], inps[0]);
    } else {
      HistorySteady(states, inps, n - 1);
      var st, a := PassOf(states[n - 1], inps[n - 1]), inps[n - 1];
      PassSteady(states[n - 1], a);
      TickedSteady(st, states[n]);
      NextFollows(st, states[n], a, inps[n]);
    }
  }

  /** Incremental equals fresh.  In every run of complete passes from empty tables
      whose consecutive inputs are compatible (policies come, go and change, but no
      survivor gains an interface and no interval flag changes), after each pass
      whose policies have no excepts every packet that the lists represent exactly
      and every mark lacking one of the two bits gets the verdict of the policies,
      and hence that of a compile of the same input on any empty tables. */
  lemma IncrementalEqualsFresh(states: seq<Ruleset>, inps: seq<Input>, n: nat, blank: Ruleset, d: Dir, pkt: Packet,
                               m: Mark)
    requires History(states, inps) && n < |inps| && WellFormed(blank) && EmptyFilter(blank)
    requires Fit(inps[n]) && InputExact(inps[n], d, pkt) && InputNoExcept(inps[n], d) && ValidPacket(pkt) && !Both(m)
    ensures Admits(Tab(states[n + 1], FILTER), pkt, HookOf(d), m) <==> MayPass(inps[n], d, pkt)
    ensures Admits(Tab(states[n + 1], FILTER), pkt, HookOf(d), m) <==>
            Admits(Tab(PassOf(blank, inps[n]), FILTER), pkt, HookOf(d), m)
  {
    hide PassOf, InputOk, DistinctPolicies, Selected, Compatible, Ticked, WellFormed, EmptyFilter, Ordered, SetsReady,
         SetsServe, NoGain, Admits, MayPass, InputNoExcept, InputExact, SupportedFilter, Both;
    HistorySteady(states, inps, n);
    CompilerCorrect(blank, inps[n], d, pkt, m);
    ReadyServes(states[n], inps[n], d, pkt);
    PassVerdict(states[n], inps[n], d, pkt, m);
    TickedAdmits(PassOf(states[n], inps[n]), states[n + 1], FILTER, pkt, HookOf(d), m);
  }
}
