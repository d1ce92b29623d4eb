/** The entry chains over arbitrary runs: the common jump first, the final drop
    last, whatever policies and interfaces come and go and wherever a pass is
    cut short. */
module Entry {
  import opened Ids
  import opened Machine
  import opened Identity
  import opened Kernel
  import opened Reconcile
  import opened Flush
  import opened Cleanup
  import opened Policies
  import opened Compile
  import opened Requests
  import opened Layout
  import opened SetLayout
  import opened Passes
  import opened Walks
  import opened Targets

  // ------------------------------------------------------------- the form

  ghost predicate IsJump(d: Dir, r: Rule) {
    exists k, i :: r == IfaceJump(d, k, i)
  }

  ghost predicate IsMark(d: Dir, r: Rule) {
    exists k :: r == PolicyMark(d, k)
  }

  /** Between the common jump and the drop stand interface jumps and mark checks,
      and the policy of every jump has its check. */
  ghost predicate Middle(d: Dir, mid: seq<Rule>) {
    && (forall i :: 0 <= i < |mid| ==> IsJump(d, mid[i]) || IsMark(d, mid[i]))
    && (forall k, i :: IfaceJump(d, k, i) in mid ==> PolicyMark(d, k) in mid)
  }

  function Form(d: Dir, mid: seq<Rule>, drop: bool): seq<Rule> {
    [CommonJump(d)] + mid + if drop then [DropRest(d)] else []
  }

  /** An entry chain is empty or has the common jump, a middle, and perhaps the drop. */
  ghost predicate EntryOk(d: Dir, s: seq<Rule>) {
    s == [] || exists mid, drop :: Middle(d, mid) && s == Form(d, mid, drop)
  }

  // ------------------------------------------- rules and keys of entry chains

  lemma EntryNotes(d: Dir, k: PolicyKey, i: Iface)
    ensures CommonJump(d).comment == CommonJumpNote(d) && DropRest(d).comment == DropNote
    ensures PolicyMark(d, k).comment == PolicyMarkNote(k)
    ensures IfaceJump(d, k, i).comment == InterfaceJumpNote(d, k, i.netattach, i.name, i.cni)
  {
  }

  lemma MiddleApart(d: Dir, mid: seq<Rule>)
    requires Middle(d, mid)
    ensures CommonJump(d) !in mid && DropRest(d) !in mid
  {
    hide CommonJump, DropRest, IfaceJump, PolicyMark;
    forall i | 0 <= i < |mid| ensures mid[i] != CommonJump(d) && mid[i] != DropRest(d) {
      assert IsJump(d, mid[i]) || IsMark(d, mid[i]);
      if k, f :| mid[i] == IfaceJump(d, k, f) {
        EntryNotes(d, k, f);
      } else {
        var k :| mid[i] == PolicyMark(d, k);
        EntryNotes(d, k, Iface("", "", "", []));
      }
    }
  }

  lemma FormMembers(d: Dir, mid: seq<Rule>, drop: bool, r: Rule)
    ensures r in Form(d, mid, drop) <==> r == CommonJump(d) || r in mid || (drop && r == DropRest(d))
  {
    hide CommonJump, DropRest;
  }

  // ------------------------------------------------- requests of entry chains

  /** Every policy of the input has an interface of the pod on its networks. */
  ghost predicate Selected(inp: Input) {
    forall d: Dir, p :: p in PoliciesFor(inp, d) ==> OnNetworks(inp.ifs, p.nets) != []
  }

  lemma {:induction false} JumpsMembers(d: Dir, k: PolicyKey, ifs: seq<Iface>, r: Rule)
    ensures r in Jumps(d, k, ifs) <==> exists i :: i in ifs && r == IfaceJump(d, k, i)
  {
    hide IfaceJump;
    if ifs != [] {
      var n := |ifs| - 1;
      JumpsMembers(d, k, ifs[..n], r);
      assert forall i :: i in ifs <==> i in ifs[..n] || i == ifs[n];
    }
  }

  lemma BlockMembers(d: Dir, k: PolicyKey, ifs: seq<Iface>, r: Rule)
    ensures r in BlockOf(d, k, ifs) <==> r == PolicyMark(d, k) || exists i :: i in ifs && r == IfaceJump(d, k, i)
  {
    hide IfaceJump, PolicyMark, Jumps;
    JumpsMembers(d, k, ifs, r);
  }

  lemma {:induction false} FlattenMembers(d: Dir, bs: seq<Block>, r: Rule)
    ensures r in Flatten(d, bs) <==> exists b :: b in bs && r in BlockOf(d, b.key, b.ifs)
  {
    hide BlockOf;
    if bs != [] {
      var n := |bs| - 1;
      FlattenMembers(d, bs[..n], r);
      assert forall b :: b in bs <==> b in bs[..n] || b == bs[n];
    }
  }

  lemma FlattenMiddle(d: Dir, bs: seq<Block>)
    ensures Middle(d, Flatten(d, bs))
  {
    hide IfaceJump, PolicyMark, Flatten, BlockOf;
    var mid := Flatten(d, bs);
    forall i | 0 <= i < |mid| ensures IsJump(d, mid[i]) || IsMark(d, mid[i]) {
      FlattenMembers(d, bs, mid[i]);
      var b :| b in bs && mid[i] in BlockOf(d, b.key, b.ifs);
      BlockMembers(d, b.key, b.ifs, mid[i]);
    }
    forall k, i | IfaceJump(d, k, i) in mid ensures PolicyMark(d, k) in mid {
      JumpHasBlock(d, bs, k, i);
      var b :| b in bs && b.key == k;
      BlockMembers(d, k, b.ifs, PolicyMark(d, k));
      FlattenMembers(d, bs, PolicyMark(d, k));
    }
  }

  lemma JumpHasBlock(d: Dir, bs: seq<Block>, k: PolicyKey, i: Iface)
    requires IfaceJump(d, k, i) in Flatten(d, bs)
    ensures exists b :: b in bs && b.key == k && IfaceJump(d, k, i) in Jumps(d, k, b.ifs)
  {
    hide IfaceJump, PolicyMark, Flatten, BlockOf, Jumps;
    FlattenMembers(d, bs, IfaceJump(d, k, i));
    var b :| b in bs && IfaceJump(d, k, i) in BlockOf(d, b.key, b.ifs);
    BlockMembers(d, b.key, b.ifs, IfaceJump(d, k, i));
    EntryNotes(d, k, i);
    EntryNotes(d, b.key, i);
    var j :| j in b.ifs && IfaceJump(d, k, i) == IfaceJump(d, b.key, j);
    EntryNotes(d, b.key, j);
    JumpsMembers(d, k, b.ifs, IfaceJump(d, k, i));
  }

  /** The rules a pass wants in an entry chain. */
  function EntryWants(inp: Input, d: Dir): seq<Rule> {
    Form(d, Flatten(d, BlocksFor(inp, PoliciesFor(inp, d))), PoliciesFor(inp, d) != [])
  }

  lemma EntryProjWants(inp: Input, fi: bool, fe: bool, d: Dir)
    requires InputOk(inp)
    ensures Wants(Proj(PassReqs(inp, fi, fe), FILTER, EntryChain(d))) == EntryWants(inp, d)
  {
    hide PassReqs, CommonJump, DropRest, EntryReqs, Flatten, InputOk, Proj;
    EntryLayout(inp, fi, fe, d);
    WantsEntry(inp, PoliciesFor(inp, d), d);
    var list, drop := EntryReqs(inp, PoliciesFor(inp, d), d), DropReqs(inp, d, if d.Ingress? then fi else fe);
    WantsConcat([Insert(CommonJump(d))] + list, drop);
    WantsConcat([Insert(CommonJump(d))], list);
    assert Wants([Insert(CommonJump(d))]) == [CommonJump(d)];
    assert Wants(drop) == if PoliciesFor(inp, d) == [] then [] else [DropRest(d)];
  }

  /** In an entry chain, a key is wanted exactly when the rule itself is. */
  lemma EntryWanted(inp: Input, d: Dir, p: seq<Req>, r: Rule)
    requires AllRules(p) && Wants(p) == EntryWants(inp, d)
    requires r == CommonJump(d) || r == DropRest(d) || IsJump(d, r) || IsMark(d, r)
    ensures Wanted(r, p) <==> r in EntryWants(inp, d)
  {
    hide CommonJump, DropRest, IfaceJump, PolicyMark, EntryWants;
    if r in EntryWants(inp, d) {
      var i :| 0 <= i < |p| && Wants(p)[i] == r;
      assert p[i] in p;
    }
    if q :| q in p && q.RuleReq? && KeyOf(q.rule) == KeyOf(r) {
      var i :| 0 <= i < |p| && p[i] == q;
      assert Wants(p)[i] == q.rule;
      EntrySort(inp, d, q.rule);
      SameNote(d, q.rule, r);
    }
  }

  lemma EntrySort(inp: Input, d: Dir, r: Rule)
    requires r in EntryWants(inp, d)
    ensures r == CommonJump(d) || r == DropRest(d) || IsJump(d, r) || IsMark(d, r)
  {
    hide CommonJump, DropRest, IfaceJump, PolicyMark, Flatten;
    var mid := Flatten(d, BlocksFor(inp, PoliciesFor(inp, d)));
    FlattenMiddle(d, BlocksFor(inp, PoliciesFor(inp, d)));
    FormMembers(d, mid, PoliciesFor(inp, d) != [], r);
    if r in mid {
      var i :| 0 <= i < |mid| && mid[i] == r;
    }
  }

  /** Rules of an entry chain with one comment are one rule. */
  lemma SameNote(d: Dir, a: Rule, b: Rule)
    requires a == CommonJump(d) || a == DropRest(d) || IsJump(d, a) || IsMark(d, a)
    requires b == CommonJump(d) || b == DropRest(d) || IsJump(d, b) || IsMark(d, b)
    requires a.comment == b.comment
    ensures a == b
  {
    if IsJump(d, a) {
      var k, i :| a == IfaceJump(d, k, i);
      if IsJump(d, b) {
        var k', i' :| b == IfaceJump(d, k', i');
      }
    } else if IsMark(d, a) {
      var k :| a == PolicyMark(d, k);
      if IsMark(d, b) {
        var k' :| b == PolicyMark(d, k');
      }
    }
  }

  // ------------------------------------------------------- the main flush

  /** Requests of the middle that are not installed yet, in order. */
  ghost function Added(inp: Input, d: Dir, s: seq<Rule>): seq<Rule> {
    NewApp(MiddleReqs(inp, d), s)
  }

  ghost function MiddleReqs(inp: Input, d: Dir): (p: seq<Req>)
    ensures AllRules(p)
  {
    WantsEntry(inp, PoliciesFor(inp, d), d);
    EntryReqs(inp, PoliciesFor(inp, d), d)
  }

  lemma AddedMembers(inp: Input, d: Dir, s: seq<Rule>, r: Rule)
    ensures r in Added(inp, d, s) <==> r in Flatten(d, BlocksFor(inp, PoliciesFor(inp, d))) && r !in s
  {
    hide Flatten, EntryReqs;
    var p := MiddleReqs(inp, d);
    WantsEntry(inp, PoliciesFor(inp, d), d);
    NoForceEntry(inp, PoliciesFor(inp, d), d);
    NewMembers(p, s, r);
    if r in Wants(p) {
      var i :| 0 <= i < |p| && Wants(p)[i] == r;
      assert p[i] in p;
    }
    if q :| q in p && q.rule == r {
      var i :| 0 <= i < |p| && p[i] == q;
      assert Wants(p)[i] == r;
    }
    forall q | q in p ensures !q.insert && !q.force {
      var i :| 0 <= i < |p| && p[i] == q;
    }
  }

  lemma {:induction false} NoForceEntry(inp: Input, ps: seq<PolicySpec>, d: Dir)
    ensures NoForce(EntryReqs(inp, ps, d))
  {
    hide IfaceReqs, PolicyMark, OnNetworks;
    if ps != [] {
      var p := ps[|ps| - 1];
      NoForceEntry(inp, ps[..|ps| - 1], d);
      NoForceIfaces(d, p.key, OnNetworks(inp.ifs, p.nets));
      NoForceJoin(IfaceReqs(d, p.key, OnNetworks(inp.ifs, p.nets)), [Add(PolicyMark(d, p.key))]);
      NoForceJoin(EntryReqs(inp, ps[..|ps| - 1], d), BlockReqsOf(inp, p, d));
    }
  }

  /** Whether anything is added that is not forced along: with an interface per
      policy, new rules always include a new interface jump. */
  lemma UnforcedAddsNothing(rs: Ruleset, inp: Input, d: Dir, mid: seq<Rule>, drop: bool)
    requires WellFormed(rs) && Selected(inp) && Middle(d, mid)
    requires ShapeAt(rs, FILTER, EntryChain(d)) == Form(d, mid, drop)
    requires !Force(rs, inp, d)
    ensures Added(inp, d, Form(d, mid, drop)) == []
  {
    hide Flatten, EntryReqs, IfaceJump, PolicyMark, Form, CommonJump, DropRest;
    var s, ps := Form(d, mid, drop), PoliciesFor(inp, d);
    if Added(inp, d, s) != [] {
      var r := Added(inp, d, s)[0];
      AddedMembers(inp, d, s, r);
      FlattenMembers(d, BlocksFor(inp, ps), r);
      var b :| b in BlocksFor(inp, ps) && r in BlockOf(d, b.key, b.ifs);
      var n :| 0 <= n < |ps| && BlocksFor(inp, ps)[n] == b;
      InstalledBlock(rs, inp, d, mid, drop, ps[n], r);
    }
  }

  /** When no jump is new, the whole block of a policy is installed. */
  lemma InstalledBlock(rs: Ruleset, inp: Input, d: Dir, mid: seq<Rule>, drop: bool, p: PolicySpec, r: Rule)
    requires WellFormed(rs) && Selected(inp) && Middle(d, mid)
    requires ShapeAt(rs, FILTER, EntryChain(d)) == Form(d, mid, drop)
    requires !Force(rs, inp, d) && p in PoliciesFor(inp, d) && r in BlockOf(d, p.key, OnNetworks(inp.ifs, p.nets))
    ensures r in Form(d, mid, drop)
  {
    hide Flatten, EntryReqs, Form, CommonJump, DropRest, BlockOf;
    var on := OnNetworks(inp.ifs, p.nets);
    forall i | i in on ensures IfaceJump(d, p.key, i) in mid {
      InstalledJump(rs, inp, d, p, i);
      FormMembers(d, mid, drop, IfaceJump(d, p.key, i));
      EntryNotes(d, p.key, i);
    }
    assert on[0] in on;
    BlockMembers(d, p.key, on, r);
    FormMembers(d, mid, drop, r);
  }

  lemma JumpCanonical(d: Dir, k: PolicyKey, i: Iface)
    ensures Canonical(IfaceJump(d, k, i))
  {
  }

  lemma InstalledJump(rs: Ruleset, inp: Input, d: Dir, p: PolicySpec, i: Iface)
    requires WellFormed(rs) && !Force(rs, inp, d) && p in PoliciesFor(inp, d) && i in OnNetworks(inp.ifs, p.nets)
    ensures IfaceJump(d, p.key, i) in ShapeAt(rs, FILTER, EntryChain(d))
  {
    assert !NewJump(rs, inp, d, p);
    JumpCanonical(d, p.key, i);
    ChainAtOk(rs, FILTER, EntryChain(d));
    FindShape(FILTER, EntryChain(d), ChainAt(rs, FILTER, EntryChain(d)), Tab(rs, FILTER).next, IfaceJump(d, p.key, i));
  }

  /** The main flush keeps the form: new middle rules go in front of the drop. */
  ghost predicate Flushed(inp: Input, d: Dir, s: seq<Rule>, s': seq<Rule>) {
    && (s == [] ==> s' == Form(d, Added(inp, d, []), PoliciesFor(inp, d) != []))
    && (forall mid, drop :: Middle(d, mid) && s == Form(d, mid, drop) ==>
          s' == Form(d, mid + Added(inp, d, s), drop || PoliciesFor(inp, d) != []))
  }

  lemma FlushEntry(rs: Ruleset, inp: Input, d: Dir)
    requires WellFormed(rs) && InputOk(inp) && Selected(inp) && EntryOk(d, ShapeAt(rs, FILTER, EntryChain(d)))
    ensures Flushed(inp, d, ShapeAt(rs, FILTER, EntryChain(d)), ShapeAt(PassStage(rs, inp, 1), FILTER, EntryChain(d)))
  {
    hide PassLog, Form, Added, Middle, CommonJump, DropRest, Stage;
    var s := ShapeAt(rs, FILTER, EntryChain(d));
    if s == [] {
      FlushEntryNew(rs, inp, d);
    }
    forall mid, drop | Middle(d, mid) && s == Form(d, mid, drop)
      ensures ShapeAt(PassStage(rs, inp, 1), FILTER, EntryChain(d)) ==
              Form(d, mid + Added(inp, d, s), drop || PoliciesFor(inp, d) != [])
    {
      if PoliciesFor(inp, d) == [] {
        FlushEntryIdle(rs, inp, d, mid, drop);
      } else if !drop {
        FlushEntryFirst(rs, inp, d, mid);
      } else {
        FlushEntryDrop(rs, inp, d, mid);
      }
    }
    assert s == [] ==> s != Form(d, [], false) by {
      assert |Form(d, [], false)| > 0 by { FormLength(d, [], false); }
    }
  }

  lemma FormLength(d: Dir, mid: seq<Rule>, drop: bool)
    ensures |Form(d, mid, drop)| == 1 + |mid| + if drop then 1 else 0
  {
  }

  // The request list of an entry chain: common jump, middle, drop.

  ghost function ChainReqs(inp: Input, d: Dir, force: bool): (p: seq<Req>)
    ensures AllRules(p)
  {
    [Insert(CommonJump(d))] + MiddleReqs(inp, d) + DropReqs(inp, d, force)
  }

  lemma ChainReqsAre(rs: Ruleset, inp: Input, d: Dir)
    requires InputOk(inp)
    ensures CanonicalLog(PassLog(rs, inp))
    ensures Proj(PassLog(rs, inp), FILTER, EntryChain(d)) == ChainReqs(inp, d, Force(rs, inp, d))
  {
    hide PassReqs, Force, InputOk, CommonJump, EntryReqs, DropReqs;
    EntryLayout(inp, Force(rs, inp, Ingress), Force(rs, inp, Egress), d);
    PassCanonical(inp, Force(rs, inp, Ingress), Force(rs, inp, Egress));
  }

  lemma NewIn(inp: Input, d: Dir, force: bool, s: seq<Rule>)
    ensures NewIns(ChainReqs(inp, d, force), s) == if CommonJump(d) in s then [] else [CommonJump(d)]
    ensures NewApp(ChainReqs(inp, d, force), s) ==
            Added(inp, d, s) + if PoliciesFor(inp, d) != [] && (force || DropRest(d) !in s) then [DropRest(d)] else []
  {
    var mid, drop := MiddleReqs(inp, d), DropReqs(inp, d, force);
    WantsEntry(inp, PoliciesFor(inp, d), d);
    assert AllAdds(mid) && AllAdds(drop);
    assert NewApp(drop, s) ==
           if PoliciesFor(inp, d) != [] && (force || DropRest(d) !in s) then [DropRest(d)] else [] by {
      hide DropRest;
      if PoliciesFor(inp, d) != [] {
        NewOne(drop[0], s);
      }
    }
    hide CommonJump, DropRest, MiddleReqs, DropReqs;
    NewParts(Insert(CommonJump(d)), mid, drop, s);
  }

  lemma NewParts(q: Req, mid: seq<Req>, drop: seq<Req>, s: seq<Rule>)
    requires q.RuleReq? && q.insert && !q.force && AllAdds(mid) && AllAdds(drop)
    ensures AllRules([q] + mid + drop) && AllRules(mid) && AllRules(drop)
    ensures NewIns([q] + mid + drop, s) == if q.rule in s then [] else [q.rule]
    ensures NewApp([q] + mid + drop, s) == NewApp(mid, s) + NewApp(drop, s)
  {
    hide NewIns, NewApp, IsNew;
    NewAppConcat([q] + mid, drop, s);
    NewAppConcat([q], mid, s);
    NewInsConcat([q] + mid, drop, s);
    NewInsConcat([q], mid, s);
    NoIns(mid, s);
    NoIns(drop, s);
    assert NewIns([q], s) == (if q.rule in s then [] else [q.rule]) && NewApp([q], s) == [] by {
      NewInsert(q, s);
    }
    assert [] + ([] + NewIns([q], s)) == NewIns([q], s);
    assert ([] + NewApp(mid, s)) + NewApp(drop, s) == NewApp(mid, s) + NewApp(drop, s);
  }

  lemma NewInsert(q: Req, s: seq<Rule>)
    requires q.RuleReq? && q.insert && !q.force
    ensures NewIns([q], s) == (if q.rule in s then [] else [q.rule]) && NewApp([q], s) == []
  {
    NewOne(q, s);
  }

  lemma NewOne(q: Req, s: seq<Rule>)
    requires q.RuleReq?
    ensures NewIns([q], s) == if q.insert && IsNew(q, s) then [q.rule] else []
    ensures NewApp([q], s) == if !q.insert && IsNew(q, s) then [q.rule] else []
  {
    assert [q][..0] == [];
  }

  lemma {:induction false} NewInsConcat(a: seq<Req>, b: seq<Req>, s: seq<Rule>)
    requires AllRules(a) && AllRules(b)
    ensures NewIns(a + b, s) == NewIns(b, s) + NewIns(a, s)
  {
    if b == [] {
      assert a + b == a && NewIns(b, s) == [];
      assert [] + NewIns(a, s) == NewIns(a, s);
    } else {
      var init, q := b[..|b| - 1], b[|b| - 1];
      NewInsConcat(a, init, s);
      NewInsNext(a, init, q, s);
      assert b == init + [q];
    }
  }

  lemma NewInsNext(a: seq<Req>, init: seq<Req>, q: Req, s: seq<Rule>)
    requires AllRules(a) && AllRules(init) && q.RuleReq? && NewIns(a + init, s) == NewIns(init, s) + NewIns(a, s)
    ensures NewIns(a + (init + [q]), s) == NewIns(init + [q], s) + NewIns(a, s)
  {
    hide NewIns, IsNew;
    var h := if q.insert && IsNew(q, s) then [q.rule] else [];
    NewInsSnoc(a + init, q, s);
    NewInsSnoc(init, q, s);
    assert a + (init + [q]) == (a + init) + [q];
    assert h + (NewIns(init, s) + NewIns(a, s)) == (h + NewIns(init, s)) + NewIns(a, s);
  }

  lemma NewInsSnoc(p: seq<Req>, q: Req, s: seq<Rule>)
    requires AllRules(p) && q.RuleReq?
    ensures NewIns(p + [q], s) == (if q.insert && IsNew(q, s) then [q.rule] else []) + NewIns(p, s)
  {
    assert (p + [q])[..|p|] == p;
  }

  lemma {:induction false} NoIns(p: seq<Req>, s: seq<Rule>)
    requires AllAdds(p)
    ensures AllRules(p) && NewIns(p, s) == []
  {
    if p != [] {
      NoIns(p[..|p| - 1], s);
    }
  }

  lemma ReqsUnforced(inp: Input, d: Dir, force: bool, s: seq<Rule>)
    requires PoliciesFor(inp, d) != [] && force ==> DropRest(d) !in s
    ensures Unforced(ChainReqs(inp, d, force), s)
  {
    hide CommonJump, DropRest, EntryReqs;
    NoForceEntry(inp, PoliciesFor(inp, d), d);
  }

  /** The flush of an entry chain when no forced update meets a drop. */
  lemma FlushUnforced(rs: Ruleset, inp: Input, d: Dir, s: seq<Rule>)
    requires WellFormed(rs) && InputOk(inp) && ShapeAt(rs, FILTER, EntryChain(d)) == s
    requires PoliciesFor(inp, d) != [] && Force(rs, inp, d) ==> DropRest(d) !in s
    ensures ShapeAt(PassStage(rs, inp, 1), FILTER, EntryChain(d)) ==
            (if CommonJump(d) in s then [] else [CommonJump(d)]) + s +
            (Added(inp, d, s) + if PoliciesFor(inp, d) != [] && DropRest(d) !in s then [DropRest(d)] else [])
  {
    hide CommonJump, DropRest, Force, PassLog, ChainReqs, Added, InputOk, NewIns, NewApp, Proj, Stage;
    ChainReqsAre(rs, inp, d);
    ReqsUnforced(inp, d, Force(rs, inp, d), s);
    NewIn(inp, d, Force(rs, inp, d), s);
    FlushPlain(rs, PassLog(rs, inp), FILTER, EntryChain(d));
  }

  lemma FlushEntryNew(rs: Ruleset, inp: Input, d: Dir)
    requires WellFormed(rs) && InputOk(inp) && ShapeAt(rs, FILTER, EntryChain(d)) == []
    ensures ShapeAt(PassStage(rs, inp, 1), FILTER, EntryChain(d)) ==
            Form(d, Added(inp, d, []), PoliciesFor(inp, d) != [])
  {
    hide CommonJump, DropRest, Force, PassStage, Added, InputOk;
    FlushUnforced(rs, inp, d, []);
  }

  lemma IdleAdds(inp: Input, d: Dir, s: seq<Rule>)
    requires PoliciesFor(inp, d) == []
    ensures Added(inp, d, s) == []
  {
  }

  lemma FlushEntryIdle(rs: Ruleset, inp: Input, d: Dir, mid: seq<Rule>, drop: bool)
    requires WellFormed(rs) && InputOk(inp) && PoliciesFor(inp, d) == []
    requires Middle(d, mid) && ShapeAt(rs, FILTER, EntryChain(d)) == Form(d, mid, drop)
    ensures ShapeAt(PassStage(rs, inp, 1), FILTER, EntryChain(d)) ==
            Form(d, mid + Added(inp, d, Form(d, mid, drop)), drop)
  {
    hide CommonJump, DropRest, Force, PassStage, Added, InputOk, Form, Middle;
    var s := Form(d, mid, drop);
    IdleAdds(inp, d, s);
    FormMembers(d, mid, drop, CommonJump(d));
    FlushUnforced(rs, inp, d, s);
    assert mid + [] == mid && [] + s + ([] + []) == s;
  }

  lemma FlushEntryFirst(rs: Ruleset, inp: Input, d: Dir, mid: seq<Rule>)
    requires WellFormed(rs) && InputOk(inp) && PoliciesFor(inp, d) != []
    requires Middle(d, mid) && ShapeAt(rs, FILTER, EntryChain(d)) == Form(d, mid, false)
    ensures ShapeAt(PassStage(rs, inp, 1), FILTER, EntryChain(d)) ==
            Form(d, mid + Added(inp, d, Form(d, mid, false)), true)
  {
    EntryNotes(d, PolicyKey("", ""), Iface("", "", "", []));
    hide CommonJump, DropRest, Force, PassStage, Added, InputOk, Form, Middle;
    var s := Form(d, mid, false);
    MiddleApart(d, mid);
    FormMembers(d, mid, false, CommonJump(d));
    FormMembers(d, mid, false, DropRest(d));
    FlushUnforced(rs, inp, d, s);
    FormGrows(d, mid, Added(inp, d, s));
  }

  lemma FormGrows(d: Dir, mid: seq<Rule>, a: seq<Rule>)
    ensures [] + Form(d, mid, false) + (a + [DropRest(d)]) == Form(d, mid + a, true)
    ensures [] + Form(d, mid, true) + ([] + []) == Form(d, mid + [], true)
    ensures [] + ([CommonJump(d)] + mid) + a + [DropRest(d)] == Form(d, mid + a, true)
  {
    hide CommonJump, DropRest;
    assert mid + [] == mid;
  }

  lemma FlushEntryDrop(rs: Ruleset, inp: Input, d: Dir, mid: seq<Rule>)
    requires WellFormed(rs) && InputOk(inp) && Selected(inp) && PoliciesFor(inp, d) != []
    requires Middle(d, mid) && ShapeAt(rs, FILTER, EntryChain(d)) == Form(d, mid, true)
    ensures ShapeAt(PassStage(rs, inp, 1), FILTER, EntryChain(d)) ==
            Form(d, mid + Added(inp, d, Form(d, mid, true)), true)
  {
    EntryNotes(d, PolicyKey("", ""), Iface("", "", "", []));
    hide CommonJump, DropRest, Force, PassStage, Added, InputOk, Form, Middle, Selected;
    var s := Form(d, mid, true);
    MiddleApart(d, mid);
    FormMembers(d, mid, true, CommonJump(d));
    FormMembers(d, mid, true, DropRest(d));
    if !Force(rs, inp, d) {
      UnforcedAddsNothing(rs, inp, d, mid, true);
      FlushUnforced(rs, inp, d, s);
      FormGrows(d, mid, []);
    } else {
      FlushEntryForced(rs, inp, d, mid);
    }
  }

  lemma FlushEntryForced(rs: Ruleset, inp: Input, d: Dir, mid: seq<Rule>)
    requires WellFormed(rs) && InputOk(inp) && PoliciesFor(inp, d) != [] && Force(rs, inp, d)
    requires CommonJump(d) != DropRest(d) && DropRest(d) !in mid
    requires ShapeAt(rs, FILTER, EntryChain(d)) == Form(d, mid, true)
    ensures ShapeAt(PassStage(rs, inp, 1), FILTER, EntryChain(d)) ==
            Form(d, mid + Added(inp, d, Form(d, mid, true)), true)
  {
    hide CommonJump, DropRest, Force, PassLog, Added, InputOk, NewIns, NewApp, Proj, MiddleReqs, Stage;
    var s, x := Form(d, mid, true), [CommonJump(d)] + mid;
    var p, q := [Insert(CommonJump(d))] + MiddleReqs(inp, d), RuleReq(DropRest(d), false, true);
    ChainReqsAre(rs, inp, d);
    assert s == x + [DropRest(d)] && DropRest(d) !in x;
    ForcedParts(inp, d, s);
    FlushForced(rs, PassLog(rs, inp), FILTER, EntryChain(d), p, q, x);
    FormGrows(d, mid, Added(inp, d, s));
  }

  lemma ForcedParts(inp: Input, d: Dir, s: seq<Rule>)
    requires CommonJump(d) in s
    ensures var p := [Insert(CommonJump(d))] + MiddleReqs(inp, d);
            AllRules(p) && Unforced(p, s) && NewIns(p, s) == [] && NewApp(p, s) == Added(inp, d, s)
  {
    hide CommonJump, EntryReqs;
    var mid := MiddleReqs(inp, d);
    WantsEntry(inp, PoliciesFor(inp, d), d);
    NoForceEntry(inp, PoliciesFor(inp, d), d);
    NewAppConcat([Insert(CommonJump(d))], mid, s);
    NewInsConcat([Insert(CommonJump(d))], mid, s);
    NoIns(mid, s);
    NewOne(Insert(CommonJump(d)), s);
  }
}
