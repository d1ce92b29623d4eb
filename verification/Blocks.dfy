/** Entry chains made of blocks, one per policy, and what a pass makes of them:
    surviving blocks stay where they are, new ones follow in list order. */
module Blocks {
  import opened Ids
  import opened Machine
  import opened Identity
  import opened Kernel
  import opened Reconcile
  import opened Flush
  import opened Cleanup
  import opened Policies
  import opened Compile
  import opened Requests
  import opened Layout
  import opened SetLayout
  import opened Passes
  import opened Walks
  import opened Targets
  import opened States
  import opened Entry
  import opened Runs

  ghost predicate DistinctBlocks(bs: seq<Block>) {
    forall i, j :: 0 <= i < j < |bs| ==> bs[i].key != bs[j].key
  }

  /** No policy whose mark check is installed asks for a jump that is not. */
  ghost predicate NoGain(inp: Input, d: Dir, s: seq<Rule>) {
    forall p, i :: p in PoliciesFor(inp, d) && i in OnNetworks(inp.ifs, p.nets) && PolicyMark(d, p.key) in s ==>
      IfaceJump(d, p.key, i) in s
  }

  // ------------------------------------------------------------- new blocks

  ghost function NewPolicies(ps: seq<PolicySpec>, d: Dir, s: seq<Rule>): seq<PolicySpec> {
    if ps == [] then []
    else NewPolicies(ps[..|ps| - 1], d, s) + if PolicyMark(d, ps[|ps| - 1].key) in s then [] else [ps[|ps| - 1]]
  }

  lemma {:induction false} NewPoliciesMembers(ps: seq<PolicySpec>, d: Dir, s: seq<Rule>, p: PolicySpec)
    ensures p in NewPolicies(ps, d, s) <==> p in ps && PolicyMark(d, p.key) !in s
  {
    hide PolicyMark;
    if ps != [] {
      NewPoliciesMembers(ps[..|ps| - 1], d, s, p);
    }
  }

  lemma {:induction false} NewPoliciesDistinct(ps: seq<PolicySpec>, d: Dir, s: seq<Rule>)
    requires DistinctKeys(ps)
    ensures DistinctKeys(NewPolicies(ps, d, s))
  {
    hide PolicyMark;
    if ps != [] {
      var n := |ps| - 1;
      NewPoliciesDistinct(ps[..n], d, s);
      var l := NewPolicies(ps[..n], d, s);
      forall i | 0 <= i < |l| ensures l[i].key != ps[n].key {
        NewPoliciesMembers(ps[..n], d, s, l[i]);
        var j :| 0 <= j < n && ps[..n][j] == l[i];
      }
    }
  }

  lemma {:induction false} AllNew(p: seq<Req>, s: seq<Rule>)
    requires AllAdds(p) && forall i :: 0 <= i < |p| ==> p[i].rule !in s
    ensures AllRules(p) && NewApp(p, s) == Wants(p)
  {
    if p != [] {
      var n := |p| - 1;
      AllNew(p[..n], s);
      assert Wants(p) == Wants(p[..n]) + [p[n].rule];
    }
  }

  lemma {:induction false} NoneNew(p: seq<Req>, s: seq<Rule>)
    requires AllAdds(p) && NoForce(p) && forall i :: 0 <= i < |p| ==> p[i].rule in s
    ensures AllRules(p) && NewApp(p, s) == []
  {
    if p != [] {
      NoneNew(p[..|p| - 1], s);
    }
  }

  /** The installed rules of a policy: all of its block, or nothing of it. */
  ghost predicate AllOrNothing(inp: Input, p: PolicySpec, d: Dir, s: seq<Rule>) {
    forall r :: r in BlockOf(d, p.key, OnNetworks(inp.ifs, p.nets)) ==> (r in s <==> PolicyMark(d, p.key) in s)
  }

  lemma NewBlock(inp: Input, p: PolicySpec, d: Dir, s: seq<Rule>)
    requires AllOrNothing(inp, p, d, s)
    ensures AllRules(BlockReqsOf(inp, p, d))
    ensures NewApp(BlockReqsOf(inp, p, d), s) ==
            if PolicyMark(d, p.key) in s then [] else BlockOf(d, p.key, OnNetworks(inp.ifs, p.nets))
  {
    hide PolicyMark, BlockOf, OnNetworks, NewApp;
    var q := BlockReqsOf(inp, p, d);
    WantsBlock(inp, p, d);
    NoForceBlock(inp, p, d);
    hide BlockReqsOf;
    forall i | 0 <= i < |q| ensures q[i].rule in s <==> PolicyMark(d, p.key) in s {
      assert Wants(q)[i] in BlockOf(d, p.key, OnNetworks(inp.ifs, p.nets));
    }
    if PolicyMark(d, p.key) in s {
      NoneNew(q, s);
    } else {
      AllNew(q, s);
    }
  }

  lemma NoForceBlock(inp: Input, p: PolicySpec, d: Dir)
    ensures NoForce(BlockReqsOf(inp, p, d))
  {
    hide IfaceReqs, PolicyMark, OnNetworks;
    NoForceIfaces(d, p.key, OnNetworks(inp.ifs, p.nets));
    NoForceJoin(IfaceReqs(d, p.key, OnNetworks(inp.ifs, p.nets)), [Add(PolicyMark(d, p.key))]);
  }

  lemma {:induction false} NewBlocks(inp: Input, ps: seq<PolicySpec>, d: Dir, s: seq<Rule>)
    requires forall i :: 0 <= i < |ps| ==> AllOrNothing(inp, ps[i], d, s)
    ensures AllRules(EntryReqs(inp, ps, d))
    ensures NewApp(EntryReqs(inp, ps, d), s) == Flatten(d, BlocksFor(inp, NewPolicies(ps, d, s)))
  {
    hide BlockReqsOf, BlockOf, OnNetworks, PolicyMark, AllOrNothing, NewApp, Flatten, BlocksFor;
    if ps == [] {
      NoneNew([], s);
      NoNewBlocks(inp, d);
    } else {
      var n := |ps| - 1;
      var l := NewPolicies(ps[..n], d, s);
      NewBlocks(inp, ps[..n], d, s);
      NewBlock(inp, ps[n], d, s);
      NewAppConcat(EntryReqs(inp, ps[..n], d), BlockReqsOf(inp, ps[n], d), s);
      if PolicyMark(d, ps[n].key) in s {
        assert NewPolicies(ps, d, s) == l;
      } else {
        FlattenSnoc(inp, l, ps[n], d);
      }
    }
  }

  lemma NoNewBlocks(inp: Input, d: Dir)
    ensures Flatten(d, BlocksFor(inp, [])) == []
  {
  }

  lemma FlattenSnoc(inp: Input, l: seq<PolicySpec>, p: PolicySpec, d: Dir)
    ensures Flatten(d, BlocksFor(inp, l + [p])) ==
            Flatten(d, BlocksFor(inp, l)) + BlockOf(d, p.key, OnNetworks(inp.ifs, p.nets))
  {
    hide BlockOf, OnNetworks;
    assert BlocksFor(inp, l + [p])[..|l|] == BlocksFor(inp, l);
  }

  lemma {:induction false} FlattenConcat(d: Dir, a: seq<Block>, b: seq<Block>)
    ensures Flatten(d, a + b) == Flatten(d, a) + Flatten(d, b)
  {
    hide BlockOf;
    if b == [] {
      assert a + b == a;
    } else {
      var n := |b| - 1;
      assert (a + b)[..|a| + n] == a + b[..n];
      FlattenConcat(d, a, b[..n]);
    }
  }

  // ------------------------------------------------------------ kept blocks

  ghost function KeptIfs(d: Dir, k: PolicyKey, ifs: seq<Iface>, want: seq<Rule>): seq<Iface> {
    if ifs == [] then []
    else
      KeptIfs(d, k, ifs[..|ifs| - 1], want) +
      if IfaceJump(d, k, ifs[|ifs| - 1]) in want then [ifs[|ifs| - 1]] else []
  }

  ghost function KeptBlocks(d: Dir, bs: seq<Block>, want: seq<Rule>): seq<Block> {
    if bs == [] then []
    else
      var b := bs[|bs| - 1];
      KeptBlocks(d, bs[..|bs| - 1], want) +
      if PolicyMark(d, b.key) in want then [Block(b.key, KeptIfs(d, b.key, b.ifs, want))] else []
  }

  lemma {:induction false} KeptIfsMembers(d: Dir, k: PolicyKey, ifs: seq<Iface>, want: seq<Rule>, i: Iface)
    ensures i in KeptIfs(d, k, ifs, want) <==> i in ifs && IfaceJump(d, k, i) in want
  {
    hide IfaceJump;
    if ifs != [] {
      KeptIfsMembers(d, k, ifs[..|ifs| - 1], want, i);
    }
  }

  ghost predicate KeptFrom(d: Dir, b: Block, bs: seq<Block>, want: seq<Rule>) {
    exists i :: 0 <= i < |bs| && PolicyMark(d, b.key) in want &&
      b == Block(bs[i].key, KeptIfs(d, bs[i].key, bs[i].ifs, want))
  }

  lemma {:induction false} KeptBlocksMembers(d: Dir, bs: seq<Block>, want: seq<Rule>, b: Block)
    ensures b in KeptBlocks(d, bs, want) <==> KeptFrom(d, b, bs, want)
  {
    hide PolicyMark, KeptIfs, KeptFrom;
    if bs == [] {
      KeptFromNone(d, b, want);
    } else {
      KeptBlocksMembers(d, bs[..|bs| - 1], want, b);
      KeptFromSnoc(d, b, bs, want);
    }
  }

  lemma KeptFromNone(d: Dir, b: Block, want: seq<Rule>)
    ensures !KeptFrom(d, b, [], want)
  {
  }

  lemma KeptFromSnoc(d: Dir, b: Block, bs: seq<Block>, want: seq<Rule>)
    requires bs != []
    ensures var x := bs[|bs| - 1];
            KeptFrom(d, b, bs, want) <==>
            KeptFrom(d, b, bs[..|bs| - 1], want) ||
              (PolicyMark(d, x.key) in want && b == Block(x.key, KeptIfs(d, x.key, x.ifs, want)))
  {
    hide PolicyMark, KeptIfs;
    var n := |bs| - 1;
    var init := bs[..n];
    if i :| 0 <= i < |init| && PolicyMark(d, b.key) in want &&
            b == Block(init[i].key, KeptIfs(d, init[i].key, init[i].ifs, want)) {
      assert bs[i] == init[i];
    }
    if i :| 0 <= i < |bs| && PolicyMark(d, b.key) in want &&
            b == Block(bs[i].key, KeptIfs(d, bs[i].key, bs[i].ifs, want)) {
      assert i < n ==> bs[i] == init[i];
    }
  }

  lemma {:induction false} KeptBlocksDistinct(d: Dir, bs: seq<Block>, want: seq<Rule>)
    requires DistinctBlocks(bs)
    ensures DistinctBlocks(KeptBlocks(d, bs, want))
  {
    hide IfaceJump, PolicyMark, KeptIfs;
    if bs != [] {
      var n := |bs| - 1;
      KeptBlocksDistinct(d, bs[..n], want);
      var l := KeptBlocks(d, bs[..n], want);
      forall i | 0 <= i < |l| ensures l[i].key != bs[n].key {
        KeptBlocksMembers(d, bs[..n], want, l[i]);
      }
    }
  }

  lemma JumpsSnoc(d: Dir, k: PolicyKey, l: seq<Iface>, i: Iface)
    ensures Jumps(d, k, l + [i]) == Jumps(d, k, l) + [IfaceJump(d, k, i)]
  {
    hide IfaceJump;
    assert (l + [i])[..|l|] == l;
  }

  lemma {:induction false} KeepJumps(d: Dir, k: PolicyKey, ifs: seq<Iface>, p: seq<Req>, inp: Input)
    requires AllRules(p) && Wants(p) == EntryWants(inp, d)
    ensures Keep(Jumps(d, k, ifs), p) == Jumps(d, k, KeptIfs(d, k, ifs, EntryWants(inp, d)))
  {
    hide IfaceJump, EntryWants, Wanted, Jumps, Keep;
    if ifs == [] {
      NoJumps(d, k);
      KeepNone([], p);
    } else {
      var n := |ifs| - 1;
      var l, i := KeptIfs(d, k, ifs[..n], EntryWants(inp, d)), ifs[n];
      KeepJumps(d, k, ifs[..n], p, inp);
      JumpsSnoc(d, k, ifs[..n], i);
      assert ifs[..n] + [i] == ifs;
      KeepConcat(Jumps(d, k, ifs[..n]), [IfaceJump(d, k, i)], p);
      KeepOne(IfaceJump(d, k, i), p);
      assert IsJump(d, IfaceJump(d, k, i));
      EntryWanted(inp, d, p, IfaceJump(d, k, i));
      JumpsSnoc(d, k, l, i);
      assert l + [] == l;
    }
  }

  /** Wanted jumps come with their wanted check. */
  lemma JumpWantsMark(inp: Input, d: Dir, k: PolicyKey, i: Iface)
    requires IfaceJump(d, k, i) in EntryWants(inp, d)
    ensures PolicyMark(d, k) in EntryWants(inp, d)
  {
    hide IfaceJump, PolicyMark, Flatten, CommonJump, DropRest;
    var ps := PoliciesFor(inp, d);
    var flat := Flatten(d, BlocksFor(inp, ps));
    FlattenMiddle(d, BlocksFor(inp, ps));
    FormMembers(d, flat, ps != [], IfaceJump(d, k, i));
    FormMembers(d, flat, ps != [], PolicyMark(d, k));
    EntryNotes(d, k, i);
  }

  lemma KeepBlock(d: Dir, b: Block, p: seq<Req>, inp: Input)
    requires AllRules(p) && Wants(p) == EntryWants(inp, d)
    ensures Keep(BlockOf(d, b.key, b.ifs), p) ==
            if PolicyMark(d, b.key) in EntryWants(inp, d)
            then BlockOf(d, b.key, KeptIfs(d, b.key, b.ifs, EntryWants(inp, d))) else []
  {
    hide PolicyMark, IfaceJump, EntryWants, Jumps, Wanted;
    var kept := KeptIfs(d, b.key, b.ifs, EntryWants(inp, d));
    KeepJumps(d, b.key, b.ifs, p, inp);
    KeepConcat(Jumps(d, b.key, b.ifs), [PolicyMark(d, b.key)], p);
    KeepOne(PolicyMark(d, b.key), p);
    assert IsMark(d, PolicyMark(d, b.key));
    EntryWanted(inp, d, p, PolicyMark(d, b.key));
    if PolicyMark(d, b.key) !in EntryWants(inp, d) {
      if kept != [] {
        KeptIfsMembers(d, b.key, b.ifs, EntryWants(inp, d), kept[0]);
        JumpWantsMark(inp, d, b.key, kept[0]);
      }
      NoJumps(d, b.key);
    }
  }

  lemma NoJumps(d: Dir, k: PolicyKey)
    ensures Jumps(d, k, []) == []
  {
  }

  lemma {:induction false} KeepBlocks(d: Dir, bs: seq<Block>, p: seq<Req>, inp: Input)
    requires AllRules(p) && Wants(p) == EntryWants(inp, d)
    ensures Keep(Flatten(d, bs), p) == Flatten(d, KeptBlocks(d, bs, EntryWants(inp, d)))
  {
    hide PolicyMark, EntryWants, BlockOf, KeptIfs, Wanted;
    if bs == [] {
      KeepNone([], p);
    } else {
      var n := |bs| - 1;
      var b := bs[n];
      KeepBlocks(d, bs[..n], p, inp);
      KeepConcat(Flatten(d, bs[..n]), BlockOf(d, b.key, b.ifs), p);
      KeepBlock(d, b, p, inp);
      var l, k := KeptBlocks(d, bs[..n], EntryWants(inp, d)),
                  Block(b.key, KeptIfs(d, b.key, b.ifs, EntryWants(inp, d)));
      assert (l + [k])[..|l|] == l && l + [] == l;
    }
  }

  lemma KeepNew(inp: Input, d: Dir, s: seq<Rule>, p: seq<Req>)
    requires AllRules(p) && Wants(p) == EntryWants(inp, d)
    ensures Keep(Added(inp, d, s), p) == Added(inp, d, s)
  {
    hide Added, EntryWants, Wanted, Flatten, CommonJump, DropRest;
    var a, ps := Added(inp, d, s), PoliciesFor(inp, d);
    var flat := Flatten(d, BlocksFor(inp, ps));
    FlattenMiddle(d, BlocksFor(inp, ps));
    forall i | 0 <= i < |a| ensures Wanted(a[i], p) {
      AddedMembers(inp, d, s, a[i]);
      assert a[i] in EntryWants(inp, d) by { InFlat(inp, d, a[i]); }
      var j :| 0 <= j < |flat| && flat[j] == a[i];
      EntryWanted(inp, d, p, a[i]);
    }
    KeepAll(a, p);
  }

  lemma InFlat(inp: Input, d: Dir, r: Rule)
    requires r in Flatten(d, BlocksFor(inp, PoliciesFor(inp, d)))
    ensures r in EntryWants(inp, d)
  {
    hide Flatten, CommonJump, DropRest;
    FormMembers(d, Flatten(d, BlocksFor(inp, PoliciesFor(inp, d))), PoliciesFor(inp, d) != [], r);
  }

  // ---------------------------------------------------------------- a pass

  /** The chain is empty, or has these blocks in its middle. */
  ghost predicate HasBlocks(d: Dir, s: seq<Rule>, bs: seq<Block>) {
    (s == [] && bs == []) || exists drop :: s == Form(d, Flatten(d, bs), drop)
  }

  lemma HasBlocksMembers(d: Dir, s: seq<Rule>, bs: seq<Block>, r: Rule)
    requires HasBlocks(d, s, bs) && (IsJump(d, r) || IsMark(d, r))
    ensures r in s <==> r in Flatten(d, bs)
  {
    hide Flatten, CommonJump, DropRest;
    SortApart(d, r);
    if s != [] {
      var drop :| s == Form(d, Flatten(d, bs), drop);
      FormMembers(d, Flatten(d, bs), drop, r);
    } else if drop :| s == Form(d, Flatten(d, bs), drop) {
      FormLength(d, Flatten(d, bs), drop);
    } else {
      FlattenNone(d);
    }
  }

  lemma SortApart(d: Dir, r: Rule)
    requires IsJump(d, r) || IsMark(d, r)
    ensures r != CommonJump(d) && r != DropRest(d)
  {
    hide CommonJump, DropRest, IfaceJump, PolicyMark;
    if k, i :| r == IfaceJump(d, k, i) {
      EntryNotes(d, k, i);
    } else {
      var k :| r == PolicyMark(d, k);
      EntryNotes(d, k, Iface("", "", "", []));
    }
  }

  lemma WholeBlocks(inp: Input, d: Dir, s: seq<Rule>, bs: seq<Block>, p: PolicySpec)
    requires HasBlocks(d, s, bs) && NoGain(inp, d, s) && p in PoliciesFor(inp, d)
    ensures AllOrNothing(inp, p, d, s)
  {
    hide IfaceJump, PolicyMark, Flatten, BlockOf, HasBlocks;
    var on, mark := OnNetworks(inp.ifs, p.nets), PolicyMark(d, p.key);
    FlattenMiddle(d, bs);
    assert IsMark(d, mark);
    HasBlocksMembers(d, s, bs, mark);
    forall r | r in BlockOf(d, p.key, on) ensures r in s <==> mark in s {
      BlockMembers(d, p.key, on, r);
      if r != mark {
        var i :| i in on && r == IfaceJump(d, p.key, i);
        assert IsJump(d, r);
        HasBlocksMembers(d, s, bs, r);
      }
    }
  }

  /** The blocks after a pass: survivors in place, then the new policies. */
  ghost function FinalBlocks(inp: Input, d: Dir, s: seq<Rule>, bs: seq<Block>): seq<Block> {
    KeptBlocks(d, bs, EntryWants(inp, d)) + BlocksFor(inp, NewPolicies(PoliciesFor(inp, d), d, s))
  }

  lemma AddedBlocks(inp: Input, d: Dir, s: seq<Rule>, bs: seq<Block>)
    requires HasBlocks(d, s, bs) && NoGain(inp, d, s)
    ensures Added(inp, d, s) == Flatten(d, BlocksFor(inp, NewPolicies(PoliciesFor(inp, d), d, s)))
  {
    hide Flatten, HasBlocks, NoGain, AllOrNothing, NewPolicies, EntryReqs;
    var ps := PoliciesFor(inp, d);
    forall i | 0 <= i < |ps| ensures AllOrNothing(inp, ps[i], d, s) {
      WholeBlocks(inp, d, s, bs, ps[i]);
    }
    NewBlocks(inp, ps, d, s);
  }

  lemma FlushedBlocks(rs: Ruleset, inp: Input, d: Dir, bs: seq<Block>) returns (drop: bool)
    requires WellFormed(rs) && InputOk(inp) && Selected(inp) && HasBlocks(d, ShapeAt(rs, FILTER, EntryChain(d)), bs)
    ensures var s := ShapeAt(rs, FILTER, EntryChain(d));
            ShapeAt(PassStage(rs, inp, 1), FILTER, EntryChain(d)) == Form(d, Flatten(d, bs) + Added(inp, d, s), drop)
    ensures PoliciesFor(inp, d) != [] ==> drop
  {
    hide PassStage, Form, Added, InputOk, Selected, Flatten;
    var s, mid := ShapeAt(rs, FILTER, EntryChain(d)), Flatten(d, bs);
    FlattenMiddle(d, bs);
    hide Middle;
    FlushEntry(rs, inp, d);
    if s == [] && bs == [] {
      drop := PoliciesFor(inp, d) != [];
      FlattenNone(d);
      assert [] + Added(inp, d, s) == Added(inp, d, s);
    } else {
      var drop0 :| s == Form(d, mid, drop0);
      drop := drop0 || PoliciesFor(inp, d) != [];
    }
  }

  lemma PassBlocks(rs: Ruleset, inp: Input, d: Dir, bs: seq<Block>)
    requires WellFormed(rs) && InputOk(inp) && Selected(inp)
    requires HasBlocks(d, ShapeAt(rs, FILTER, EntryChain(d)), bs) && NoGain(inp, d, ShapeAt(rs, FILTER, EntryChain(d)))
    ensures var s := ShapeAt(rs, FILTER, EntryChain(d));
            ShapeAt(PassOf(rs, inp), FILTER, EntryChain(d)) ==
            Form(d, Flatten(d, FinalBlocks(inp, d, s, bs)), PoliciesFor(inp, d) != [])
  {
    hide PassLog, Form, Added, InputOk, Selected, Flatten, HasBlocks, NoGain, Stage, Proj, EntryWants, Keep, KeptBlocks,
         NewPolicies;
    var s := ShapeAt(rs, FILTER, EntryChain(d));
    var p, ps := Proj(PassLog(rs, inp), FILTER, EntryChain(d)), PoliciesFor(inp, d);
    var drop := FlushedBlocks(rs, inp, d, bs);
    StageShape(rs, PassLog(rs, inp), LAST_STAGE, FILTER, EntryChain(d));
    PassLogWants(rs, inp, d);
    KeepForm(d, Flatten(d, bs) + Added(inp, d, s), drop, p, inp);
    KeepConcat(Flatten(d, bs), Added(inp, d, s), p);
    KeepBlocks(d, bs, p, inp);
    KeepNew(inp, d, s, p);
    AddedBlocks(inp, d, s, bs);
    FlattenConcat(d, KeptBlocks(d, bs, EntryWants(inp, d)), BlocksFor(inp, NewPolicies(ps, d, s)));
  }

  // ------------------------------------------- the blocks are the policies'

  lemma MarkWanted(inp: Input, d: Dir, k: PolicyKey)
    ensures PolicyMark(d, k) in EntryWants(inp, d) <==> exists p :: p in PoliciesFor(inp, d) && p.key == k
  {
    hide IfaceJump, PolicyMark, Flatten, BlockOf, CommonJump, DropRest;
    var ps, r := PoliciesFor(inp, d), PolicyMark(d, k);
    var bs := BlocksFor(inp, ps);
    EntryNotes(d, k, Iface("", "", "", []));
    FormMembers(d, Flatten(d, bs), ps != [], r);
    FlattenMembers(d, bs, r);
    if r in Flatten(d, bs) {
      var b :| b in bs && r in BlockOf(d, b.key, b.ifs);
      BlockMembers(d, b.key, b.ifs, r);
      EntryNotes(d, b.key, Iface("", "", "", []));
      if i :| i in b.ifs && r == IfaceJump(d, b.key, i) {
        EntryNotes(d, b.key, i);
      }
      var n :| 0 <= n < |ps| && bs[n] == b;
      assert ps[n] in ps;
    }
    if p :| p in ps && p.key == k {
      var n :| 0 <= n < |ps| && ps[n] == p;
      assert bs[n] in bs;
      BlockMembers(d, k, bs[n].ifs, r);
    }
  }

  lemma JumpWanted(inp: Input, d: Dir, p: PolicySpec, i: Iface)
    requires DistinctKeys(PoliciesFor(inp, d)) && p in PoliciesFor(inp, d)
    ensures IfaceJump(d, p.key, i) in EntryWants(inp, d) <==>
            exists j :: j in OnNetworks(inp.ifs, p.nets) && IfaceJump(d, p.key, j) == IfaceJump(d, p.key, i)
  {
    hide IfaceJump, PolicyMark, Flatten, BlockOf, CommonJump, DropRest, Jumps;
    var ps, r := PoliciesFor(inp, d), IfaceJump(d, p.key, i);
    var bs := BlocksFor(inp, ps);
    EntryNotes(d, p.key, i);
    FormMembers(d, Flatten(d, bs), ps != [], r);
    var n :| 0 <= n < |ps| && ps[n] == p;
    if r in Flatten(d, bs) {
      JumpHasBlock(d, bs, p.key, i);
      var b :| b in bs && b.key == p.key && r in Jumps(d, p.key, b.ifs);
      var m :| 0 <= m < |ps| && bs[m] == b;
      assert m == n;
      JumpsMembers(d, p.key, b.ifs, r);
    }
    if j :| j in OnNetworks(inp.ifs, p.nets) && IfaceJump(d, p.key, j) == r {
      assert bs[n] in bs;
      BlockMembers(d, p.key, bs[n].ifs, r);
      FlattenMembers(d, bs, r);
    }
  }

  lemma SameName(d: Dir, k: PolicyKey, i: Iface, j: Iface)
    requires IfaceJump(d, k, i) == IfaceJump(d, k, j)
    ensures i.name == j.name
  {
    EntryNotes(d, k, i);
    EntryNotes(d, k, j);
  }

  /** A kept block names the interfaces the policy is on now. */
  lemma KeptNames(inp: Input, d: Dir, s: seq<Rule>, bs: seq<Block>, p: PolicySpec, n: nat)
    requires DistinctKeys(PoliciesFor(inp, d)) && DistinctBlocks(bs) && HasBlocks(d, s, bs) && NoGain(inp, d, s)
    requires p in PoliciesFor(inp, d) && n < |bs| && bs[n].key == p.key
    ensures SameIfs(KeptIfs(d, p.key, bs[n].ifs, EntryWants(inp, d)), OnNetworks(inp.ifs, p.nets))
  {
    hide IfaceJump, PolicyMark, Flatten, BlockOf, HasBlocks, EntryWants, Jumps, KeptIfs;
    var k, on, kept := p.key, OnNetworks(inp.ifs, p.nets), KeptIfs(d, p.key, bs[n].ifs, EntryWants(inp, d));
    forall i | i in kept ensures Named(on, i.name) {
      KeptIfsMembers(d, k, bs[n].ifs, EntryWants(inp, d), i);
      JumpWanted(inp, d, p, i);
      var j :| j in on && IfaceJump(d, k, j) == IfaceJump(d, k, i);
      SameName(d, k, i, j);
    }
    forall i | i in on ensures Named(kept, i.name) {
      assert bs[n] in bs;
      BlockMembers(d, k, bs[n].ifs, PolicyMark(d, k));
      FlattenMembers(d, bs, PolicyMark(d, k));
      assert IsMark(d, PolicyMark(d, k)) && IsJump(d, IfaceJump(d, k, i));
      HasBlocksMembers(d, s, bs, PolicyMark(d, k));
      HasBlocksMembers(d, s, bs, IfaceJump(d, k, i));
      JumpHasBlock(d, bs, k, i);
      var b :| b in bs && b.key == k && IfaceJump(d, k, i) in Jumps(d, k, b.ifs);
      var m :| 0 <= m < |bs| && bs[m] == b;
      assert m == n;
      JumpsMembers(d, k, b.ifs, IfaceJump(d, k, i));
      var j :| j in b.ifs && IfaceJump(d, k, i) == IfaceJump(d, k, j);
      SameName(d, k, i, j);
      JumpWanted(inp, d, p, i);
      KeptIfsMembers(d, k, b.ifs, EntryWants(inp, d), j);
    }
  }

  /** Every final block belongs to a policy and names its interfaces. */
  lemma FinalBlock(inp: Input, d: Dir, s: seq<Rule>, bs: seq<Block>, b: Block)
    requires DistinctKeys(PoliciesFor(inp, d)) && DistinctBlocks(bs) && HasBlocks(d, s, bs) && NoGain(inp, d, s)
    requires b in FinalBlocks(inp, d, s, bs)
    ensures exists p :: p in PoliciesFor(inp, d) && p.key == b.key && SameIfs(b.ifs, OnNetworks(inp.ifs, p.nets))
  {
    hide PolicyMark, EntryWants, KeptBlocks, NewPolicies, KeptIfs, HasBlocks, NoGain, OnNetworks, SameIfs;
    var ps, kept := PoliciesFor(inp, d), KeptBlocks(d, bs, EntryWants(inp, d));
    if b in kept {
      KeptBlocksMembers(d, bs, EntryWants(inp, d), b);
      var n :| 0 <= n < |bs| && PolicyMark(d, b.key) in EntryWants(inp, d) &&
               b == Block(bs[n].key, KeptIfs(d, bs[n].key, bs[n].ifs, EntryWants(inp, d)));
      MarkWanted(inp, d, b.key);
      var p :| p in ps && p.key == b.key;
      KeptNames(inp, d, s, bs, p, n);
    } else {
      var l := NewPolicies(ps, d, s);
      var n :| 0 <= n < |l| && BlocksFor(inp, l)[n] == b;
      NewPoliciesMembers(ps, d, s, l[n]);
      assert SameIfs(b.ifs, OnNetworks(inp.ifs, l[n].nets)) by { SameIfsReflexive(b.ifs); }
    }
  }

  lemma SameIfsReflexive(a: seq<Iface>)
    ensures SameIfs(a, a)
  {
  }

  /** Every policy has a final block. */
  lemma PolicyHasBlock(inp: Input, d: Dir, s: seq<Rule>, bs: seq<Block>, p: PolicySpec)
    requires HasBlocks(d, s, bs) && p in PoliciesFor(inp, d)
    ensures exists b :: b in FinalBlocks(inp, d, s, bs) && b.key == p.key
  {
    hide PolicyMark, IfaceJump, EntryWants, KeptBlocks, NewPolicies, KeptIfs, HasBlocks, OnNetworks, Flatten, BlockOf;
    var ps, mark := PoliciesFor(inp, d), PolicyMark(d, p.key);
    if mark in s {
      assert IsMark(d, mark);
      HasBlocksMembers(d, s, bs, mark);
      MarkHasBlock(d, bs, p.key);
      var n :| 0 <= n < |bs| && bs[n].key == p.key;
      MarkWanted(inp, d, p.key);
      var b := Block(bs[n].key, KeptIfs(d, bs[n].key, bs[n].ifs, EntryWants(inp, d)));
      KeptBlocksMembers(d, bs, EntryWants(inp, d), b);
      assert b in FinalBlocks(inp, d, s, bs);
    } else {
      var l := NewPolicies(ps, d, s);
      NewPoliciesMembers(ps, d, s, p);
      var n :| 0 <= n < |l| && l[n] == p;
      assert BlocksFor(inp, l)[n] in FinalBlocks(inp, d, s, bs);
    }
  }

  lemma MarkHasBlock(d: Dir, bs: seq<Block>, k: PolicyKey)
    requires PolicyMark(d, k) in Flatten(d, bs)
    ensures exists n :: 0 <= n < |bs| && bs[n].key == k
  {
    hide IfaceJump, PolicyMark, Flatten, BlockOf;
    var r := PolicyMark(d, k);
    FlattenMembers(d, bs, r);
    var b :| b in bs && r in BlockOf(d, b.key, b.ifs);
    BlockMembers(d, b.key, b.ifs, r);
    EntryNotes(d, k, Iface("", "", "", []));
    EntryNotes(d, b.key, Iface("", "", "", []));
    if i :| i in b.ifs && r == IfaceJump(d, b.key, i) {
      EntryNotes(d, b.key, i);
    }
    var n :| 0 <= n < |bs| && bs[n] == b;
  }

  lemma FinalDistinct(inp: Input, d: Dir, s: seq<Rule>, bs: seq<Block>)
    requires DistinctKeys(PoliciesFor(inp, d)) && DistinctBlocks(bs) && HasBlocks(d, s, bs)
    ensures DistinctBlocks(FinalBlocks(inp, d, s, bs))
  {
    hide PolicyMark, EntryWants, KeptBlocks, NewPolicies, KeptIfs, HasBlocks, OnNetworks, Flatten, BlockOf;
    var ps := PoliciesFor(inp, d);
    var kept, l := KeptBlocks(d, bs, EntryWants(inp, d)), NewPolicies(ps, d, s);
    KeptBlocksDistinct(d, bs, EntryWants(inp, d));
    NewPoliciesDistinct(ps, d, s);
    forall i, j | 0 <= i < |kept| && 0 <= j < |l| ensures kept[i].key != l[j].key {
      KeptBlocksMembers(d, bs, EntryWants(inp, d), kept[i]);
      var n :| 0 <= n < |bs| && PolicyMark(d, kept[i].key) in EntryWants(inp, d) &&
               kept[i] == Block(bs[n].key, KeptIfs(d, bs[n].key, bs[n].ifs, EntryWants(inp, d)));
      assert bs[n] in bs;
      BlockMembers(d, bs[n].key, bs[n].ifs, PolicyMark(d, bs[n].key));
      FlattenMembers(d, bs, PolicyMark(d, bs[n].key));
      assert IsMark(d, PolicyMark(d, bs[n].key));
      HasBlocksMembers(d, s, bs, PolicyMark(d, bs[n].key));
      NewPoliciesMembers(ps, d, s, l[j]);
    }
    JoinDistinct(inp, kept, l);
  }

  lemma JoinDistinct(inp: Input, kept: seq<Block>, l: seq<PolicySpec>)
    requires DistinctBlocks(kept) && DistinctKeys(l)
    requires forall i, j :: 0 <= i < |kept| && 0 <= j < |l| ==> kept[i].key != l[j].key
    ensures DistinctBlocks(kept + BlocksFor(inp, l))
  {
    hide OnNetworks;
    var bs := kept + BlocksFor(inp, l);
    forall i, j | 0 <= i < j < |bs| ensures bs[i].key != bs[j].key {
      if j >= |kept| {
        assert bs[j].key == l[j - |kept|].key;
        if i >= |kept| {
          assert bs[i].key == l[i - |kept|].key;
        }
      }
    }
  }

  /** The policies in the order of their blocks. */
  ghost function InOrder(ps: seq<PolicySpec>, bs: seq<Block>): (qs: seq<PolicySpec>)
    requires forall i :: 0 <= i < |bs| ==> PolicyAt(ps, bs[i].key) < |ps|
    ensures |qs| == |bs|
  {
    seq(|bs|, i requires 0 <= i < |bs| => ps[PolicyAt(ps, bs[i].key)])
  }

  /** The final blocks match the policies of the input in some order. */
  lemma FinalMatch(inp: Input, d: Dir, s: seq<Rule>, bs: seq<Block>) returns (qs: seq<PolicySpec>)
    requires DistinctKeys(PoliciesFor(inp, d)) && DistinctBlocks(bs) && HasBlocks(d, s, bs) && NoGain(inp, d, s)
    ensures BlocksMatch(inp, FinalBlocks(inp, d, s, bs), qs)
    ensures forall p :: p in qs <==> p in PoliciesFor(inp, d)
  {
    hide FinalBlocks, HasBlocks, NoGain, OnNetworks, SameIfs;
    var ps, fb := PoliciesFor(inp, d), FinalBlocks(inp, d, s, bs);
    forall i | 0 <= i < |fb|
      ensures PolicyAt(ps, fb[i].key) < |ps|
      ensures SameIfs(fb[i].ifs, OnNetworks(inp.ifs, ps[PolicyAt(ps, fb[i].key)].nets))
    {
      FinalBlock(inp, d, s, bs, fb[i]);
      var p :| p in ps && p.key == fb[i].key && SameIfs(fb[i].ifs, OnNetworks(inp.ifs, p.nets));
      var n :| 0 <= n < |ps| && ps[n] == p;
      PolicyAtFinds(ps, n);
    }
    qs := InOrder(ps, fb);
    forall p | p in ps ensures p in qs {
      PolicyHasBlock(inp, d, s, bs, p);
      var b :| b in fb && b.key == p.key;
      var i :| 0 <= i < |fb| && fb[i] == b;
      var n :| 0 <= n < |ps| && ps[n] == p;
      PolicyAtFinds(ps, n);
      assert qs[i] == p;
    }
  }
}
