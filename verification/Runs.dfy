/** Runs: passes with arbitrary inputs, some of them cut short by a rejected
    batch, with traffic moving the counters in between. */
module Runs {
  import opened Ids
  import opened Machine
  import opened Identity
  import opened Kernel
  import opened Reconcile
  import opened Flush
  import opened Cleanup
  import opened Policies
  import opened Compile
  import opened Requests
  import opened Layout
  import opened SetLayout
  import opened Passes
  import opened Walks
  import opened Targets
  import opened Results
  import opened Entry

  // ---------------------------------------------------- cleanup of the form

  lemma {:induction false} KeepMiddle(d: Dir, mid: seq<Rule>, p: seq<Req>, inp: Input)
    requires AllRules(p) && Wants(p) == EntryWants(inp, d)
    requires forall i :: 0 <= i < |mid| ==> IsJump(d, mid[i]) || IsMark(d, mid[i])
    ensures forall i :: 0 <= i < |Keep(mid, p)| ==> IsJump(d, Keep(mid, p)[i]) || IsMark(d, Keep(mid, p)[i])
    ensures forall r :: r in Keep(mid, p) <==> r in mid && r in EntryWants(inp, d)
  {
    hide IsJump, IsMark, EntryWants;
    forall r ensures r in Keep(mid, p) <==> r in mid && r in EntryWants(inp, d) {
      KeepMembers(mid, p, r);
      if r in mid {
        var i :| 0 <= i < |mid| && mid[i] == r;
        EntryWanted(inp, d, p, r);
      }
    }
    forall i | 0 <= i < |Keep(mid, p)| ensures IsJump(d, Keep(mid, p)[i]) || IsMark(d, Keep(mid, p)[i]) {
      var r := Keep(mid, p)[i];
      assert r in Keep(mid, p);
      var j :| 0 <= j < |mid| && mid[j] == r;
    }
  }

  lemma KeptMiddle(d: Dir, mid: seq<Rule>, p: seq<Req>, inp: Input)
    requires AllRules(p) && Wants(p) == EntryWants(inp, d) && Middle(d, mid)
    ensures Middle(d, Keep(mid, p))
  {
    KeepMiddle(d, mid, p, inp);
    hide IfaceJump, PolicyMark, IsJump, IsMark, Flatten, CommonJump, DropRest, Keep;
    var ps := PoliciesFor(inp, d);
    var flat := Flatten(d, BlocksFor(inp, ps));
    FlattenMiddle(d, BlocksFor(inp, ps));
    forall k, i | IfaceJump(d, k, i) in Keep(mid, p) ensures PolicyMark(d, k) in Keep(mid, p) {
      FormMembers(d, flat, ps != [], IfaceJump(d, k, i));
      FormMembers(d, flat, ps != [], PolicyMark(d, k));
      EntryNotes(d, k, i);
    }
  }

  lemma KeepOne(r: Rule, p: seq<Req>)
    ensures Keep([r], p) == if Wanted(r, p) then [r] else []
  {
    assert [r][..0] == [];
  }

  lemma KeepForm(d: Dir, mid: seq<Rule>, drop: bool, p: seq<Req>, inp: Input)
    requires AllRules(p) && Wants(p) == EntryWants(inp, d)
    ensures Keep(Form(d, mid, drop), p) == Form(d, Keep(mid, p), drop && PoliciesFor(inp, d) != [])
  {
    var ps := PoliciesFor(inp, d);
    var flat := Flatten(d, BlocksFor(inp, ps));
    FlattenMiddle(d, BlocksFor(inp, ps));
    MiddleApart(d, flat);
    EntryNotes(d, PolicyKey("", ""), Iface("", "", "", []));
    EntryWanted(inp, d, p, CommonJump(d));
    EntryWanted(inp, d, p, DropRest(d));
    FormMembers(d, flat, ps != [], CommonJump(d));
    FormMembers(d, flat, ps != [], DropRest(d));
    hide CommonJump, DropRest, Flatten, Keep, Middle, Wanted;
    KeepConcat([CommonJump(d)] + mid, if drop then [DropRest(d)] else [], p);
    KeepConcat([CommonJump(d)], mid, p);
    KeepOne(CommonJump(d), p);
    KeepOne(DropRest(d), p);
    assert Keep([], p) == [] by { KeepNone([], p); }
  }

  // ------------------------------------------------------------ one pass

  /** The entry chain of a complete pass: common jump first, jumps and checks in
      the middle, the drop exactly once and last iff some policy applies. */
  ghost predicate DropLast(d: Dir, s: seq<Rule>, policies: bool) {
    exists mid :: Middle(d, mid) && s == Form(d, mid, policies)
  }

  lemma DropLastMeans(d: Dir, s: seq<Rule>, policies: bool)
    requires DropLast(d, s, policies)
    ensures s != [] && s[0] == CommonJump(d) && (forall i :: 0 < i < |s| ==> s[i] != CommonJump(d))
    ensures forall i :: 0 <= i < |s| ==> (s[i] == DropRest(d) <==> policies && i == |s| - 1)
  {
    var mid :| Middle(d, mid) && s == Form(d, mid, policies);
    MiddleApart(d, mid);
    EntryNotes(d, PolicyKey("", ""), Iface("", "", "", []));
    hide CommonJump, DropRest, Middle;
  }

  lemma PassEntry(rs: Ruleset, inp: Input, d: Dir, k: nat)
    requires WellFormed(rs) && InputOk(inp) && Selected(inp) && EntryOk(d, ShapeAt(rs, FILTER, EntryChain(d)))
    ensures EntryOk(d, ShapeAt(PassStage(rs, inp, k), FILTER, EntryChain(d)))
    ensures k >= 2 ==> DropLast(d, ShapeAt(PassStage(rs, inp, k), FILTER, EntryChain(d)), PoliciesFor(inp, d) != [])
  {
    if k >= 1 {
      hide PassLog, Form, Middle, Added, Proj, Stage, InputOk, Selected;
      var mid, drop := FlushedForm(rs, inp, d);
      StageShape(rs, PassLog(rs, inp), k, FILTER, EntryChain(d));
      if k >= 2 {
        var p := Proj(PassLog(rs, inp), FILTER, EntryChain(d));
        PassLogWants(rs, inp, d);
        KeepForm(d, mid, drop, p, inp);
        KeptMiddle(d, mid, p, inp);
      }
    }
  }

  lemma PassLogWants(rs: Ruleset, inp: Input, d: Dir)
    requires InputOk(inp)
    ensures Wants(Proj(PassLog(rs, inp), FILTER, EntryChain(d))) == EntryWants(inp, d)
  {
    hide PassReqs, EntryWants, Force;
    EntryProjWants(inp, Force(rs, inp, Ingress), Force(rs, inp, Egress), d);
  }

  /** After the main flush the chain has the form, with the drop if wanted. */
  lemma FlushedForm(rs: Ruleset, inp: Input, d: Dir) returns (mid: seq<Rule>, drop: bool)
    requires WellFormed(rs) && InputOk(inp) && Selected(inp) && EntryOk(d, ShapeAt(rs, FILTER, EntryChain(d)))
    ensures Middle(d, mid) && ShapeAt(PassStage(rs, inp, 1), FILTER, EntryChain(d)) == Form(d, mid, drop)
    ensures PoliciesFor(inp, d) != [] ==> drop
  {
    hide PassStage, Form, Added, InputOk, Selected;
    FlushEntry(rs, inp, d);
    var s := ShapeAt(rs, FILTER, EntryChain(d));
    if s == [] {
      mid, drop := Added(inp, d, []), PoliciesFor(inp, d) != [];
      AddedMiddle(inp, d, [], [], false);
      assert [] + mid == mid;
    } else {
      var mid0, drop0 :| Middle(d, mid0) && s == Form(d, mid0, drop0);
      mid, drop := mid0 + Added(inp, d, s), drop0 || PoliciesFor(inp, d) != [];
      AddedMiddle(inp, d, mid0, s, drop0);
    }
  }

  lemma AddedMiddle(inp: Input, d: Dir, mid: seq<Rule>, s: seq<Rule>, drop: bool)
    requires Middle(d, mid) && ((s == [] && mid == []) || s == Form(d, mid, drop))
    ensures Middle(d, mid + Added(inp, d, s))
  {
    var flat := Flatten(d, BlocksFor(inp, PoliciesFor(inp, d)));
    FlattenMiddle(d, BlocksFor(inp, PoliciesFor(inp, d)));
    hide IfaceJump, PolicyMark, IsJump, IsMark, Flatten, CommonJump, DropRest, Added, Form;
    var a := Added(inp, d, s);
    forall r ensures r in a <==> r in flat && r !in s {
      AddedMembers(inp, d, s, r);
    }
    forall i | 0 <= i < |a| ensures IsJump(d, a[i]) || IsMark(d, a[i]) {
      assert a[i] in a;
      var j :| 0 <= j < |flat| && flat[j] == a[i];
    }
    forall k, i | IfaceJump(d, k, i) in mid + a ensures PolicyMark(d, k) in mid + a {
      if IfaceJump(d, k, i) in a && PolicyMark(d, k) !in a {
        assert PolicyMark(d, k) in s;
        FormMembers(d, mid, drop, PolicyMark(d, k));
        EntryNotes(d, k, i);
      }
    }
  }

  // ------------------------------------------------------------------ runs

  /** The same ruleset with other counter values. */
  ghost predicate SameChain(a: seq<Installed>, b: seq<Installed>) {
    |a| == |b| && forall i :: 0 <= i < |a| ==> a[i].handle == b[i].handle && Strip(a[i].rule) == Strip(b[i].rule)
  }

  ghost predicate SameTable(a: Table, b: Table) {
    && a.sets == b.sets && a.next == b.next && a.chains.Keys == b.chains.Keys
    && forall c :: c in a.chains ==> SameChain(a.chains[c], b.chains[c])
  }

  /** What may happen between two passes: traffic moves the counters of the
      managed tables, and anything may happen to other tables. */
  ghost predicate Ticked(a: Ruleset, b: Ruleset) {
    WellFormed(b) && forall t :: Managed(t) ==> (t in a <==> t in b) && (t in a ==> SameTable(a[t], b[t]))
  }

  /** A pass with its input and the number of batches that were committed. */
  datatype Step = Step(inp: Input, commits: nat)

  ghost predicate Run(states: seq<Ruleset>, steps: seq<Step>) {
    && |states| == |steps| + 1
    && WellFormed(states[0])
    && forall i :: 0 <= i < |steps| ==>
         && InputOk(steps[i].inp) && Selected(steps[i].inp)
         && Ticked(PassStage(states[i], steps[i].inp, steps[i].commits), states[i + 1])
  }

  lemma TickedShape(a: Ruleset, b: Ruleset, t: TableId, c: ChainId)
    requires Ticked(a, b) && Managed(t)
    ensures ShapeAt(a, t, c) == ShapeAt(b, t, c)
  {
    if t in a && c in a[t].chains {
      assert SameChain(a[t].chains[c], b[t].chains[c]);
    }
  }

  lemma RunOk(states: seq<Ruleset>, steps: seq<Step>, n: nat)
    requires Run(states, steps) && n <= |steps|
    ensures WellFormed(states[n])
  {
    hide PassStage, InputOk, Selected, WellFormed;
    if n > 0 {
      assert Ticked(PassStage(states[n - 1], steps[n - 1].inp, steps[n - 1].commits), states[n]);
    }
  }

  /** Drop-last invariant.  In every run from empty entry chains, with arbitrary
      inputs and passes cut short anywhere, every entry chain keeps its form; and
      after every pass that got past the filter cleanup it starts with the common
      jump and holds the drop exactly once, as its last rule, iff some policy
      applies in that direction. */
  lemma {:induction false} DropLastInvariant(states: seq<Ruleset>, steps: seq<Step>, n: nat, d: Dir)
    requires Run(states, steps) && n <= |steps|
    requires ShapeAt(states[0], FILTER, EntryChain(d)) == []
    ensures EntryOk(d, ShapeAt(states[n], FILTER, EntryChain(d)))
    ensures n > 0 && steps[n - 1].commits >= 2 ==>
            DropLast(d, ShapeAt(states[n], FILTER, EntryChain(d)), PoliciesFor(steps[n - 1].inp, d) != [])
  {
    hide PassStage, InputOk, Selected, EntryOk, DropLast, Ticked;
    if n == 0 {
      NothingOk(d);
    } else {
      DropLastInvariant(states, steps, n - 1, d);
      RunOk(states, steps, n - 1);
      var st := steps[n - 1];
      PassEntry(states[n - 1], st.inp, d, st.commits);
      TickedShape(PassStage(states[n - 1], st.inp, st.commits), states[n], FILTER, EntryChain(d));
    }
  }

  lemma NothingOk(d: Dir)
    ensures EntryOk(d, [])
  {
  }
}
