/** The pass as a whole: exactly the requested objects remain, requested sets
    hold the requested keys, and a second pass has nothing to do. */
module Exact {
  import opened Ids
  import opened Machine
  import opened Identity
  import opened Intervals
  import opened Elements
  import opened Kernel
  import opened Reconcile
  import opened Flush
  import opened Cleanup
  import opened Requests

  // -------------------------------------------------- requested rules arrive

  lemma ShapeMember(l: seq<Installed>, x: Installed)
    requires x in l
    ensures Strip(x.rule) in Shape(l)
  {
    var i :| 0 <= i < |l| && l[i] == x;
    assert Shape(l)[i] == Strip(x.rule);
  }

  /** A requested rule is in its chain after the flush. */
  lemma Delivered(rs: Ruleset, log: seq<Req>, q: Req)
    requires WellFormed(rs) && CanonicalLog(log) && q in log && q.RuleReq?
    ensures q.rule in ShapeAt(Stage(rs, log, 1), q.rule.table, q.rule.chain)
  {
    var t, c := q.rule.table, q.rule.chain;
    var l, p := ChainAt(rs, t, c), Proj(log, t, c);
    var ins, app := FlushChain(rs, log, t, c);
    var kept := Minus(l, Dels(p, l));
    ShapeConcat(ins + kept, app);
    ShapeConcat(ins, kept);
    assert ShapeAt(Stage(rs, log, 1), t, c) == NewIns(p, Shape(l)) + Shape(kept) + NewApp(p, Shape(l));
    ProjMembers(log, t, c, q);
    if IsNew(q, Shape(l)) {
      NewMembers(p, Shape(l), q.rule);
    } else {
      var i :| 0 <= i < |l| && Shape(l)[i] == q.rule;
      if l[i].handle in Dels(p, l) {
        var q' := Replacement(rs, log, t, c, l[i]);
        NewMembers(p, Shape(l), q.rule);
      } else {
        MinusMembers(l, Dels(p, l), l[i]);
        ShapeMember(kept, l[i]);
      }
    }
  }

  /** A rule that a forced update removes is also re-added by it. */
  lemma Replacement(rs: Ruleset, log: seq<Req>, t: TableId, c: ChainId, x: Installed) returns (q: Req)
    requires WellFormed(rs) && CanonicalLog(log)
    requires x in ChainAt(rs, t, c) && x.handle in Dels(Proj(log, t, c), ChainAt(rs, t, c))
    ensures q in Proj(log, t, c) && q.RuleReq? && q.force && q.rule == Strip(x.rule)
  {
    var l, p := ChainAt(rs, t, c), Proj(log, t, c);
    q :| q in p && q.force && Find(l, q.rule).Some? && Find(l, q.rule).value.handle == x.handle;
    ProjMembers(log, t, c, q);
    ChainAtOk(rs, t, c);
    SameHandle(t, c, l, Tab(rs, t).next, Find(l, q.rule).value, x);
    CanonicalStrip(q.rule);
    RuleEqualIsStripEqual(q.rule, x.rule);
  }

  lemma SameHandle(t: TableId, c: ChainId, l: seq<Installed>, next: nat, x: Installed, y: Installed)
    requires ChainOk(t, c, l, next) && x in l && y in l && x.handle == y.handle
    ensures x == y && x.rule.table == t
  {
    var i :| 0 <= i < |l| && l[i] == x;
    var j :| 0 <= j < |l| && l[j] == y;
  }

  lemma DeliveredAlways(rs: Ruleset, log: seq<Req>, k: nat, q: Req)
    requires WellFormed(rs) && CanonicalLog(log) && q in log && q.RuleReq? && Managed(q.rule.table) && k >= 1
    ensures q.rule in ShapeAt(Stage(rs, log, k), q.rule.table, q.rule.chain)
  {
    var t, c := q.rule.table, q.rule.chain;
    Delivered(rs, log, q);
    StageShape(rs, log, k, t, c);
    ProjMembers(log, t, c, q);
    assert Wanted(q.rule, Proj(log, t, c));
    KeepMembers(ShapeAt(Stage(rs, log, 1), t, c), Proj(log, t, c), q.rule);
  }

  // ----------------------------------------------------- the exactness theorem

  lemma KeyTracked(rs: Ruleset, log: seq<Req>, t: TableId, c: ChainId, x: Installed)
    requires WellFormed(rs) && Managed(t) && x in ChainAt(Pass(rs, log), t, c)
    ensures KeyOf(x.rule) in KeysOf(log)
  {
    StageChain(rs, log, LAST_STAGE, t, c);
    StageOk(rs, log, 1);
    ChainAtOk(Stage(rs, log, 1), t, c);
    TrackedOk(t, c, ChainAt(Stage(rs, log, 1), t, c), Tab(Stage(rs, log, 1), t).next, KeysOf(log));
  }

  /** Cleanup is exact: after a complete pass the managed tables hold exactly
      the requested chains, the requested named sets, and rules with exactly
      the requested keys. */
  lemma CleanupExact(rs: Ruleset, w: seq<Req>, t: TableId)
    requires WellFormed(rs) && GoodPart(w, w) && TableReq(t) in w && Managed(t)
    ensures t in Pass(rs, w)
    ensures forall c :: c in Tab(Pass(rs, w), t).chains <==> HasChain(w, t, c)
    ensures forall s :: HasSet(w, t, s) ==> s in Tab(Pass(rs, w), t).sets
    ensures forall s :: s in Tab(Pass(rs, w), t).sets ==> HasSet(w, t, s) || Tab(Pass(rs, w), t).sets[s].anonymous
    ensures forall k: Key :: k.table == t ==>
              ((exists x :: x in ChainAt(Pass(rs, w), t, k.chain) && KeyOf(x.rule) == k) <==> k in KeysOf(w))
  {
    hide GoodReq, KeyOf, Strip, WellFormed;
    GoodCanonical(w);
    FlushServes(rs, w, TableReq(t));
    StageStep(rs, w, 1, t);
    StageStep(rs, w, 2, t);
    StageStep(rs, w, 3, t);
    hide Stage;
    ChainsExact(rs, w, t);
    SetsExact(rs, w, t);
    forall k: Key | k.table == t
      ensures (exists x :: x in ChainAt(Pass(rs, w), t, k.chain) && KeyOf(x.rule) == k) <==> k in KeysOf(w)
    {
      KeysExact(rs, w, t, k);
    }
  }

  lemma KeysExact(rs: Ruleset, w: seq<Req>, t: TableId, k: Key)
    requires WellFormed(rs) && CanonicalLog(w) && Managed(t) && k.table == t
    ensures (exists x :: x in ChainAt(Pass(rs, w), t, k.chain) && KeyOf(x.rule) == k) <==> k in KeysOf(w)
  {
    hide Stage, Strip, WellFormed, Hashed;
    if x :| x in ChainAt(Pass(rs, w), t, k.chain) && KeyOf(x.rule) == k {
      KeyTracked(rs, w, t, k.chain, x);
    }
    if k in KeysOf(w) {
      var q :| q in w && q.RuleReq? && KeyOf(q.rule) == k;
      DeliveredAlways(rs, w, LAST_STAGE, q);
      var l := ChainAt(Pass(rs, w), t, k.chain);
      var i :| 0 <= i < |l| && Shape(l)[i] == q.rule;
      StripKey(l[i].rule);
      assert l[i] in l;
    }
  }

  lemma SetsExact(rs: Ruleset, w: seq<Req>, t: TableId)
    requires WellFormed(rs) && GoodPart(w, w) && TableReq(t) in w && Managed(t)
    ensures forall s :: HasSet(w, t, s) ==> s in Tab(Pass(rs, w), t).sets
    ensures forall s :: s in Tab(Pass(rs, w), t).sets ==> HasSet(w, t, s) || Tab(Pass(rs, w), t).sets[s].anonymous
  {
    SetsAfter(rs, w, t);
    forall s | HasSet(w, t, s) ensures s in Tab(Pass(rs, w), t).sets {
      var q :| q in w && q.SetReq? && q.t == t && q.s == s;
      FlushServes(rs, w, q);
    }
    forall s | s in Tab(Pass(rs, w), t).sets && !Tab(Pass(rs, w), t).sets[s].anonymous ensures HasSet(w, t, s) {
      assert (t, s) in SetsOf(w);
    }
  }

  /** The sets after the pass are those after the flush that are tracked. */
  lemma SetsAfter(rs: Ruleset, w: seq<Req>, t: TableId)
    requires TableReq(t) in w && Managed(t)
    ensures var tb := Tab(Stage(rs, w, 1), t);
            Tab(Pass(rs, w), t).sets ==
            map s | s in tb.sets && ((t, s) in SetsOf(w) || tb.sets[s].anonymous) :: tb.sets[s]
  {
    FlushServes(rs, w, TableReq(t));
    StageStep(rs, w, 1, t);
    StageStep(rs, w, 2, t);
    StageStep(rs, w, 3, t);
  }

  /** The chains after the pass are those after the flush that are tracked. */
  lemma ChainsExact(rs: Ruleset, w: seq<Req>, t: TableId)
    requires WellFormed(rs) && GoodPart(w, w) && TableReq(t) in w && Managed(t)
    ensures forall c :: c in Tab(Pass(rs, w), t).chains <==> HasChain(w, t, c)
  {
    GoodCanonical(w);
    FlushServes(rs, w, TableReq(t));
    StageStep(rs, w, 1, t);
    StageStep(rs, w, 2, t);
    StageStep(rs, w, 3, t);
    forall c ensures c in Tab(Pass(rs, w), t).chains <==> HasChain(w, t, c) {
      assert HasChain(w, t, c) <==> (t, c) in ChainsOf(w);
      if HasChain(w, t, c) {
        FlushServes(rs, w, ChainReq(t, c));
      }
      if ChainAt(Pass(rs, w), t, c) != [] {
        NonemptyRequested(rs, w, t, c);
      }
    }
  }

  lemma NonemptyRequested(rs: Ruleset, w: seq<Req>, t: TableId, c: ChainId)
    requires WellFormed(rs) && GoodPart(w, w) && Managed(t) && ChainAt(Pass(rs, w), t, c) != []
    ensures HasChain(w, t, c)
  {
    var l := ChainAt(Pass(rs, w), t, c);
    KeyTracked(rs, w, t, c, l[0]);
    StageOk(rs, w, LAST_STAGE);
    ChainAtOk(Pass(rs, w), t, c);
    var q :| q in w && q.RuleReq? && KeyOf(q.rule) == KeyOf(l[0].rule);
    var i :| 0 <= i < |w| && w[i] == q;
    assert GoodReq(w[i], w);
  }

  /** Nothing outside the managed tables is touched. */
  lemma OthersUntouched(rs: Ruleset, w: seq<Req>, k: nat, t: TableId)
    requires GoodPart(w, w) && !Managed(t)
    ensures t in Stage(rs, w, k) <==> t in rs
    ensures t in rs ==> Stage(rs, w, k)[t] == rs[t]
  {
    forall i | 0 <= i < |w| ensures TableOf(w[i]) != t {
      assert GoodReq(w[i], w);
    }
    FlushOther(rs, w, t);
    if k >= 1 {
      StageOther(rs, w, k, t);
    }
  }

  // ------------------------------------------------------------------ closed

  lemma {:induction false} HashedKeeps(es: seq<Expr>, e: Expr)
    requires e in es && !e.Counter? && !e.Unsupported?
    ensures e in Hashed(es)
  {
    if e != es[|es| - 1] {
      HashedKeeps(es[..|es| - 1], e);
    }
  }

  lemma {:induction false} HashedFrom(es: seq<Expr>, e: Expr)
    requires e in Hashed(es)
    ensures e in es
  {
    if e !in Hashed(es[..|es| - 1]) {
      assert e == es[|es| - 1];
    } else {
      HashedFrom(es[..|es| - 1], e);
    }
  }

  /** After a complete pass every jump target and every looked-up set of every
      rule in a managed table exists. */
  lemma CleanupClosed(rs: Ruleset, w: seq<Req>, t: TableId, c: ChainId, x: Installed, e: Expr)
    requires WellFormed(rs) && GoodPart(w, w) && TableReq(t) in w && Managed(t)
    requires x in ChainAt(Pass(rs, w), t, c) && e in x.rule.exprs
    ensures e.Lookup? ==> e.set_ in Tab(Pass(rs, w), t).sets
    ensures e.Verdict? && (e.verdict.Jump? || e.verdict.Goto?) ==> e.verdict.target in Tab(Pass(rs, w), t).chains
  {
    if e.Lookup? || e.Verdict? {
      KeyTracked(rs, w, t, c, x);
      StageOk(rs, w, LAST_STAGE);
      ChainAtOk(Pass(rs, w), t, c);
      var i :| 0 <= i < |ChainAt(Pass(rs, w), t, c)| && ChainAt(Pass(rs, w), t, c)[i] == x;
      var q :| q in w && q.RuleReq? && KeyOf(q.rule) == KeyOf(x.rule);
      var j :| 0 <= j < |w| && w[j] == q;
      assert GoodReq(w[j], w);
      HashedKeeps(x.rule.exprs, e);
      HashedFrom(q.rule.exprs, e);
      var n :| 0 <= n < |q.rule.exprs| && q.rule.exprs[n] == e;
      assert GoodExpr(q.rule.exprs[n], w, t);
      CleanupExact(rs, w, t);
    }
  }

  // --------------------------------------------------------- set contents

  function SetAt(rs: Ruleset, t: TableId, s: SetId): Option<SetObj> {
    if s in Tab(rs, t).sets then Some(Tab(rs, t).sets[s]) else None
  }

  /** A set once its requests are applied. */
  ghost function SetResult(have: Option<SetObj>, want: SetObj): SetObj {
    if have.Some? then have.value.(elems := Updated(have.value.elems, want.elems)) else want
  }

  predicate TouchesSet(op: Op, t: TableId, s: SetId) {
    op.t == t &&
    match op
    case DelTable(_) => true
    case AddSet(_, s', _) => s' == s
    case DelSet(_, s') => s' == s
    case AddElems(_, s', _) => s' == s
    case DelElems(_, s', _) => s' == s
    case _ => false
  }

  lemma {:induction false} SetUntouched(st: Ruleset, ops: seq<Op>, t: TableId, s: SetId)
    requires forall i :: 0 <= i < |ops| ==> !TouchesSet(ops[i], t, s)
    ensures SetAt(ApplyAll(st, ops), t, s) == SetAt(st, t, s)
  {
    if ops != [] {
      SetUntouched(st, ops[..|ops| - 1], t, s);
    }
  }

  /** Deleting and adding the differing elements, possibly for the second time. */
  lemma SetOpsApply(st: Ruleset, t: TableId, s: SetId, have: set<Elem>, want: set<Elem>)
    requires SetAt(st, t, s).Some? && SetAt(st, t, s).value.elems in {have, Updated(have, want)}
    ensures SetAt(ApplyAll(st, SetOps(t, s, have, want)), t, s) ==
            Some(SetAt(st, t, s).value.(elems := Updated(have, want)))
  {
    var add, del := Missing(want, have), Missing(have, want);
    var a := if del != {} then [DelElems(t, s, del)] else [];
    var b := if add != {} then [AddElems(t, s, add)] else [];
    ApplyConcat(st, a, b);
    var now := SetAt(st, t, s).value;
    UpdateTwice(have, want);
    var mid := ApplyAll(st, a);
    assert SetAt(mid, t, s) == Some(now.(elems := now.elems - del)) by {
      ApplyOne(st, DelElems(t, s, del));
      assert del == {} ==> now.elems - del == now.elems;
    }
    assert SetAt(ApplyAll(mid, b), t, s) == Some(now.(elems := (now.elems - del) + add)) by {
      ApplyOne(mid, AddElems(t, s, add));
      assert add == {} ==> (now.elems - del) + add == now.elems - del;
    }
  }

  lemma SetStep(rs: Ruleset, st: Ruleset, q: Req, t: TableId, s: SetId, want: SetObj)
    requires NamesSet(q, t, s) ==> q.obj == want
    requires SetAt(st, t, s) == SetAt(rs, t, s) || SetAt(st, t, s) == Some(SetResult(SetAt(rs, t, s), want))
    ensures SetAt(ApplyAll(st, OpsFor(q, rs)), t, s) ==
            if NamesSet(q, t, s) then Some(SetResult(SetAt(rs, t, s), want)) else SetAt(st, t, s)
  {
    if !NamesSet(q, t, s) {
      SetUntouched(st, OpsFor(q, rs), t, s);
    } else if SetAt(rs, t, s).Some? {
      SetOpsApply(st, t, s, Tab(rs, t).sets[s].elems, want.elems);
    } else {
      ApplyOne(st, AddSet(t, s, want));
      assert want.elems + want.elems == want.elems;
    }
  }

  /** A set after the flush: updated if it was there, new if it was not. */
  lemma {:induction false} FlushSet(rs: Ruleset, log: seq<Req>, t: TableId, s: SetId, want: SetObj)
    requires forall q :: q in log && NamesSet(q, t, s) ==> q.obj == want
    ensures SetAt(ApplyAll(rs, Ops(log, rs)), t, s) ==
            if HasSet(log, t, s) then Some(SetResult(SetAt(rs, t, s), want)) else SetAt(rs, t, s)
  {
    hide OpsFor, SetResult, SetAt;
    if log != [] {
      var n := |log| - 1;
      FlushSet(rs, log[..n], t, s, want);
      ApplyConcat(rs, Ops(log[..n], rs), OpsFor(log[n], rs));
      SetStep(rs, ApplyAll(rs, Ops(log[..n], rs)), log[n], t, s, want);
      HasSetSnoc(log, t, s);
    }
  }

  lemma HasSetSnoc(log: seq<Req>, t: TableId, s: SetId)
    requires log != []
    ensures HasSet(log, t, s) <==> HasSet(log[..|log| - 1], t, s) || NamesSet(log[|log| - 1], t, s)
  {
    var n := |log| - 1;
    assert log[n] in log && forall q :: q in log <==> q in log[..n] || q == log[n];
  }

  lemma PassSet(rs: Ruleset, w: seq<Req>, t: TableId, s: SetId, want: SetObj)
    requires TableReq(t) in w && Managed(t) && HasSet(w, t, s)
    requires forall q :: q in w && NamesSet(q, t, s) ==> q.obj == want
    ensures SetAt(Pass(rs, w), t, s) == Some(SetResult(SetAt(rs, t, s), want))
  {
    FlushSet(rs, w, t, s, want);
    SetsAfter(rs, w, t);
    var q :| q in w && q.SetReq? && q.t == t && q.s == s;
    assert (t, s) in SetsOf(w);
  }
}
