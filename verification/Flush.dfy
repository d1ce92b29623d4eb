/** What the main flush of a pass does to one chain: new rules are inserted in
    front or appended, present ones stay where they are, and only a forced
    update takes a rule out. */
module Flush {
  import opened Ids
  import opened Machine
  import opened Identity
  import opened Intervals
  import opened Elements
  import opened Kernel
  import opened Reconcile

  predicate AllRules(p: seq<Req>) {
    forall i :: 0 <= i < |p| ==> p[i].RuleReq?
  }

  predicate AimsAt(q: Req, t: TableId, c: ChainId) {
    q.RuleReq? && q.rule.table == t && q.rule.chain == c
  }

  /** The rule requests for one chain, in order. */
  function Proj(log: seq<Req>, t: TableId, c: ChainId): (p: seq<Req>)
    ensures AllRules(p)
  {
    if log == [] then [] else
    Proj(log[..|log| - 1], t, c) + if AimsAt(log[|log| - 1], t, c) then [log[|log| - 1]] else []
  }

  lemma {:induction false} ProjMembers(log: seq<Req>, t: TableId, c: ChainId, q: Req)
    ensures q in Proj(log, t, c) <==> q in log && AimsAt(q, t, c)
  {
    if log != [] {
      ProjMembers(log[..|log| - 1], t, c, q);
    }
  }

  lemma {:induction false} ProjConcat(a: seq<Req>, b: seq<Req>, t: TableId, c: ChainId)
    ensures Proj(a + b, t, c) == Proj(a, t, c) + Proj(b, t, c)
  {
    if b == [] {
      assert a + b == a;
    } else {
      var n := |b| - 1;
      assert (a + b)[..|a| + n] == a + b[..n];
      ProjConcat(a, b[..n], t, c);
    }
  }

  lemma {:induction false} ProjNone(log: seq<Req>, t: TableId, c: ChainId)
    requires forall i :: 0 <= i < |log| ==> !AimsAt(log[i], t, c)
    ensures Proj(log, t, c) == []
  {
    if log != [] {
      ProjNone(log[..|log| - 1], t, c);
    }
  }

  ghost predicate IsNew(q: Req, s: seq<Rule>)
    requires q.RuleReq?
  {
    q.force || q.rule !in s
  }

  /** Rules put in front of a chain of shape s, the latest first. */
  ghost function NewIns(p: seq<Req>, s: seq<Rule>): seq<Rule>
    requires AllRules(p)
  {
    if p == [] then [] else
    var q := p[|p| - 1];
    (if q.insert && IsNew(q, s) then [q.rule] else []) + NewIns(p[..|p| - 1], s)
  }

  /** Rules appended to a chain of shape s. */
  ghost function NewApp(p: seq<Req>, s: seq<Rule>): seq<Rule>
    requires AllRules(p)
  {
    if p == [] then [] else
    var q := p[|p| - 1];
    NewApp(p[..|p| - 1], s) + if !q.insert && IsNew(q, s) then [q.rule] else []
  }

  lemma {:induction false} NewAppConcat(a: seq<Req>, b: seq<Req>, s: seq<Rule>)
    requires AllRules(a) && AllRules(b)
    ensures NewApp(a + b, s) == NewApp(a, s) + NewApp(b, s)
  {
    if b == [] {
      assert a + b == a;
    } else {
      var n := |b| - 1;
      assert (a + b)[..|a| + n] == a + b[..n];
      NewAppConcat(a, b[..n], s);
    }
  }

  lemma {:induction false} NewMembers(p: seq<Req>, s: seq<Rule>, r: Rule)
    requires AllRules(p)
    ensures r in NewApp(p, s) <==> exists q :: q in p && !q.insert && IsNew(q, s) && q.rule == r
    ensures r in NewIns(p, s) <==> exists q :: q in p && q.insert && IsNew(q, s) && q.rule == r
  {
    if p != [] {
      var n := |p| - 1;
      NewMembers(p[..n], s, r);
      assert forall q :: q in p <==> q in p[..n] || q == p[n];
    }
  }

  /** Handles of the rules that forced updates replace. */
  ghost function Dels(p: seq<Req>, l: seq<Installed>): set<nat>
    requires AllRules(p)
  {
    set q | q in p && q.force && Find(l, q.rule).Some? :: Find(l, q.rule).value.handle
  }

  // ------------------------------------------------------------ operations

  predicate Touches(op: Op, t: TableId, c: ChainId) {
    op.t == t &&
    match op
    case DelTable(_) => true
    case AddChain(_, c') => false
    case DelChain(_, c') => c' == c
    case AppendRule(_, r) => r.chain == c
    case InsertRule(_, r) => r.chain == c
    case DelRule(_, c', _) => c' == c
    case _ => false
  }

  lemma Untouched(rs: Ruleset, op: Op, t: TableId, c: ChainId)
    requires !Touches(op, t, c)
    ensures ChainAt(Apply(rs, op), t, c) == ChainAt(rs, t, c)
    ensures Tab(Apply(rs, op), t).next >= Tab(rs, t).next
  {
  }

  lemma {:induction false} UntouchedAll(rs: Ruleset, ops: seq<Op>, t: TableId, c: ChainId)
    requires forall i :: 0 <= i < |ops| ==> !Touches(ops[i], t, c)
    ensures ChainAt(ApplyAll(rs, ops), t, c) == ChainAt(rs, t, c)
    ensures Tab(ApplyAll(rs, ops), t).next >= Tab(rs, t).next
  {
    if ops != [] {
      var n := |ops| - 1;
      UntouchedAll(rs, ops[..n], t, c);
      Untouched(ApplyAll(rs, ops[..n]), ops[n], t, c);
    }
  }

  lemma OpsForTouch(q: Req, rs: Ruleset, t: TableId, c: ChainId)
    ensures var ops := OpsFor(q, rs);
            && (forall i :: 0 <= i < |ops| ==> RuleInPlace(ops[i]))
            && (!AimsAt(q, t, c) ==>
                  forall i :: 0 <= i < |ops| ==> !Touches(ops[i], t, c))
  {
  }

  lemma {:induction false} MinusConcat(a: seq<Installed>, b: seq<Installed>, hs: set<nat>)
    ensures Minus(a + b, hs) == Minus(a, hs) + Minus(b, hs)
  {
    if b == [] {
      assert a + b == a;
    } else {
      var n := |b| - 1;
      assert (a + b)[..|a| + n] == a + b[..n];
      MinusConcat(a, b[..n], hs);
    }
  }

  lemma {:induction false} MinusAll(l: seq<Installed>, hs: set<nat>)
    requires forall i :: 0 <= i < |l| ==> l[i].handle !in hs
    ensures Minus(l, hs) == l
  {
    if l != [] {
      MinusAll(l[..|l| - 1], hs);
      assert l == l[..|l| - 1] + [l[|l| - 1]];
    }
  }

  lemma {:induction false} MinusMinus(l: seq<Installed>, a: set<nat>, b: set<nat>)
    ensures Minus(Minus(l, a), b) == Minus(l, a + b)
  {
    if l != [] {
      var n := |l| - 1;
      MinusMinus(l[..n], a, b);
      MinusConcat(Minus(l[..n], a), if l[n].handle in a then [] else [l[n]], b);
      MinusOne(l[n], b);
    }
  }

  lemma MinusOne(x: Installed, hs: set<nat>)
    ensures Minus([x], hs) == if x.handle in hs then [] else [x]
  {
    assert [x][..0] == [];
  }

  // ------------------------------------------------------------- the flush

  /** A chain during the flush: fresh rules around what is left of the old ones. */
  ghost predicate Around(l: seq<Installed>, ins: seq<Installed>, old_: seq<Installed>, app: seq<Installed>, next: nat) {
    && l == ins + old_ + app
    && (forall i :: 0 <= i < |ins| ==> ins[i].handle >= next)
    && (forall i :: 0 <= i < |app| ==> app[i].handle >= next)
  }

  /** Removing an old handle from a chain only shortens its old part. */
  lemma AroundMinus(l: seq<Installed>, ins: seq<Installed>, old_: seq<Installed>, app: seq<Installed>, next: nat,
                    h: nat)
    requires Around(l, ins, old_, app, next) && h < next
    ensures Around(Minus(l, {h}), ins, Minus(old_, {h}), app, next)
  {
    MinusConcat(ins + old_, app, {h});
    MinusConcat(ins, old_, {h});
    MinusAll(ins, {h});
    MinusAll(app, {h});
  }

  /** One request while the flush is under way. */
  lemma FlushOne(rs: Ruleset, st: Ruleset, q: Req, ins: seq<Installed>, hs: set<nat>, app: seq<Installed>)
    returns (ins': seq<Installed>, app': seq<Installed>)
    requires WellFormed(rs) && q.RuleReq? && Canonical(q.rule)
    requires Flushing(rs, st, q.rule.table, q.rule.chain, ins, hs, app)
    ensures var l := ChainAt(rs, q.rule.table, q.rule.chain);
            && Flushing(rs, ApplyAll(st, OpsFor(q, rs)), q.rule.table, q.rule.chain, ins', hs + Dels([q], l), app')
            && Shape(ins') == (if q.insert && IsNew(q, Shape(l)) then [q.rule] else []) + Shape(ins)
            && Shape(app') == Shape(app) + (if !q.insert && IsNew(q, Shape(l)) then [q.rule] else [])
  {
    var r := q.rule;
    var t, c := r.table, r.chain;
    var l := ChainAt(rs, t, c);
    ChainAtOk(rs, t, c);
    FindShape(t, c, l, Tab(rs, t).next, r);
    CanonicalStrip(r);
    var e := Find(l, r);
    if e.None? {
      assert Dels([q], l) == {} && hs + {} == hs;
      ins', app' := AddStep(rs, st, q, r, ins, hs, app);
      ApplyOne(st, if q.insert then InsertRule(t, r) else AppendRule(t, r));
    } else if !q.force {
      ins', app' := ins, app;
      assert Dels([q], l) == {} && hs + {} == hs;
      assert OpsFor(q, rs) == [];
    } else {
      var del := DelRule(t, c, e.value.handle);
      assert Dels([q], l) == {e.value.handle};
      DelStep(rs, st, t, c, e.value, ins, hs, app);
      var mid, r' := Apply(st, del), WithCounterOf(r, e.value.rule);
      CounterSwap(r, e.value.rule);
      ins', app' := AddStep(rs, mid, q, r', ins, hs + {e.value.handle}, app);
      var op := if q.insert then InsertRule(t, r') else AppendRule(t, r');
      ApplyConcat(st, [del], [op]);
      ApplyOne(st, del);
      ApplyOne(mid, op);
    }
  }

  ghost predicate Flushing(rs: Ruleset, st: Ruleset, t: TableId, c: ChainId,
                           ins: seq<Installed>, hs: set<nat>, app: seq<Installed>)
  {
    && Around(ChainAt(st, t, c), ins, Minus(ChainAt(rs, t, c), hs), app, Tab(rs, t).next)
    && Tab(st, t).next >= Tab(rs, t).next
  }

  lemma DelStep(rs: Ruleset, st: Ruleset, t: TableId, c: ChainId, e: Installed,
                ins: seq<Installed>, hs: set<nat>, app: seq<Installed>)
    requires WellFormed(rs) && e in ChainAt(rs, t, c) && Flushing(rs, st, t, c, ins, hs, app)
    ensures Flushing(rs, Apply(st, DelRule(t, c, e.handle)), t, c, ins, hs + {e.handle}, app)
  {
    var l := ChainAt(rs, t, c);
    var i :| 0 <= i < |l| && l[i] == e;
    ChainAtOk(rs, t, c);
    AroundMinus(ChainAt(st, t, c), ins, Minus(l, hs), app, Tab(rs, t).next, e.handle);
    MinusMinus(l, hs, {e.handle});
    MinusEmptyChain(st, t, c, e.handle);
  }

  lemma AddAt(st: Ruleset, r: Rule, insert: bool)
    ensures var t, c := r.table, r.chain;
            var st', x := Apply(st, if insert then InsertRule(t, r) else AppendRule(t, r)),
                          Installed(Tab(st, t).next, r);
            && ChainAt(st', t, c) == (if insert then [x] else []) + ChainAt(st, t, c) + (if insert then [] else [x])
            && Tab(st', t).next == Tab(st, t).next + 1
  {
  }

  lemma AddStep(rs: Ruleset, st: Ruleset, q: Req, r: Rule, ins: seq<Installed>, hs: set<nat>, app: seq<Installed>)
    returns (ins': seq<Installed>, app': seq<Installed>)
    requires q.RuleReq? && r.table == q.rule.table && r.chain == q.rule.chain && Strip(r) == q.rule
    requires Flushing(rs, st, r.table, r.chain, ins, hs, app)
    ensures var op := if q.insert then InsertRule(r.table, r) else AppendRule(r.table, r);
            Flushing(rs, Apply(st, op), r.table, r.chain, ins', hs, app')
    ensures Shape(ins') == (if q.insert then [q.rule] else []) + Shape(ins)
    ensures Shape(app') == Shape(app) + (if q.insert then [] else [q.rule])
  {
    hide Minus, Strip, Apply, ChainAt, Tab;
    var x := Installed(Tab(st, r.table).next, r);
    assert Shape([x]) == [q.rule];
    var old_ := Minus(ChainAt(rs, r.table, r.chain), hs);
    ins', app' := ins, app;
    AddEnds(x, ins, old_, app);
    AddAt(st, r, q.insert);
    if q.insert {
      ins' := [x] + ins;
      ShapeConcat([x], ins);
    } else {
      app' := app + [x];
      ShapeConcat(app, [x]);
    }
  }

  lemma AddEnds(x: Installed, ins: seq<Installed>, old_: seq<Installed>, app: seq<Installed>)
    ensures [x] + (ins + old_ + app) == ([x] + ins) + old_ + app
    ensures (ins + old_ + app) + [x] == ins + old_ + (app + [x])
  {
  }

  lemma MinusEmptyChain(rs: Ruleset, t: TableId, c: ChainId, h: nat)
    ensures ChainAt(Apply(rs, DelRule(t, c, h)), t, c) == Minus(ChainAt(rs, t, c), {h})
    ensures Tab(Apply(rs, DelRule(t, c, h)), t).next == Tab(rs, t).next
  {
  }

  /** The flush, chain by chain: inserted rules, the old chain less the rules a
      forced update replaced, appended rules. */
  lemma {:induction false} FlushChain(rs: Ruleset, log: seq<Req>, t: TableId, c: ChainId)
    returns (ins: seq<Installed>, app: seq<Installed>)
    requires WellFormed(rs) && CanonicalLog(log)
    ensures var l := ChainAt(rs, t, c);
            var p := Proj(log, t, c);
            var st := ApplyAll(rs, Ops(log, rs));
            && Flushing(rs, st, t, c, ins, Dels(p, l), app)
            && Shape(ins) == NewIns(p, Shape(l))
            && Shape(app) == NewApp(p, Shape(l))
  {
    var l := ChainAt(rs, t, c);
    if log == [] {
      ins, app := [], [];
      MinusAll(l, Dels([], l));
    } else {
      var n := |log| - 1;
      var init, q := log[..n], log[n];
      assert forall x :: x in init ==> x in log;
      ins, app := FlushChain(rs, init, t, c);
      var p := Proj(init, t, c);
      var st := ApplyAll(rs, Ops(init, rs));
      ApplyConcat(rs, Ops(init, rs), OpsFor(q, rs));
      OpsForTouch(q, rs, t, c);
      if AimsAt(q, t, c) {
        assert q in log;
        var full := Proj(log, t, c);
        assert full == p + [q] && full[..|p|] == p;
        ins, app := FlushOne(rs, st, q, ins, Dels(p, l), app);
        DelsSnoc(p, q, l);
      } else {
        UntouchedAll(st, OpsFor(q, rs), t, c);
        assert Proj(log, t, c) == p;
      }
    }
  }

  lemma DelsSnoc(p: seq<Req>, q: Req, l: seq<Installed>)
    requires q.RuleReq? && AllRules(p)
    ensures Dels(p + [q], l) == Dels(p, l) + Dels([q], l)
  {
  }

  lemma {:induction false} OpsInPlace(log: seq<Req>, rs: Ruleset)
    ensures forall i :: 0 <= i < |Ops(log, rs)| ==> RuleInPlace(Ops(log, rs)[i])
  {
    if log != [] {
      var n := |log| - 1;
      OpsInPlace(log[..n], rs);
      OpsForTouch(log[n], rs, FILTER, OtherChain(""));
    }
  }

  lemma FlushOk(rs: Ruleset, log: seq<Req>)
    requires WellFormed(rs)
    ensures WellFormed(ApplyAll(rs, Ops(log, rs)))
  {
    OpsInPlace(log, rs);
    ApplyAllOk(rs, Ops(log, rs));
  }
}
