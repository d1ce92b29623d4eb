/** The whole pass: which objects exist after it, and what each chain holds. */
module Cleanup {
  import opened Ids
  import opened Machine
  import opened Identity
  import opened Intervals
  import opened Elements
  import opened Kernel
  import opened Reconcile
  import opened Flush

  // ------------------------------------------------ objects after the flush

  /** Requests only ever add objects. */
  predicate Grows(op: Op) {
    !op.DelTable? && !op.DelChain? && !op.DelSet?
  }

  lemma OpsForGrow(q: Req, rs: Ruleset)
    ensures forall i :: 0 <= i < |OpsFor(q, rs)| ==> Grows(OpsFor(q, rs)[i]) && OpsFor(q, rs)[i].t == TableOf(q)
  {
  }

  /** What exists in table a also exists in table b. */
  ghost predicate Extends(a: Table, b: Table) {
    a.chains.Keys <= b.chains.Keys && a.sets.Keys <= b.sets.Keys
  }

  lemma {:induction false} GrowAll(rs: Ruleset, ops: seq<Op>, t: TableId)
    requires forall i :: 0 <= i < |ops| ==> Grows(ops[i])
    ensures (t in rs ==> t in ApplyAll(rs, ops)) && Extends(Tab(rs, t), Tab(ApplyAll(rs, ops), t))
  {
    if ops != [] {
      GrowAll(rs, ops[..|ops| - 1], t);
    }
  }

  lemma {:induction false} OtherTable(rs: Ruleset, ops: seq<Op>, t: TableId)
    requires forall i :: 0 <= i < |ops| ==> ops[i].t != t
    ensures t in ApplyAll(rs, ops) <==> t in rs
    ensures t in rs ==> ApplyAll(rs, ops)[t] == rs[t]
  {
    if ops != [] {
      OtherTable(rs, ops[..|ops| - 1], t);
    }
  }

  lemma {:induction false} FlushGrows(rs: Ruleset, log: seq<Req>, t: TableId)
    ensures var st := ApplyAll(rs, Ops(log, rs));
            (t in rs ==> t in st) && Extends(Tab(rs, t), Tab(st, t))
  {
    if log != [] {
      var n := |log| - 1;
      FlushGrows(rs, log[..n], t);
      ApplyConcat(rs, Ops(log[..n], rs), OpsFor(log[n], rs));
      OpsForGrow(log[n], rs);
      GrowAll(ApplyAll(rs, Ops(log[..n], rs)), OpsFor(log[n], rs), t);
    }
  }

  lemma {:induction false} FlushOther(rs: Ruleset, log: seq<Req>, t: TableId)
    requires forall i :: 0 <= i < |log| ==> TableOf(log[i]) != t
    ensures var st := ApplyAll(rs, Ops(log, rs));
            (t in st <==> t in rs) && (t in rs ==> st[t] == rs[t])
  {
    if log != [] {
      var n := |log| - 1;
      FlushOther(rs, log[..n], t);
      ApplyConcat(rs, Ops(log[..n], rs), OpsFor(log[n], rs));
      OpsForGrow(log[n], rs);
      OtherTable(ApplyAll(rs, Ops(log[..n], rs)), OpsFor(log[n], rs), t);
    }
  }

  /** What a request asks for is there. */
  ghost predicate Served(q: Req, st: Ruleset) {
    match q
    case TableReq(t) => t in st
    case ChainReq(t, c) => c in Tab(st, t).chains
    case SetReq(t, s, _) => s in Tab(st, t).sets
    case RuleReq(_, _, _) => true
  }

  lemma ServedNow(q: Req, rs: Ruleset, st: Ruleset)
    requires (TableOf(q) in rs ==> TableOf(q) in st) && Extends(Tab(rs, TableOf(q)), Tab(st, TableOf(q)))
    ensures Served(q, ApplyAll(st, OpsFor(q, rs)))
  {
    var ops := OpsFor(q, rs);
    OpsForGrow(q, rs);
    GrowAll(st, ops, TableOf(q));
    if |ops| == 1 {
      ApplyOne(st, ops[0]);
    }
  }

  lemma OpsSnoc(rs: Ruleset, log: seq<Req>)
    requires log != []
    ensures ApplyAll(rs, Ops(log, rs)) == ApplyAll(ApplyAll(rs, Ops(log[..|log| - 1], rs)), OpsFor(log[|log| - 1], rs))
  {
    hide OpsFor, ApplyAll;
    ApplyConcat(rs, Ops(log[..|log| - 1], rs), OpsFor(log[|log| - 1], rs));
  }

  lemma ServedStill(q: Req, st: Ruleset, st': Ruleset)
    requires Served(q, st) && (TableOf(q) in st ==> TableOf(q) in st')
    requires Extends(Tab(st, TableOf(q)), Tab(st', TableOf(q)))
    ensures Served(q, st')
  {
  }

  lemma {:induction false} FlushServes(rs: Ruleset, log: seq<Req>, q: Req)
    requires q in log
    ensures Served(q, ApplyAll(rs, Ops(log, rs)))
  {
    hide OpsFor, Served, Ops, ApplyAll, TableOf;
    var n := |log| - 1;
    var st := ApplyAll(rs, Ops(log[..n], rs));
    OpsSnoc(rs, log);
    if q in log[..n] {
      FlushServes(rs, log[..n], q);
      OpsForGrow(log[n], rs);
      GrowAll(st, OpsFor(log[n], rs), TableOf(q));
      ServedStill(q, st, ApplyAll(st, OpsFor(log[n], rs)));
    } else {
      FlushGrows(rs, log[..n], TableOf(q));
      ServedNow(q, rs, st);
    }
  }

  /** The chains and sets a list of requests names in table t. */
  ghost predicate NamesChain(q: Req, t: TableId, c: ChainId) {
    q == ChainReq(t, c) || AimsAt(q, t, c)
  }

  ghost predicate NamesSet(q: Req, t: TableId, s: SetId) {
    q.SetReq? && q.t == t && q.s == s
  }

  ghost predicate OpNamesChain(op: Op, t: TableId, c: ChainId) {
    op == AddChain(t, c) || ((op.AppendRule? || op.InsertRule?) && op.t == t && op.rule.chain == c)
  }

  lemma NothingElseOp(st: Ruleset, op: Op, t: TableId)
    ensures forall c :: c in Tab(Apply(st, op), t).chains ==> c in Tab(st, t).chains || OpNamesChain(op, t, c)
    ensures forall s :: s in Tab(Apply(st, op), t).sets ==>
              s in Tab(st, t).sets || (op.AddSet? && op.t == t && op.s == s)
  {
  }

  lemma OpsForNames(q: Req, rs: Ruleset, t: TableId)
    ensures forall op :: op in OpsFor(q, rs) ==>
              && (forall c :: OpNamesChain(op, t, c) ==> NamesChain(q, t, c))
              && (op.AddSet? && op.t == t ==> NamesSet(q, t, op.s))
  {
  }

  lemma {:induction false} NothingElseNow(q: Req, st: Ruleset, ops: seq<Op>, t: TableId)
    requires forall op :: op in ops ==>
              && (forall c :: OpNamesChain(op, t, c) ==> NamesChain(q, t, c))
              && (op.AddSet? && op.t == t ==> NamesSet(q, t, op.s))
    ensures var st' := ApplyAll(st, ops);
            && (forall c :: c in Tab(st', t).chains ==> c in Tab(st, t).chains || NamesChain(q, t, c))
            && (forall s :: s in Tab(st', t).sets ==> s in Tab(st, t).sets || NamesSet(q, t, s))
  {
    if ops != [] {
      var n := |ops| - 1;
      assert ops[n] in ops && forall op :: op in ops[..n] ==> op in ops;
      NothingElseNow(q, st, ops[..n], t);
      NothingElseOp(ApplyAll(st, ops[..n]), ops[n], t);
    }
  }

  lemma {:induction false} FlushNothingElse(rs: Ruleset, log: seq<Req>, t: TableId)
    ensures var st := ApplyAll(rs, Ops(log, rs));
            && (forall c :: c in Tab(st, t).chains ==>
                c in Tab(rs, t).chains || exists q :: q in log && NamesChain(q, t, c))
            && (forall s :: s in Tab(st, t).sets ==> s in Tab(rs, t).sets || exists q :: q in log && NamesSet(q, t, s))
  {
    hide OpsFor, NamesChain, NamesSet, OpNamesChain;
    if log != [] {
      var n := |log| - 1;
      FlushNothingElse(rs, log[..n], t);
      OpsSnoc(rs, log);
      hide Ops, ApplyAll;
      OpsForNames(log[n], rs, t);
      NothingElseNow(log[n], ApplyAll(rs, Ops(log[..n], rs)), OpsFor(log[n], rs), t);
      assert log[n] in log && forall q :: q in log[..n] ==> q in log;
    }
  }

  // ---------------------------------------------------------- chain shapes

  /** The rules of a shape whose key a request for the chain has. */
  ghost predicate Wanted(r: Rule, p: seq<Req>) {
    exists q :: q in p && q.RuleReq? && KeyOf(q.rule) == KeyOf(r)
  }

  ghost function Keep(s: seq<Rule>, p: seq<Req>): seq<Rule> {
    if s == [] then [] else Keep(s[..|s| - 1], p) + if Wanted(s[|s| - 1], p) then [s[|s| - 1]] else []
  }

  lemma {:induction false} KeepConcat(a: seq<Rule>, b: seq<Rule>, p: seq<Req>)
    ensures Keep(a + b, p) == Keep(a, p) + Keep(b, p)
  {
    if b == [] {
      assert a + b == a;
    } else {
      var n := |b| - 1;
      assert (a + b)[..|a| + n] == a + b[..n];
      KeepConcat(a, b[..n], p);
    }
  }

  lemma {:induction false} KeepAll(s: seq<Rule>, p: seq<Req>)
    requires forall i :: 0 <= i < |s| ==> Wanted(s[i], p)
    ensures Keep(s, p) == s
  {
    if s != [] {
      KeepAll(s[..|s| - 1], p);
      assert s == s[..|s| - 1] + [s[|s| - 1]];
    }
  }

  lemma {:induction false} KeepNone(s: seq<Rule>, p: seq<Req>)
    requires forall i :: 0 <= i < |s| ==> !Wanted(s[i], p)
    ensures Keep(s, p) == []
  {
    if s != [] {
      KeepNone(s[..|s| - 1], p);
    }
  }

  lemma {:induction false} KeepMembers(s: seq<Rule>, p: seq<Req>, r: Rule)
    ensures r in Keep(s, p) <==> r in s && Wanted(r, p)
  {
    if s != [] {
      KeepMembers(s[..|s| - 1], p, r);
    }
  }

  lemma WantedByKey(log: seq<Req>, r: Rule)
    ensures KeyOf(r) in KeysOf(log) <==> Wanted(r, Proj(log, r.table, r.chain))
  {
    if KeyOf(r) in KeysOf(log) {
      var q :| q in log && q.RuleReq? && KeyOf(q.rule) == KeyOf(r);
      ProjMembers(log, r.table, r.chain, q);
    }
    if q :| q in Proj(log, r.table, r.chain) && q.RuleReq? && KeyOf(q.rule) == KeyOf(r) {
      ProjMembers(log, r.table, r.chain, q);
    }
  }

  lemma {:induction false} TrackedShape(t: TableId, c: ChainId, l: seq<Installed>, next: nat, log: seq<Req>)
    requires ChainOk(t, c, l, next)
    ensures Shape(Tracked(l, KeysOf(log))) == Keep(Shape(l), Proj(log, t, c))
  {
    hide KeyOf, Strip, KeysOf, Proj, Wanted;
    if l != [] {
      var n := |l| - 1;
      assert forall i :: 0 <= i < n ==> l[..n][i] == l[i];
      TrackedShape(t, c, l[..n], next, log);
      TrackedByKey(t, c, l[n], log);
      assert Shape(l)[..n] == Shape(l[..n]);
      ShapeConcat(Tracked(l[..n], KeysOf(log)), if KeyOf(l[n].rule) in KeysOf(log) then [l[n]] else []);
    }
  }

  lemma TrackedByKey(t: TableId, c: ChainId, x: Installed, log: seq<Req>)
    requires x.rule.table == t && x.rule.chain == c
    ensures KeyOf(x.rule) in KeysOf(log) <==> Wanted(Strip(x.rule), Proj(log, t, c))
  {
    WantedByKey(log, Strip(x.rule));
    StripKey(x.rule);
  }

  lemma {:induction false} TrackedOk(t: TableId, c: ChainId, l: seq<Installed>, next: nat, keys: set<Key>)
    requires ChainOk(t, c, l, next)
    ensures ChainOk(t, c, Tracked(l, keys), next)
    ensures forall x :: x in Tracked(l, keys) ==> x in l && KeyOf(x.rule) in keys
  {
    if l != [] {
      var n := |l| - 1;
      assert forall i :: 0 <= i < n ==> l[..n][i] == l[i];
      TrackedOk(t, c, l[..n], next, keys);
      var m := Tracked(l[..n], keys);
      forall i | 0 <= i < |m| ensures m[i].handle != l[n].handle {
        var j :| 0 <= j < n && l[..n][j] == m[i];
      }
      ChainSnocOk(t, c, m, l[n], next);
    }
  }

  // ---------------------------------------------------------------- stages

  /** From which commit of a pass on a managed table is clean. */
  function CleanFrom(t: TableId): nat {
    if t == FILTER then 2 else 3
  }

  lemma CleanTableOk(t: TableId, tb: Table, log: seq<Req>)
    requires TableOk(t, tb)
    ensures TableOk(t, CleanTable(t, tb, KeysOf(log), SetsOf(log)))
  {
    forall c | c in tb.chains ensures ChainOk(t, c, Tracked(tb.chains[c], KeysOf(log)), tb.next) {
      TrackedOk(t, c, tb.chains[c], tb.next, KeysOf(log));
    }
  }

  lemma {:induction false} StageOk(rs: Ruleset, log: seq<Req>, k: nat)
    requires WellFormed(rs)
    ensures WellFormed(Stage(rs, log, k))
    decreases k
  {
    if k == 1 {
      FlushOk(rs, log);
    } else if k > 1 {
      StageOk(rs, log, k - 1);
      var s := Stage(rs, log, k - 1);
      if k == 2 && FILTER in s {
        CleanTableOk(FILTER, s[FILTER], log);
      } else if k == 3 && NAT in s {
        CleanTableOk(NAT, s[NAT], log);
      }
    }
  }

  /** Stages 2 to 4 never touch an unmanaged table. */
  lemma {:induction false} StageOther(rs: Ruleset, log: seq<Req>, k: nat, t: TableId)
    requires !Managed(t) && k >= 1
    ensures t in Stage(rs, log, k) <==> t in Stage(rs, log, 1)
    ensures t in Stage(rs, log, 1) ==> Stage(rs, log, k)[t] == Stage(rs, log, 1)[t]
    decreases k
  {
    if k > 1 {
      StageOther(rs, log, k - 1, t);
    }
  }

  lemma StageStep(rs: Ruleset, log: seq<Req>, k: nat, t: TableId)
    requires Managed(t) && k >= 1
    ensures var s, s' := Stage(rs, log, k), Stage(rs, log, k + 1);
            && (t in s' <==> t in s)
            && (t !in s ==> Tab(s', t) == Tab(s, t))
            && (t in s && k + 1 == CleanFrom(t) ==>
                  Tab(s', t) == CleanTable(t, Tab(s, t), KeysOf(log), SetsOf(log)))
            && (t in s && k + 1 == 4 ==> Tab(s', t) == DropChains(t, Tab(s, t), ChainsOf(log)))
            && (t in s && k + 1 != CleanFrom(t) && k + 1 != 4 ==> Tab(s', t) == Tab(s, t))
  {
  }

  lemma CleanTableChain(t: TableId, tb: Table, log: seq<Req>, c: ChainId)
    ensures Chain(CleanTable(t, tb, KeysOf(log), SetsOf(log)), c) == Tracked(Chain(tb, c), KeysOf(log))
  {
  }

  lemma DropChainsChain(t: TableId, tb: Table, log: seq<Req>, c: ChainId)
    ensures Chain(DropChains(t, tb, ChainsOf(log)), c) == Chain(tb, c)
  {
  }

  /** A chain of a managed table at every commit of a pass. */
  lemma {:induction false} StageChain(rs: Ruleset, log: seq<Req>, k: nat, t: TableId, c: ChainId)
    requires WellFormed(rs) && Managed(t) && k >= 1
    ensures ChainAt(Stage(rs, log, k), t, c) ==
            if k < CleanFrom(t) then ChainAt(Stage(rs, log, 1), t, c)
            else Tracked(ChainAt(Stage(rs, log, 1), t, c), KeysOf(log))
    decreases k
  {
    if k > 1 {
      StageChain(rs, log, k - 1, t, c);
      StageStep(rs, log, k - 1, t);
      var tb := Tab(Stage(rs, log, k - 1), t);
      CleanTableChain(t, tb, log, c);
      DropChainsChain(t, tb, log, c);
      if t !in Stage(rs, log, k - 1) && k >= CleanFrom(t) {
        assert Tracked([], KeysOf(log)) == [];
      }
    }
  }

  lemma StageShape(rs: Ruleset, log: seq<Req>, k: nat, t: TableId, c: ChainId)
    requires WellFormed(rs) && Managed(t) && k >= 1
    ensures ShapeAt(Stage(rs, log, k), t, c) ==
            if k < CleanFrom(t) then ShapeAt(Stage(rs, log, 1), t, c)
            else Keep(ShapeAt(Stage(rs, log, 1), t, c), Proj(log, t, c))
  {
    StageChain(rs, log, k, t, c);
    StageOk(rs, log, 1);
    ChainAtOk(Stage(rs, log, 1), t, c);
    TrackedShape(t, c, ChainAt(Stage(rs, log, 1), t, c), Tab(Stage(rs, log, 1), t).next, log);
  }

  // ---------------------------------------------- the two forms of a flush

  /** No forced update meets an installed rule. */
  ghost predicate Unforced(p: seq<Req>, s: seq<Rule>) {
    forall i :: 0 <= i < |p| ==> p[i].RuleReq? && (p[i].force ==> p[i].rule !in s)
  }

  lemma UnforcedDels(p: seq<Req>, t: TableId, c: ChainId, l: seq<Installed>, next: nat)
    requires ChainOk(t, c, l, next) && Unforced(p, Shape(l))
    requires forall i :: 0 <= i < |p| ==> Canonical(p[i].rule) && p[i].rule.table == t
    ensures Dels(p, l) == {}
  {
    forall q | q in p && q.force ensures Find(l, q.rule).None? {
      var i :| 0 <= i < |p| && p[i] == q;
      FindShape(t, c, l, next, q.rule);
    }
  }

  lemma ProjCanonical(log: seq<Req>, t: TableId, c: ChainId)
    requires CanonicalLog(log)
    ensures forall i :: 0 <= i < |Proj(log, t, c)| ==>
              Canonical(Proj(log, t, c)[i].rule) && AimsAt(Proj(log, t, c)[i], t, c)
  {
    forall i | 0 <= i < |Proj(log, t, c)|
      ensures Canonical(Proj(log, t, c)[i].rule) && AimsAt(Proj(log, t, c)[i], t, c)
    {
      ProjMembers(log, t, c, Proj(log, t, c)[i]);
    }
  }

  lemma FlushPlain(rs: Ruleset, log: seq<Req>, t: TableId, c: ChainId)
    requires WellFormed(rs) && CanonicalLog(log)
    requires Unforced(Proj(log, t, c), ShapeAt(rs, t, c))
    ensures var p, s := Proj(log, t, c), ShapeAt(rs, t, c);
            ShapeAt(Stage(rs, log, 1), t, c) == NewIns(p, s) + s + NewApp(p, s)
  {
    var l := ChainAt(rs, t, c);
    ChainAtOk(rs, t, c);
    ProjCanonical(log, t, c);
    UnforcedDels(Proj(log, t, c), t, c, l, Tab(rs, t).next);
    var ins, app := FlushChain(rs, log, t, c);
    MinusAll(l, {});
    ShapeConcat(ins + l, app);
    ShapeConcat(ins, l);
  }

  /** The last request of a chain is forced and its rule is the last one there:
      the rule moves behind everything that was appended. */
  lemma FlushForced(rs: Ruleset, log: seq<Req>, t: TableId, c: ChainId, p: seq<Req>, q: Req, x: seq<Rule>)
    requires WellFormed(rs) && CanonicalLog(log)
    requires Proj(log, t, c) == p + [q] && AllRules(p) && q.RuleReq? && q.force && !q.insert
    requires ShapeAt(rs, t, c) == x + [q.rule] && q.rule !in x
    requires Unforced(p, x + [q.rule])
    ensures ShapeAt(Stage(rs, log, 1), t, c) == NewIns(p, x + [q.rule]) + x + NewApp(p, x + [q.rule]) + [q.rule]
  {
    var l, s := ChainAt(rs, t, c), x + [q.rule];
    var n := |l| - 1;
    ChainAtOk(rs, t, c);
    ForcedDels(log, t, c, l, Tab(rs, t).next, p, q, x);
    MinusLast(t, c, l, Tab(rs, t).next);
    var ins, app := FlushChain(rs, log, t, c);
    assert ChainAt(Stage(rs, log, 1), t, c) == ins + l[..n] + app;
    ShapeConcat(ins + l[..n], app);
    ShapeConcat(ins, l[..n]);
    ShapeFront(l);
    assert Shape(l)[..n] == x;
    NewSnoc(p, q, s);
    assert Shape(ins) == NewIns(p, s) && Shape(app) == NewApp(p, s) + [q.rule];
    Reassociate(NewIns(p, s), x, NewApp(p, s), [q.rule]);
  }

  lemma Reassociate(a: seq<Rule>, b: seq<Rule>, c: seq<Rule>, d: seq<Rule>)
    ensures (a + b) + (c + d) == a + b + c + d
  {
  }

  lemma ForcedDels(log: seq<Req>, t: TableId, c: ChainId, l: seq<Installed>, next: nat, p: seq<Req>, q: Req,
                   x: seq<Rule>)
    requires CanonicalLog(log) && ChainOk(t, c, l, next)
    requires Proj(log, t, c) == p + [q] && AllRules(p) && q.RuleReq? && q.force
    requires Shape(l) == x + [q.rule] && q.rule !in x && Unforced(p, Shape(l))
    ensures Dels(p + [q], l) == {l[|l| - 1].handle}
  {
    ProjCanonical(log, t, c);
    forall i | 0 <= i < |p| ensures Canonical(p[i].rule) && p[i].rule.table == t {
      assert (p + [q])[i] == p[i];
    }
    assert (p + [q])[|p|] == q;
    UnforcedDels(p, t, c, l, next);
    LastFound(t, c, l, next, q.rule, x);
    DelsSnoc(p, q, l);
  }

  lemma ShapeFront(l: seq<Installed>)
    requires l != []
    ensures Shape(l[..|l| - 1]) == Shape(l)[..|l| - 1]
  {
  }

  lemma NewSnoc(p: seq<Req>, q: Req, s: seq<Rule>)
    requires AllRules(p) && q.RuleReq? && !q.insert
    ensures NewApp(p + [q], s) == NewApp(p, s) + if IsNew(q, s) then [q.rule] else []
    ensures NewIns(p + [q], s) == NewIns(p, s)
  {
    assert (p + [q])[..|p|] == p;
    assert [] + NewIns(p, s) == NewIns(p, s);
  }

  lemma MinusLast(t: TableId, c: ChainId, l: seq<Installed>, next: nat)
    requires ChainOk(t, c, l, next) && l != []
    ensures Minus(l, {l[|l| - 1].handle}) == l[..|l| - 1]
  {
    var n := |l| - 1;
    MinusAll(l[..n], {l[n].handle});
  }

  lemma LastFound(t: TableId, c: ChainId, l: seq<Installed>, next: nat, r: Rule, x: seq<Rule>)
    requires ChainOk(t, c, l, next) && Canonical(r) && r.table == t
    requires Shape(l) == x + [r] && r !in x
    ensures Find(l, r) == Some(l[|l| - 1])
  {
    FindShape(t, c, l, next, r);
    assert Shape(l)[|l| - 1] == r;
    var e := Find(l, r).value;
    var i :| 0 <= i < |l| && l[i] == e;
    CanonicalStrip(r);
    RuleEqualIsStripEqual(r, e.rule);
    assert (x + [r])[i] == r;
  }
}
