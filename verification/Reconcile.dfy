/** One reconcile pass as a function of the committed ruleset and of the
    requests the compiler makes: what is queued, what the kernel holds after the
    flush, and what the cleanup leaves. */
module Reconcile {
  import opened Ids
  import opened Machine
  import opened Identity
  import opened Intervals
  import opened Elements
  import opened Kernel

  /** Calls of addTable, addChain, updateSet and updateRule. */
  datatype Req =
    | TableReq(t: TableId)
    | ChainReq(t: TableId, c: ChainId)
    | SetReq(t: TableId, s: SetId, obj: SetObj)
    | RuleReq(rule: Rule, insert: bool, force: bool)

  function TableOf(q: Req): TableId {
    if q.RuleReq? then q.rule.table else q.t
  }

  // -------------------------------------------------------------- queueing

  function Find(l: seq<Installed>, r: Rule): (e: Option<Installed>)
    ensures e.Some? ==> e.value in l && RuleEqual(r, e.value.rule)
    ensures e.None? ==> forall x :: x in l ==> !RuleEqual(r, x.rule)
  {
    if l == [] then None
    else if RuleEqual(r, l[0].rule) then Some(l[0])
    else Find(l[1..], r)
  }

  ghost function SetOps(t: TableId, s: SetId, have: set<Elem>, want: set<Elem>): seq<Op> {
    var add, del := Missing(want, have), Missing(have, want);
    (if del != {} then [DelElems(t, s, del)] else []) + (if add != {} then [AddElems(t, s, add)] else [])
  }

  function RuleOps(l: seq<Installed>, r: Rule, insert: bool, force: bool): seq<Op> {
    var e := Find(l, r);
    if e.Some? && !force then []
    else
      var r' := if e.Some? then WithCounterOf(r, e.value.rule) else r;
      (if e.Some? then [DelRule(r.table, r.chain, e.value.handle)] else []) +
      [if insert then InsertRule(r.table, r') else AppendRule(r.table, r')]
  }

  /** The operations queued for one request, decided on the committed ruleset. */
  ghost function OpsFor(q: Req, rs: Ruleset): seq<Op> {
    match q
    case TableReq(t) => if t in rs then [] else [AddTable(t)]
    case ChainReq(t, c) => if c in Tab(rs, t).chains then [] else [AddChain(t, c)]
    case SetReq(t, s, obj) =>
      if s in Tab(rs, t).sets then SetOps(t, s, Tab(rs, t).sets[s].elems, obj.elems) else [AddSet(t, s, obj)]
    case RuleReq(r, insert, force) => RuleOps(ChainAt(rs, r.table, r.chain), r, insert, force)
  }

  ghost function Ops(log: seq<Req>, rs: Ruleset): seq<Op> {
    if log == [] then [] else Ops(log[..|log| - 1], rs) + OpsFor(log[|log| - 1], rs)
  }

  // -------------------------------------------------------------- tracking

  ghost function KeysOf(log: seq<Req>): set<Key> {
    set q | q in log && q.RuleReq? :: KeyOf(q.rule)
  }

  ghost function SetsOf(log: seq<Req>): set<(TableId, SetId)> {
    set q | q in log && q.SetReq? :: (q.t, q.s)
  }

  ghost function ChainsOf(log: seq<Req>): set<(TableId, ChainId)> {
    set q | q in log && q.ChainReq? :: (q.t, q.c)
  }

  // --------------------------------------------------------------- cleanup

  /** The rules of a chain whose key is tracked. */
  ghost function Tracked(l: seq<Installed>, keys: set<Key>): seq<Installed> {
    if l == [] then []
    else Tracked(l[..|l| - 1], keys) + if KeyOf(l[|l| - 1].rule) in keys then [l[|l| - 1]] else []
  }

  /** `cleanupRules` on one table: stale rules and named sets go. */
  ghost function CleanTable(t: TableId, tb: Table, keys: set<Key>, sets: set<(TableId, SetId)>): Table {
    Table(map c | c in tb.chains :: Tracked(tb.chains[c], keys),
          map s | s in tb.sets && ((t, s) in sets || tb.sets[s].anonymous) :: tb.sets[s],
          tb.next)
  }

  /** `cleanupChains` on one table: untracked chains without rules go. */
  ghost function DropChains(t: TableId, tb: Table, chains: set<(TableId, ChainId)>): Table {
    tb.(chains := map c | c in tb.chains && ((t, c) in chains || tb.chains[c] != []) :: tb.chains[c])
  }

  ghost function OnTable(rs: Ruleset, t: TableId, tb: Table): Ruleset {
    if t in rs then rs[t := tb] else rs
  }

  /** The ruleset after the first k commits of a pass: the main flush, the rule
      cleanup of the filter and of the nat table, and the chain cleanup. */
  ghost function Stage(rs: Ruleset, log: seq<Req>, k: nat): Ruleset
    decreases k
  {
    if k == 0 then rs
    else if k == 1 then ApplyAll(rs, Ops(log, rs))
    else
      var s := Stage(rs, log, k - 1);
      if k == 2 then OnTable(s, FILTER, CleanTable(FILTER, Tab(s, FILTER), KeysOf(log), SetsOf(log)))
      else if k == 3 then OnTable(s, NAT, CleanTable(NAT, Tab(s, NAT), KeysOf(log), SetsOf(log)))
      else if k == 4 then
        var s' := OnTable(s, FILTER, DropChains(FILTER, Tab(s, FILTER), ChainsOf(log)));
        OnTable(s', NAT, DropChains(NAT, Tab(s', NAT), ChainsOf(log)))
      else s
  }

  const LAST_STAGE: nat := 4

  ghost function Pass(rs: Ruleset, log: seq<Req>): Ruleset {
    Stage(rs, log, LAST_STAGE)
  }

  // ---------------------------------------------------- canonical requests

  /** Compiled rules hold known expressions and fresh counters. */
  ghost predicate Canonical(r: Rule) {
    forall i :: 0 <= i < |r.exprs| ==> Supported(r.exprs[i]) && (r.exprs[i].Counter? ==> r.exprs[i].packets == 0)
  }

  ghost predicate CanonicalLog(log: seq<Req>) {
    forall q :: q in log && q.RuleReq? ==> Canonical(q.rule)
  }

  lemma CanonicalStrip(r: Rule)
    requires Canonical(r)
    ensures Strip(r) == r && SupportedRule(r)
  {
    assert Strip(r).exprs == r.exprs;
  }

  /** The rules of a chain with their counters zeroed. */
  function Shape(l: seq<Installed>): (s: seq<Rule>)
    ensures |s| == |l| && forall i :: 0 <= i < |l| ==> s[i] == Strip(l[i].rule)
  {
    seq(|l|, i requires 0 <= i < |l| => Strip(l[i].rule))
  }

  function ShapeAt(rs: Ruleset, t: TableId, c: ChainId): seq<Rule> {
    Shape(ChainAt(rs, t, c))
  }

  lemma ShapeConcat(a: seq<Installed>, b: seq<Installed>)
    ensures Shape(a + b) == Shape(a) + Shape(b)
  {
  }

  /** A canonical rule is found exactly when the chain has its shape. */
  lemma FindShape(t: TableId, c: ChainId, l: seq<Installed>, next: nat, r: Rule)
    requires ChainOk(t, c, l, next) && Canonical(r) && r.table == t
    ensures Find(l, r).Some? <==> r in Shape(l)
  {
    CanonicalStrip(r);
    forall i | 0 <= i < |l| ensures RuleEqual(r, l[i].rule) <==> Shape(l)[i] == r {
      RuleEqualIsStripEqual(r, l[i].rule);
    }
    if r in Shape(l) {
      var i :| 0 <= i < |l| && Shape(l)[i] == r;
      assert l[i] in l && RuleEqual(r, l[i].rule);
    }
    if Find(l, r).Some? {
      var i :| 0 <= i < |l| && l[i] == Find(l, r).value;
      assert Shape(l)[i] == r;
    }
  }
}
