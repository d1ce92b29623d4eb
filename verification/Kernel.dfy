/** The kernel side: a committed ruleset, batches of operations that are applied
    in order and atomically, and the connection that queues them. */
module Kernel {
  import opened Ids
  import opened Machine
  import opened Identity
  import opened Intervals

  type Ruleset = map<TableId, Table>

  datatype Op =
    | AddTable(t: TableId)
    | DelTable(t: TableId)
    | AddChain(t: TableId, c: ChainId)
    | DelChain(t: TableId, c: ChainId)
    | AddSet(t: TableId, s: SetId, obj: SetObj)
    | DelSet(t: TableId, s: SetId)
    | AddElems(t: TableId, s: SetId, elems: set<Elem>)
    | DelElems(t: TableId, s: SetId, elems: set<Elem>)
    | AppendRule(t: TableId, rule: Rule)
    | InsertRule(t: TableId, rule: Rule)
    | DelRule(t: TableId, c: ChainId, handle: nat)

  function Tab(rs: Ruleset, t: TableId): Table {
    if t in rs then rs[t] else EMPTY_TABLE
  }

  function Chain(tb: Table, c: ChainId): seq<Installed> {
    if c in tb.chains then tb.chains[c] else []
  }

  function ChainAt(rs: Ruleset, t: TableId, c: ChainId): seq<Installed> {
    Chain(Tab(rs, t), c)
  }

  /** A chain without the rules whose handles are in hs. */
  function Minus(l: seq<Installed>, hs: set<nat>): seq<Installed> {
    if l == [] then []
    else Minus(l[..|l| - 1], hs) + if l[|l| - 1].handle in hs then [] else [l[|l| - 1]]
  }

  /** The effect of an operation on the table it names. */
  function Effect(tb: Table, op: Op): Table {
    match op
    case AddTable(_) => tb
    case DelTable(_) => EMPTY_TABLE
    case AddChain(_, c) => tb.(chains := tb.chains[c := Chain(tb, c)])
    case DelChain(_, c) => tb.(chains := tb.chains - {c})
    case AddSet(_, s, obj) =>
      tb.(sets := tb.sets[s := if s in tb.sets then tb.sets[s].(elems := tb.sets[s].elems + obj.elems) else obj])
    case DelSet(_, s) => tb.(sets := tb.sets - {s})
    case AddElems(_, s, es) =>
      if s in tb.sets then tb.(sets := tb.sets[s := tb.sets[s].(elems := tb.sets[s].elems + es)]) else tb
    case DelElems(_, s, es) =>
      if s in tb.sets then tb.(sets := tb.sets[s := tb.sets[s].(elems := tb.sets[s].elems - es)]) else tb
    case AppendRule(_, r) =>
      Table(tb.chains[r.chain := Chain(tb, r.chain) + [Installed(tb.next, r)]], tb.sets, tb.next + 1)
    case InsertRule(_, r) =>
      Table(tb.chains[r.chain := [Installed(tb.next, r)] + Chain(tb, r.chain)], tb.sets, tb.next + 1)
    case DelRule(_, c, h) =>
      if c in tb.chains then tb.(chains := tb.chains[c := Minus(tb.chains[c], {h})]) else tb
  }

  function Apply(rs: Ruleset, op: Op): Ruleset {
    if op.DelTable? then rs - {op.t} else rs[op.t := Effect(Tab(rs, op.t), op)]
  }

  function ApplyAll(rs: Ruleset, ops: seq<Op>): Ruleset {
    if ops == [] then rs else Apply(ApplyAll(rs, ops[..|ops| - 1]), ops[|ops| - 1])
  }

  lemma {:induction false} ApplyConcat(rs: Ruleset, a: seq<Op>, b: seq<Op>)
    ensures ApplyAll(rs, a + b) == ApplyAll(ApplyAll(rs, a), b)
  {
    if b == [] {
      assert a + b == a;
    } else {
      var n := |b| - 1;
      assert (a + b)[..|a| + n] == a + b[..n];
      ApplyConcat(rs, a, b[..n]);
    }
  }

  lemma ApplyOne(rs: Ruleset, op: Op)
    ensures ApplyAll(rs, [op]) == Apply(rs, op)
  {
    assert [op][..0] == [];
  }

  lemma ApplySnoc(rs: Ruleset, ops: seq<Op>, op: Op)
    ensures ApplyAll(rs, ops + [op]) == Apply(ApplyAll(rs, ops), op)
  {
    ApplyConcat(rs, ops, [op]);
    ApplyOne(ApplyAll(rs, ops), op);
  }

  // ------------------------------------------------------- well-formedness

  /** Rules name the table and chain they sit in; handles are below the next
      one to be given out and differ within a chain. */
  ghost predicate ChainOk(t: TableId, c: ChainId, l: seq<Installed>, next: nat) {
    && (forall i :: 0 <= i < |l| ==> l[i].handle < next && l[i].rule.table == t && l[i].rule.chain == c)
    && (forall i, j :: 0 <= i < j < |l| ==> l[i].handle != l[j].handle)
  }

  ghost predicate TableOk(t: TableId, tb: Table) {
    forall c :: c in tb.chains ==> ChainOk(t, c, tb.chains[c], tb.next)
  }

  ghost predicate WellFormed(rs: Ruleset) {
    forall t :: t in rs ==> TableOk(t, rs[t])
  }

  lemma {:induction false} MinusMembers(l: seq<Installed>, hs: set<nat>, x: Installed)
    ensures x in Minus(l, hs) <==> x in l && x.handle !in hs
  {
    if l != [] {
      MinusMembers(l[..|l| - 1], hs, x);
    }
  }

  lemma {:induction false} MinusOk(t: TableId, c: ChainId, l: seq<Installed>, next: nat, hs: set<nat>)
    requires ChainOk(t, c, l, next)
    ensures ChainOk(t, c, Minus(l, hs), next)
  {
    if l != [] {
      var n := |l| - 1;
      var init := l[..n];
      assert forall i :: 0 <= i < n ==> init[i] == l[i];
      MinusOk(t, c, init, next, hs);
      var m := Minus(init, hs);
      forall i | 0 <= i < |m| ensures m[i].handle != l[n].handle {
        MinusMembers(init, hs, m[i]);
        var j :| 0 <= j < n && init[j] == m[i];
      }
      ChainSnocOk(t, c, m, l[n], next);
    }
  }

  lemma ChainSnocOk(t: TableId, c: ChainId, l: seq<Installed>, x: Installed, next: nat)
    requires ChainOk(t, c, l, next) && x.handle < next && x.rule.table == t && x.rule.chain == c
    requires forall i :: 0 <= i < |l| ==> l[i].handle != x.handle
    ensures ChainOk(t, c, l + [x], next)
  {
  }

  predicate RuleInPlace(op: Op) {
    op.AppendRule? || op.InsertRule? ==> op.rule.table == op.t
  }

  lemma EffectOk(tb: Table, op: Op)
    requires TableOk(op.t, tb) && RuleInPlace(op)
    ensures TableOk(op.t, Effect(tb, op))
  {
    var tb' := Effect(tb, op);
    forall c | c in tb'.chains ensures ChainOk(op.t, c, tb'.chains[c], tb'.next) {
      if c in tb.chains {
        assert ChainOk(op.t, c, tb.chains[c], tb.next);
        if op.DelRule? && op.c == c {
          MinusOk(op.t, c, tb.chains[c], tb.next, {op.handle});
        }
      }
    }
  }

  lemma ApplyOk(rs: Ruleset, op: Op)
    requires WellFormed(rs) && RuleInPlace(op)
    ensures WellFormed(Apply(rs, op))
  {
    EffectOk(Tab(rs, op.t), op);
  }

  lemma {:induction false} ApplyAllOk(rs: Ruleset, ops: seq<Op>)
    requires WellFormed(rs) && forall i :: 0 <= i < |ops| ==> RuleInPlace(ops[i])
    ensures WellFormed(ApplyAll(rs, ops))
  {
    if ops != [] {
      ApplyAllOk(rs, ops[..|ops| - 1]);
      ApplyOk(ApplyAll(rs, ops[..|ops| - 1]), ops[|ops| - 1]);
    }
  }

  lemma ChainAtOk(rs: Ruleset, t: TableId, c: ChainId)
    requires WellFormed(rs)
    ensures ChainOk(t, c, ChainAt(rs, t, c), Tab(rs, t).next)
  {
  }

  // ------------------------------------------------------------ connection

  /** A netlink connection.  Reads see the committed ruleset only.  Whether the
      kernel accepts a batch is up to the environment; rejections are counted. */
  class Conn {
    var committed: Ruleset
    var pending: seq<Op>
    var failures: nat

    constructor (rs: Ruleset)
      ensures committed == rs && pending == [] && failures == 0
    {
      committed, pending, failures := rs, [], 0;
    }

    method Queue(op: Op)
      modifies this`pending
      ensures pending == old(pending) + [op]
    {
      pending := pending + [op];
    }

    /** Commits the batch as a whole or not at all; either way it is gone. */
    method Flush() returns (ok: bool)
      modifies this
      ensures pending == []
      ensures ok ==> committed == ApplyAll(old(committed), old(pending)) && failures == old(failures)
      ensures !ok ==> committed == old(committed) && failures == old(failures) + 1
    {
      ok := *;
      if ok {
        committed := ApplyAll(committed, pending);
      } else {
        failures := failures + 1;
      }
      pending := [];
    }

    /** No batch has been rejected since there were n failures, iff ok. */
    predicate Failed(n: nat, ok: bool)
      reads this
    {
      failures >= n && (ok <==> failures == n)
    }
  }
}
