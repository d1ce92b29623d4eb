/** The target machine: nftables rules as small register programs, chains as
    lists of rules, and the walk of a packet through the chains of a table. */
module Machine {
  import opened Ids
  import opened Marks

  datatype Val = Name(s: string) | Word(w: Mark) | Num(n: nat)

  datatype MetaKey = IifName | OifName | NfProto | L4Proto | MarkKey
  datatype Header = NetworkHeader | TransportHeader
  datatype Verdict = Accept | Drop | Return | Jump(target: ChainId) | Goto(target: ChainId)

  /** Expressions; every one of them works on register 1. */
  datatype Expr =
    | Meta(key: MetaKey, store: bool)
    | Cmp(eq: bool, data: Val)
    | Payload(header: Header, offset: nat, len: nat)
    | Lookup(set_: SetId)
    | Bitwise(mask: Mark, xor: Mark)
    | CtState
    | Counter(packets: nat)
    | Verdict(verdict: Verdict)
    | Unsupported(text: string)

  datatype Rule = Rule(table: TableId, chain: ChainId, comment: Comment, exprs: seq<Expr>)

  /** A rule in the kernel, with the handle the kernel gave it. */
  datatype Installed = Installed(handle: nat, rule: Rule)

  /** A boundary or member of a set; `end` is the interval-end flag. */
  datatype Elem = Elem(key: Val, end: bool)

  datatype SetObj = SetObj(interval: bool, anonymous: bool, comment: string, elems: set<Elem>)

  datatype Table = Table(chains: map<ChainId, seq<Installed>>, sets: map<SetId, SetObj>, next: nat)

  const EMPTY_TABLE := Table(map[], map[], 0)

  datatype Packet = Packet(
    iif: string, oif: string, v6: bool, l4: nat,
    src: nat, dst: nat, dport: nat, icmpType: nat, ct: Mark)

  const NFPROTO_IPV4: nat := 2
  const NFPROTO_IPV6: nat := 10

  // ---------------------------------------------------------------- sets

  /** Membership in an interval set: some start at or below x is not closed by
      an interval end above that start and at or below x. */
  ghost predicate Covers(elems: set<Elem>, x: nat) {
    exists s: nat :: OpenedAt(elems, s, x)
  }

  ghost predicate OpenedAt(elems: set<Elem>, s: nat, x: nat) {
    && Elem(Num(s), false) in elems
    && s <= x
    && forall e: nat :: Elem(Num(e), true) in elems && s < e ==> x < e
  }

  ghost predicate InSet(t: Table, id: SetId, v: Val) {
    && id in t.sets
    && if t.sets[id].interval then v.Num? && Covers(t.sets[id].elems, v.n)
       else Elem(v, false) in t.sets[id].elems
  }

  // ------------------------------------------------------------ one rule

  datatype Mach =
    | Running(reg: Val, mark: Mark)
    | NoMatch(mark: Mark)
    | Decided(mark: Mark, verdict: Verdict)

  function LoadMeta(p: Packet, key: MetaKey, m: Mark): Val {
    match key
    case IifName => Name(p.iif)
    case OifName => Name(p.oif)
    case NfProto => Num(if p.v6 then NFPROTO_IPV6 else NFPROTO_IPV4)
    case L4Proto => Num(p.l4)
    case MarkKey => Word(m)
  }

  /** Header fields by offset: section 3.1 of RFC 791 (IPv4), section 3 of
      RFC 8200 (IPv6); bytes 2..3 of a transport header are the destination
      port, byte 0 of an ICMPv6 header is its type. */
  function LoadPayload(p: Packet, h: Header, offset: nat, len: nat): Option<nat> {
    match h
    case NetworkHeader =>
      if !p.v6 && len == 4 && offset == 12 then Some(p.src)
      else if !p.v6 && len == 4 && offset == 16 then Some(p.dst)
      else if p.v6 && len == 16 && offset == 8 then Some(p.src)
      else if p.v6 && len == 16 && offset == 24 then Some(p.dst)
      else None
    case TransportHeader =>
      if offset == 2 && len == 2 then Some(p.dport)
      else if offset == 0 && len == 1 then Some(p.icmpType)
      else None
  }

  ghost function Step(t: Table, p: Packet, e: Expr, st: Mach): Mach {
    if !st.Running? then st else
    match e
    case Meta(key, false) => Running(LoadMeta(p, key, st.mark), st.mark)
    case Meta(key, true) =>
      if key.MarkKey? && st.reg.Word? then Running(st.reg, st.reg.w) else NoMatch(st.mark)
    case Cmp(eq, data) => if (st.reg == data) == eq then st else NoMatch(st.mark)
    case Payload(h, offset, len) =>
      var v := LoadPayload(p, h, offset, len);
      if v.Some? then Running(Num(v.value), st.mark) else NoMatch(st.mark)
    case Lookup(id) => if InSet(t, id, st.reg) then st else NoMatch(st.mark)
    case Bitwise(mask, xor) =>
      if st.reg.Word? then Running(Word(Masked(st.reg.w, mask, xor)), st.mark) else NoMatch(st.mark)
    case CtState => Running(Word(p.ct), st.mark)
    case Counter(_) => st
    case Verdict(v) => Decided(st.mark, v)
    case Unsupported(_) => NoMatch(st.mark)
  }

  ghost function Run(t: Table, p: Packet, es: seq<Expr>, st: Mach): Mach {
    if es == [] then st else Run(t, p, es[1..], Step(t, p, es[0], st))
  }

  /** The effect of one rule on a packet with mark m. */
  ghost function Exec(t: Table, p: Packet, r: Rule, m: Mark): Mach {
    Run(t, p, r.exprs, Running(Num(0), m))
  }

  // -------------------------------------------------------------- chains

  function RulesOf(l: seq<Installed>): (rs: seq<Rule>)
    ensures |rs| == |l| && forall i :: 0 <= i < |l| ==> rs[i] == l[i].rule
  {
    seq(|l|, i requires 0 <= i < |l| => l[i].rule)
  }

  function Rules(t: Table, c: ChainId): seq<Rule> {
    if c in t.chains then RulesOf(t.chains[c]) else []
  }

  /** How a chain was left: off its end, by a return, or with a final verdict. */
  datatype Fate = Ended | Returned | Accepted | Dropped
  datatype Out = Out(fate: Fate, mark: Mark)

  /** Jumps nest at most this deep in the kernel; deeper rulesets do not load. */
  const JUMP_STACK: nat := 16

  ghost function Walk(t: Table, p: Packet, rs: seq<Rule>, m: Mark, depth: nat): Out
    decreases depth, |rs|
  {
    if rs == [] then Out(Ended, m) else
    match Exec(t, p, rs[0], m)
    case Running(_, m') => Walk(t, p, rs[1..], m', depth)
    case NoMatch(m') => Walk(t, p, rs[1..], m', depth)
    case Decided(m', Accept) => Out(Accepted, m')
    case Decided(m', Drop) => Out(Dropped, m')
    case Decided(m', Return) => Out(Returned, m')
    case Decided(m', Jump(c)) =>
      if depth == 0 then Out(Dropped, m') else
      var o := Walk(t, p, Rules(t, c), m', depth - 1);
      if o.fate.Accepted? || o.fate.Dropped? then o else Walk(t, p, rs[1..], o.mark, depth)
    case Decided(m', Goto(c)) =>
      if depth == 0 then Out(Dropped, m') else
      var o := Walk(t, p, Rules(t, c), m', depth - 1);
      if o.fate.Ended? then o.(fate := Returned) else o
  }

  /** A packet entering a base chain whose policy is accept. */
  ghost predicate Admits(t: Table, p: Packet, hook: Hook, m: Mark) {
    !Walk(t, p, Rules(t, BaseChain(hook)), m, JUMP_STACK).fate.Dropped?
  }

  // --------------------------------------------------------------- lemmas

  lemma {:induction false} RunConcat(t: Table, p: Packet, a: seq<Expr>, b: seq<Expr>, st: Mach)
    ensures Run(t, p, a + b, st) == Run(t, p, b, Run(t, p, a, st))
  {
    if a == [] {
      assert a + b == b;
    } else {
      assert (a + b)[1..] == a[1..] + b;
      RunConcat(t, p, a[1..], b, Step(t, p, a[0], st));
    }
  }

  lemma Run1(t: Table, p: Packet, a: Expr, st: Mach)
    ensures Run(t, p, [a], st) == Step(t, p, a, st)
  {
    assert [a][1..] == [];
  }

  lemma Run2(t: Table, p: Packet, a: Expr, b: Expr, st: Mach)
    ensures Run(t, p, [a, b], st) == Step(t, p, b, Step(t, p, a, st))
  {
    assert [a, b][1..] == [b];
    Run1(t, p, b, Step(t, p, a, st));
  }

  lemma Run3(t: Table, p: Packet, a: Expr, b: Expr, c: Expr, st: Mach)
    ensures Run(t, p, [a, b, c], st) == Step(t, p, c, Step(t, p, b, Step(t, p, a, st)))
  {
    assert [a, b, c][1..] == [b, c];
    Run2(t, p, b, c, Step(t, p, a, st));
  }

  lemma {:induction false} StoppedStays(t: Table, p: Packet, es: seq<Expr>, st: Mach)
    requires !st.Running?
    ensures Run(t, p, es, st) == st
  {
    if es != [] {
      StoppedStays(t, p, es[1..], st);
    }
  }

  lemma {:induction false} WalkConcat(t: Table, p: Packet, a: seq<Rule>, b: seq<Rule>, m: Mark, depth: nat)
    ensures var o := Walk(t, p, a, m, depth);
            Walk(t, p, a + b, m, depth) == if o.fate.Ended? then Walk(t, p, b, o.mark, depth) else o
    decreases |a|
  {
    if a == [] {
      assert a + b == b;
    } else {
      assert (a + b)[1..] == a[1..] + b;
      forall m' ensures var o := Walk(t, p, a[1..], m', depth);
            Walk(t, p, a[1..] + b, m', depth) == if o.fate.Ended? then Walk(t, p, b, o.mark, depth) else o
      {
        WalkConcat(t, p, a[1..], b, m', depth);
      }
    }
  }

  /** The expressions of a rule without its counters. */
  function Bare(es: seq<Expr>): seq<Expr> {
    if es == [] then []
    else (if es[0].Counter? then [] else [es[0]]) + Bare(es[1..])
  }

  /** Counters do not change what a rule does. */
  lemma {:induction false} BareRun(t: Table, p: Packet, es: seq<Expr>, st: Mach)
    ensures Run(t, p, Bare(es), st) == Run(t, p, es, st)
  {
    if es != [] {
      var st' := Step(t, p, es[0], st);
      BareRun(t, p, es[1..], st');
      if es[0].Counter? {
        assert Bare(es) == Bare(es[1..]);
      } else {
        assert Bare(es) == [es[0]] + Bare(es[1..]);
        assert Bare(es)[1..] == Bare(es[1..]);
      }
    }
  }

  /** Chains whose rules agree up to counters treat every packet alike. */
  lemma {:induction false} BareWalk(t: Table, p: Packet, a: seq<Rule>, b: seq<Rule>, m: Mark, depth: nat)
    requires |a| == |b|
    requires forall i :: 0 <= i < |a| ==> Bare(a[i].exprs) == Bare(b[i].exprs)
    ensures Walk(t, p, a, m, depth) == Walk(t, p, b, m, depth)
    decreases |a|
  {
    if a != [] {
      BareRun(t, p, a[0].exprs, Running(Num(0), m));
      BareRun(t, p, b[0].exprs, Running(Num(0), m));
      assert Exec(t, p, a[0], m) == Exec(t, p, b[0], m);
      forall m' ensures Walk(t, p, a[1..], m', depth) == Walk(t, p, b[1..], m', depth) {
        BareWalk(t, p, a[1..], b[1..], m', depth);
      }
    }
  }
}
