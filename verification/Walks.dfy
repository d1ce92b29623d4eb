/** Walks through compiled chains.  Ports, peers and common chains are treated
    in any order of their rules; policy and entry chains in the order given. */
module Walks {
  import opened Ids
  import opened Marks
  import opened Machine
  import opened Identity
  import opened Kernel
  import opened Reconcile
  import opened Policies
  import opened Compile
  import opened Effects

  // ----------------------------------------------------------- zeroed rules

  lemma {:induction false} BareZeroed(a: seq<Expr>, b: seq<Expr>)
    requires |a| == |b| && forall i :: 0 <= i < |a| ==> b[i] == Zeroed(a[i])
    ensures Bare(a) == Bare(b)
  {
    if a != [] {
      BareZeroed(a[1..], b[1..]);
      assert b[0] == Zeroed(a[0]);
    }
  }

  /** A chain and its shape treat every packet alike. */
  lemma ShapeWalk(t: Table, p: Packet, c: ChainId, m: Mark, depth: nat)
    ensures Walk(t, p, Rules(t, c), m, depth) == Walk(t, p, Shape(Chain(t, c)), m, depth)
  {
    var a, b := Rules(t, c), Shape(Chain(t, c));
    forall i | 0 <= i < |a| ensures Bare(a[i].exprs) == Bare(b[i].exprs) {
      BareZeroed(a[i].exprs, b[i].exprs);
    }
    BareWalk(t, p, a, b, m, depth);
  }

  // ------------------------------------------------- what a rule always does

  ghost predicate Skips(t: Table, p: Packet, r: Rule) {
    forall m :: Exec(t, p, r, m) == NoMatch(m)
  }

  ghost predicate SetsPort(t: Table, p: Packet, r: Rule) {
    forall m :: Exec(t, p, r, m).Running? && Exec(t, p, r, m).mark == SetPort(m)
  }

  ghost predicate SetsPeer(t: Table, p: Packet, r: Rule) {
    || (forall m :: Exec(t, p, r, m).Running? && Exec(t, p, r, m).mark == SetPeer(m))
    || (forall m :: Exec(t, p, r, m) == Decided(SetPeer(m), Return))
  }

  ghost predicate Accepts(t: Table, p: Packet, r: Rule) {
    forall m :: Exec(t, p, r, m) == Decided(m, Accept)
  }

  // ------------------------------------------------------ chains in any order

  lemma {:induction false} WalkPorts(t: Table, p: Packet, rs: seq<Rule>, m: Mark, depth: nat)
    requires forall i :: 0 <= i < |rs| ==> SetsPort(t, p, rs[i]) || Skips(t, p, rs[i])
    ensures Walk(t, p, rs, m, depth) ==
            Out(Ended, if exists i :: 0 <= i < |rs| && SetsPort(t, p, rs[i]) then SetPort(m) else m)
    decreases |rs|
  {
    hide Exec, SetPort;
    if rs != [] {
      var rest := rs[1..];
      assert SetsPort(t, p, rs[0]) || Skips(t, p, rs[0]);
      var m' := if SetsPort(t, p, rs[0]) then SetPort(m) else m;
      assert Exec(t, p, rs[0], m).mark == m' && !Exec(t, p, rs[0], m).Decided?;
      WalkPorts(t, p, rest, m', depth);
      SetTwice(m);
      assert (exists i :: 0 <= i < |rs| && SetsPort(t, p, rs[i])) <==>
             SetsPort(t, p, rs[0]) || exists i :: 0 <= i < |rest| && SetsPort(t, p, rest[i]) by {
        if i :| 0 <= i < |rs| && SetsPort(t, p, rs[i]) {
          if i > 0 { assert SetsPort(t, p, rest[i - 1]); }
        }
        if i :| 0 <= i < |rest| && SetsPort(t, p, rest[i]) {
          assert SetsPort(t, p, rs[i + 1]);
        }
      }
    }
  }

  /** Left by falling off the end or by a return, with this mark. */
  ghost predicate Passed(o: Out, m: Mark) {
    (o.fate.Ended? || o.fate.Returned?) && o.mark == m
  }

  lemma {:induction false} WalkPeersHit(t: Table, p: Packet, rs: seq<Rule>, m: Mark, depth: nat)
    requires forall i :: 0 <= i < |rs| ==> SetsPeer(t, p, rs[i]) || Skips(t, p, rs[i])
    ensures var o := Walk(t, p, rs, m, depth);
            if exists i :: 0 <= i < |rs| && SetsPeer(t, p, rs[i]) then Passed(o, SetPeer(m)) else o == Out(Ended, m)
    decreases |rs|
  {
    hide Exec, SetPeer;
    if rs != [] {
      var rest := rs[1..];
      assert SetsPeer(t, p, rs[0]) || Skips(t, p, rs[0]);
      if SetsPeer(t, p, rs[0]) {
        assert Exec(t, p, rs[0], m).mark == SetPeer(m);
        if !Exec(t, p, rs[0], m).Decided? {
          WalkPeersHit(t, p, rest, SetPeer(m), depth);
          SetTwice(m);
        }
      } else {
        assert Exec(t, p, rs[0], m) == NoMatch(m);
        WalkPeersHit(t, p, rest, m, depth);
        if i :| 0 <= i < |rs| && SetsPeer(t, p, rs[i]) {
          assert SetsPeer(t, p, rest[i - 1]);
        }
        if i :| 0 <= i < |rest| && SetsPeer(t, p, rest[i]) {
          assert SetsPeer(t, p, rs[i + 1]);
        }
      }
    }
  }

  lemma {:induction false} WalkAccepts(t: Table, p: Packet, rs: seq<Rule>, m: Mark, depth: nat)
    requires forall i :: 0 <= i < |rs| ==> Accepts(t, p, rs[i]) || Skips(t, p, rs[i])
    ensures Walk(t, p, rs, m, depth) ==
            Out(if exists i :: 0 <= i < |rs| && Accepts(t, p, rs[i]) then Accepted else Ended, m)
    decreases |rs|
  {
    hide Exec;
    if rs != [] {
      var rest := rs[1..];
      assert Accepts(t, p, rs[0]) || Skips(t, p, rs[0]);
      if Accepts(t, p, rs[0]) {
        assert Exec(t, p, rs[0], m) == Decided(m, Accept);
      } else {
        assert Exec(t, p, rs[0], m) == NoMatch(m);
        WalkAccepts(t, p, rest, m, depth);
        if i :| 0 <= i < |rs| && Accepts(t, p, rs[i]) {
          assert Accepts(t, p, rest[i - 1]);
        }
        if i :| 0 <= i < |rest| && Accepts(t, p, rest[i]) {
          assert Accepts(t, p, rs[i + 1]);
        }
      }
    }
  }

  // ------------------------------------------------------------ policy chain

  ghost predicate PortsRight(t: Table, p: Packet, c: ChainId, matches: bool) {
    forall m, depth: nat :: Walk(t, p, Rules(t, c), m, depth) == Out(Ended, if matches then SetPort(m) else m)
  }

  ghost predicate PeersRight(t: Table, p: Packet, c: ChainId, o: Outcome) {
    forall m, depth: nat :: PeersOut(Walk(t, p, Rules(t, c), m, depth), m, o)
  }

  ghost predicate PeersOut(w: Out, m: Mark, o: Outcome) {
    match o
    case Hit => Passed(w, SetPeer(m))
    case Miss => w == Out(Ended, m)
    case Denied => w == Out(Dropped, m)
  }

  function Quad(d: Dir, k: PolicyKey, n: nat): (q: seq<Rule>)
    ensures |q| == 4
  {
    [ResetRule(d, k, n), JumpRule(d, k, PortsChain(d, k, n)), JumpRule(d, k, PeersChain(d, k, n)), ReturnRule(d, k, n)]
  }

  function Quads(d: Dir, k: PolicyKey, n: nat): seq<Rule> {
    if n == 0 then [] else Quads(d, k, n - 1) + Quad(d, k, n - 1)
  }

  lemma WalkStep(t: Table, p: Packet, rs: seq<Rule>, m: Mark, depth: nat)
    requires rs != []
    ensures var e := Exec(t, p, rs[0], m);
            && (!e.Decided? ==> Walk(t, p, rs, m, depth) == Walk(t, p, rs[1..], e.mark, depth))
            && (e == Decided(m, Return) ==> Walk(t, p, rs, m, depth) == Out(Returned, m))
            && (e == Decided(m, Drop) ==> Walk(t, p, rs, m, depth) == Out(Dropped, m))
  {
  }

  lemma WalkJump(t: Table, p: Packet, rs: seq<Rule>, c: ChainId, m: Mark, depth: nat)
    requires rs != [] && Exec(t, p, rs[0], m) == Decided(m, Jump(c)) && depth > 0
    ensures var o := Walk(t, p, Rules(t, c), m, depth - 1);
            Walk(t, p, rs, m, depth) ==
            if o.fate.Accepted? || o.fate.Dropped? then o else Walk(t, p, rs[1..], o.mark, depth)
  {
  }

  /** What one policy rule does in the policy chain. */
  ghost predicate RuleOut(o: Out, m: Mark, x: Decision) {
    && Others(o.mark) == Others(m)
    && match x
       case Allow => o.fate.Returned? && Both(o.mark)
       case Deny => o.fate.Dropped?
       case Next => o.fate.Ended? && !Both(o.mark)
  }

  ghost function Combine(o: Outcome, ports: bool): Decision {
    if o.Denied? then Deny else if o.Hit? && ports then Allow else Next
  }

  /** The mark after the two chains of a rule, from what they report. */
  function Marked(m: Mark, ports: bool, hit: bool): Mark {
    var m2 := if ports then SetPort(Reset(m)) else Reset(m);
    if hit then SetPeer(m2) else m2
  }

  /** Both bits are set exactly when both chains matched; other bits are kept. */
  lemma MarkedBits(m: Mark, ports: bool, hit: bool)
    ensures (Both(Marked(m, ports, hit)) <==> ports && hit) && Others(Marked(m, ports, hit)) == Others(m)
  {
    hide Both, Reset, SetPort, SetPeer, Others;
    ResetClears(m);
    BothBits(m);
    OtherBits(m);
    OtherBits(Reset(m));
    OtherBits(SetPort(Reset(m)));
  }

  lemma WalkNone(t: Table, p: Packet, m: Mark, depth: nat)
    ensures Walk(t, p, [], m, depth) == Out(Ended, m)
  {
  }

  lemma WalkQuad(t: Table, p: Packet, d: Dir, k: PolicyKey, n: nat, ports: bool, o: Outcome, m: Mark, depth: nat)
    requires depth > 0
    requires PortsRight(t, p, PortsChain(d, k, n), ports) && PeersRight(t, p, PeersChain(d, k, n), o)
    ensures RuleOut(Walk(t, p, Quad(d, k, n), m, depth), m, Combine(o, ports))
  {
    hide ResetRule, JumpRule, ReturnRule, Exec, Both, Reset, SetPort, SetPeer, Others, Rules, Walk;
    var q := Quad(d, k, n);
    var m1 := Reset(m);
    var m2, m3 := Marked(m, ports, false), Marked(m, ports, o.Hit?);
    MarkedBits(m, ports, false);
    MarkedBits(m, ports, o.Hit?);
    ExecReset(t, p, d, k, n, m);
    ExecJumps(t, p, d, k, PortsChain(d, k, n), m1);
    ExecJumps(t, p, d, k, PeersChain(d, k, n), m2);
    ExecChecks(t, p, d, k, n, m3);
    assert q[1..] == [q[1], q[2], q[3]] && q[1..][1..] == [q[2], q[3]];
    WalkStep(t, p, q, m, depth);
    WalkJump(t, p, q[1..], PortsChain(d, k, n), m1, depth);
    assert Walk(t, p, Rules(t, PortsChain(d, k, n)), m1, depth - 1) == Out(Ended, m2);
    WalkJump(t, p, q[1..][1..], PeersChain(d, k, n), m2, depth);
    assert PeersOut(Walk(t, p, Rules(t, PeersChain(d, k, n)), m2, depth - 1), m2, o);
    var last := q[1..][1..][1..];
    assert last == [q[3]] && last[1..] == [];
    if !o.Denied? {
      WalkStep(t, p, last, m3, depth);
      WalkNone(t, p, m3, depth);
    }
  }

  /** What a policy chain does: with no rules it leaves the mark alone. */
  ghost predicate ChainOut(o: Out, m: Mark, x: Decision, n: nat) {
    if n == 0 then x.Next? && o == Out(Ended, m) else RuleOut(o, m, x)
  }

  /** The first decision of a list, if any. */
  ghost function FirstDecision(xs: seq<Decision>): Decision {
    if xs == [] then Next
    else
      var x := FirstDecision(xs[..|xs| - 1]);
      if x.Next? then xs[|xs| - 1] else x
  }

  lemma {:induction false} WalkQuads(t: Table, p: Packet, d: Dir, k: PolicyKey, ports: seq<bool>, os: seq<Outcome>,
                                     xs: seq<Decision>, m: Mark, depth: nat)
    requires depth > 0 && |ports| == |os| == |xs|
    requires forall n :: 0 <= n < |os| ==> PortsRight(t, p, PortsChain(d, k, n), ports[n])
    requires forall n :: 0 <= n < |os| ==> PeersRight(t, p, PeersChain(d, k, n), os[n])
    requires forall n :: 0 <= n < |os| ==> xs[n] == Combine(os[n], ports[n])
    ensures ChainOut(Walk(t, p, Quads(d, k, |xs|), m, depth), m, FirstDecision(xs), |xs|)
  {
    hide PortsRight, PeersRight, Quad, Combine, Both, Others;
    if |xs| > 0 {
      var n := |xs| - 1;
      WalkQuads(t, p, d, k, ports[..n], os[..n], xs[..n], m, depth);
      WalkConcat(t, p, Quads(d, k, n), Quad(d, k, n), m, depth);
      var o := Walk(t, p, Quads(d, k, n), m, depth);
      if o.fate.Ended? {
        assert PortsRight(t, p, PortsChain(d, k, n), ports[n]) && PeersRight(t, p, PeersChain(d, k, n), os[n]);
        WalkQuad(t, p, d, k, n, ports[n], os[n], o.mark, depth);
      }
    }
  }

  // ------------------------------------------------------------- entry chain

  /** A policy chain decides x for the packet, whatever the mark. */
  ghost predicate PolicyRight(t: Table, p: Packet, c: ChainId, x: Decision) {
    forall m, depth: nat :: depth > 0 ==> PolicyOut(Walk(t, p, Rules(t, c), m, depth), m, x)
  }

  ghost predicate PolicyOut(o: Out, m: Mark, x: Decision) {
    && Others(o.mark) == Others(m)
    && match x
       case Allow => o.fate.Returned? && Both(o.mark)
       case Deny => o.fate.Dropped?
       case Next => o.fate.Ended? && (Both(o.mark) ==> Both(m))
  }

  /** The same in full: what happens to the mark when nothing is decided depends
      on whether the policy has rules at all. */
  ghost predicate PolicyActs(t: Table, p: Packet, c: ChainId, x: Decision, n: nat) {
    forall m, depth: nat :: depth > 0 ==> ChainOut(Walk(t, p, Rules(t, c), m, depth), m, x, n)
  }

  lemma ChainOutPolicyOut(o: Out, m: Mark, x: Decision, n: nat)
    requires ChainOut(o, m, x, n)
    ensures PolicyOut(o, m, x)
  {
  }

  function Jumps(d: Dir, k: PolicyKey, ifs: seq<Iface>): seq<Rule> {
    if ifs == [] then [] else Jumps(d, k, ifs[..|ifs| - 1]) + [IfaceJump(d, k, ifs[|ifs| - 1])]
  }

  ghost predicate OnSome(ifs: seq<Iface>, d: Dir, p: Packet) {
    exists i :: i in ifs && i.name == IfOf(d, p)
  }

  /** The interface jumps of a policy: the decision of its chain if one of the
      interfaces is the packet's, nothing otherwise. */
  ghost predicate JumpsOut(o: Out, m: Mark, x: Decision) {
    && Others(o.mark) == Others(m)
    && match x
       case Allow => o.fate.Ended? && Both(o.mark)
       case Deny => o.fate.Dropped?
       case Next => o.fate.Ended? && (Both(o.mark) ==> Both(m))
  }

  lemma WalkIfaceJump(t: Table, p: Packet, d: Dir, k: PolicyKey, i: Iface, x: Decision, m: Mark, depth: nat)
    requires depth > 1 && PolicyRight(t, p, PolicyChain(d, k), x)
    ensures var o := Walk(t, p, [IfaceJump(d, k, i)], m, depth);
            if i.name == IfOf(d, p) then JumpsOut(o, m, x) else o == Out(Ended, m)
  {
    ExecIfaceJump(t, p, d, k, i, m);
    hide IfaceJump, Exec, Rules, Both, Others;
    var rs := [IfaceJump(d, k, i)];
    assert rs[1..] == [];
    if i.name == IfOf(d, p) {
      WalkJump(t, p, rs, PolicyChain(d, k), m, depth);
      assert PolicyOut(Walk(t, p, Rules(t, PolicyChain(d, k)), m, depth - 1), m, x);
    } else {
      WalkStep(t, p, rs, m, depth);
    }
  }

  lemma {:induction false} WalkJumps(t: Table, p: Packet, d: Dir, k: PolicyKey, ifs: seq<Iface>, x: Decision, m: Mark,
                                     depth: nat)
    requires depth > 1 && PolicyRight(t, p, PolicyChain(d, k), x)
    ensures var o := Walk(t, p, Jumps(d, k, ifs), m, depth);
            if OnSome(ifs, d, p) then JumpsOut(o, m, x) else o == Out(Ended, m)
  {
    hide IfaceJump, PolicyRight, Both, Others;
    if ifs != [] {
      var n := |ifs| - 1;
      WalkJumps(t, p, d, k, ifs[..n], x, m, depth);
      WalkConcat(t, p, Jumps(d, k, ifs[..n]), [IfaceJump(d, k, ifs[n])], m, depth);
      var o := Walk(t, p, Jumps(d, k, ifs[..n]), m, depth);
      assert OnSome(ifs, d, p) <==> OnSome(ifs[..n], d, p) || ifs[n].name == IfOf(d, p);
      if o.fate.Ended? {
        WalkIfaceJump(t, p, d, k, ifs[n], x, o.mark, depth);
      }
    }
  }

  /** A policy's part of an entry chain: its interface jumps and its mark check. */
  function BlockOf(d: Dir, k: PolicyKey, ifs: seq<Iface>): seq<Rule> {
    Jumps(d, k, ifs) + [PolicyMark(d, k)]
  }

  /** A block reached with the two bits not both set. */
  ghost predicate BlockOut(o: Out, m: Mark, x: Decision) {
    && Others(o.mark) == Others(m)
    && match x
       case Allow => o.fate.Returned?
       case Deny => o.fate.Dropped?
       case Next => o.fate.Ended? && !Both(o.mark)
  }

  lemma WalkBlock(t: Table, p: Packet, d: Dir, k: PolicyKey, ifs: seq<Iface>, x: Decision, m: Mark, depth: nat)
    requires depth > 1 && PolicyRight(t, p, PolicyChain(d, k), x) && !Both(m)
    ensures BlockOut(Walk(t, p, BlockOf(d, k, ifs), m, depth), m, if OnSome(ifs, d, p) then x else Next)
  {
    WalkJumps(t, p, d, k, ifs, x, m, depth);
    var o := Walk(t, p, Jumps(d, k, ifs), m, depth);
    ExecChecks(t, p, d, k, 0, o.mark);
    hide PolicyMark, Exec, PolicyRight, Both, Others, Jumps;
    var last := [PolicyMark(d, k)];
    WalkConcat(t, p, Jumps(d, k, ifs), last, m, depth);
    assert last[1..] == [];
    WalkStep(t, p, last, o.mark, depth);
  }

  /** The blocks of an entry chain, in the order they stand there. */
  datatype Block = Block(key: PolicyKey, ifs: seq<Iface>)

  function Flatten(d: Dir, bs: seq<Block>): seq<Rule> {
    if bs == [] then [] else Flatten(d, bs[..|bs| - 1]) + BlockOf(d, bs[|bs| - 1].key, bs[|bs| - 1].ifs)
  }

  lemma FlattenNone(d: Dir)
    ensures Flatten(d, []) == []
  {
  }

  lemma {:induction false} WalkBlocks(t: Table, p: Packet, d: Dir, bs: seq<Block>, xs: seq<Decision>, m: Mark,
                                      depth: nat)
    requires depth > 1 && |bs| == |xs| && !Both(m)
    requires forall i :: 0 <= i < |bs| ==> PolicyRight(t, p, PolicyChain(d, bs[i].key), xs[i])
    ensures var ys := Seen(bs, xs, d, p);
            BlockOut(Walk(t, p, Flatten(d, bs), m, depth), m, FirstDecision(ys))
  {
    hide PolicyRight, Both, Others, BlockOf;
    if bs != [] {
      var n := |bs| - 1;
      WalkBlocks(t, p, d, bs[..n], xs[..n], m, depth);
      WalkConcat(t, p, Flatten(d, bs[..n]), BlockOf(d, bs[n].key, bs[n].ifs), m, depth);
      assert Seen(bs, xs, d, p)[..n] == Seen(bs[..n], xs[..n], d, p);
      var o := Walk(t, p, Flatten(d, bs[..n]), m, depth);
      if o.fate.Ended? {
        WalkBlock(t, p, d, bs[n].key, bs[n].ifs, xs[n], o.mark, depth);
      }
    }
  }

  /** The decisions of the blocks as far as they concern the packet's interface. */
  ghost function Seen(bs: seq<Block>, xs: seq<Decision>, d: Dir, p: Packet): (ys: seq<Decision>)
    requires |bs| == |xs|
    ensures |ys| == |bs|
  {
    seq(|bs|, i requires 0 <= i < |bs| => if OnSome(bs[i].ifs, d, p) then xs[i] else Next)
  }

  /** A whole entry chain. */
  function EntryRules(d: Dir, bs: seq<Block>): seq<Rule> {
    [CommonJump(d)] + Flatten(d, bs) + if bs == [] then [] else [DropRest(d)]
  }

  lemma WalkEntry(t: Table, p: Packet, d: Dir, bs: seq<Block>, xs: seq<Decision>, common: bool, m: Mark, depth: nat)
    requires depth > 1 && |bs| == |xs| && !Both(m)
    requires forall i :: 0 <= i < |bs| ==> PolicyRight(t, p, PolicyChain(d, bs[i].key), xs[i])
    requires forall m', n: nat ::
               Walk(t, p, Rules(t, CommonChain(d)), m', n) == Out(if common then Accepted else Ended, m')
    ensures var o := Walk(t, p, EntryRules(d, bs), m, depth);
            && Others(o.mark) == Others(m)
            && (o.fate.Dropped? <==> !common && bs != [] && !FirstDecision(Seen(bs, xs, d, p)).Allow?)
  {
    ExecJumps(t, p, d, PolicyKey("", ""), CommonChain(d), m);
    WalkBlocks(t, p, d, bs, xs, m, depth);
    hide CommonJump, DropRest, Exec, PolicyRight, Both, Others, Flatten;
    var head, last := [CommonJump(d)], if bs == [] then [] else [DropRest(d)];
    WalkConcat(t, p, head + Flatten(d, bs), last, m, depth);
    WalkConcat(t, p, head, Flatten(d, bs), m, depth);
    assert head[1..] == [];
    WalkJump(t, p, head, CommonChain(d), m, depth);
    assert Walk(t, p, Rules(t, CommonChain(d)), m, depth - 1) == Out(if common then Accepted else Ended, m);
    var o := Walk(t, p, Flatten(d, bs), m, depth);
    if bs != [] && o.fate.Ended? {
      assert Exec(t, p, DropRest(d), o.mark) == Decided(o.mark, Drop) by {
        ExecJumps(t, p, d, PolicyKey("", ""), CommonChain(d), o.mark);
      }
      WalkStep(t, p, last, o.mark, depth);
    }
  }
}
