/** Chains with the right rules and sets with the right elements mean what the
    policy says: ports, peers and common chains against the decision list. */
module Meanings {
  import opened Ids
  import opened Marks
  import opened Machine
  import opened Identity
  import opened Intervals
  import opened Kernel
  import opened Reconcile
  import opened Policies
  import opened Compile
  import opened Effects
  import opened Walks

  /** The rules of a chain, in any order and up to counters, are the wanted ones. */
  ghost predicate Matching(rs: seq<Rule>, want: seq<Rule>) {
    && (forall i :: 0 <= i < |want| ==> SupportedRule(want[i]) && want[i] in rs)
    && (forall i :: 0 <= i < |rs| ==> SupportedRule(rs[i]) && HasKey(want, rs[i]))
  }

  ghost predicate HasKey(want: seq<Rule>, r: Rule) {
    exists j :: 0 <= j < |want| && KeyOf(want[j]) == KeyOf(r)
  }

  lemma SameKeyActs(t: Table, p: Packet, a: Rule, b: Rule)
    requires SupportedRule(a) && SupportedRule(b) && KeyOf(a) == KeyOf(b)
    ensures Skips(t, p, a) ==> Skips(t, p, b)
    ensures SetsPort(t, p, a) ==> SetsPort(t, p, b)
    ensures SetsPeer(t, p, a) ==> SetsPeer(t, p, b)
    ensures Accepts(t, p, a) ==> Accepts(t, p, b)
  {
    forall m ensures Exec(t, p, a, m) == Exec(t, p, b, m) {
      SameKeySameEffect(t, p, a, b, m);
    }
  }

  /** What some wanted rule does, some rule of the chain does, and vice versa. */
  lemma TransferPorts(t: Table, p: Packet, rs: seq<Rule>, want: seq<Rule>)
    requires Matching(rs, want) && forall r :: r in want ==> SetsPort(t, p, r) || Skips(t, p, r)
    ensures forall i :: 0 <= i < |rs| ==> SetsPort(t, p, rs[i]) || Skips(t, p, rs[i])
    ensures (exists i :: 0 <= i < |rs| && SetsPort(t, p, rs[i])) <==> exists r :: r in want && SetsPort(t, p, r)
  {
    forall i | 0 <= i < |rs|
      ensures SetsPort(t, p, rs[i]) || Skips(t, p, rs[i])
      ensures SetsPort(t, p, rs[i]) ==> exists r :: r in want && SetsPort(t, p, r)
    {
      var w := Counterpart(rs, want, i);
      SameKeyActs(t, p, w, rs[i]);
      SameKeyActs(t, p, rs[i], w);
    }
    if r :| r in want && SetsPort(t, p, r) {
      var i := Place(rs, want, r);
    }
  }

  lemma TransferPeers(t: Table, p: Packet, rs: seq<Rule>, want: seq<Rule>)
    requires Matching(rs, want) && forall r :: r in want ==> SetsPeer(t, p, r) || Skips(t, p, r)
    ensures forall i :: 0 <= i < |rs| ==> SetsPeer(t, p, rs[i]) || Skips(t, p, rs[i])
    ensures (exists i :: 0 <= i < |rs| && SetsPeer(t, p, rs[i])) <==> exists r :: r in want && SetsPeer(t, p, r)
  {
    hide SetsPeer, Skips;
    forall i | 0 <= i < |rs|
      ensures SetsPeer(t, p, rs[i]) || Skips(t, p, rs[i])
      ensures SetsPeer(t, p, rs[i]) ==> exists r :: r in want && SetsPeer(t, p, r)
    {
      var w := Counterpart(rs, want, i);
      SameKeyActs(t, p, w, rs[i]);
      SameKeyActs(t, p, rs[i], w);
    }
    if r :| r in want && SetsPeer(t, p, r) {
      var i := Place(rs, want, r);
    }
  }

  lemma TransferAccepts(t: Table, p: Packet, rs: seq<Rule>, want: seq<Rule>)
    requires Matching(rs, want) && forall r :: r in want ==> Accepts(t, p, r) || Skips(t, p, r)
    ensures forall i :: 0 <= i < |rs| ==> Accepts(t, p, rs[i]) || Skips(t, p, rs[i])
    ensures (exists i :: 0 <= i < |rs| && Accepts(t, p, rs[i])) <==> exists r :: r in want && Accepts(t, p, r)
  {
    forall i | 0 <= i < |rs|
      ensures Accepts(t, p, rs[i]) || Skips(t, p, rs[i])
      ensures Accepts(t, p, rs[i]) ==> exists r :: r in want && Accepts(t, p, r)
    {
      var w := Counterpart(rs, want, i);
      SameKeyActs(t, p, w, rs[i]);
      SameKeyActs(t, p, rs[i], w);
    }
    if r :| r in want && Accepts(t, p, r) {
      var i := Place(rs, want, r);
    }
  }

  lemma Counterpart(rs: seq<Rule>, want: seq<Rule>, i: nat) returns (w: Rule)
    requires Matching(rs, want) && i < |rs|
    ensures w in want && SupportedRule(w) && SupportedRule(rs[i]) && KeyOf(w) == KeyOf(rs[i])
  {
    assert HasKey(want, rs[i]);
    var j :| 0 <= j < |want| && KeyOf(want[j]) == KeyOf(rs[i]);
    w := want[j];
  }

  lemma Place(rs: seq<Rule>, want: seq<Rule>, r: Rule) returns (i: nat)
    requires Matching(rs, want) && r in want
    ensures i < |rs| && rs[i] == r
  {
    var j :| 0 <= j < |want| && want[j] == r;
    i :| 0 <= i < |rs| && rs[i] == r;
  }

  /** A plain or interval set with these elements. */
  ghost predicate SetIs(t: Table, s: SetId, interval: bool, es: set<Elem>) {
    s in t.sets && t.sets[s].interval == interval && t.sets[s].elems == es
  }

  /** Membership of a value among the elements of a plain or interval set. */
  ghost predicate Among(interval: bool, es: set<Elem>, v: Val) {
    if interval then v.Num? && Covers(es, v.n) else Elem(v, false) in es
  }

  /** The set answers for the value as one with these elements would. */
  ghost predicate Serves(t: Table, s: SetId, interval: bool, es: set<Elem>, v: Val) {
    InSet(t, s, v) <==> Among(interval, es, v)
  }

  // ----------------------------------------------------------------- ports

  function ProtoRules(d: Dir, k: PolicyKey, n: nat, ports: seq<PortSpec>, proto: Proto): seq<Rule>
    requires PortsOk(ports)
  {
    if ProtoRanges(ports, proto) == [] then [] else [PortsRule(d, k, n, proto)]
  }

  function PortsRules(d: Dir, k: PolicyKey, n: nat, ports: seq<PortSpec>): seq<Rule>
    requires PortsOk(ports)
  {
    ProtoRules(d, k, n, ports, TCP) + ProtoRules(d, k, n, ports, UDP) + ProtoRules(d, k, n, ports, SCTP) +
    if NoRanges(ports) then [AllPorts(d, k, n)] else []
  }

  lemma PortsRulesMembers(d: Dir, k: PolicyKey, n: nat, ports: seq<PortSpec>, r: Rule)
    requires PortsOk(ports)
    ensures r in PortsRules(d, k, n, ports) <==>
            || (exists proto :: ProtoRanges(ports, proto) != [] && r == PortsRule(d, k, n, proto))
            || (NoRanges(ports) && r == AllPorts(d, k, n))
  {
    hide PortsRule, AllPorts, ProtoRanges;
    if proto :| ProtoRanges(ports, proto) != [] && r == PortsRule(d, k, n, proto) {
      assert r in ProtoRules(d, k, n, ports, proto);
      match proto
      case TCP =>
      case UDP =>
      case SCTP =>
    }
  }

  lemma {:induction false} ProtoRangesIn(ports: seq<PortSpec>, proto: Proto, x: nat)
    requires PortsOk(ports)
    ensures AllWithin(ProtoRanges(ports, proto), MAX_PORT + 1)
    ensures InSome(ProtoRanges(ports, proto), x) <==>
            exists i :: 0 <= i < |ports| && ProtoOf(ports[i]) == proto && PortRange(ports[i]).Some? &&
              Holds(PortRange(ports[i]).value, x)
  {
    if ports != [] {
      var n := |ports| - 1;
      var init, rs, all := ports[..n], ProtoRanges(ports[..n], proto), ProtoRanges(ports, proto);
      ProtoRangesIn(init, proto, x);
      assert PortOk(ports[n]);
      var fits := ProtoOf(ports[n]) == proto && PortRange(ports[n]).Some? && Holds(PortRange(ports[n]).value, x);
      assert InSome(all, x) <==> InSome(rs, x) || fits by {
        if k :| 0 <= k < |all| && Holds(all[k], x) {
          if k < |rs| { assert Holds(rs[k], x); }
        }
        if k :| 0 <= k < |rs| && Holds(rs[k], x) {
          assert Holds(all[k], x);
        }
        if fits { assert Holds(all[|rs|], x); }
      }
      forall i | 0 <= i < n ensures ports[i] == init[i] {
      }
      if fits { assert ProtoOf(ports[n]) == proto; }
    }
  }

  lemma {:induction false} ProtoRangesEmpty(ports: seq<PortSpec>, proto: Proto)
    requires PortsOk(ports)
    ensures ProtoRanges(ports, proto) == [] <==>
            forall i :: 0 <= i < |ports| ==> !(ProtoOf(ports[i]) == proto && PortRange(ports[i]).Some?)
  {
    if ports != [] {
      var n := |ports| - 1;
      ProtoRangesEmpty(ports[..n], proto);
      assert forall i :: 0 <= i < n ==> ports[..n][i] == ports[i];
    }
  }

  lemma NoRangesMeans(ports: seq<PortSpec>)
    requires PortsOk(ports)
    ensures NoRanges(ports) <==> !NamesPorts(ports)
  {
    ProtoRangesEmpty(ports, TCP);
    ProtoRangesEmpty(ports, UDP);
    ProtoRangesEmpty(ports, SCTP);
    hide ProtoRanges;
    if NoRanges(ports) {
      forall i | 0 <= i < |ports| ensures PortRange(ports[i]).None? {
        match ProtoOf(ports[i])
        case TCP =>
        case UDP =>
        case SCTP =>
      }
    }
  }

  /** The packet's port is in the encoded ranges of a protocol. */
  ghost predicate Encoded(ports: seq<PortSpec>, proto: Proto, pkt: Packet)
    requires PortsOk(ports)
  {
    L4Number(proto) == pkt.l4 && Covers(Elems(Encode(ProtoRanges(ports, proto), MAX_PORT + 1)), pkt.dport)
  }

  /** The packet's port is in one of the ranges of a protocol. */
  ghost predicate Ranged(ports: seq<PortSpec>, proto: Proto, pkt: Packet)
    requires PortsOk(ports)
  {
    L4Number(proto) == pkt.l4 && InSome(ProtoRanges(ports, proto), pkt.dport)
  }

  /** The encoding represents the packet's port exactly. */
  ghost predicate PortsExact(ports: seq<PortSpec>, pkt: Packet)
    requires PortsOk(ports)
  {
    forall proto: Proto :: Encoded(ports, proto, pkt) <==> Ranged(ports, proto, pkt)
  }

  /** What the chain of a ports list reports, exact or not. */
  ghost predicate PortsEncoded(ports: seq<PortSpec>, pkt: Packet)
    requires PortsOk(ports)
  {
    NoRanges(ports) || exists proto: Proto :: Encoded(ports, proto, pkt)
  }

  lemma NothingEncoded(ports: seq<PortSpec>, proto: Proto, pkt: Packet)
    requires PortsOk(ports) && ProtoRanges(ports, proto) == []
    ensures !Encoded(ports, proto, pkt) && !Ranged(ports, proto, pkt)
  {
    assert Encode([], MAX_PORT + 1) == [];
  }

  lemma OneProto(p: Proto, q: Proto)
    requires L4Number(p) == L4Number(q)
    ensures p == q
  {
  }

  lemma RangedMatches(ports: seq<PortSpec>, pkt: Packet)
    requires PortsOk(ports)
    ensures (exists i :: 0 <= i < |ports| && PortMatches(ports[i], pkt)) <==>
            exists proto: Proto :: Ranged(ports, proto, pkt)
  {
    hide ProtoRanges, InSome, PortRange;
    if i :| 0 <= i < |ports| && PortMatches(ports[i], pkt) {
      ProtoRangesIn(ports, ProtoOf(ports[i]), pkt.dport);
      assert Ranged(ports, ProtoOf(ports[i]), pkt);
    }
    if proto: Proto :| Ranged(ports, proto, pkt) {
      ProtoRangesIn(ports, proto, pkt.dport);
      var i :| 0 <= i < |ports| && ProtoOf(ports[i]) == proto && PortRange(ports[i]).Some? &&
               Holds(PortRange(ports[i]).value, pkt.dport);
      assert PortMatches(ports[i], pkt);
    }
  }

  /** The report is right exactly when the encoding is exact for the packet. */
  lemma EncodedRight(ports: seq<PortSpec>, pkt: Packet)
    requires PortsOk(ports)
    ensures (PortsEncoded(ports, pkt) <==> PortsMatch(ports, pkt)) <==> PortsExact(ports, pkt)
  {
    hide ProtoRanges, NamesPorts, PortMatches, Covers, InSome;
    NoRangesMeans(ports);
    RangedMatches(ports, pkt);
    if NoRanges(ports) {
      forall proto: Proto ensures !Encoded(ports, proto, pkt) && !Ranged(ports, proto, pkt) {
        match proto
        case TCP => NothingEncoded(ports, TCP, pkt);
        case UDP => NothingEncoded(ports, UDP, pkt);
        case SCTP => NothingEncoded(ports, SCTP, pkt);
      }
    } else {
      forall p: Proto, q: Proto | L4Number(p) == pkt.l4 && L4Number(q) == pkt.l4 ensures p == q {
        OneProto(p, q);
      }
    }
  }

  /** No range of a protocol ends inside the union where no other range starts. */
  ghost predicate PortsSpaced(ports: seq<PortSpec>)
    requires PortsOk(ports)
  {
    forall proto: Proto :: NoInnerEnd(ProtoRanges(ports, proto), MAX_PORT + 1)
  }

  ghost predicate ExactAt(ports: seq<PortSpec>, proto: Proto, x: nat)
    requires PortsOk(ports)
  {
    Covers(Elems(Encode(ProtoRanges(ports, proto), MAX_PORT + 1)), x) <==> InSome(ProtoRanges(ports, proto), x)
  }

  lemma ProtoSpacedExactly(ports: seq<PortSpec>, proto: Proto)
    requires PortsOk(ports)
    ensures NoInnerEnd(ProtoRanges(ports, proto), MAX_PORT + 1) <==>
            forall x: nat :: x <= MAX_PORT ==> ExactAt(ports, proto, x)
  {
    hide ProtoRanges, Encode, Covers, InSome, NoInnerEnd;
    ProtoRangesIn(ports, proto, 0);
    EncodingExact(ProtoRanges(ports, proto), MAX_PORT + 1);
    if forall x: nat :: x <= MAX_PORT ==> ExactAt(ports, proto, x) {
      forall x: nat | x < MAX_PORT + 1
        ensures Covers(Elems(Encode(ProtoRanges(ports, proto), MAX_PORT + 1)), x) <==>
                InSome(ProtoRanges(ports, proto), x)
      {
        assert ExactAt(ports, proto, x);
      }
    }
  }

  /** A ports list is exact for every packet if and only if it is well spaced. */
  lemma SpacedExactly(ports: seq<PortSpec>)
    requires PortsOk(ports)
    ensures PortsSpaced(ports) <==> forall pkt :: ValidPacket(pkt) ==> PortsExact(ports, pkt)
  {
    hide ProtoRanges, Encode, Covers, InSome, NoInnerEnd;
    forall proto: Proto
      ensures NoInnerEnd(ProtoRanges(ports, proto), MAX_PORT + 1) <==>
              forall x: nat :: x <= MAX_PORT ==> ExactAt(ports, proto, x)
    {
      ProtoSpacedExactly(ports, proto);
    }
    if forall pkt :: ValidPacket(pkt) ==> PortsExact(ports, pkt) {
      forall proto: Proto, x: nat | x <= MAX_PORT ensures ExactAt(ports, proto, x) {
        var pkt := PortPacket(proto, x);
        assert ValidPacket(pkt);
        assert Encoded(ports, proto, pkt) <==> Ranged(ports, proto, pkt);
      }
    }
    if PortsSpaced(ports) {
      forall pkt, proto: Proto | ValidPacket(pkt) ensures Encoded(ports, proto, pkt) <==> Ranged(ports, proto, pkt) {
        assert ExactAt(ports, proto, pkt.dport);
      }
    }
  }

  function PortPacket(proto: Proto, x: nat): Packet {
    Packet("", "", false, L4Number(proto), 0, 0, x, 0, 0)
  }

  ghost predicate PortSetsRight(t: Table, d: Dir, k: PolicyKey, n: nat, ports: seq<PortSpec>, pkt: Packet)
    requires PortsOk(ports)
  {
    forall proto: Proto :: ProtoRanges(ports, proto) != [] && pkt.l4 == L4Number(proto) ==>
      Serves(t, PortsSet(d, k, n, proto), true, Elems(Encode(ProtoRanges(ports, proto), MAX_PORT + 1)), Num(pkt.dport))
  }

  lemma PortInMeans(t: Table, pkt: Packet, d: Dir, k: PolicyKey, n: nat, ports: seq<PortSpec>, proto: Proto)
    requires PortsOk(ports) && PortSetsRight(t, d, k, n, ports, pkt) && ProtoRanges(ports, proto) != []
    ensures PortIn(t, pkt, d, k, n, proto) <==> Encoded(ports, proto, pkt)
  {
    hide Encode, ProtoRanges, Covers;
  }

  lemma PortsRuleActs(t: Table, pkt: Packet, d: Dir, k: PolicyKey, n: nat, proto: Proto)
    ensures if PortIn(t, pkt, d, k, n, proto) then SetsPort(t, pkt, PortsRule(d, k, n, proto))
            else Skips(t, pkt, PortsRule(d, k, n, proto))
  {
    forall m ensures var r := Exec(t, pkt, PortsRule(d, k, n, proto), m);
                     if PortIn(t, pkt, d, k, n, proto) then r.Running? && r.mark == SetPort(m) else r == NoMatch(m)
    {
      ExecPorts(t, pkt, d, k, n, proto, m);
    }
  }

  lemma AllActs(t: Table, pkt: Packet, d: Dir, k: PolicyKey, n: nat)
    ensures SetsPort(t, pkt, AllPorts(d, k, n)) && SetsPeer(t, pkt, AllPeers(d, k, n))
  {
    forall m ensures var r := Exec(t, pkt, AllPorts(d, k, n), m); r.Running? && r.mark == SetPort(m) {
      ExecAll(t, pkt, d, k, n, m);
    }
    forall m ensures var r := Exec(t, pkt, AllPeers(d, k, n), m); r.Running? && r.mark == SetPeer(m) {
      ExecAll(t, pkt, d, k, n, m);
    }
  }

  lemma NotBoth(t: Table, p: Packet, r: Rule)
    ensures Skips(t, p, r) ==> !SetsPort(t, p, r) && !SetsPeer(t, p, r) && !Accepts(t, p, r)
  {
    var e := Exec(t, p, r, 0);
    assert SetPeer(0) != 0;
  }

  /** The packet's port is in the installed set of a protocol the list names. */
  ghost predicate Listed(t: Table, pkt: Packet, d: Dir, k: PolicyKey, n: nat, ports: seq<PortSpec>, proto: Proto)
    requires PortsOk(ports)
  {
    ProtoRanges(ports, proto) != [] && PortIn(t, pkt, d, k, n, proto)
  }

  /** What the chain of a ports list reports, whatever its sets hold. */
  ghost predicate PortsHeld(t: Table, pkt: Packet, d: Dir, k: PolicyKey, n: nat, ports: seq<PortSpec>)
    requires PortsOk(ports)
  {
    NoRanges(ports) || exists proto: Proto :: Listed(t, pkt, d, k, n, ports, proto)
  }

  /** Each wanted rule marks or skips; one of them marks iff a set holds the port. */
  lemma PortsRulesAct(t: Table, pkt: Packet, d: Dir, k: PolicyKey, n: nat, ports: seq<PortSpec>)
    requires PortsOk(ports)
    ensures forall r :: r in PortsRules(d, k, n, ports) ==> SetsPort(t, pkt, r) || Skips(t, pkt, r)
    ensures (exists r :: r in PortsRules(d, k, n, ports) && SetsPort(t, pkt, r)) <==> PortsHeld(t, pkt, d, k, n, ports)
  {
    hide PortsRules, PortsRule, AllPorts, PortIn, SetsPort, Skips, ProtoRanges, NoRanges;
    var want := PortsRules(d, k, n, ports);
    AllActs(t, pkt, d, k, n);
    forall r | r in want
      ensures SetsPort(t, pkt, r) || Skips(t, pkt, r)
      ensures SetsPort(t, pkt, r) ==> PortsHeld(t, pkt, d, k, n, ports)
    {
      PortsRulesMembers(d, k, n, ports, r);
      if proto :| ProtoRanges(ports, proto) != [] && r == PortsRule(d, k, n, proto) {
        PortsRuleActs(t, pkt, d, k, n, proto);
        NotBoth(t, pkt, r);
        assert PortIn(t, pkt, d, k, n, proto) ==> Listed(t, pkt, d, k, n, ports, proto);
      }
    }
    if proto: Proto :| Listed(t, pkt, d, k, n, ports, proto) {
      PortsRuleActs(t, pkt, d, k, n, proto);
      PortsRulesMembers(d, k, n, ports, PortsRule(d, k, n, proto));
    }
    if NoRanges(ports) {
      PortsRulesMembers(d, k, n, ports, AllPorts(d, k, n));
    }
  }

  /** A ports chain, in any order of its rules, sets its bit for the packets whose
      port its sets hold, and for no others. */
  lemma PortsChainHeld(t: Table, pkt: Packet, d: Dir, k: PolicyKey, n: nat, ports: seq<PortSpec>)
    requires PortsOk(ports)
    requires Matching(Shape(Chain(t, PortsChain(d, k, n))), PortsRules(d, k, n, ports))
    ensures PortsRight(t, pkt, PortsChain(d, k, n), PortsHeld(t, pkt, d, k, n, ports))
  {
    hide PortsRules, Shape, PortsHeld, SetsPort, Skips;
    var c := PortsChain(d, k, n);
    var rs, want, held := Shape(Chain(t, c)), PortsRules(d, k, n, ports), PortsHeld(t, pkt, d, k, n, ports);
    PortsRulesAct(t, pkt, d, k, n, ports);
    TransferPorts(t, pkt, rs, want);
    forall m, depth: nat ensures Walk(t, pkt, Rules(t, c), m, depth) == Out(Ended, if held then SetPort(m) else m) {
      ShapeWalk(t, pkt, c, m, depth);
      WalkPorts(t, pkt, rs, m, depth);
    }
  }

  lemma HeldEncoded(t: Table, pkt: Packet, d: Dir, k: PolicyKey, n: nat, ports: seq<PortSpec>)
    requires PortsOk(ports) && PortSetsRight(t, d, k, n, ports, pkt)
    ensures PortsHeld(t, pkt, d, k, n, ports) <==> PortsEncoded(ports, pkt)
  {
    hide PortIn, Encoded, PortSetsRight, ProtoRanges, NoRanges;
    forall proto: Proto ensures Listed(t, pkt, d, k, n, ports, proto) <==> Encoded(ports, proto, pkt) {
      if ProtoRanges(ports, proto) == [] {
        NothingEncoded(ports, proto, pkt);
      } else {
        PortInMeans(t, pkt, d, k, n, ports, proto);
      }
    }
  }

  lemma PortsChainEncoded(t: Table, pkt: Packet, d: Dir, k: PolicyKey, n: nat, ports: seq<PortSpec>)
    requires PortsOk(ports) && PortSetsRight(t, d, k, n, ports, pkt)
    requires Matching(Shape(Chain(t, PortsChain(d, k, n))), PortsRules(d, k, n, ports))
    ensures PortsRight(t, pkt, PortsChain(d, k, n), PortsEncoded(ports, pkt))
  {
    hide PortsRules, Shape, PortsEncoded, PortsHeld, PortSetsRight, Matching;
    PortsChainHeld(t, pkt, d, k, n, ports);
    HeldEncoded(t, pkt, d, k, n, ports);
  }

  lemma PortsRightOnce(t: Table, pkt: Packet, c: ChainId, a: bool, b: bool)
    requires PortsRight(t, pkt, c, a)
    ensures PortsRight(t, pkt, c, b) <==> a == b
  {
    hide Walk, Rules;
    if PortsRight(t, pkt, c, b) {
      assert Walk(t, pkt, Rules(t, c), 0, 0) == Out(Ended, if a then SetPort(0) else 0);
      assert Walk(t, pkt, Rules(t, c), 0, 0) == Out(Ended, if b then SetPort(0) else 0);
      assert SetPort(0) != 0;
    }
  }

  /** A ports chain, in any order of its rules, sets its bit for the packets whose
      port the list names, and for no others, if and only if the encoding of the
      list is exact for the packet. */
  lemma PortsChainRight(t: Table, pkt: Packet, d: Dir, k: PolicyKey, n: nat, ports: seq<PortSpec>)
    requires PortsOk(ports) && PortSetsRight(t, d, k, n, ports, pkt)
    requires Matching(Shape(Chain(t, PortsChain(d, k, n))), PortsRules(d, k, n, ports))
    ensures PortsRight(t, pkt, PortsChain(d, k, n), PortsMatch(ports, pkt)) <==> PortsExact(ports, pkt)
  {
    hide PortsRules, Shape, PortsMatch, PortsEncoded, PortsExact, PortSetsRight, PortsRight, Matching;
    PortsChainEncoded(t, pkt, d, k, n, ports);
    EncodedRight(ports, pkt);
    PortsRightOnce(t, pkt, PortsChain(d, k, n), PortsEncoded(ports, pkt), PortsMatch(ports, pkt));
  }

  // ----------------------------------------------------------------- peers

  function BlockRules(d: Dir, k: PolicyKey, n: nat, j: nat, b: IPBlock): seq<Rule>
    requires b.cidr.Parsed? && AllParsed(b.except)
  {
    (if PrefixElems(Prefixes(b.except), b.cidr.prefix.v6) == [] then [] else [ExceptRule(d, k, n, j, b.cidr.prefix)]) +
    [BlockRule(d, k, n, j, b.cidr.prefix)]
  }

  function FamilyRules(d: Dir, k: PolicyKey, n: nat, j: nat, v6: bool, text: string, addrs: set<Addr>): seq<Rule> {
    if FamilyElems(addrs, v6) == {} then [] else [SelectorRule(d, k, n, j, v6, text)]
  }

  function PeerRules(inp: Input, nets: seq<string>, d: Dir, k: PolicyKey, n: nat, j: nat, peer: PeerSpec): seq<Rule>
    requires PeerOk(peer)
  {
    if peer.block.Some? then BlockRules(d, k, n, j, peer.block.value)
    else
      var addrs := SelectorAddrs(inp.view, inp.ifs, nets, peer);
      FamilyRules(d, k, n, j, false, SelectorText(peer), addrs) +
        FamilyRules(d, k, n, j, true, SelectorText(peer), addrs)
  }

  function PeerListRules(inp: Input, nets: seq<string>, d: Dir, k: PolicyKey, n: nat, peers: seq<PeerSpec>): seq<Rule>
    requires PeersOk(peers)
  {
    if peers == [] then [] else
    var j := |peers| - 1;
    PeerListRules(inp, nets, d, k, n, peers[..j]) + PeerRules(inp, nets, d, k, n, j, peers[j])
  }

  function PeersRules(inp: Input, nets: seq<string>, d: Dir, k: PolicyKey, n: nat, peers: seq<PeerSpec>): seq<Rule>
    requires PeersOk(peers)
  {
    PeerListRules(inp, nets, d, k, n, peers) + if peers == [] then [AllPeers(d, k, n)] else []
  }

  /** The encoded prefixes hold the address exactly when some prefix does. */
  ghost predicate PrefixesExact(ps: seq<Prefix>, v6: bool, a: nat) {
    Covers(Elems(PrefixElems(ps, v6)), a) <==> InPrefixes(ps, v6, a)
  }

  /** A prefix list is exact for every address of a family if and only if none of
      its ranges ends inside their union where no other starts. */
  lemma PrefixesSpacedExactly(ps: seq<Prefix>, v6: bool)
    requires forall i :: 0 <= i < |ps| ==> ValidPrefix(ps[i])
    ensures PrefixesSpaced(ps, v6) <==> forall a: nat :: a < Top(v6) ==> PrefixesExact(ps, v6, a)
  {
    hide PrefixElems, FamilyRanges, Covers, InPrefixes, NoInnerEnd, Elems, Top;
    PrefixEncodingExact(ps, v6);
    if forall a: nat :: a < Top(v6) ==> PrefixesExact(ps, v6, a) {
      forall a: nat | a < Top(v6) ensures Covers(Elems(PrefixElems(ps, v6)), a) <==> InPrefixes(ps, v6, a) {
        assert PrefixesExact(ps, v6, a);
      }
    }
  }

  ghost predicate PrefixesSpaced(ps: seq<Prefix>, v6: bool) {
    NoInnerEnd(FamilyRanges(ps, v6), Top(v6))
  }

  ghost predicate BlockExact(b: IPBlock, d: Dir, pkt: Packet)
    requires b.cidr.Parsed? && AllParsed(b.except)
  {
    b.cidr.prefix.v6 == pkt.v6 ==> PrefixesExact(Prefixes(b.except), pkt.v6, Remote(d, pkt))
  }

  /** The sets of one peer hold what they should. */
  ghost predicate PeerSetsRight(t: Table, inp: Input, nets: seq<string>, d: Dir, k: PolicyKey, n: nat, j: nat,
                                peer: PeerSpec, pkt: Packet)
    requires PeerOk(peer)
  {
    if peer.block.Some? then
      var b := peer.block.value;
      var v6 := b.cidr.prefix.v6;
      v6 == pkt.v6 ==>
        && Serves(t, BlockSet(d, k, n, j, v6), true, Elems(PrefixElems([b.cidr.prefix], v6)), Num(Remote(d, pkt)))
        && (PrefixElems(Prefixes(b.except), v6) != [] ==>
              Serves(t, ExceptSet(d, k, n, j, v6), true, Elems(PrefixElems(Prefixes(b.except), v6)),
                     Num(Remote(d, pkt))))
    else
      var es := FamilyElems(SelectorAddrs(inp.view, inp.ifs, nets, peer), pkt.v6);
      es != {} ==> Serves(t, SelectorSet(d, k, n, j, pkt.v6, SelectorText(peer)), false, es, Num(Remote(d, pkt)))
  }

  lemma OnePrefix(t: Table, s: SetId, cidr: Prefix, a: nat)
    requires ValidPrefix(cidr) && a < Top(cidr.v6)
    requires Serves(t, s, true, Elems(PrefixElems([cidr], cidr.v6)), Num(a))
    ensures InSet(t, s, Num(a)) <==> Contains(cidr, a)
  {
    var ps := [cidr];
    PrefixEncodingExact(ps, cidr.v6);
    assert FamilyRanges(ps, cidr.v6) == [RangeOf(cidr)] by {
      assert ps[..0] == [];
    }
    PrefixWithin(cidr);
    DisjointNoInnerEnd([RangeOf(cidr)], Top(cidr.v6));
    hide PrefixElems, Covers, Contains;
    assert Covers(Elems(PrefixElems(ps, cidr.v6)), a) <==> InPrefixes(ps, cidr.v6, a);
    if Contains(cidr, a) {
      assert Contains(ps[0], a);
    }
  }

  lemma ManyPrefixes(t: Table, s: SetId, ps: seq<Prefix>, v6: bool, a: nat)
    requires forall i :: 0 <= i < |ps| ==> ValidPrefix(ps[i])
    requires PrefixesExact(ps, v6, a) && Serves(t, s, true, Elems(PrefixElems(ps, v6)), Num(a))
    ensures InSet(t, s, Num(a)) <==> InPrefixes(ps, v6, a)
  {
    hide PrefixElems, Covers, InPrefixes;
  }

  lemma NoPrefixes(ps: seq<Prefix>, v6: bool, a: nat)
    requires PrefixElems(ps, v6) == []
    ensures !InPrefixes(ps, v6, a)
  {
    PrefixElemsEmpty(ps, v6);
    FamilyRangesUnion(ps, v6, a);
  }

  /** Membership of the other side in the sets of an IPBlock peer. */
  lemma BlockMeans(t: Table, inp: Input, pkt: Packet, nets: seq<string>, d: Dir, k: PolicyKey, n: nat, j: nat,
                   peer: PeerSpec)
    requires PeerOk(peer) && peer.block.Some? && BlockExact(peer.block.value, d, pkt) && ValidPacket(pkt)
    requires PeerSetsRight(t, inp, nets, d, k, n, j, peer, pkt)
    ensures var b := peer.block.value;
            var v6 := b.cidr.prefix.v6;
            var o := PeerOutcome(inp, nets, peer, d, pkt);
            var denied :=
              PrefixElems(Prefixes(b.except), v6) != [] && RemoteIn(t, pkt, d, v6, ExceptSet(d, k, n, j, v6));
            && (o.Denied? <==> denied)
            && (!denied ==> (o.Hit? <==> RemoteIn(t, pkt, d, v6, BlockSet(d, k, n, j, v6))))
  {
    var b := peer.block.value;
    var cidr, except, a := b.cidr.prefix, Prefixes(b.except), Remote(d, pkt);
    hide PrefixElems, Contains, InPrefixes, InSet, Prefixes, NoInnerEnd, FamilyRanges, Top;
    if cidr.v6 == pkt.v6 {
      OnePrefix(t, BlockSet(d, k, n, j, cidr.v6), cidr, a);
      if PrefixElems(except, cidr.v6) == [] {
        NoPrefixes(except, cidr.v6, a);
      } else {
        ManyPrefixes(t, ExceptSet(d, k, n, j, cidr.v6), except, cidr.v6, a);
      }
    }
  }

  /** Membership of the other side in the sets of a selector peer. */
  lemma SelectorMeans(t: Table, inp: Input, pkt: Packet, nets: seq<string>, d: Dir, k: PolicyKey, n: nat, j: nat,
                      peer: PeerSpec)
    requires PeerOk(peer) && peer.block.None? && PeerSetsRight(t, inp, nets, d, k, n, j, peer, pkt)
    ensures var addrs := SelectorAddrs(inp.view, inp.ifs, nets, peer);
            var v6 := pkt.v6;
            PeerOutcome(inp, nets, peer, d, pkt) ==
            if FamilyElems(addrs, v6) != {} && RemoteIn(t, pkt, d, v6, SelectorSet(d, k, n, j, v6, SelectorText(peer)))
            then Hit else Miss
  {
    var addrs, a := SelectorAddrs(inp.view, inp.ifs, nets, peer), Addr(pkt.v6, Remote(d, pkt));
    SelectorAddrsMeaning(inp.view, inp.ifs, nets, peer, a);
    hide SelectorAddrs, SelectorHas;
    assert a in addrs <==> Elem(Num(a.value), false) in FamilyElems(addrs, pkt.v6);
  }

  /** Whether a rule of a peers chain sets the peer bit or does nothing. */
  lemma PeerRuleActs(t: Table, pkt: Packet, d: Dir, v6: bool, s: SetId, r: Rule)
    requires forall m :: Exec(t, pkt, r, m) ==
               if RemoteIn(t, pkt, d, v6, s) then Decided(SetPeer(m), Return) else NoMatch(m)
    ensures if RemoteIn(t, pkt, d, v6, s) then SetsPeer(t, pkt, r) else Skips(t, pkt, r)
  {
  }

  lemma BlockActs(t: Table, pkt: Packet, d: Dir, k: PolicyKey, n: nat, j: nat, cidr: Prefix)
    ensures if RemoteIn(t, pkt, d, cidr.v6, BlockSet(d, k, n, j, cidr.v6))
            then SetsPeer(t, pkt, BlockRule(d, k, n, j, cidr))
            else Skips(t, pkt, BlockRule(d, k, n, j, cidr))
  {
    hide RemoteIn;
    var s := BlockSet(d, k, n, j, cidr.v6);
    forall m ensures Exec(t, pkt, BlockRule(d, k, n, j, cidr), m) ==
                     if RemoteIn(t, pkt, d, cidr.v6, s) then Decided(SetPeer(m), Return) else NoMatch(m)
    {
      ExecBlock(t, pkt, d, k, n, j, cidr, m);
    }
    PeerRuleActs(t, pkt, d, cidr.v6, s, BlockRule(d, k, n, j, cidr));
  }

  lemma SelectorActs(t: Table, pkt: Packet, d: Dir, k: PolicyKey, n: nat, j: nat, v6: bool, text: string)
    ensures if RemoteIn(t, pkt, d, v6, SelectorSet(d, k, n, j, v6, text))
            then SetsPeer(t, pkt, SelectorRule(d, k, n, j, v6, text))
            else Skips(t, pkt, SelectorRule(d, k, n, j, v6, text))
  {
    hide RemoteIn;
    var s := SelectorSet(d, k, n, j, v6, text);
    forall m ensures Exec(t, pkt, SelectorRule(d, k, n, j, v6, text), m) ==
                     if RemoteIn(t, pkt, d, v6, s) then Decided(SetPeer(m), Return) else NoMatch(m)
    {
      ExecSelector(t, pkt, d, k, n, j, v6, text, m);
    }
    PeerRuleActs(t, pkt, d, v6, s, SelectorRule(d, k, n, j, v6, text));
  }

  /** The excepts of the peer, if it is an IPBlock, represent the packet exactly. */
  ghost predicate PeerExact(peer: PeerSpec, d: Dir, pkt: Packet)
    requires PeerOk(peer)
  {
    peer.block.Some? ==> BlockExact(peer.block.value, d, pkt)
  }

  // --------------------------------------------- peers in order, with excepts

  lemma WalkOne(t: Table, p: Packet, r: Rule, m: Mark, depth: nat)
    ensures var e := Exec(t, p, r, m);
            && (e == NoMatch(m) ==> Walk(t, p, [r], m, depth) == Out(Ended, m))
            && (e == Decided(m, Drop) ==> Walk(t, p, [r], m, depth) == Out(Dropped, m))
            && (e == Decided(SetPeer(m), Return) ==> Walk(t, p, [r], m, depth) == Out(Returned, SetPeer(m)))
  {
    hide Exec, SetPeer;
    assert [r][1..] == [];
  }

  /** Listed peers: a hit returns at once. */
  ghost predicate ListOut(w: Out, m: Mark, o: Outcome) {
    PeersOut(w, m, o) && (o.Hit? ==> w.fate.Returned?)
  }

  lemma BlockWalk(t: Table, inp: Input, pkt: Packet, nets: seq<string>, d: Dir, k: PolicyKey, n: nat, j: nat,
                  peer: PeerSpec, m: Mark, depth: nat)
    requires PeerOk(peer) && peer.block.Some? && BlockExact(peer.block.value, d, pkt) && ValidPacket(pkt)
    requires PeerSetsRight(t, inp, nets, d, k, n, j, peer, pkt)
    ensures ListOut(Walk(t, pkt, BlockRules(d, k, n, j, peer.block.value), m, depth), m,
                    PeerOutcome(inp, nets, peer, d, pkt))
  {
    BlockMeans(t, inp, pkt, nets, d, k, n, j, peer);
    var b := peer.block.value;
    var cidr := b.cidr.prefix;
    ExecExcept(t, pkt, d, k, n, j, cidr, m);
    ExecBlock(t, pkt, d, k, n, j, cidr, m);
    hide PrefixElems, RemoteIn, ExceptRule, BlockRule, Exec, SetPeer, PeerOutcome, PeerSetsRight, BlockExact;
    WalkOne(t, pkt, ExceptRule(d, k, n, j, cidr), m, depth);
    WalkOne(t, pkt, BlockRule(d, k, n, j, cidr), m, depth);
    if PrefixElems(Prefixes(b.except), cidr.v6) == [] {
      assert BlockRules(d, k, n, j, b) == [BlockRule(d, k, n, j, cidr)];
    } else {
      WalkConcat(t, pkt, [ExceptRule(d, k, n, j, cidr)], [BlockRule(d, k, n, j, cidr)], m, depth);
    }
  }

  lemma FamilyWalk(t: Table, pkt: Packet, d: Dir, k: PolicyKey, n: nat, j: nat, v6: bool, text: string,
                   addrs: set<Addr>, m: Mark, depth: nat)
    ensures Walk(t, pkt, FamilyRules(d, k, n, j, v6, text, addrs), m, depth) ==
            if FamilyElems(addrs, v6) != {} && RemoteIn(t, pkt, d, v6, SelectorSet(d, k, n, j, v6, text))
            then Out(Returned, SetPeer(m)) else Out(Ended, m)
  {
    ExecSelector(t, pkt, d, k, n, j, v6, text, m);
    hide RemoteIn, SelectorRule, Exec, SetPeer;
    WalkOne(t, pkt, SelectorRule(d, k, n, j, v6, text), m, depth);
  }

  lemma PeerWalk(t: Table, inp: Input, pkt: Packet, nets: seq<string>, d: Dir, k: PolicyKey, n: nat, j: nat,
                 peer: PeerSpec, m: Mark, depth: nat)
    requires PeerOk(peer) && PeerExact(peer, d, pkt) && ValidPacket(pkt)
    requires PeerSetsRight(t, inp, nets, d, k, n, j, peer, pkt)
    ensures ListOut(Walk(t, pkt, PeerRules(inp, nets, d, k, n, j, peer), m, depth), m,
                    PeerOutcome(inp, nets, peer, d, pkt))
  {
    if peer.block.Some? {
      BlockWalk(t, inp, pkt, nets, d, k, n, j, peer, m, depth);
    } else {
      SelectorMeans(t, inp, pkt, nets, d, k, n, j, peer);
      hide SelectorAddrs, FamilyRules, PeerOutcome, PeerSetsRight, SetPeer, FamilyElems, SelectorText;
      var addrs, text := SelectorAddrs(inp.view, inp.ifs, nets, peer), SelectorText(peer);
      FamilyWalk(t, pkt, d, k, n, j, false, text, addrs, m, depth);
      FamilyWalk(t, pkt, d, k, n, j, true, text, addrs, m, depth);
      WalkConcat(t, pkt, FamilyRules(d, k, n, j, false, text, addrs), FamilyRules(d, k, n, j, true, text, addrs), m,
                 depth);
    }
  }

  lemma {:induction false} PeersOutcomeSnoc(inp: Input, nets: seq<string>, peers: seq<PeerSpec>, d: Dir, pkt: Packet)
    requires PeersOk(peers) && peers != []
    ensures var n := |peers| - 1;
            var o := PeersOutcome(inp, nets, peers[..n], d, pkt);
            PeersOutcome(inp, nets, peers, d, pkt) == if o.Miss? then PeerOutcome(inp, nets, peers[n], d, pkt) else o
  {
    hide PeerOutcome;
    var n := |peers| - 1;
    if n == 0 {
      assert peers[..n] == [] && peers[1..] == [];
    } else {
      PeersOutcomeSnoc(inp, nets, peers[1..], d, pkt);
      assert peers[1..][..n - 1] == peers[..n][1..];
    }
  }

  /** All peers of a rule: their sets hold what they should, exactly for the packet. */
  ghost predicate AllPeersRight(t: Table, inp: Input, pkt: Packet, nets: seq<string>, d: Dir, k: PolicyKey, n: nat,
                                peers: seq<PeerSpec>)
    requires PeersOk(peers)
  {
    forall j :: 0 <= j < |peers| ==>
      PeerExact(peers[j], d, pkt) && PeerSetsRight(t, inp, nets, d, k, n, j, peers[j], pkt)
  }

  lemma {:induction false} PeerListWalk(t: Table, inp: Input, pkt: Packet, nets: seq<string>, d: Dir, k: PolicyKey,
                                        n: nat, peers: seq<PeerSpec>, m: Mark, depth: nat)
    requires PeersOk(peers) && ValidPacket(pkt) && AllPeersRight(t, inp, pkt, nets, d, k, n, peers)
    ensures ListOut(Walk(t, pkt, PeerListRules(inp, nets, d, k, n, peers), m, depth), m,
                    PeersOutcome(inp, nets, peers, d, pkt))
  {
    hide PeerRules, PeerOutcome, PeerSetsRight, PeerExact, SetPeer;
    if peers != [] {
      var j := |peers| - 1;
      PeersOutcomeSnoc(inp, nets, peers, d, pkt);
      PeerListWalk(t, inp, pkt, nets, d, k, n, peers[..j], m, depth);
      PeerWalk(t, inp, pkt, nets, d, k, n, j, peers[j], m, depth);
      WalkConcat(t, pkt, PeerListRules(inp, nets, d, k, n, peers[..j]), PeerRules(inp, nets, d, k, n, j, peers[j]), m,
                 depth);
    }
  }

  /** No peers at all means every peer. */
  ghost function RuleOutcome(inp: Input, nets: seq<string>, peers: seq<PeerSpec>, d: Dir, pkt: Packet): Outcome
    requires PeersOk(peers)
  {
    if peers == [] then Hit else PeersOutcome(inp, nets, peers, d, pkt)
  }

  /** A peers chain with its rules in compiled order. */
  lemma PeersChainInOrder(t: Table, inp: Input, pkt: Packet, nets: seq<string>, d: Dir, k: PolicyKey, n: nat,
                          peers: seq<PeerSpec>)
    requires PeersOk(peers) && ValidPacket(pkt) && AllPeersRight(t, inp, pkt, nets, d, k, n, peers)
    requires Shape(Chain(t, PeersChain(d, k, n))) == PeersRules(inp, nets, d, k, n, peers)
    ensures PeersRight(t, pkt, PeersChain(d, k, n), RuleOutcome(inp, nets, peers, d, pkt))
  {
    var c, rs := PeersChain(d, k, n), PeersRules(inp, nets, d, k, n, peers);
    hide PeerListRules, PeersOutcome, AllPeersRight, SetPeer, AllPeers, Shape, Rules;
    assert rs == if peers == [] then PeerListRules(inp, nets, d, k, n, peers) + [AllPeers(d, k, n)]
                 else PeerListRules(inp, nets, d, k, n, peers);
    forall m, depth: nat
      ensures PeersOut(Walk(t, pkt, Rules(t, c), m, depth), m, RuleOutcome(inp, nets, peers, d, pkt))
    {
      ShapeWalk(t, pkt, c, m, depth);
      PeerListWalk(t, inp, pkt, nets, d, k, n, peers, m, depth);
      if peers == [] {
        NoPeersWalk(t, inp, pkt, nets, d, k, n, m, depth);
      }
    }
  }

  lemma NoPeersWalk(t: Table, inp: Input, pkt: Packet, nets: seq<string>, d: Dir, k: PolicyKey, n: nat, m: Mark,
                    depth: nat)
    ensures Walk(t, pkt, PeerListRules(inp, nets, d, k, n, []) + [AllPeers(d, k, n)], m, depth) ==
            Out(Ended, SetPeer(m))
  {
    var rs := [AllPeers(d, k, n)];
    assert PeerListRules(inp, nets, d, k, n, []) + rs == rs && rs[1..] == [];
    ExecAll(t, pkt, d, k, n, m);
    hide AllPeers, Exec;
    WalkStep(t, pkt, rs, m, depth);
  }

  // ------------------------------------------ peers in any order, no excepts

  lemma NoExceptElems(b: IPBlock)
    requires b.cidr.Parsed? && b.except == []
    ensures AllParsed(b.except) && PrefixElems(Prefixes(b.except), b.cidr.prefix.v6) == []
  {
    assert Prefixes(b.except) == [];
  }

  /** Each rule of one peer hits or skips, and one hits iff the peer does. */
  lemma PeerRulesAct(t: Table, inp: Input, pkt: Packet, nets: seq<string>, d: Dir, k: PolicyKey, n: nat, j: nat,
                     peer: PeerSpec)
    requires PeerOk(peer) && PeerExact(peer, d, pkt) && NoExcept(peer) && ValidPacket(pkt)
    requires PeerSetsRight(t, inp, nets, d, k, n, j, peer, pkt)
    ensures var rs := PeerRules(inp, nets, d, k, n, j, peer);
            && (forall r :: r in rs ==> SetsPeer(t, pkt, r) || Skips(t, pkt, r))
            && ((exists r :: r in rs && SetsPeer(t, pkt, r)) <==> PeerOutcome(inp, nets, peer, d, pkt).Hit?)
  {
    hide SetsPeer, Skips, PeerOutcome, PeerSetsRight, PeerExact, PeerRules;
    if peer.block.Some? {
      BlockPeerActs(t, inp, pkt, nets, d, k, n, j, peer);
    } else {
      SelectorPeerActs(t, inp, pkt, nets, d, k, n, j, peer);
    }
  }

  lemma BlockPeerActs(t: Table, inp: Input, pkt: Packet, nets: seq<string>, d: Dir, k: PolicyKey, n: nat, j: nat,
                      peer: PeerSpec)
    requires peer.block.Some? && PeerOk(peer) && PeerExact(peer, d, pkt) && NoExcept(peer) && ValidPacket(pkt)
    requires PeerSetsRight(t, inp, nets, d, k, n, j, peer, pkt)
    ensures var rs := PeerRules(inp, nets, d, k, n, j, peer);
            && (forall r :: r in rs ==> SetsPeer(t, pkt, r) || Skips(t, pkt, r))
            && ((exists r :: r in rs && SetsPeer(t, pkt, r)) <==> PeerOutcome(inp, nets, peer, d, pkt).Hit?)
  {
    NoExceptElems(peer.block.value);
    BlockMeans(t, inp, pkt, nets, d, k, n, j, peer);
    var r := BlockRule(d, k, n, j, peer.block.value.cidr.prefix);
    BlockActs(t, pkt, d, k, n, j, peer.block.value.cidr.prefix);
    NotBoth(t, pkt, r);
    hide SetsPeer, Skips, PeerOutcome, PeerSetsRight, BlockRule, RemoteIn, BlockExact;
    assert PeerRules(inp, nets, d, k, n, j, peer) == [r];
    assert r in [r];
  }

  lemma SelectorPeerActs(t: Table, inp: Input, pkt: Packet, nets: seq<string>, d: Dir, k: PolicyKey, n: nat, j: nat,
                         peer: PeerSpec)
    requires peer.block.None? && PeerOk(peer) && PeerExact(peer, d, pkt) && NoExcept(peer) && ValidPacket(pkt)
    requires PeerSetsRight(t, inp, nets, d, k, n, j, peer, pkt)
    ensures var rs := PeerRules(inp, nets, d, k, n, j, peer);
            && (forall r :: r in rs ==> SetsPeer(t, pkt, r) || Skips(t, pkt, r))
            && ((exists r :: r in rs && SetsPeer(t, pkt, r)) <==> PeerOutcome(inp, nets, peer, d, pkt).Hit?)
  {
    hide SetsPeer, Skips, PeerOutcome, PeerSetsRight, SelectorRule, SelectorAddrs, FamilyElems, SelectorText, InSet;
    SelectorMeans(t, inp, pkt, nets, d, k, n, j, peer);
    var addrs, text := SelectorAddrs(inp.view, inp.ifs, nets, peer), SelectorText(peer);
    var a, b := SelectorRule(d, k, n, j, false, text), SelectorRule(d, k, n, j, true, text);
    SelectorActs(t, pkt, d, k, n, j, false, text);
    SelectorActs(t, pkt, d, k, n, j, true, text);
    NotBoth(t, pkt, a);
    NotBoth(t, pkt, b);
    assert !RemoteIn(t, pkt, d, !pkt.v6, SelectorSet(d, k, n, j, !pkt.v6, text));
    var x, y := FamilyRules(d, k, n, j, false, text, addrs), FamilyRules(d, k, n, j, true, text, addrs);
    assert PeerRules(inp, nets, d, k, n, j, peer) == x + y;
    assert forall r :: r in x + y <==> r in x || r in y;
    assert a in x <==> x != [];
    assert b in y <==> y != [];
  }

  lemma {:induction false} PeerListRulesAct(t: Table, inp: Input, pkt: Packet, nets: seq<string>, d: Dir, k: PolicyKey,
                                            n: nat, peers: seq<PeerSpec>)
    requires PeersOk(peers) && ValidPacket(pkt) && AllPeersRight(t, inp, pkt, nets, d, k, n, peers)
    requires forall j :: 0 <= j < |peers| ==> NoExcept(peers[j])
    ensures var rs := PeerListRules(inp, nets, d, k, n, peers);
            && (forall r :: r in rs ==> SetsPeer(t, pkt, r) || Skips(t, pkt, r))
            && ((exists r :: r in rs && SetsPeer(t, pkt, r)) <==> SomePeer(inp, nets, peers, d, pkt))
  {
    hide PeerRules, PeerOutcome, PeerSetsRight, PeerExact, SetsPeer, Skips;
    if peers != [] {
      var j := |peers| - 1;
      var init := peers[..j];
      PeerListRulesAct(t, inp, pkt, nets, d, k, n, init);
      PeerRulesAct(t, inp, pkt, nets, d, k, n, j, peers[j]);
      var x, y := PeerListRules(inp, nets, d, k, n, init), PeerRules(inp, nets, d, k, n, j, peers[j]);
      assert forall r :: r in x + y <==> r in x || r in y;
      assert SomePeer(inp, nets, peers, d, pkt) <==>
             SomePeer(inp, nets, init, d, pkt) || PeerOutcome(inp, nets, peers[j], d, pkt).Hit? by {
        if i :| 0 <= i < |peers| && PeerOutcome(inp, nets, peers[i], d, pkt).Hit? {
          if i < j { assert PeerOutcome(inp, nets, init[i], d, pkt).Hit?; }
        }
        if i :| 0 <= i < |init| && PeerOutcome(inp, nets, init[i], d, pkt).Hit? {
          assert PeerOutcome(inp, nets, peers[i], d, pkt).Hit?;
        }
      }
    }
  }

  /** A peers chain without excepts, its rules in any order. */
  lemma PeersChainAnyOrder(t: Table, inp: Input, pkt: Packet, nets: seq<string>, d: Dir, k: PolicyKey, n: nat,
                           peers: seq<PeerSpec>)
    requires PeersOk(peers) && ValidPacket(pkt) && AllPeersRight(t, inp, pkt, nets, d, k, n, peers)
    requires forall j :: 0 <= j < |peers| ==> NoExcept(peers[j])
    requires Matching(Shape(Chain(t, PeersChain(d, k, n))), PeersRules(inp, nets, d, k, n, peers))
    ensures PeersRight(t, pkt, PeersChain(d, k, n), RuleOutcome(inp, nets, peers, d, pkt))
  {
    var c := PeersChain(d, k, n);
    var rs, want := Shape(Chain(t, c)), PeersRules(inp, nets, d, k, n, peers);
    PeerListRulesAct(t, inp, pkt, nets, d, k, n, peers);
    PeersNoExcept(inp, nets, peers, d, pkt);
    AllActs(t, pkt, d, k, n);
    hide PeerListRules, SetsPeer, Skips, AllPeers, AllPeersRight, PeersOutcome, SomePeer;
    if peers == [] {
      assert want == PeerListRules(inp, nets, d, k, n, peers) + [AllPeers(d, k, n)];
      assert AllPeers(d, k, n) in want;
    } else {
      assert want == PeerListRules(inp, nets, d, k, n, peers);
    }
    TransferPeers(t, pkt, rs, want);
    forall m, depth: nat
      ensures PeersOut(Walk(t, pkt, Rules(t, c), m, depth), m, RuleOutcome(inp, nets, peers, d, pkt))
    {
      ShapeWalk(t, pkt, c, m, depth);
      WalkPeersHit(t, pkt, rs, m, depth);
    }
  }

  // -------------------------------------------------- peers in installed order

  /** What a rule of a peers chain does to the packet. */
  ghost function Acts(t: Table, pkt: Packet, r: Rule): Outcome {
    match Exec(t, pkt, r, 0)
    case NoMatch(_) => Miss
    case Decided(_, Drop) => Denied
    case _ => Hit
  }

  /** The first rule that does not miss decides. */
  ghost function FirstActs(t: Table, pkt: Packet, rs: seq<Rule>): Outcome {
    if rs == [] then Miss
    else
      var o := Acts(t, pkt, rs[0]);
      if o.Miss? then FirstActs(t, pkt, rs[1..]) else o
  }

  /** From every mark the rule hits and returns, misses, or drops. */
  ghost predicate ActsAs(t: Table, pkt: Packet, r: Rule, o: Outcome) {
    forall m :: Exec(t, pkt, r, m) ==
      match o
      case Hit => Decided(SetPeer(m), Return)
      case Miss => NoMatch(m)
      case Denied => Decided(m, Drop)
  }

  lemma ActsOnce(t: Table, pkt: Packet, r: Rule, o: Outcome)
    requires ActsAs(t, pkt, r, o)
    ensures Acts(t, pkt, r) == o
  {
    hide Exec;
  }

  lemma SameKeyActsAs(t: Table, pkt: Packet, a: Rule, b: Rule, o: Outcome)
    requires SupportedRule(a) && SupportedRule(b) && KeyOf(a) == KeyOf(b) && ActsAs(t, pkt, a, o)
    ensures ActsAs(t, pkt, b, o)
  {
    hide Exec, KeyOf;
    forall m ensures Exec(t, pkt, a, m) == Exec(t, pkt, b, m) {
      SameKeySameEffect(t, pkt, a, b, m);
    }
  }

  /** The rules of IP blocks and selectors, by the sets they look up. */
  lemma PeerRulesActAs(t: Table, pkt: Packet, d: Dir, k: PolicyKey, n: nat, j: nat, cidr: Prefix, v6: bool,
                       text: string)
    ensures ActsAs(t, pkt, ExceptRule(d, k, n, j, cidr),
                   if RemoteIn(t, pkt, d, cidr.v6, ExceptSet(d, k, n, j, cidr.v6)) then Denied else Miss)
    ensures ActsAs(t, pkt, BlockRule(d, k, n, j, cidr),
                   if RemoteIn(t, pkt, d, cidr.v6, BlockSet(d, k, n, j, cidr.v6)) then Hit else Miss)
    ensures ActsAs(t, pkt, SelectorRule(d, k, n, j, v6, text),
                   if RemoteIn(t, pkt, d, v6, SelectorSet(d, k, n, j, v6, text)) then Hit else Miss)
  {
    hide Exec, RemoteIn, ExceptRule, BlockRule, SelectorRule, SetPeer;
    forall m
      ensures Exec(t, pkt, ExceptRule(d, k, n, j, cidr), m) ==
              if RemoteIn(t, pkt, d, cidr.v6, ExceptSet(d, k, n, j, cidr.v6)) then Decided(m, Drop) else NoMatch(m)
      ensures Exec(t, pkt, BlockRule(d, k, n, j, cidr), m) ==
              if RemoteIn(t, pkt, d, cidr.v6, BlockSet(d, k, n, j, cidr.v6)) then Decided(SetPeer(m), Return)
              else NoMatch(m)
      ensures Exec(t, pkt, SelectorRule(d, k, n, j, v6, text), m) ==
              if RemoteIn(t, pkt, d, v6, SelectorSet(d, k, n, j, v6, text)) then Decided(SetPeer(m), Return)
              else NoMatch(m)
    {
      ExecExcept(t, pkt, d, k, n, j, cidr, m);
      ExecBlock(t, pkt, d, k, n, j, cidr, m);
      ExecSelector(t, pkt, d, k, n, j, v6, text, m);
    }
  }

  ghost predicate Plain(t: Table, pkt: Packet, r: Rule) {
    exists o :: ActsAs(t, pkt, r, o)
  }

  lemma PeerRulesPlain(t: Table, inp: Input, pkt: Packet, nets: seq<string>, d: Dir, k: PolicyKey, n: nat, j: nat,
                       peer: PeerSpec, r: Rule)
    requires PeerOk(peer) && r in PeerRules(inp, nets, d, k, n, j, peer)
    ensures Plain(t, pkt, r)
  {
    hide ActsAs, ExceptRule, BlockRule, SelectorRule, SelectorAddrs, FamilyElems, PrefixElems, Prefixes;
    var text := SelectorText(peer);
    if peer.block.Some? {
      PeerRulesActAs(t, pkt, d, k, n, j, peer.block.value.cidr.prefix, false, text);
    } else {
      PeerRulesActAs(t, pkt, d, k, n, j, Prefix(false, 0, 0), false, text);
      PeerRulesActAs(t, pkt, d, k, n, j, Prefix(false, 0, 0), true, text);
    }
  }

  lemma {:induction false} PeerListPlain(t: Table, inp: Input, pkt: Packet, nets: seq<string>, d: Dir, k: PolicyKey,
                                         n: nat, peers: seq<PeerSpec>)
    requires PeersOk(peers)
    ensures forall r :: r in PeerListRules(inp, nets, d, k, n, peers) ==> Plain(t, pkt, r)
  {
    hide PeerRules, Plain;
    if peers != [] {
      var j := |peers| - 1;
      PeerListPlain(t, inp, pkt, nets, d, k, n, peers[..j]);
      var x, y := PeerListRules(inp, nets, d, k, n, peers[..j]), PeerRules(inp, nets, d, k, n, j, peers[j]);
      forall r | r in x + y ensures Plain(t, pkt, r) {
        InConcat(x, y, r);
        if r in y {
          PeerRulesPlain(t, inp, pkt, nets, d, k, n, j, peers[j], r);
        }
      }
    }
  }

  lemma {:induction false} WalkFirst(t: Table, pkt: Packet, rs: seq<Rule>, m: Mark, depth: nat)
    requires forall i :: 0 <= i < |rs| ==> Plain(t, pkt, rs[i])
    ensures PeersOut(Walk(t, pkt, rs, m, depth), m, FirstActs(t, pkt, rs))
    decreases |rs|
  {
    hide Exec, SetPeer, Acts;
    if rs == [] {
      WalkNone(t, pkt, m, depth);
    } else {
      hide Walk;
      var rest := rs[1..];
      assert Plain(t, pkt, rs[0]);
      var o :| ActsAs(t, pkt, rs[0], o);
      ActsOnce(t, pkt, rs[0], o);
      WalkFirst(t, pkt, rest, m, depth);
      WalkOne(t, pkt, rs[0], m, depth);
      WalkConcat(t, pkt, [rs[0]], rest, m, depth);
      assert [rs[0]] + rest == rs;
    }
  }

  /** A peers chain in whatever order its rules were installed: the first rule
      that does not miss decides, by what its set holds. */
  lemma PeersChainInstalled(t: Table, inp: Input, pkt: Packet, nets: seq<string>, d: Dir, k: PolicyKey, n: nat,
                            peers: seq<PeerSpec>)
    requires PeersOk(peers) && Matching(Shape(Chain(t, PeersChain(d, k, n))), PeersRules(inp, nets, d, k, n, peers))
    ensures PeersRight(t, pkt, PeersChain(d, k, n), FirstActs(t, pkt, Shape(Chain(t, PeersChain(d, k, n)))))
  {
    hide PeerListRules, AllPeers, Shape, Rules, Walk, Acts, FirstActs, ActsAs, KeyOf;
    var c := PeersChain(d, k, n);
    var rs, want := Shape(Chain(t, c)), PeersRules(inp, nets, d, k, n, peers);
    if peers == [] {
      EveryPeer(t, inp, pkt, nets, d, k, n);
    } else {
      PeerListPlain(t, inp, pkt, nets, d, k, n, peers);
      assert want == PeerListRules(inp, nets, d, k, n, peers);
      forall i | 0 <= i < |rs| ensures Plain(t, pkt, rs[i]) {
        var w := Counterpart(rs, want, i);
        assert Plain(t, pkt, w);
        var o :| ActsAs(t, pkt, w, o);
        SameKeyActsAs(t, pkt, w, rs[i], o);
      }
      forall m, depth: nat ensures PeersOut(Walk(t, pkt, Rules(t, c), m, depth), m, FirstActs(t, pkt, rs)) {
        ShapeWalk(t, pkt, c, m, depth);
        WalkFirst(t, pkt, rs, m, depth);
      }
    }
  }

  lemma EveryPeer(t: Table, inp: Input, pkt: Packet, nets: seq<string>, d: Dir, k: PolicyKey, n: nat)
    requires Matching(Shape(Chain(t, PeersChain(d, k, n))), PeersRules(inp, nets, d, k, n, []))
    ensures PeersRight(t, pkt, PeersChain(d, k, n), Hit)
    ensures FirstActs(t, pkt, Shape(Chain(t, PeersChain(d, k, n)))) == Hit
  {
    hide AllPeers, Exec, KeyOf, Shape, Rules, Walk, SetsPeer, Skips, Acts, SetPeer;
    var c, all := PeersChain(d, k, n), AllPeers(d, k, n);
    var rs, want := Shape(Chain(t, c)), PeersRules(inp, nets, d, k, n, []);
    assert want == [all] && all in want;
    AllActs(t, pkt, d, k, n);
    TransferPeers(t, pkt, rs, want);
    var w := Place(rs, want, all);
    forall i | 0 <= i < |rs| ensures SetsPeer(t, pkt, rs[i]) {
      var w := Counterpart(rs, want, i);
      SameKeyActs(t, pkt, w, rs[i]);
    }
    SetsPeerActs(t, pkt, rs[0]);
    forall m, depth: nat ensures PeersOut(Walk(t, pkt, Rules(t, c), m, depth), m, Hit) {
      ShapeWalk(t, pkt, c, m, depth);
      WalkPeersHit(t, pkt, rs, m, depth);
    }
  }

  lemma SetsPeerActs(t: Table, pkt: Packet, r: Rule)
    requires SetsPeer(t, pkt, r)
    ensures Acts(t, pkt, r) == Hit
  {
    hide Exec;
  }

  /** A chain has one outcome. */
  lemma PeersRightOnce(t: Table, pkt: Packet, c: ChainId, a: Outcome, b: Outcome)
    requires PeersRight(t, pkt, c, a) && PeersRight(t, pkt, c, b)
    ensures a == b
  {
    hide Walk, Rules;
    var w := Walk(t, pkt, Rules(t, c), 0, 0);
    assert PeersOut(w, 0, a) && PeersOut(w, 0, b);
    assert SetPeer(0) != 0;
  }

  /** In compiled order, or in any order without excepts, and with sets that answer
      right, the first rule that does not miss says what the peers say. */
  lemma InstalledOrderRight(t: Table, inp: Input, pkt: Packet, nets: seq<string>, d: Dir, k: PolicyKey, n: nat,
                            peers: seq<PeerSpec>)
    requires PeersOk(peers) && ValidPacket(pkt) && AllPeersRight(t, inp, pkt, nets, d, k, n, peers)
    requires Matching(Shape(Chain(t, PeersChain(d, k, n))), PeersRules(inp, nets, d, k, n, peers))
    requires Shape(Chain(t, PeersChain(d, k, n))) == PeersRules(inp, nets, d, k, n, peers) ||
             forall j :: 0 <= j < |peers| ==> NoExcept(peers[j])
    ensures FirstActs(t, pkt, Shape(Chain(t, PeersChain(d, k, n)))) == RuleOutcome(inp, nets, peers, d, pkt)
  {
    hide PeersRules, AllPeersRight, Matching, PeersRight, FirstActs, RuleOutcome, NoExcept, Shape;
    var c := PeersChain(d, k, n);
    PeersChainInstalled(t, inp, pkt, nets, d, k, n, peers);
    if Shape(Chain(t, c)) == PeersRules(inp, nets, d, k, n, peers) {
      PeersChainInOrder(t, inp, pkt, nets, d, k, n, peers);
    } else {
      PeersChainAnyOrder(t, inp, pkt, nets, d, k, n, peers);
    }
    PeersRightOnce(t, pkt, c, FirstActs(t, pkt, Shape(Chain(t, c))), RuleOutcome(inp, nets, peers, d, pkt));
  }

  // ---------------------------------------------------------- common chains

  function PrefixRules(d: Dir, ps: seq<Prefix>, v6: bool): seq<Rule> {
    if PrefixElems(ps, v6) == [] then [] else [CommonPrefix(d, v6)]
  }

  /** The rules of a common chain (their order does not matter). */
  function CommonRules(cfg: Config, d: Dir): seq<Rule>
    requires ConfigOk(cfg)
  {
    var ps := Prefixes(CommonCidrs(cfg, d));
    [if cfg.icmp6 then Icmp(d, true) else Ndp(d)] + (if cfg.icmp then [Icmp(d, false)] else []) +
    PrefixRules(d, ps, false) + PrefixRules(d, ps, true) + [ConntrackRule(d)]
  }

  ghost predicate CommonExact(cfg: Config, d: Dir, pkt: Packet)
    requires ConfigOk(cfg)
  {
    PrefixesExact(Prefixes(CommonCidrs(cfg, d)), pkt.v6, Remote(d, pkt))
  }

  ghost predicate CommonSetsRight(t: Table, cfg: Config, d: Dir, pkt: Packet)
    requires ConfigOk(cfg)
  {
    var ps := Prefixes(CommonCidrs(cfg, d));
    && (!cfg.icmp6 && pkt.v6 && pkt.l4 == ICMPV6 ==> Serves(t, NdpTypes, false, NDP_ELEMS, Num(pkt.icmpType)))
    && (PrefixElems(ps, pkt.v6) != [] ==>
          Serves(t, CommonSet(d, pkt.v6), true, Elems(PrefixElems(ps, pkt.v6)), Num(Remote(d, pkt))))
  }

  ghost predicate AcceptsIff(t: Table, p: Packet, r: Rule, b: bool) {
    (Accepts(t, p, r) || Skips(t, p, r)) && (Accepts(t, p, r) <==> b)
  }

  lemma ActsIff(t: Table, p: Packet, r: Rule, b: bool)
    requires forall m :: Exec(t, p, r, m) == if b then Decided(m, Accept) else NoMatch(m)
    ensures AcceptsIff(t, p, r, b)
  {
    NotBoth(t, p, r);
  }

  lemma PrefixActs(t: Table, pkt: Packet, d: Dir, v6: bool)
    ensures AcceptsIff(t, pkt, CommonPrefix(d, v6), RemoteIn(t, pkt, d, v6, CommonSet(d, v6)))
  {
    hide RemoteIn, CommonPrefix;
    var b := RemoteIn(t, pkt, d, v6, CommonSet(d, v6));
    forall m ensures Exec(t, pkt, CommonPrefix(d, v6), m) == if b then Decided(m, Accept) else NoMatch(m) {
      ExecPrefix(t, pkt, d, v6, m);
    }
    ActsIff(t, pkt, CommonPrefix(d, v6), b);
  }

  lemma IcmpActs(t: Table, pkt: Packet, d: Dir, v6: bool)
    ensures AcceptsIff(t, pkt, Icmp(d, v6), pkt.l4 == if v6 then ICMPV6 else ICMP)
    ensures AcceptsIff(t, pkt, ConntrackRule(d), Conntracked(pkt))
  {
    forall m
      ensures Exec(t, pkt, Icmp(d, v6), m) ==
              if pkt.l4 == (if v6 then ICMPV6 else ICMP) then Decided(m, Accept) else NoMatch(m)
    {
      ExecIcmp(t, pkt, d, v6, m);
    }
    forall m ensures Exec(t, pkt, ConntrackRule(d), m) == if Conntracked(pkt) then Decided(m, Accept) else NoMatch(m) {
      ExecConntrack(t, pkt, d, m);
    }
    ActsIff(t, pkt, Icmp(d, v6), pkt.l4 == if v6 then ICMPV6 else ICMP);
    ActsIff(t, pkt, ConntrackRule(d), Conntracked(pkt));
  }

  lemma NdpActs(t: Table, pkt: Packet, d: Dir)
    ensures AcceptsIff(t, pkt, Ndp(d), NdpIn(t, pkt))
  {
    forall m ensures Exec(t, pkt, Ndp(d), m) == if NdpIn(t, pkt) then Decided(m, Accept) else NoMatch(m) {
      hide InSet, Ndp;
      ExecNdp(t, pkt, d, m);
    }
    ActsIff(t, pkt, Ndp(d), NdpIn(t, pkt));
  }

  /** A neighbour discovery packet, as the installed set of types has it. */
  ghost predicate NdpIn(t: Table, pkt: Packet) {
    pkt.v6 && pkt.l4 == ICMPV6 && InSet(t, NdpTypes, Num(pkt.icmpType))
  }

  /** The other side is in the installed set of allowed prefixes of the family. */
  ghost predicate PrefixIn(t: Table, cfg: Config, d: Dir, pkt: Packet, v6: bool)
    requires ConfigOk(cfg)
  {
    PrefixElems(Prefixes(CommonCidrs(cfg, d)), v6) != [] && RemoteIn(t, pkt, d, v6, CommonSet(d, v6))
  }

  /** What a common chain accepts, whatever its sets hold. */
  ghost predicate CommonHeld(t: Table, cfg: Config, d: Dir, pkt: Packet)
    requires ConfigOk(cfg)
  {
    || (if cfg.icmp6 then pkt.l4 == ICMPV6 else NdpIn(t, pkt))
    || (cfg.icmp && pkt.l4 == ICMP)
    || PrefixIn(t, cfg, d, pkt, false) || PrefixIn(t, cfg, d, pkt, true)
    || Conntracked(pkt)
  }

  /** Each wanted rule accepts or skips; one accepts iff the sets say so. */
  lemma CommonRulesAct(t: Table, pkt: Packet, cfg: Config, d: Dir)
    requires ConfigOk(cfg)
    ensures var rs := CommonRules(cfg, d);
            && (forall r :: r in rs ==> Accepts(t, pkt, r) || Skips(t, pkt, r))
            && ((exists r :: r in rs && Accepts(t, pkt, r)) <==> CommonHeld(t, cfg, d, pkt))
  {
    var first := if cfg.icmp6 then Icmp(d, true) else Ndp(d);
    var b1 := if cfg.icmp6 then pkt.l4 == ICMPV6 else NdpIn(t, pkt);
    IcmpActs(t, pkt, d, true);
    IcmpActs(t, pkt, d, false);
    NdpActs(t, pkt, d);
    PrefixActs(t, pkt, d, false);
    PrefixActs(t, pkt, d, true);
    assert AcceptsIff(t, pkt, first, b1);
    hide Icmp, Ndp, CommonPrefix, ConntrackRule, AcceptsIff, NdpIn, RemoteIn, Conntracked, PrefixElems, Prefixes,
         CommonRules;
    CommonDisjunction(t, pkt, cfg, d, first, b1, pkt.l4 == ICMP, PrefixIn(t, cfg, d, pkt, false),
                      PrefixIn(t, cfg, d, pkt, true), Conntracked(pkt));
  }

  /** Sets that answer right make that what the configuration accepts. */
  lemma HeldAccepts(t: Table, cfg: Config, d: Dir, pkt: Packet)
    requires ConfigOk(cfg) && CommonExact(cfg, d, pkt) && CommonSetsRight(t, cfg, d, pkt) && ValidPacket(pkt)
    ensures CommonHeld(t, cfg, d, pkt) <==> CommonAccepts(cfg, d, pkt)
  {
    hide PrefixElems, Prefixes, InPrefixes, InSet, Covers;
    var ps, a := Prefixes(CommonCidrs(cfg, d)), Remote(d, pkt);
    if PrefixElems(ps, pkt.v6) == [] {
      NoPrefixes(ps, pkt.v6, a);
    } else {
      ManyPrefixes(t, CommonSet(d, pkt.v6), ps, pkt.v6, a);
    }
    assert PrefixIn(t, cfg, d, pkt, pkt.v6) <==> InPrefixes(ps, pkt.v6, a);
    assert !PrefixIn(t, cfg, d, pkt, !pkt.v6);
    if !cfg.icmp6 && pkt.v6 && pkt.l4 == ICMPV6 {
      assert Among(false, NDP_ELEMS, Num(pkt.icmpType)) <==> pkt.icmpType in NDP_TYPES;
    }
  }

  lemma CommonDisjunction(t: Table, pkt: Packet, cfg: Config, d: Dir, first: Rule, b1: bool, b2: bool, b3: bool,
                          b4: bool, b5: bool)
    requires ConfigOk(cfg) && first == if cfg.icmp6 then Icmp(d, true) else Ndp(d)
    requires AcceptsIff(t, pkt, first, b1) && AcceptsIff(t, pkt, Icmp(d, false), b2)
    requires AcceptsIff(t, pkt, ConntrackRule(d), b5)
    requires if PrefixElems(Prefixes(CommonCidrs(cfg, d)), false) == [] then !b3
             else AcceptsIff(t, pkt, CommonPrefix(d, false), b3)
    requires if PrefixElems(Prefixes(CommonCidrs(cfg, d)), true) == [] then !b4
             else AcceptsIff(t, pkt, CommonPrefix(d, true), b4)
    ensures var rs := CommonRules(cfg, d);
            && (forall r :: r in rs ==> Accepts(t, pkt, r) || Skips(t, pkt, r))
            && ((exists r :: r in rs && Accepts(t, pkt, r)) <==> b1 || (cfg.icmp && b2) || b3 || b4 || b5)
  {
    hide Icmp, Ndp, CommonPrefix, ConntrackRule, Accepts, Skips, PrefixElems, Prefixes, CommonRules;
    CommonMembers(t, pkt, cfg, d, first);
  }

  /** Disjunction over the members of the rule list. */
  lemma CommonMembers(t: Table, pkt: Packet, cfg: Config, d: Dir, first: Rule)
    requires ConfigOk(cfg) && first == if cfg.icmp6 then Icmp(d, true) else Ndp(d)
    ensures var rs, ps := CommonRules(cfg, d), Prefixes(CommonCidrs(cfg, d));
            forall r :: r in rs <==>
              || r == first || (cfg.icmp && r == Icmp(d, false))
              || (PrefixElems(ps, false) != [] && r == CommonPrefix(d, false))
              || (PrefixElems(ps, true) != [] && r == CommonPrefix(d, true)) || r == ConntrackRule(d)
    ensures first in CommonRules(cfg, d) && ConntrackRule(d) in CommonRules(cfg, d)
    ensures cfg.icmp ==> Icmp(d, false) in CommonRules(cfg, d)
    ensures forall v6 :: PrefixElems(Prefixes(CommonCidrs(cfg, d)), v6) != [] ==>
              CommonPrefix(d, v6) in CommonRules(cfg, d)
  {
    hide Icmp, Ndp, CommonPrefix, ConntrackRule, PrefixElems, Prefixes;
    var ps := Prefixes(CommonCidrs(cfg, d));
    var a, b, x, y := [first], if cfg.icmp then [Icmp(d, false)] else [], PrefixRules(d, ps, false),
                      PrefixRules(d, ps, true);
    var z := [ConntrackRule(d)];
    assert CommonRules(cfg, d) == a + b + x + y + z;
    forall r ensures r in a + b + x + y + z <==> r in a || r in b || r in x || r in y || r in z {
      InConcat(a + b + x + y, z, r);
      InConcat(a + b + x, y, r);
      InConcat(a + b, x, r);
      InConcat(a, b, r);
    }
    assert forall v6 :: PrefixElems(ps, v6) != [] ==> CommonPrefix(d, v6) in PrefixRules(d, ps, v6);
  }

  lemma InConcat(a: seq<Rule>, b: seq<Rule>, r: Rule)
    ensures r in a + b <==> r in a || r in b
  {
  }

  /** A common chain, in any order, accepts what its sets and settings say. */
  lemma CommonChainHeld(t: Table, pkt: Packet, cfg: Config, d: Dir, m: Mark, depth: nat)
    requires ConfigOk(cfg) && Matching(Shape(Chain(t, CommonChain(d))), CommonRules(cfg, d))
    ensures Walk(t, pkt, Rules(t, CommonChain(d)), m, depth) ==
            Out(if CommonHeld(t, cfg, d, pkt) then Accepted else Ended, m)
  {
    var rs, want := Shape(Chain(t, CommonChain(d))), CommonRules(cfg, d);
    CommonRulesAct(t, pkt, cfg, d);
    hide CommonRules, Shape, CommonHeld, Accepts, Skips;
    TransferAccepts(t, pkt, rs, want);
    ShapeWalk(t, pkt, CommonChain(d), m, depth);
    WalkAccepts(t, pkt, rs, m, depth);
  }

  lemma CommonChainRight(t: Table, pkt: Packet, cfg: Config, d: Dir, m: Mark, depth: nat)
    requires ConfigOk(cfg) && CommonExact(cfg, d, pkt) && CommonSetsRight(t, cfg, d, pkt) && ValidPacket(pkt)
    requires Matching(Shape(Chain(t, CommonChain(d))), CommonRules(cfg, d))
    ensures Walk(t, pkt, Rules(t, CommonChain(d)), m, depth) ==
            Out(if CommonAccepts(cfg, d, pkt) then Accepted else Ended, m)
  {
    hide CommonRules, Shape, CommonHeld, CommonAccepts, CommonExact, CommonSetsRight, Matching, Walk;
    CommonChainHeld(t, pkt, cfg, d, m, depth);
    HeldAccepts(t, cfg, d, pkt);
  }
}
