/** The state of one reconcile pass: rules, sets and chains are looked up in the
    committed ruleset, operations are queued on the connection, and everything
    asked for is remembered for the cleanup. */
module NftState {
  import opened Ids
  import opened Marks
  import opened Machine
  import opened Identity
  import opened Intervals
  import opened Elements
  import opened Kernel
  import opened Reconcile
  import opened Flush
  import opened Cleanup
  import opened Policies
  import opened Compile
  import opened Passes
  import opened Selectors
  import opened Listing

  /** Queue and tracking agree with the requests made so far. */
  ghost predicate InSync(rs: Ruleset, pending: seq<Op>, rules: map<Key, Rule>, sets: set<(TableId, SetId)>,
                         chains: set<(TableId, ChainId)>, log: seq<Req>)
  {
    && WellFormed(rs) && pending == Ops(log, rs)
    && rules.Keys == KeysOf(log) && sets == SetsOf(log) && chains == ChainsOf(log)
  }

  /** No rule of the committed chain equals r. */
  ghost predicate Absent(rs: Ruleset, r: Rule) {
    Find(ChainAt(rs, r.table, r.chain), r).None?
  }

  lemma InSyncSnoc(rs: Ruleset, pending: seq<Op>, rules: map<Key, Rule>, sets: set<(TableId, SetId)>,
                   chains: set<(TableId, ChainId)>, log: seq<Req>, q: Req)
    requires InSync(rs, pending, rules, sets, chains, log)
    ensures Ops(log + [q], rs) == pending + OpsFor(q, rs)
    ensures KeysOf(log + [q]) == rules.Keys + if q.RuleReq? then {KeyOf(q.rule)} else {}
    ensures SetsOf(log + [q]) == sets + if q.SetReq? then {(q.t, q.s)} else {}
    ensures ChainsOf(log + [q]) == chains + if q.ChainReq? then {(q.t, q.c)} else {}
  {
    hide OpsFor, KeyOf;
    var l := log + [q];
    assert l[..|log|] == log;
    assert q in l && forall x :: x in l <==> x in log || x == q;
  }

  /** The installed rule and its forced replacement have the key of the rule. */
  lemma FoundKey(rs: Ruleset, r: Rule)
    requires WellFormed(rs)
    ensures var e := Find(ChainAt(rs, r.table, r.chain), r);
            e.Some? ==> KeyOf(e.value.rule) == KeyOf(r) && KeyOf(WithCounterOf(r, e.value.rule)) == KeyOf(r)
  {
    var l := ChainAt(rs, r.table, r.chain);
    var e := Find(l, r);
    ChainAtOk(rs, r.table, r.chain);
    if e.Some? {
      var i :| 0 <= i < |l| && l[i] == e.value;
      RuleEqualSameKey(r, e.value.rule);
      CounterSwap(r, e.value.rule);
    }
  }

  // ----------------------------------------------------------------- helpers

  /** The nested loops that carry a counter over to the replacing rule. */
  method SwapCounter(r: Rule, existing: Rule) returns (r': Rule)
    ensures r' == WithCounterOf(r, existing)
  {
    r' := r;
    var copied := false;
    var i := 0;
    while i < |existing.exprs| && !copied
      invariant i <= |existing.exprs|
      invariant !copied ==>
                  CounterAt(existing.exprs, 0) == CounterAt(existing.exprs, i) || CounterAt(r.exprs, 0) == |r.exprs|
      invariant !copied ==> r' == r
      invariant copied ==> r' == WithCounterOf(r, existing)
      decreases |existing.exprs| - i, !copied
    {
      if existing.exprs[i].Counter? {
        var j := 0;
        while j < |r.exprs| && !copied
          invariant j <= |r.exprs|
          invariant !copied ==> r' == r && CounterAt(r.exprs, 0) == CounterAt(r.exprs, j)
          invariant copied ==> r' == WithCounterOf(r, existing)
          decreases |r.exprs| - j, !copied
        {
          if r.exprs[j].Counter? {
            r' := r.(exprs := r.exprs[j := existing.exprs[i]]);
            copied := true;
          } else {
            j := j + 1;
          }
        }
      }
      if !copied {
        i := i + 1;
      }
    }
  }

  /** validatePortSpec: the two boundaries of the range; the end of a range up to
      65535 wraps around to 0.  No port, no elements. */
  function ValidatePortSpec(p: PortSpec): (es: Option<seq<Elem>>)
    ensures es.Some? <==> PortOk(p)
    ensures PortOk(p) && p.port.Some? ==> es.value == EncodeRange(PortRange(p).value, MAX_PORT + 1)
    ensures p.port.None? ==> es == Some([])
  {
    if p.port.None? then Some([])
    else if p.port.value.PortText? && (p.port.value.parsed.None? || p.port.value.parsed.value < 1 ||
                                       p.port.value.parsed.value > MAX_PORT) then None
    else
      var n := if p.port.value.PortText? then p.port.value.parsed.value else p.port.value.n;
      if n < 1 || n > MAX_PORT then None
      else if p.end.Some? && p.end.value > n then
        if p.end.value < 1 || p.end.value > MAX_PORT then None
        else Some([Elem(Num(n), false), Elem(Num((p.end.value + 1) % (MAX_PORT + 1)), true)])
      else Some([Elem(Num(n), false), Elem(Num((n + 1) % (MAX_PORT + 1)), true)])
  }

  /** An entry with a protocol alone stands for all its ports. */
  function Filled(p: PortSpec): (q: PortSpec)
    ensures PortOk(p) <==> PortOk(q)
    ensures PortOk(p) ==> PortRange(q) == PortRange(p) && (q.port.Some? <==> PortRange(p).Some?)
    ensures ProtoOf(q) == ProtoOf(p)
  {
    if p.port.None? && p.proto.Some? then p.(port := Some(PortNum(1)), end := Some(MAX_PORT)) else p
  }

  /** The loop over the entries of a ports list. */
  method CollectPorts(ports: seq<PortSpec>) returns (ok: bool, tcp: seq<Elem>, udp: seq<Elem>, sctp: seq<Elem>)
    ensures ok <==> PortsOk(ports)
    ensures ok ==>
              tcp == Encode(ProtoRanges(ports, TCP), MAX_PORT + 1) &&
                udp == Encode(ProtoRanges(ports, UDP), MAX_PORT + 1)
    ensures ok ==> sctp == Encode(ProtoRanges(ports, SCTP), MAX_PORT + 1)
  {
    ok, tcp, udp, sctp := true, [], [], [];
    for i := 0 to |ports|
      invariant ok && PortsOk(ports[..i])
      invariant tcp == Encode(ProtoRanges(ports[..i], TCP), MAX_PORT + 1)
      invariant udp == Encode(ProtoRanges(ports[..i], UDP), MAX_PORT + 1)
      invariant sctp == Encode(ProtoRanges(ports[..i], SCTP), MAX_PORT + 1)
    {
      var p := Filled(ports[i]);
      var es := ValidatePortSpec(p);
      if es.None? {
        assert !PortOk(ports[i]);
        ok := false;
        return;
      }
      RangesStep(ports, i, TCP);
      RangesStep(ports, i, UDP);
      RangesStep(ports, i, SCTP);
      hide Encode, ProtoRanges, PortOk;
      match ProtoOf(p) {
        case TCP => tcp := tcp + es.value;
        case UDP => udp := udp + es.value;
        case SCTP => sctp := sctp + es.value;
      }
    }
    assert ports[..|ports|] == ports;
  }

  lemma RangesStep(ports: seq<PortSpec>, i: nat, proto: Proto)
    requires i < |ports| && PortsOk(ports[..i]) && PortOk(ports[i])
    ensures PortsOk(ports[..i + 1])
    ensures Encode(ProtoRanges(ports[..i + 1], proto), MAX_PORT + 1) ==
            Encode(ProtoRanges(ports[..i], proto), MAX_PORT + 1) +
            if ProtoOf(ports[i]) == proto && PortRange(ports[i]).Some?
            then EncodeRange(PortRange(ports[i]).value, MAX_PORT + 1) else []
  {
    hide PortOk, Encode;
    assert ports[..i + 1][..i] == ports[..i];
    var rs := ProtoRanges(ports[..i], proto);
    if ProtoOf(ports[i]) == proto && PortRange(ports[i]).Some? {
      EncodeSnoc(rs, PortRange(ports[i]).value, MAX_PORT + 1);
    } else {
      assert ProtoRanges(ports[..i + 1], proto) == rs;
    }
  }

  lemma {:induction false} EncodeEmpty(rs: seq<Range>, top: nat)
    ensures Encode(rs, top) == [] <==> rs == []
  {
  }

  // ------------------------------------------------------------------- state

  class State {
    const conn: Conn
    var rules: map<Key, Rule>
    var sets: set<(TableId, SetId)>
    var chains: set<(TableId, ChainId)>

    /** The requests made so far. */
    ghost var log: seq<Req>

    ghost predicate Valid()
      reads this, conn
    {
      InSync(conn.committed, conn.pending, rules, sets, chains, log)
    }

    constructor (conn: Conn)
      requires WellFormed(conn.committed) && conn.pending == []
      ensures Valid() && log == [] && this.conn == conn
    {
      this.conn := conn;
      rules, sets, chains, log := map[], {}, {}, [];
    }

    /** The first equal rule of the committed chain. */
    method FindRule(r: Rule) returns (e: Option<Installed>)
      ensures e == Find(ChainAt(conn.committed, r.table, r.chain), r)
    {
      var l := ChainAt(conn.committed, r.table, r.chain);
      for i := 0 to |l|
        invariant Find(l, r) == Find(l[i..], r)
      {
        if RuleEqual(r, l[i].rule) {
          return Some(l[i]);
        }
        assert l[i..][1..] == l[i + 1..];
      }
      return None;
    }

    /** Keeps an equal rule where it is, replaces it if forced, and adds it
        otherwise; in every case the key of the rule is tracked. */
    method UpdateRule(r: Rule, insert: bool, force: bool) returns (isNew: bool)
      requires Valid()
      modifies this`rules, this`log, conn`pending
      ensures Valid() && log == old(log) + [RuleReq(r, insert, force)]
      ensures isNew <==> Absent(conn.committed, r)
    {
      hide KeyOf, Find, Ops, ChainAt, WithCounterOf, WellFormed, KeysOf, SetsOf, ChainsOf;
      InSyncSnoc(conn.committed, conn.pending, rules, sets, chains, log, RuleReq(r, insert, force));
      FoundKey(conn.committed, r);
      var e := FindRule(r);
      var rule := r;
      isNew := false;
      if e.Some? && !force {
        rule := e.value.rule;
      } else if e.Some? {
        rule := SwapCounter(r, e.value.rule);
        conn.Queue(DelRule(r.table, r.chain, e.value.handle));
        conn.Queue(if insert then InsertRule(r.table, rule) else AppendRule(r.table, rule));
      } else {
        conn.Queue(if insert then InsertRule(r.table, rule) else AppendRule(r.table, rule));
        isNew := true;
      }
      rules := rules[KeyOf(rule) := rule];
      log := log + [RuleReq(r, insert, force)];
    }

    method AddTable(t: TableId)
      requires Valid()
      modifies this`log, conn`pending
      ensures Valid() && log == old(log) + [TableReq(t)]
    {
      hide Ops, WellFormed, KeysOf, SetsOf, ChainsOf;
      InSyncSnoc(conn.committed, conn.pending, rules, sets, chains, log, TableReq(t));
      if t !in conn.committed {
        conn.Queue(Op.AddTable(t));
      }
      log := log + [TableReq(t)];
    }

    method AddChain(t: TableId, c: ChainId)
      requires Valid()
      modifies this`chains, this`log, conn`pending
      ensures Valid() && log == old(log) + [ChainReq(t, c)]
    {
      hide Ops, WellFormed, KeysOf, SetsOf, ChainsOf;
      InSyncSnoc(conn.committed, conn.pending, rules, sets, chains, log, ChainReq(t, c));
      if c !in Tab(conn.committed, t).chains {
        conn.Queue(Op.AddChain(t, c));
      }
      chains := chains + {(t, c)};
      log := log + [ChainReq(t, c)];
    }

    /** Updates the elements of an existing set, which the kernel lists in some
        order, or adds the set. */
    method UpdateSet(t: TableId, s: SetId, interval: bool, comment: string, elements: seq<Elem>)
      requires Valid()
      modifies this`sets, this`log, conn`pending
      ensures Valid() && log == old(log) + [SetReq(t, s, SetObj(interval, false, comment, Elems(elements)))]
    {
      hide Ops, WellFormed, KeysOf, SetsOf, ChainsOf, Elems, Missing;
      ghost var q := SetReq(t, s, SetObj(interval, false, comment, Elems(elements)));
      InSyncSnoc(conn.committed, conn.pending, rules, sets, chains, log, q);
      if s in Tab(conn.committed, t).sets {
        var have := Enumerate(Tab(conn.committed, t).sets[s].elems);
        ListedElems(have, Tab(conn.committed, t).sets[s].elems);
        var toAdd, toDel := ProcessElements(elements, have);
        NoElems(toAdd);
        NoElems(toDel);
        if |toDel| > 0 {
          conn.Queue(DelElems(t, s, Elems(toDel)));
        }
        if |toAdd| > 0 {
          conn.Queue(AddElems(t, s, Elems(toAdd)));
        }
      } else {
        conn.Queue(AddSet(t, s, SetObj(interval, false, comment, Elems(elements))));
      }
      sets := sets + {(t, s)};
      log := log + [q];
    }

    // ----------------------------------------------------------- policy ports

    method ApplyProtoPorts(d: Dir, k: PolicyKey, n: nat, proto: Proto, es: seq<Elem>)
      requires Valid()
      modifies this, conn`pending
      ensures Valid()
      ensures log == old(log) +
              if es == [] then []
              else [WantSet(PortsSet(d, k, n, proto), true, Elems(es)), Add(PortsRule(d, k, n, proto))]
    {
      hide InSync, Absent, PortsRule, Elems;
      if |es| > 0 {
        UpdateSet(FILTER, PortsSet(d, k, n, proto), true, "", es);
        var _ := UpdateRule(PortsRule(d, k, n, proto), false, false);
      }
    }

    method ApplyPolicyPortsRules(d: Dir, k: PolicyKey, n: nat, ports: seq<PortSpec>) returns (ok: bool)
      requires Valid()
      modifies this, conn`pending
      ensures Valid() && (ok <==> PortsOk(ports))
      ensures ok ==> log == old(log) + PortsReqs(d, k, n, ports)
    {
      hide InSync, Absent, PortsRule, Elems, JumpRule, AllPorts, Encode, ProtoRanges;
      AddChain(FILTER, PortsChain(d, k, n));
      var _ := UpdateRule(JumpRule(d, k, PortsChain(d, k, n)), false, false);
      var tcp, udp, sctp;
      ok, tcp, udp, sctp := CollectPorts(ports);
      if !ok {
        return;
      }
      forall proto: Proto
        ensures Encode(ProtoRanges(ports, proto), MAX_PORT + 1) == [] <==> ProtoRanges(ports, proto) == []
      {
        EncodeEmpty(ProtoRanges(ports, proto), MAX_PORT + 1);
      }
      NoPortsNoRanges(ports);
      ApplyProtoPorts(d, k, n, TCP, tcp);
      ApplyProtoPorts(d, k, n, UDP, udp);
      ApplyProtoPorts(d, k, n, SCTP, sctp);
      if |ports| == 0 || (|tcp| == 0 && |udp| == 0 && |sctp| == 0) {
        var _ := UpdateRule(AllPorts(d, k, n), false, false);
      }
      PortsSum(old(log), d, k, n, ports);
    }

    // ----------------------------------------------------------- policy peers

    /** applyPrefixes for one family. */
    method ApplyPrefixes(d: Dir, k: PolicyKey, n: nat, j: nat, cidr: Prefix, prefixes: seq<Elem>, excepts: seq<Elem>)
      requires Valid()
      modifies this, conn`pending
      ensures Valid()
      ensures log == old(log) + PrefixesReqs(d, k, n, j, cidr, prefixes, excepts)
    {
      hide InSync, Absent, ExceptRule, BlockRule, Elems;
      if |prefixes| > 0 {
        if |excepts| > 0 {
          UpdateSet(FILTER, ExceptSet(d, k, n, j, cidr.v6), true, "", excepts);
          var _ := UpdateRule(ExceptRule(d, k, n, j, cidr), false, false);
        }
        UpdateSet(FILTER, BlockSet(d, k, n, j, cidr.v6), true, "", prefixes);
        var _ := UpdateRule(BlockRule(d, k, n, j, cidr), false, false);
      }
    }

    method ApplyIPBlock(d: Dir, k: PolicyKey, n: nat, j: nat, b: IPBlock) returns (ok: bool)
      requires Valid()
      modifies this, conn`pending
      ensures Valid() && (ok <==> b.cidr.Parsed? && AllParsed(b.except))
      ensures ok ==> log == old(log) + BlockReqs(d, k, n, j, b)
    {
      hide InSync, Absent, Elems, PrefixElems, PrefixesReqs, BlockReqs;
      var v4Except, v6Except, v4, v6;
      ok, v4Except, v6Except := GetPrefixesAsSetInterval(b.except);
      if !ok {
        return;
      }
      ok, v4, v6 := GetPrefixesAsSetInterval([b.cidr]);
      assert [b.cidr][0] == b.cidr;
      if !ok {
        return;
      }
      var cidr := b.cidr.prefix;
      assert Prefixes([b.cidr]) == [cidr];
      ApplyPrefixes(d, k, n, j, cidr.(v6 := false), v4, v4Except);
      ApplyPrefixes(d, k, n, j, cidr.(v6 := true), v6, v6Except);
      BlockSum(d, k, n, j, b);
      assert old(log) + PrefixesReqs(d, k, n, j, cidr.(v6 := false), v4, v4Except) +
        PrefixesReqs(d, k, n, j, cidr.(v6 := true), v6, v6Except)
          == old(log) + BlockReqs(d, k, n, j, b);
    }

    /** addIPRule: the addresses of one family. */
    method AddIPRule(d: Dir, k: PolicyKey, n: nat, j: nat, v6: bool, text: string, addrs: seq<Addr>)
      requires Valid()
      modifies this, conn`pending
      ensures Valid()
      ensures var es := set a | a in addrs :: Elem(Num(a.value), false);
              log == old(log) +
                if addrs == [] then []
                else [WantSet(SelectorSet(d, k, n, j, v6, text), false, es), Add(SelectorRule(d, k, n, j, v6, text))]
    {
      hide InSync, Absent, SelectorRule, Elems;
      if |addrs| < 1 {
        return;
      }
      var es: seq<Elem> := [];
      for i := 0 to |addrs|
        invariant |es| == i && forall x :: 0 <= x < i ==> es[x] == Elem(Num(addrs[x].value), false)
      {
        es := es + [Elem(Num(addrs[i].value), false)];
      }
      AddrElemsAre(addrs, es);
      UpdateSet(FILTER, SelectorSet(d, k, n, j, v6, text), false, "", es);
      var _ := UpdateRule(SelectorRule(d, k, n, j, v6, text), false, false);
    }

    method ApplySelector(inp: Input, nets: seq<string>, d: Dir, k: PolicyKey, n: nat, j: nat, peer: PeerSpec)
      returns (ok: bool)
      requires Valid() && peer.block.None? && (peer.pods.Some? || peer.namespaces.Some?)
      modifies this, conn`pending
      ensures Valid() && (ok <==> PeerOk(peer))
      ensures ok ==> log == old(log) + PeerReqs(inp, nets, d, k, n, j, peer)
    {
      hide InSync, Absent, SelectorRule, SelectorAddrs;
      ok := false;
      if peer.pods.Some? && !peer.pods.value.valid {
        return;
      }
      if peer.namespaces.Some? && !peer.namespaces.value.valid {
        return;
      }
      ok := true;
      var ips := CollectIps(inp.view, inp.ifs, nets, peer);
      var v4, v6 := SplitFamilies(ips);
      FamiliesAre(ips, v4, v6);
      AddIPRule(d, k, n, j, false, SelectorText(peer), v4);
      AddIPRule(d, k, n, j, true, SelectorText(peer), v6);
      var text, addrs := SelectorText(peer), SelectorAddrs(inp.view, inp.ifs, nets, peer);
      assert old(log) + FamilyReqs(d, k, n, j, false, text, addrs) + FamilyReqs(d, k, n, j, true, text, addrs)
          == old(log) + (FamilyReqs(d, k, n, j, false, text, addrs) + FamilyReqs(d, k, n, j, true, text, addrs));
    }

    method ApplyPeer(inp: Input, nets: seq<string>, d: Dir, k: PolicyKey, n: nat, j: nat, peer: PeerSpec)
      returns (ok: bool)
      requires Valid()
      modifies this, conn`pending
      ensures Valid() && (ok <==> PeerOk(peer))
      ensures ok ==> log == old(log) + PeerReqs(inp, nets, d, k, n, j, peer)
    {
      hide InSync, Absent, BlockReqs, FamilyReqs, SelectorAddrs;
      if peer.block.Some? {
        ok := ApplyIPBlock(d, k, n, j, peer.block.value);
      } else if peer.pods.Some? || peer.namespaces.Some? {
        ok := ApplySelector(inp, nets, d, k, n, j, peer);
      } else {
        ok := false;
      }
    }

    method ApplyPolicyPeersRules(inp: Input, nets: seq<string>, d: Dir, k: PolicyKey, n: nat, peers: seq<PeerSpec>)
      returns (ok: bool)
      requires Valid()
      modifies this, conn`pending
      ensures Valid() && (ok <==> PeersOk(peers))
      ensures ok ==> log == old(log) + PeersReqs(inp, nets, d, k, n, peers)
    {
      hide InSync, Absent, PeerReqs, JumpRule, AllPeers;
      AddChain(FILTER, PeersChain(d, k, n));
      var _ := UpdateRule(JumpRule(d, k, PeersChain(d, k, n)), false, false);
      ghost var l := log;
      for j := 0 to |peers|
        invariant Valid() && PeersOk(peers[..j]) && log == l + PeerListReqs(inp, nets, d, k, n, peers[..j])
      {
        assert peers[..j + 1][..j] == peers[..j];
        ok := ApplyPeer(inp, nets, d, k, n, j, peers[j]);
        if !ok {
          return;
        }
        assert l + PeerListReqs(inp, nets, d, k, n, peers[..j]) + PeerReqs(inp, nets, d, k, n, j, peers[j])
            == l + (PeerListReqs(inp, nets, d, k, n, peers[..j]) + PeerReqs(inp, nets, d, k, n, j, peers[j]));
      }
      assert peers[..|peers|] == peers;
      ok := true;
      if |peers| == 0 {
        var _ := UpdateRule(AllPeers(d, k, n), false, false);
      }
    }

    // -------------------------------------------------------------- policies

    method ApplyRule(inp: Input, p: PolicySpec, d: Dir, n: nat, r: RuleSpec) returns (ok: bool)
      requires Valid()
      modifies this, conn`pending
      ensures Valid() && (ok <==> RuleOk(r))
      ensures ok ==> log == old(log) + RuleReqs(inp, p, d, n, r)
    {
      hide InSync, Absent, PortsReqs, PeersReqs, ResetRule, ReturnRule, PortsOk, PeersOk;
      var _ := UpdateRule(ResetRule(d, p.key, n), false, false);
      ok := ApplyPolicyPortsRules(d, p.key, n, r.ports);
      if !ok {
        return;
      }
      ok := ApplyPolicyPeersRules(inp, p.nets, d, p.key, n, r.peers);
      if !ok {
        return;
      }
      var _ := UpdateRule(ReturnRule(d, p.key, n), false, false);
    }

    /** The loop over the interfaces of the pod; newRules says whether a jump was
        not installed yet. */
    method ApplyInterfaces(inp: Input, p: PolicySpec, d: Dir) returns (newRules: bool)
      requires Valid()
      modifies this, conn`pending
      ensures Valid() && log == old(log) + IfaceReqs(d, p.key, OnNetworks(inp.ifs, p.nets))
      ensures newRules <==> NewJump(conn.committed, inp, d, p)
    {
      hide InSync, Absent, IfaceJump, NewJump, OnNetworks, IfaceReqs;
      newRules := false;
      NoJumpYet(conn.committed, inp, d, p);
      for i := 0 to |inp.ifs|
        invariant Valid() && log == old(log) + IfaceReqs(d, p.key, OnNetworks(inp.ifs[..i], p.nets))
        invariant newRules <==> NewJump(conn.committed, inp.(ifs := inp.ifs[..i]), d, p)
      {
        NewJumpSnoc(conn.committed, inp, i, d, p);
        IfacesSnoc(old(log), inp, i, d, p);
        if OnNetwork(inp.ifs[i], p.nets) {
          var isNew := UpdateRule(IfaceJump(d, p.key, inp.ifs[i]), false, false);
          newRules := newRules || isNew;
        }
      }
      assert inp.ifs[..|inp.ifs|] == inp.ifs;
      assert inp.(ifs := inp.ifs) == inp;
    }

    /** The rules are those of the ingress list for ingress and of the egress list for
        egress. */
    method ApplyPodRules(inp: Input, p: PolicySpec, d: Dir) returns (ok: bool, newRules: bool)
      requires Valid()
      modifies this, conn`pending
      ensures Valid() && (newRules <==> NewJump(conn.committed, inp, d, p))
      ensures ok <==> if d == Ingress then RulesOk(p.ingress) else RulesOk(p.egress)
      ensures ok && d == Ingress ==>
                log ==
                old(log) + ([ChainReq(FILTER, PolicyChain(Ingress, p.key))] +
                            IfaceReqs(Ingress, p.key, OnNetworks(inp.ifs, p.nets)) +
                            RuleListReqs(inp, p, Ingress, p.ingress))
      ensures ok && d == Egress ==>
                log ==
                old(log) + ([ChainReq(FILTER, PolicyChain(Egress, p.key))] +
                            IfaceReqs(Egress, p.key, OnNetworks(inp.ifs, p.nets)) +
                            RuleListReqs(inp, p, Egress, p.egress))
    {
      hide InSync, Absent, IfaceReqs, OnNetworks, RuleReqs, RuleOk, NewJump;
      AddChain(FILTER, PolicyChain(d, p.key));
      newRules := ApplyInterfaces(inp, p, d);
      var rs := match d case Ingress => p.ingress case Egress => p.egress;
      ghost var l := log;
      for n := 0 to |rs|
        invariant Valid() && RulesOk(rs[..n]) && log == l + RuleListReqs(inp, p, d, rs[..n])
      {
        assert rs[..n + 1][..n] == rs[..n];
        ok := ApplyRule(inp, p, d, n, rs[n]);
        if !ok {
          return;
        }
        assert l + RuleListReqs(inp, p, d, rs[..n]) + RuleReqs(inp, p, d, n, rs[n])
            == l + (RuleListReqs(inp, p, d, rs[..n]) + RuleReqs(inp, p, d, n, rs[n]));
      }
      assert rs[..|rs|] == rs;
      ok := true;
    }

    /** A policy and its mark check. */
    method ApplyPolicy(inp: Input, p: PolicySpec, d: Dir) returns (ok: bool, newRules: bool)
      requires Valid()
      modifies this, conn`pending
      ensures Valid() && (ok <==> RulesOk(RulesFor(p, d))) && (newRules <==> NewJump(conn.committed, inp, d, p))
      ensures ok ==> log == old(log) + PolicyReqs(inp, p, d)
    {
      hide InSync, Absent, IfaceReqs, RuleListReqs, PolicyMark, RulesOk, NewJump, OnNetworks;
      ok, newRules := ApplyPodRules(inp, p, d);
      if ok {
        var _ := UpdateRule(PolicyMark(d, p.key), false, false);
        PolicySum(old(log), inp, p, d);
      }
    }

    /** One direction: the policies, and the final drop if there are any. */
    method ApplyDirection(inp: Input, d: Dir) returns (ok: bool)
      requires Valid()
      modifies this, conn`pending
      ensures Valid() && (ok <==> PoliciesOk(PoliciesFor(inp, d), d))
      ensures ok ==> log == old(log) + DirReqs(inp, d, Force(conn.committed, inp, d))
    {
      hide InSync, Absent, PolicyReqs, PolicyMark, DropRest, RulesOk, NewJump;
      var ps := PoliciesFor(inp, d);
      ok := true;
      if |ps| == 0 {
        return;
      }
      var force := false;
      for i := 0 to |ps|
        invariant Valid() && PoliciesOk(ps[..i], d) && log == old(log) + PolicyListReqs(inp, ps[..i], d)
        invariant force <==> exists p :: p in ps[..i] && NewJump(conn.committed, inp, d, p)
      {
        var newRules;
        ok, newRules := ApplyPolicy(inp, ps[i], d);
        if !ok {
          return;
        }
        force := force || newRules;
        PolicyListSnoc(old(log), inp, ps, i, d);
        assert forall p :: p in ps[..i + 1] <==> p in ps[..i] || p == ps[i];
      }
      assert ps[..|ps|] == ps;
      ok := true;
      var _ := UpdateRule(DropRest(d), false, force);
    }

    // ------------------------------------------------------- bootstrap, common

    method BootstrapChains()
      requires Valid()
      modifies this, conn`pending
      ensures Valid() && log == old(log) + BOOT_CHAINS
    {
      hide InSync, Absent;
      AddTable(FILTER);
      AddTable(NAT);
      AddChain(FILTER, BaseChain(InputHook));
      AddChain(FILTER, BaseChain(OutputHook));
      AddChain(NAT, BaseChain(PreroutingHook));
      AddChain(FILTER, EntryChain(Ingress));
      AddChain(FILTER, EntryChain(Egress));
      AddChain(FILTER, CommonChain(Ingress));
      AddChain(FILTER, CommonChain(Egress));
    }

    /** The two interface sets and the rules in front of everything else. */
    method BootstrapRules(ifs: seq<Iface>, es: seq<Elem>)
      requires Valid() && Elems(es) == IfaceElems(ifs)
      modifies this, conn`pending
      ensures Valid() && log == old(log) + BootRules(ifs)
    {
      hide InSync, Absent, InterfaceFilter, CommonJump, NAT_FILTER, Elems, IfaceElems;
      UpdateSet(FILTER, PodInterfaces, false, "Pod interfaces", es);
      var _ := UpdateRule(InterfaceFilter(Ingress), true, false);
      var _ := UpdateRule(InterfaceFilter(Egress), true, false);
      UpdateSet(NAT, PodInterfaces, false, "Pod interfaces NAT", es);
      var _ := UpdateRule(NAT_FILTER, true, false);
      var _ := UpdateRule(CommonJump(Ingress), true, false);
      var _ := UpdateRule(CommonJump(Egress), true, false);
    }

    method Bootstrap(ifs: seq<Iface>)
      requires Valid()
      modifies this, conn`pending
      ensures Valid() && log == old(log) + BootReqs(ifs)
    {
      hide InSync, Absent, BOOT_CHAINS, BootRules, Elems, IfaceElems;
      BootstrapChains();
      var es: seq<Elem> := [];
      for i := 0 to |ifs|
        invariant Valid() && log == old(log) + BOOT_CHAINS
        invariant |es| == i && forall x :: 0 <= x < i ==> es[x] == Elem(Name(ifs[x].name), false)
      {
        es := es + [Elem(Name(ifs[i].name), false)];
      }
      IfaceElemsAre(ifs, es);
      BootstrapRules(ifs, es);
      assert old(log) + BOOT_CHAINS + BootRules(ifs) == old(log) + (BOOT_CHAINS + BootRules(ifs));
    }

    method AllowNeighborDiscovery(d: Dir)
      requires Valid()
      modifies this, conn`pending
      ensures Valid() && log == old(log) + NdpReqs(d)
    {
      hide InSync, Absent, Ndp;
      var es := [Elem(Num(133), false), Elem(Num(134), false), Elem(Num(135), false), Elem(Num(136), false)];
      assert Elems(es) == NDP_ELEMS;
      UpdateSet(FILTER, NdpTypes, false, "", es);
      var _ := UpdateRule(Ndp(d), true, false);
    }

    method ApplyCommonPrefixes(d: Dir, cs: seq<Cidr>) returns (ok: bool)
      requires Valid()
      modifies this, conn`pending
      ensures Valid() && (ok <==> AllParsed(cs))
      ensures ok ==> log == old(log) + PrefixReqs(d, Prefixes(cs))
    {
      hide InSync, Absent, CommonPrefix, PrefixElems, Prefixes, Elems;
      var v4, v6;
      ok, v4, v6 := GetPrefixesAsSetInterval(cs);
      if !ok {
        return;
      }
      if |v4| > 0 {
        UpdateSet(FILTER, CommonSet(d, false), true, "", v4);
        var _ := UpdateRule(CommonPrefix(d, false), false, false);
      }
      if |v6| > 0 {
        UpdateSet(FILTER, CommonSet(d, true), true, "", v6);
        var _ := UpdateRule(CommonPrefix(d, true), false, false);
      }
      var x, y := PrefixFamilyReqs(d, Prefixes(cs), false), PrefixFamilyReqs(d, Prefixes(cs), true);
      assert old(log) + x + y == old(log) + (x + y);
    }

    method AllowIcmp(cfg: Config)
      requires Valid()
      modifies this, conn`pending
      ensures Valid()
      ensures log == old(log) + IcmpReqs(cfg)
    {
      hide InSync, Absent, Icmp, NdpReqs;
      if cfg.icmp6 {
        var _ := UpdateRule(Icmp(Ingress, true), false, false);
        var _ := UpdateRule(Icmp(Egress, true), false, false);
      } else {
        AllowNeighborDiscovery(Ingress);
        AllowNeighborDiscovery(Egress);
      }
      if cfg.icmp {
        var _ := UpdateRule(Icmp(Ingress, false), false, false);
        var _ := UpdateRule(Icmp(Egress, false), false, false);
      }
    }

    method ApplyCommonChainRules(cfg: Config) returns (ok: bool)
      requires Valid()
      modifies this, conn`pending
      ensures Valid() && (ok <==> ConfigOk(cfg))
      ensures ok ==> log == old(log) + CommonReqs(cfg)
    {
      hide InSync, Absent, PrefixReqs, Icmp, NdpReqs, ConntrackRule, IcmpReqs, CommonReqs, AllParsed;
      AllowIcmp(cfg);
      ok := ApplyCommonPrefixes(Ingress, cfg.src);
      if !ok {
        return;
      }
      ok := ApplyCommonPrefixes(Egress, cfg.dst);
      if !ok {
        return;
      }
      var _ := UpdateRule(ConntrackRule(Ingress), false, false);
      var _ := UpdateRule(ConntrackRule(Egress), false, false);
      CommonSum(old(log), cfg);
    }

    /** Everything up to the main flush. */
    method Compile(inp: Input) returns (ok: bool)
      requires Valid() && log == []
      modifies this, conn`pending
      ensures Valid() && (ok <==> InputOk(inp))
      ensures ok ==> log == PassLog(conn.committed, inp)
    {
      hide InSync, Absent, BootReqs, CommonReqs, DirReqs, Force, ConfigOk, PoliciesOk;
      Bootstrap(inp.ifs);
      ok := ApplyCommonChainRules(inp.cfg);
      if !ok {
        return;
      }
      ok := ApplyDirection(inp, Ingress);
      if !ok {
        return;
      }
      ok := ApplyDirection(inp, Egress);
      if !ok {
        return;
      }
      assert [] + BootReqs(inp.ifs) == BootReqs(inp.ifs);
    }

    // ---------------------------------------------------------------- cleanup

    /** What the cleanup relies on: nothing queued, everything tracked. */
    ghost predicate Tracking()
      reads this, conn
    {
      WellFormed(conn.committed) && conn.pending == [] && rules.Keys == KeysOf(log) && sets == SetsOf(log) &&
        chains == ChainsOf(log)
    }

    /** The stale rules of one chain, from first to last. */
    method DeleteStaleRules(t: TableId, c: ChainId, ghost m: map<ChainId, seq<Installed>>)
      requires t in conn.committed && c in conn.committed[t].chains && WellFormed(conn.committed)
      requires c in m && m[c] == conn.committed[t].chains[c]
      requires ApplyAll(conn.committed, conn.pending) == conn.committed[t := conn.committed[t].(chains := m)]
      modifies conn`pending
      ensures ApplyAll(conn.committed, conn.pending) ==
              conn.committed[t := conn.committed[t].(chains := m[c := Tracked(m[c], rules.Keys)])]
    {
      assert ChainOk(t, c, conn.committed[t].chains[c], conn.committed[t].next);
      hide KeyOf, Tracked, ApplyAll, Minus, WellFormed, ChainOk;
      ghost var tb, keys := conn.committed[t], rules.Keys;
      var l := conn.committed[t].chains[c];
      ghost var now := l;
      assert m[c := l] == m;
      NoneTracked(l, keys);
      for i := 0 to |l|
        invariant now == Tracked(l[..i], keys) + l[i..]
        invariant ApplyAll(conn.committed, conn.pending) == conn.committed[t := tb.(chains := m[c := now])]
      {
        if KeyOf(l[i].rule) !in rules {
          QueueDel(conn.committed, conn.pending, t, tb, m, now, c, l[i].handle);
          StaleAt(t, c, l, tb.next, keys, i);
          conn.Queue(DelRule(t, c, l[i].handle));
          now := Minus(now, {l[i].handle});
        } else {
          TrackedAt(l, keys, i);
        }
      }
      assert l[..|l|] == l && now == Tracked(l, keys);
    }

    /** All stale rules of a table, chain by chain in some order. */
    method DeleteStaleChainRules(t: TableId)
      requires Tracking() && t in conn.committed
      modifies conn`pending
      ensures ApplyAll(conn.committed, conn.pending) ==
              conn.committed[t := conn.committed[t].(chains := CleanChains(conn.committed[t], rules.Keys))]
    {
      hide WellFormed, KeysOf, SetsOf, ChainsOf, Tracked, CleanChains, ApplyAll;
      ghost var tb, keys := conn.committed[t], rules.Keys;
      var cs := Enumerate(conn.committed[t].chains.Keys);
      ghost var m := tb.chains;
      assert ApplyAll(conn.committed, []) == conn.committed by { ApplyNone(conn.committed); }
      assert conn.committed[t := tb.(chains := m)] == conn.committed;
      for i := 0 to |cs|
        invariant m.Keys == tb.chains.Keys
        invariant forall x :: x in m ==> m[x] == if x in cs[..i] then Tracked(tb.chains[x], keys) else tb.chains[x]
        invariant ApplyAll(conn.committed, conn.pending) == conn.committed[t := tb.(chains := m)]
      {
        assert cs[i] in cs && cs[i] !in cs[..i] && forall x :: x in cs[..i + 1] <==> x in cs[..i] || x == cs[i];
        DeleteStaleRules(t, cs[i], m);
        m := m[cs[i] := Tracked(m[cs[i]], keys)];
      }
      assert cs[..|cs|] == cs;
      CleanChainsAre(tb, keys, m);
    }

    /** The untracked named sets of a table, in some order. */
    method DeleteStaleSets(t: TableId, ghost tb: Table)
      requires t in conn.committed && tb.sets == conn.committed[t].sets
      requires ApplyAll(conn.committed, conn.pending) == conn.committed[t := tb]
      modifies conn`pending
      ensures ApplyAll(conn.committed, conn.pending) ==
              conn.committed[t := tb.(sets := CleanSets(t, tb, sets))]
    {
      hide ApplyAll;
      var ss := Enumerate(conn.committed[t].sets.Keys);
      ghost var m := tb.sets;
      assert tb.(sets := m) == tb;
      for i := 0 to |ss|
        invariant m.Keys == set s | s in tb.sets && (s in ss[..i] ==> (t, s) in sets || tb.sets[s].anonymous)
        invariant forall x :: x in m ==> m[x] == tb.sets[x]
        invariant ApplyAll(conn.committed, conn.pending) == conn.committed[t := tb.(sets := m)]
      {
        assert ss[i] in ss && ss[i] !in ss[..i] && forall x :: x in ss[..i + 1] <==> x in ss[..i] || x == ss[i];
        if (t, ss[i]) !in sets && !conn.committed[t].sets[ss[i]].anonymous {
          QueueDelSet(conn.committed, conn.pending, t, tb, m, ss[i]);
          conn.Queue(DelSet(t, ss[i]));
          m := m - {ss[i]};
        }
      }
      assert ss[..|ss|] == ss;
      assert m == CleanSets(t, tb, sets);
    }

    /** cleanupRules: flushes only if something was queued. */
    method CleanupRules(t: TableId) returns (ok: bool)
      requires Tracking()
      modifies conn
      ensures conn.Failed(old(conn.failures), ok)
      ensures ok ==>
                Tracking() && conn.committed ==
                OnTable(old(conn.committed), t, CleanTable(t, Tab(old(conn.committed), t), KeysOf(log), SetsOf(log)))
      ensures !ok ==> conn.committed == old(conn.committed)
    {
      hide KeysOf, SetsOf, ChainsOf, CleanChains, CleanSets, CleanTable;
      if t !in conn.committed {
        return true;
      }
      ghost var tb := conn.committed[t];
      DeleteStaleChainRules(t);
      DeleteStaleSets(t, tb.(chains := CleanChains(tb, rules.Keys)));
      CleanTableIs(t, tb, rules.Keys, sets);
      CleanTableOk(t, tb, log);
      ok := true;
      if |conn.pending| > 0 {
        ok := conn.Flush();
      }
    }

    /** cleanupChains: untracked empty chains of the managed tables, which the
        kernel lists among all chains of the family in some order. */
    method CleanupChains() returns (ok: bool)
      requires Tracking()
      modifies conn
      ensures conn.Failed(old(conn.failures), ok)
      ensures ok ==> Tracking() && conn.committed == WithoutChains(old(conn.committed), ChainsOf(log))
      ensures !ok ==> conn.committed == old(conn.committed)
    {
      hide KeysOf, SetsOf, ChainsOf, OnTable, DropChains, Less, ApplyAll, WithoutChains, WellFormed, StaleAmong;
      ghost var rs := conn.committed;
      var all := Enumerate(set t, c | t in conn.committed && t.family.Inet? && c in conn.committed[t].chains :: (t, c));
      NothingGone(rs);
      ApplyNone(rs);
      NoneStale(rs, chains);
      for i := 0 to |all|
        invariant conn.committed == rs && conn.failures == old(conn.failures)
        invariant ApplyAll(rs, conn.pending) == Less(rs, StaleAmong(rs, all[..i], chains))
      {
        var (t, c) := all[i];
        assert all[i] in all;
        StaleNext(rs, all, i, chains);
        if Managed(t) {
          var l := ChainAt(conn.committed, t, c);
          if (t, c) !in chains && |l| < 1 {
            QueueDelStale(rs, conn.pending, StaleAmong(rs, all[..i], chains), t, c);
            conn.Queue(DelChain(t, c));
          }
        }
      }
      assert all[..|all|] == all;
      StaleAll(rs, all, chains);
      AllGone(rs, StaleAmong(rs, all, chains), chains);
      WithoutChainsOk(rs, log);
      ok := true;
      if |conn.pending| > 0 {
        ok := conn.Flush();
      }
    }

    /** cleanup: filter rules, nat rules, chains; the first failure ends it. */
    method Cleanup(ghost rs: Ruleset) returns (ok: bool, ghost k: nat)
      requires Tracking() && conn.committed == Stage(rs, log, 1)
      modifies this, conn
      ensures conn.Failed(old(conn.failures), ok)
      ensures 1 <= k <= LAST_STAGE && (ok <==> k == LAST_STAGE) && conn.committed == Stage(rs, old(log), k)
      ensures rules == map[] && sets == {} && chains == {}
    {
      hide KeysOf, SetsOf, ChainsOf, OnTable, CleanTable, DropChains, WellFormed;
      k := 1;
      ok := CleanupRules(FILTER);
      if ok {
        k := 2;
        ok := CleanupRules(NAT);
        if ok {
          k := 3;
          ok := CleanupChains();
          if ok {
            k := 4;
          }
        }
      }
      rules, sets, chains, log := map[], {}, {}, [];
    }
  }

  // ---------------------------------------------------------- cleanup batches

  ghost function CleanChains(tb: Table, keys: set<Key>): map<ChainId, seq<Installed>> {
    map c | c in tb.chains :: Tracked(tb.chains[c], keys)
  }

  ghost function CleanSets(t: TableId, tb: Table, sets: set<(TableId, SetId)>): map<SetId, SetObj> {
    map s | s in tb.sets && ((t, s) in sets || tb.sets[s].anonymous) :: tb.sets[s]
  }

  lemma CleanChainsAre(tb: Table, keys: set<Key>, m: map<ChainId, seq<Installed>>)
    requires m.Keys == tb.chains.Keys && forall x :: x in m ==> m[x] == Tracked(tb.chains[x], keys)
    ensures m == CleanChains(tb, keys)
  {
  }

  lemma CleanTableIs(t: TableId, tb: Table, keys: set<Key>, sets: set<(TableId, SetId)>)
    ensures var x := tb.(chains := CleanChains(tb, keys));
            x.(sets := CleanSets(t, x, sets)) == CleanTable(t, tb, keys, sets)
  {
    hide Tracked;
    assert CleanTable(t, tb, keys, sets).chains == CleanChains(tb, keys);
    assert CleanTable(t, tb, keys, sets).sets == CleanSets(t, tb, sets);
  }

  lemma ApplyNone(rs: Ruleset)
    ensures ApplyAll(rs, []) == rs
  {
  }

  lemma QueueDelSet(rs: Ruleset, pending: seq<Op>, t: TableId, tb: Table, m: map<SetId, SetObj>, s: SetId)
    requires t in rs && ApplyAll(rs, pending) == rs[t := tb.(sets := m)]
    ensures ApplyAll(rs, pending + [DelSet(t, s)]) == rs[t := tb.(sets := m - {s})]
  {
    ApplySnoc(rs, pending, DelSet(t, s));
  }

  lemma QueueDel(rs: Ruleset, pending: seq<Op>, t: TableId, tb: Table, m: map<ChainId, seq<Installed>>,
                 now: seq<Installed>, c: ChainId, h: nat)
    requires t in rs && ApplyAll(rs, pending) == rs[t := tb.(chains := m[c := now])]
    ensures ApplyAll(rs, pending + [DelRule(t, c, h)]) == rs[t := tb.(chains := m[c := Minus(now, {h})])]
  {
    ApplySnoc(rs, pending, DelRule(t, c, h));
    var x, y := m[c := now], m[c := Minus(now, {h})];
    assert x[c := Minus(x[c], {h})] == y;
  }

  lemma {:induction false} TrackedFrom(l: seq<Installed>, keys: set<Key>, i: nat)
    requires i < |Tracked(l, keys)|
    ensures exists j :: 0 <= j < |l| && l[j] == Tracked(l, keys)[i]
  {
    var n := |l| - 1;
    if i < |Tracked(l[..n], keys)| {
      TrackedFrom(l[..n], keys, i);
      var j :| 0 <= j < n && l[..n][j] == Tracked(l[..n], keys)[i];
      assert l[j] == Tracked(l, keys)[i];
    } else {
      assert l[n] == Tracked(l, keys)[i];
    }
  }

  lemma NoneTracked(l: seq<Installed>, keys: set<Key>)
    ensures Tracked(l[..0], keys) + l[0..] == l
  {
  }

  lemma TrackedAt(l: seq<Installed>, keys: set<Key>, i: nat)
    requires i < |l| && KeyOf(l[i].rule) in keys
    ensures Tracked(l[..i], keys) + l[i..] == Tracked(l[..i + 1], keys) + l[i + 1..]
  {
    hide KeyOf;
    assert l[..i + 1][..i] == l[..i] && l[i..] == [l[i]] + l[i + 1..];
  }

  ghost predicate Spared(l: seq<Installed>, h: nat) {
    forall i :: 0 <= i < |l| ==> l[i].handle != h
  }

  lemma MinusMiddle(a: seq<Installed>, x: Installed, b: seq<Installed>)
    requires Spared(a, x.handle) && Spared(b, x.handle)
    ensures Minus(a + ([x] + b), {x.handle}) == a + b
  {
    var h := {x.handle};
    MinusConcat(a, [x] + b, h);
    MinusConcat([x], b, h);
    MinusOne(x, h);
    MinusAll(a, h);
    MinusAll(b, h);
    hide Minus;
    assert [] + b == b;
  }

  /** Deleting the handle of the next rule removes just that rule. */
  lemma StaleAt(t: TableId, c: ChainId, l: seq<Installed>, next: nat, keys: set<Key>, i: nat)
    requires ChainOk(t, c, l, next) && i < |l| && KeyOf(l[i].rule) !in keys
    ensures Minus(Tracked(l[..i], keys) + l[i..], {l[i].handle}) == Tracked(l[..i + 1], keys) + l[i + 1..]
  {
    hide KeyOf, Minus;
    var a := Tracked(l[..i], keys);
    assert l[..i + 1][..i] == l[..i] && l[i..] == [l[i]] + l[i + 1..];
    assert Tracked(l[..i + 1], keys) == a;
    hide Tracked;
    forall j | 0 <= j < |a| ensures a[j].handle != l[i].handle {
      TrackedFrom(l[..i], keys, j);
      var x :| 0 <= x < i && l[..i][x] == a[j];
    }
    MinusMiddle(a, l[i], l[i + 1..]);
  }

  /** The ruleset without some chains. */
  ghost function Less(rs: Ruleset, gone: set<(TableId, ChainId)>): Ruleset {
    map t | t in rs :: rs[t].(chains := map c | c in rs[t].chains && (t, c) !in gone :: rs[t].chains[c])
  }

  predicate Stale(rs: Ruleset, x: (TableId, ChainId), chains: set<(TableId, ChainId)>) {
    Managed(x.0) && x !in chains && ChainAt(rs, x.0, x.1) == []
  }

  ghost function WithoutChains(rs: Ruleset, chains: set<(TableId, ChainId)>): Ruleset {
    var s := OnTable(rs, FILTER, DropChains(FILTER, Tab(rs, FILTER), chains));
    OnTable(s, NAT, DropChains(NAT, Tab(s, NAT), chains))
  }

  lemma NothingGone(rs: Ruleset)
    ensures Less(rs, {}) == rs
  {
    forall t | t in rs ensures Less(rs, {})[t] == rs[t] {
      assert Less(rs, {})[t].chains == rs[t].chains;
    }
  }

  lemma LessOne(rs: Ruleset, gone: set<(TableId, ChainId)>, t: TableId, c: ChainId)
    requires t in rs
    ensures Apply(Less(rs, gone), DelChain(t, c)) == Less(rs, gone + {(t, c)})
  {
    var a, b := Apply(Less(rs, gone), DelChain(t, c)), Less(rs, gone + {(t, c)});
    assert a.Keys == b.Keys;
    forall x | x in a ensures a[x] == b[x] {
      assert a[x].chains == b[x].chains;
    }
  }

  /** The stale chains among those listed. */
  ghost function StaleAmong(rs: Ruleset, l: seq<(TableId, ChainId)>, chains: set<(TableId, ChainId)>)
    : set<(TableId, ChainId)>
  {
    set x | x in l && Stale(rs, x, chains)
  }

  lemma NoneStale(rs: Ruleset, chains: set<(TableId, ChainId)>)
    ensures StaleAmong(rs, [], chains) == {}
  {
  }

  lemma StaleNext(rs: Ruleset, l: seq<(TableId, ChainId)>, i: nat, chains: set<(TableId, ChainId)>)
    requires i < |l|
    ensures StaleAmong(rs, l[..i + 1], chains) ==
            if Stale(rs, l[i], chains) then StaleAmong(rs, l[..i], chains) + {l[i]} else StaleAmong(rs, l[..i], chains)
  {
    assert l[..i + 1] == l[..i] + [l[i]];
  }

  lemma StaleAll(rs: Ruleset, l: seq<(TableId, ChainId)>, chains: set<(TableId, ChainId)>)
    requires forall x :: x in l <==> x.0 in rs && x.0.family.Inet? && x.1 in rs[x.0].chains
    ensures forall t, c :: (t, c) in StaleAmong(rs, l, chains) <==>
            t in rs && c in rs[t].chains && Stale(rs, (t, c), chains)
  {
    forall t, c
      ensures (t, c) in StaleAmong(rs, l, chains) <==> t in rs && c in rs[t].chains && Stale(rs, (t, c), chains)
    {
      assert (t, c) in l <==> t in rs && t.family.Inet? && c in rs[t].chains;
    }
  }

  lemma QueueDelStale(rs: Ruleset, pending: seq<Op>, gone: set<(TableId, ChainId)>, t: TableId, c: ChainId)
    requires t in rs && ApplyAll(rs, pending) == Less(rs, gone)
    ensures ApplyAll(rs, pending + [DelChain(t, c)]) == Less(rs, gone + {(t, c)})
  {
    ApplySnoc(rs, pending, DelChain(t, c));
    LessOne(rs, gone, t, c);
  }

  lemma WithoutAt(rs: Ruleset, chains: set<(TableId, ChainId)>, t: TableId)
    ensures t in WithoutChains(rs, chains) <==> t in rs
    ensures t in rs ==> WithoutChains(rs, chains)[t] == if Managed(t) then DropChains(t, rs[t], chains) else rs[t]
  {
    hide DropChains;
  }

  lemma GoneAt(rs: Ruleset, gone: set<(TableId, ChainId)>, chains: set<(TableId, ChainId)>, t: TableId)
    requires forall t, c :: (t, c) in gone <==> t in rs && c in rs[t].chains && Stale(rs, (t, c), chains)
    requires t in rs
    ensures Less(rs, gone)[t] == if Managed(t) then DropChains(t, rs[t], chains) else rs[t]
  {
    var x, y := Less(rs, gone)[t], if Managed(t) then DropChains(t, rs[t], chains) else rs[t];
    forall c ensures c in x.chains <==> c in y.chains {
      if c in rs[t].chains {
        assert (t, c) in gone <==> Stale(rs, (t, c), chains);
      }
    }
    assert x.chains == y.chains;
  }

  lemma AllGone(rs: Ruleset, gone: set<(TableId, ChainId)>, chains: set<(TableId, ChainId)>)
    requires forall t, c :: (t, c) in gone <==> t in rs && c in rs[t].chains && Stale(rs, (t, c), chains)
    ensures Less(rs, gone) == WithoutChains(rs, chains)
  {
    var a, b := Less(rs, gone), WithoutChains(rs, chains);
    assert a.Keys == rs.Keys;
    hide Less, WithoutChains, Stale, DropChains;
    forall t ensures (t in a <==> t in b) && (t in a ==> a[t] == b[t]) {
      WithoutAt(rs, chains, t);
      if t in rs {
        GoneAt(rs, gone, chains, t);
      }
    }
    assert a == b;
  }

  lemma WithoutChainsOk(rs: Ruleset, log: seq<Req>)
    requires WellFormed(rs)
    ensures WellFormed(WithoutChains(rs, ChainsOf(log)))
  {
  }

  // ------------------------------------------------------------ request sums

  lemma NoPortsNoRanges(ports: seq<PortSpec>)
    requires PortsOk(ports)
    ensures ports == [] ==> NoRanges(ports)
  {
  }

  lemma IfaceElemsAre(ifs: seq<Iface>, es: seq<Elem>)
    requires |es| == |ifs| && forall x :: 0 <= x < |ifs| ==> es[x] == Elem(Name(ifs[x].name), false)
    ensures Elems(es) == IfaceElems(ifs)
  {
    forall e | e in Elems(es) ensures e in IfaceElems(ifs) {
      var x :| 0 <= x < |es| && es[x] == e;
      assert ifs[x] in ifs;
    }
    forall i | i in ifs ensures Elem(Name(i.name), false) in Elems(es) {
      var x :| 0 <= x < |ifs| && ifs[x] == i;
      assert es[x] in Elems(es);
    }
  }

  function IcmpReqs(cfg: Config): seq<Req> {
    (if cfg.icmp6 then [Add(Icmp(Ingress, true)), Add(Icmp(Egress, true))] else NdpReqs(Ingress) + NdpReqs(Egress)) +
    (if cfg.icmp then [Add(Icmp(Ingress, false)), Add(Icmp(Egress, false))] else [])
  }

  lemma CommonSum(l: seq<Req>, cfg: Config)
    requires ConfigOk(cfg)
    ensures l + IcmpReqs(cfg) + PrefixReqs(Ingress, Prefixes(cfg.src)) + PrefixReqs(Egress, Prefixes(cfg.dst)) +
            [Add(ConntrackRule(Ingress))] + [Add(ConntrackRule(Egress))] == l + CommonReqs(cfg)
  {
    hide PrefixReqs, Icmp, NdpReqs, ConntrackRule, Prefixes;
  }

  lemma PortsSum(l: seq<Req>, d: Dir, k: PolicyKey, n: nat, ports: seq<PortSpec>)
    requires PortsOk(ports)
    ensures var c := PortsChain(d, k, n);
            l + [ChainReq(FILTER, c)] + [Add(JumpRule(d, k, c))] + ProtoReqs(d, k, n, ports, TCP) +
              ProtoReqs(d, k, n, ports, UDP) +
            ProtoReqs(d, k, n, ports, SCTP) + (if NoRanges(ports) then [Add(AllPorts(d, k, n))] else []) ==
            l + PortsReqs(d, k, n, ports)
  {
    hide ProtoReqs, JumpRule, AllPorts, NoRanges;
  }

  /** What applyPrefixes asks for. */
  function PrefixesReqs(d: Dir, k: PolicyKey, n: nat, j: nat, cidr: Prefix, prefixes: seq<Elem>,
                        excepts: seq<Elem>): seq<Req> {
    if prefixes == [] then []
    else
      (if excepts == [] then []
       else [WantSet(ExceptSet(d, k, n, j, cidr.v6), true, Elems(excepts)), Add(ExceptRule(d, k, n, j, cidr))]) +
      [WantSet(BlockSet(d, k, n, j, cidr.v6), true, Elems(prefixes)), Add(BlockRule(d, k, n, j, cidr))]
  }

  lemma OnePrefix(cidr: Prefix, v6: bool)
    ensures PrefixElems([cidr], v6) == [] <==> cidr.v6 != v6
  {
    assert [cidr][..0] == [];
  }

  /** Of the two families, only that of the CIDR asks for anything. */
  lemma BlockSum(d: Dir, k: PolicyKey, n: nat, j: nat, b: IPBlock)
    requires b.cidr.Parsed? && AllParsed(b.except)
    ensures var cidr, except := b.cidr.prefix, Prefixes(b.except);
            PrefixesReqs(d, k, n, j, cidr.(v6 := false), PrefixElems([cidr], false), PrefixElems(except, false)) +
            PrefixesReqs(d, k, n, j, cidr.(v6 := true), PrefixElems([cidr], true), PrefixElems(except, true)) ==
            BlockReqs(d, k, n, j, b)
  {
    var cidr := b.cidr.prefix;
    OnePrefix(cidr, false);
    OnePrefix(cidr, true);
    assert cidr.(v6 := cidr.v6) == cidr;
    hide PrefixElems, Elems, ExceptRule, BlockRule;
  }

  lemma AddrElemsAre(addrs: seq<Addr>, es: seq<Elem>)
    requires |es| == |addrs| && forall x :: 0 <= x < |addrs| ==> es[x] == Elem(Num(addrs[x].value), false)
    ensures Elems(es) == set a | a in addrs :: Elem(Num(a.value), false)
  {
    forall e | e in Elems(es) ensures e in set a | a in addrs :: Elem(Num(a.value), false) {
      var x :| 0 <= x < |es| && es[x] == e;
      assert addrs[x] in addrs;
    }
    forall a | a in addrs ensures Elem(Num(a.value), false) in Elems(es) {
      var x :| 0 <= x < |addrs| && addrs[x] == a;
      assert es[x] in Elems(es);
    }
  }

  lemma FamiliesAre(ips: seq<Addr>, v4: seq<Addr>, v6: seq<Addr>)
    requires multiset(v4) + multiset(v6) == multiset(ips)
    requires (forall i :: 0 <= i < |v4| ==> !v4[i].v6) && (forall i :: 0 <= i < |v6| ==> v6[i].v6)
    ensures (set a | a in v4 :: Elem(Num(a.value), false)) == FamilyElems(Members(ips), false)
    ensures (set a | a in v6 :: Elem(Num(a.value), false)) == FamilyElems(Members(ips), true)
    ensures v4 == [] <==> FamilyElems(Members(ips), false) == {}
    ensures v6 == [] <==> FamilyElems(Members(ips), true) == {}
  {
    forall a: Addr ensures a in (if a.v6 then v6 else v4) <==> a in ips {
      SplitMembers(ips, v4, v6, a);
    }
    FamilyIs(ips, v4, false);
    FamilyIs(ips, v6, true);
  }

  lemma FamilyIs(ips: seq<Addr>, l: seq<Addr>, v6: bool)
    requires forall i :: 0 <= i < |l| ==> l[i].v6 == v6
    requires forall a: Addr :: a.v6 == v6 ==> (a in l <==> a in ips)
    ensures (set a | a in l :: Elem(Num(a.value), false)) == FamilyElems(Members(ips), v6)
    ensures l == [] <==> FamilyElems(Members(ips), v6) == {}
  {
    var x, y := set a | a in l :: Elem(Num(a.value), false), FamilyElems(Members(ips), v6);
    assert forall e :: e in x ==> e in y;
    assert forall e :: e in y ==> e in x;
    if l != [] {
      assert l[0] in l && Elem(Num(l[0].value), false) in x;
    }
  }

  lemma PolicyListSnoc(l: seq<Req>, inp: Input, ps: seq<PolicySpec>, i: nat, d: Dir)
    requires i < |ps| && PoliciesOk(ps[..i], d) && RulesOk(RulesFor(ps[i], d))
    ensures PoliciesOk(ps[..i + 1], d)
    ensures l + PolicyListReqs(inp, ps[..i], d) + PolicyReqs(inp, ps[i], d) == l + PolicyListReqs(inp, ps[..i + 1], d)
  {
    hide PolicyReqs, RulesOk;
    assert ps[..i + 1][..i] == ps[..i];
  }

  lemma NoJumpYet(rs: Ruleset, inp: Input, d: Dir, p: PolicySpec)
    ensures !NewJump(rs, inp.(ifs := inp.ifs[..0]), d, p)
    ensures IfaceReqs(d, p.key, OnNetworks(inp.ifs[..0], p.nets)) == []
  {
  }

  lemma IfacesSnoc(l: seq<Req>, inp: Input, i: nat, d: Dir, p: PolicySpec)
    requires i < |inp.ifs|
    ensures l + IfaceReqs(d, p.key, OnNetworks(inp.ifs[..i + 1], p.nets)) ==
            l + IfaceReqs(d, p.key, OnNetworks(inp.ifs[..i], p.nets)) +
            if OnNetwork(inp.ifs[i], p.nets) then [Add(IfaceJump(d, p.key, inp.ifs[i]))] else []
  {
    hide IfaceJump;
    assert inp.ifs[..i + 1][..i] == inp.ifs[..i];
    var on := OnNetworks(inp.ifs[..i], p.nets);
    assert (on + [inp.ifs[i]])[..|on|] == on && on + [] == on;
  }

  lemma NewJumpSnoc(rs: Ruleset, inp: Input, i: nat, d: Dir, p: PolicySpec)
    requires i < |inp.ifs|
    ensures NewJump(rs, inp.(ifs := inp.ifs[..i + 1]), d, p) <==>
            || NewJump(rs, inp.(ifs := inp.ifs[..i]), d, p)
            || (OnNetwork(inp.ifs[i], p.nets) && Absent(rs, IfaceJump(d, p.key, inp.ifs[i])))
  {
    hide Find;
    assert inp.ifs[..i + 1][..i] == inp.ifs[..i];
    var on, on' := OnNetworks(inp.ifs[..i], p.nets), OnNetworks(inp.ifs[..i + 1], p.nets);
    assert on' == on + if OnNetwork(inp.ifs[i], p.nets) then [inp.ifs[i]] else [];
    assert forall x :: x in on' <==> x in on || (OnNetwork(inp.ifs[i], p.nets) && x == inp.ifs[i]);
  }

  lemma PolicySum(l: seq<Req>, inp: Input, p: PolicySpec, d: Dir)
    requires RulesOk(RulesFor(p, d))
    ensures l + ([ChainReq(FILTER, PolicyChain(d, p.key))] + IfaceReqs(d, p.key, OnNetworks(inp.ifs, p.nets)) +
                 RuleListReqs(inp, p, d, RulesFor(p, d))) + [Add(PolicyMark(d, p.key))] == l + PolicyReqs(inp, p, d)
  {
    hide IfaceReqs, OnNetworks, RuleListReqs, PolicyMark;
  }

  lemma ListedElems(l: seq<Elem>, es: set<Elem>)
    requires forall x :: x in l <==> x in es
    ensures Elems(l) == es
  {
  }

  lemma NoElems(es: seq<Elem>)
    ensures Elems(es) == {} <==> es == []
  {
    if es != [] {
      assert es[0] in Elems(es);
    }
  }
}
