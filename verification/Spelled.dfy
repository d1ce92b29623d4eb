/** The meaning of policies a second time, spelled out on the fields of policies,
    pods and packets with all numbers written out, direction by direction.  The
    definitions share nothing with the compiler or with the decision list but the
    datatypes and powers of two; the lemmas show that the decision list says the same. */
module Spelled {
  import opened Ids
  import opened Machine
  import opened Intervals
  import opened Policies
  import Marks

  // -------------------------------------------------------------- addresses

  /** The address is one of the 2^(32 - bits), or 2^(128 - bits), of the prefix. */
  predicate Inside(p: Prefix, v6: bool, a: nat)
    requires p.bits <= if p.v6 then 128 else 32
  {
    p.v6 == v6 && var size := Pow2((if p.v6 then 128 else 32) - p.bits); a / size == p.addr / size
  }

  ghost predicate InsideOne(cs: seq<Cidr>, v6: bool, a: nat) {
    exists i :: 0 <= i < |cs| && cs[i].Parsed? && Inside(cs[i].prefix, v6, a)
  }

  // ------------------------------------------------------------------ ports

  /** The entry names a protocol or a port at all. */
  predicate Named(s: PortSpec) {
    s.proto.Some? || s.port.Some?
  }

  /** Protocol 17 for UDP, 132 for SCTP, 6 for TCP and by default; ports from the
      given one to the end if that is larger, or 1 to 65535. */
  predicate PortHit(s: PortSpec, pkt: Packet) {
    && pkt.l4 == (if s.proto == Some(UDP) then 17 else if s.proto == Some(SCTP) then 132 else 6)
    && match s.port
       case None => s.proto.Some? && 1 <= pkt.dport <= 65535
       case Some(PortNum(n)) => n <= pkt.dport <= if s.end.Some? && s.end.value > n then s.end.value else n
       case Some(PortText(Some(n))) => n <= pkt.dport <= if s.end.Some? && s.end.value > n then s.end.value else n
       case Some(PortText(None)) => false
  }

  ghost predicate PortsHit(ports: seq<PortSpec>, pkt: Packet) {
    || (forall i :: 0 <= i < |ports| ==> !Named(ports[i]))
    || exists i :: 0 <= i < |ports| && PortHit(ports[i], pkt)
  }

  // ------------------------------------------------------------------ peers

  /** Labels and namespace match the selectors that are given, the namespace is
      known and so are the interfaces. */
  predicate Picked(v: View, peer: PeerSpec, pod: PodEntry) {
    && (peer.pods.Some? ==> (peer.pods.value.text, pod.labels) in v.matches)
    && pod.ns in v.namespaces
    && (peer.namespaces.Some? ==> (peer.namespaces.value.text, v.namespaces[pod.ns]) in v.matches)
    && pod.info.Some?
  }

  ghost predicate Attached(ifs: seq<Iface>, nets: seq<string>) {
    exists i :: 0 <= i < |ifs| && ifs[i].netattach in nets
  }

  ghost predicate Addressed(ifs: seq<Iface>, nets: seq<string>, a: Addr) {
    exists i :: 0 <= i < |ifs| && ifs[i].netattach in nets && a in ifs[i].ips
  }

  /** An address of the pod itself or of a picked pod on the policy networks, if
      the pod and some picked pod are on them. */
  ghost predicate PickedAddress(v: View, ifs: seq<Iface>, nets: seq<string>, peer: PeerSpec, a: Addr) {
    && Attached(ifs, nets)
    && (exists j :: 0 <= j < |v.pods| && Picked(v, peer, v.pods[j]) && Attached(v.pods[j].info.value, nets))
    && (|| Addressed(ifs, nets, a)
        || exists j :: 0 <= j < |v.pods| && Picked(v, peer, v.pods[j]) && Addressed(v.pods[j].info.value, nets, a))
  }

  /** The other side is excepted from the block. */
  ghost predicate PeerDenies(peer: PeerSpec, v6: bool, a: nat) {
    && peer.block.Some? && peer.block.value.cidr.Parsed? && peer.block.value.cidr.prefix.v6 == v6
    && InsideOne(peer.block.value.except, v6, a)
  }

  /** The other side is in the block and not excepted, or picked by the selectors. */
  ghost predicate PeerHits(inp: Input, nets: seq<string>, peer: PeerSpec, v6: bool, a: nat) {
    if peer.block.Some? then
      && peer.block.value.cidr.Parsed? && Inside(peer.block.value.cidr.prefix, v6, a)
      && !InsideOne(peer.block.value.except, v6, a)
    else PickedAddress(inp.view, inp.ifs, nets, peer, Addr(v6, a))
  }

  // ------------------------------------------------------------------ rules

  /** The rule allows the packet: its ports match, and it has no peers or one that
      hits with none before it that denies. */
  ghost predicate RuleLets(inp: Input, nets: seq<string>, r: RuleSpec, pkt: Packet, a: nat) {
    && PortsHit(r.ports, pkt)
    && (|| r.peers == []
        || exists j :: 0 <= j < |r.peers| && PeerHits(inp, nets, r.peers[j], pkt.v6, a) &&
             forall i :: 0 <= i < j ==> !PeerDenies(r.peers[i], pkt.v6, a))
  }

  /** The rule denies it: a peer denies, and none before it hits. */
  ghost predicate RuleStops(inp: Input, nets: seq<string>, r: RuleSpec, pkt: Packet, a: nat) {
    exists j :: 0 <= j < |r.peers| && PeerDenies(r.peers[j], pkt.v6, a) &&
      forall i :: 0 <= i < j ==> !PeerHits(inp, nets, r.peers[i], pkt.v6, a)
  }

  /** The policy is for an interface of that name. */
  ghost predicate ForIface(inp: Input, p: PolicySpec, name: string) {
    exists i :: 0 <= i < |inp.ifs| && inp.ifs[i].name == name && inp.ifs[i].netattach in p.nets
  }

  // ---------------------------------------------------------------- ingress

  /** Rule j of ingress policy i lets the packet in. */
  ghost predicate LetsIn(inp: Input, i: int, j: int, pkt: Packet) {
    && 0 <= i < |inp.ingress| && ForIface(inp, inp.ingress[i], pkt.iif)
    && 0 <= j < |inp.ingress[i].ingress|
    && RuleLets(inp, inp.ingress[i].nets, inp.ingress[i].ingress[j], pkt, pkt.src)
  }

  ghost predicate StopsIn(inp: Input, i: int, j: int, pkt: Packet) {
    && 0 <= i < |inp.ingress| && ForIface(inp, inp.ingress[i], pkt.iif)
    && 0 <= j < |inp.ingress[i].ingress|
    && RuleStops(inp, inp.ingress[i].nets, inp.ingress[i].ingress[j], pkt, pkt.src)
  }

  /** Accepted whatever the policies. */
  ghost predicate ExemptIn(inp: Input, pkt: Packet) {
    || (forall i :: 0 <= i < |inp.ifs| ==> inp.ifs[i].name != pkt.iif)
    || inp.ingress == []
    || (inp.cfg.icmp6 && pkt.l4 == 58)
    || (!inp.cfg.icmp6 && pkt.v6 && pkt.l4 == 58 && pkt.icmpType in {133, 134, 135, 136})
    || (inp.cfg.icmp && pkt.l4 == 1)
    || InsideOne(inp.cfg.src, pkt.v6, pkt.src)
    || pkt.ct & 6 != 0
  }

  /** An incoming packet may pass: some ingress rule of an ingress policy lets it in
      and none before that stops it. */
  ghost predicate MayEnter(inp: Input, pkt: Packet) {
    || ExemptIn(inp, pkt)
    || exists i, j :: LetsIn(inp, i, j, pkt) &&
         forall k, l :: k < i || (k == i && l < j) ==> !StopsIn(inp, k, l, pkt)
  }

  // ----------------------------------------------------------------- egress

  ghost predicate LetsOut(inp: Input, i: int, j: int, pkt: Packet) {
    && 0 <= i < |inp.egress| && ForIface(inp, inp.egress[i], pkt.oif)
    && 0 <= j < |inp.egress[i].egress|
    && RuleLets(inp, inp.egress[i].nets, inp.egress[i].egress[j], pkt, pkt.dst)
  }

  ghost predicate StopsOut(inp: Input, i: int, j: int, pkt: Packet) {
    && 0 <= i < |inp.egress| && ForIface(inp, inp.egress[i], pkt.oif)
    && 0 <= j < |inp.egress[i].egress|
    && RuleStops(inp, inp.egress[i].nets, inp.egress[i].egress[j], pkt, pkt.dst)
  }

  ghost predicate ExemptOut(inp: Input, pkt: Packet) {
    || (forall i :: 0 <= i < |inp.ifs| ==> inp.ifs[i].name != pkt.oif)
    || inp.egress == []
    || (inp.cfg.icmp6 && pkt.l4 == 58)
    || (!inp.cfg.icmp6 && pkt.v6 && pkt.l4 == 58 && pkt.icmpType in {133, 134, 135, 136})
    || (inp.cfg.icmp && pkt.l4 == 1)
    || InsideOne(inp.cfg.dst, pkt.v6, pkt.dst)
    || pkt.ct & 6 != 0
  }

  /** An outgoing packet may pass: some egress rule of an egress policy lets it out
      and none before that stops it. */
  ghost predicate MayLeave(inp: Input, pkt: Packet) {
    || ExemptOut(inp, pkt)
    || exists i, j :: LetsOut(inp, i, j, pkt) &&
         forall k, l :: k < i || (k == i && l < j) ==> !StopsOut(inp, k, l, pkt)
  }

  // ------------------------------------------------ the decision list agrees

  lemma InsideContains(p: Prefix, v6: bool, a: nat)
    requires ValidPrefix(p)
    ensures Inside(p, v6, a) <==> p.v6 == v6 && Contains(p, a)
  {
    hide Pow2, Contains;
    ContainsIsQuotient(p, a);
  }

  lemma InsideOnePrefixes(cs: seq<Cidr>, v6: bool, a: nat)
    requires AllParsed(cs)
    ensures InsideOne(cs, v6, a) <==> InPrefixes(Prefixes(cs), v6, a)
  {
    hide Inside, Contains;
    forall i | 0 <= i < |cs|
      ensures Inside(cs[i].prefix, v6, a) <==> cs[i].prefix.v6 == v6 && Contains(cs[i].prefix, a)
    {
      InsideContains(cs[i].prefix, v6, a);
    }
  }

  lemma PortsSame(ports: seq<PortSpec>, pkt: Packet)
    requires PortsOk(ports)
    ensures PortsHit(ports, pkt) <==> PortsMatch(ports, pkt)
  {
    forall i | 0 <= i < |ports|
      ensures (PortHit(ports[i], pkt) <==> PortMatches(ports[i], pkt)) &&
              (Named(ports[i]) <==> PortRange(ports[i]).Some?)
    {
      PortSame(ports[i], pkt);
    }
  }

  lemma PortSame(s: PortSpec, pkt: Packet)
    requires PortOk(s)
    ensures (PortHit(s, pkt) <==> PortMatches(s, pkt)) && (Named(s) <==> PortRange(s).Some?)
  {
  }

  lemma PickedSame(v: View, ifs: seq<Iface>, nets: seq<string>, peer: PeerSpec, a: Addr)
    ensures PickedAddress(v, ifs, nets, peer, a) <==> SelectorHas(v, ifs, nets, peer, a)
  {
    forall l: seq<Iface> ensures Attached(l, nets) <==> AnyOn(l, nets) {
    }
    forall l: seq<Iface> ensures Addressed(l, nets, a) <==> HasIp(l, nets, a) {
    }
    assert forall pod :: Picked(v, peer, pod) <==> Selects(v, peer, pod);
  }

  lemma PeerSame(inp: Input, nets: seq<string>, peer: PeerSpec, d: Dir, pkt: Packet)
    requires PeerOk(peer)
    ensures var a := if d == Ingress then pkt.src else pkt.dst;
            && (PeerDenies(peer, pkt.v6, a) <==> PeerOutcome(inp, nets, peer, d, pkt).Denied?)
            && (PeerHits(inp, nets, peer, pkt.v6, a) <==> PeerOutcome(inp, nets, peer, d, pkt).Hit?)
  {
    hide Inside, InsideOne, Contains, InPrefixes, PickedAddress, SelectorHas;
    var a := if d == Ingress then pkt.src else pkt.dst;
    if peer.block.Some? {
      InsideContains(peer.block.value.cidr.prefix, pkt.v6, a);
      InsideOnePrefixes(peer.block.value.except, pkt.v6, a);
    } else {
      PickedSame(inp.view, inp.ifs, nets, peer, Addr(pkt.v6, a));
    }
  }

  // The first peer, rule or policy that decides, by position.

  lemma {:induction false} PeersHit(inp: Input, nets: seq<string>, peers: seq<PeerSpec>, d: Dir, pkt: Packet)
    requires PeersOk(peers)
    ensures PeersOutcome(inp, nets, peers, d, pkt).Hit? <==>
            exists j :: 0 <= j < |peers| && PeerOutcome(inp, nets, peers[j], d, pkt).Hit? &&
              forall i :: 0 <= i < j ==> !PeerOutcome(inp, nets, peers[i], d, pkt).Denied?
  {
    hide PeerOutcome;
    if peers != [] {
      var rest := peers[1..];
      PeersHit(inp, nets, rest, d, pkt);
      assert forall i :: 0 < i < |peers| ==> peers[i] == rest[i - 1];
      if PeerOutcome(inp, nets, peers[0], d, pkt).Miss? {
        if PeersOutcome(inp, nets, rest, d, pkt).Hit? {
          var j :| 0 <= j < |rest| && PeerOutcome(inp, nets, rest[j], d, pkt).Hit? &&
                   forall i :: 0 <= i < j ==> !PeerOutcome(inp, nets, rest[i], d, pkt).Denied?;
          assert PeerOutcome(inp, nets, peers[j + 1], d, pkt).Hit?;
        }
        if j :| 0 <= j < |peers| && PeerOutcome(inp, nets, peers[j], d, pkt).Hit? &&
                forall i :: 0 <= i < j ==> !PeerOutcome(inp, nets, peers[i], d, pkt).Denied? {
          forall i | 0 <= i < j - 1 ensures !PeerOutcome(inp, nets, rest[i], d, pkt).Denied? {
            assert rest[i] == peers[i + 1];
          }
          assert PeerOutcome(inp, nets, rest[j - 1], d, pkt).Hit?;
        }
      }
    }
  }

  lemma {:induction false} PeersDenied(inp: Input, nets: seq<string>, peers: seq<PeerSpec>, d: Dir, pkt: Packet)
    requires PeersOk(peers)
    ensures PeersOutcome(inp, nets, peers, d, pkt).Denied? <==>
            exists j :: 0 <= j < |peers| && PeerOutcome(inp, nets, peers[j], d, pkt).Denied? &&
              forall i :: 0 <= i < j ==> !PeerOutcome(inp, nets, peers[i], d, pkt).Hit?
  {
    hide PeerOutcome;
    if peers != [] {
      var rest := peers[1..];
      PeersDenied(inp, nets, rest, d, pkt);
      assert forall i :: 0 < i < |peers| ==> peers[i] == rest[i - 1];
      if PeerOutcome(inp, nets, peers[0], d, pkt).Miss? {
        if PeersOutcome(inp, nets, rest, d, pkt).Denied? {
          var j :| 0 <= j < |rest| && PeerOutcome(inp, nets, rest[j], d, pkt).Denied? &&
                   forall i :: 0 <= i < j ==> !PeerOutcome(inp, nets, rest[i], d, pkt).Hit?;
          assert PeerOutcome(inp, nets, peers[j + 1], d, pkt).Denied?;
        }
        if j :| 0 <= j < |peers| && PeerOutcome(inp, nets, peers[j], d, pkt).Denied? &&
                forall i :: 0 <= i < j ==> !PeerOutcome(inp, nets, peers[i], d, pkt).Hit? {
          forall i | 0 <= i < j - 1 ensures !PeerOutcome(inp, nets, rest[i], d, pkt).Hit? {
            assert rest[i] == peers[i + 1];
          }
          assert PeerOutcome(inp, nets, rest[j - 1], d, pkt).Denied?;
        }
      }
    }
  }

  lemma RuleSame(inp: Input, nets: seq<string>, r: RuleSpec, d: Dir, pkt: Packet)
    requires RuleOk(r)
    ensures var a := if d == Ingress then pkt.src else pkt.dst;
            && (RuleLets(inp, nets, r, pkt, a) <==> DecideRule(inp, nets, r, d, pkt).Allow?)
            && (RuleStops(inp, nets, r, pkt, a) <==> DecideRule(inp, nets, r, d, pkt).Deny?)
  {
    hide PortsHit, PortsMatch, PeerHits, PeerDenies, PeerOutcome, PeersOutcome;
    var a := if d == Ingress then pkt.src else pkt.dst;
    PortsSame(r.ports, pkt);
    PeersHit(inp, nets, r.peers, d, pkt);
    PeersDenied(inp, nets, r.peers, d, pkt);
    forall j | 0 <= j < |r.peers|
      ensures PeerDenies(r.peers[j], pkt.v6, a) <==> PeerOutcome(inp, nets, r.peers[j], d, pkt).Denied?
      ensures PeerHits(inp, nets, r.peers[j], pkt.v6, a) <==> PeerOutcome(inp, nets, r.peers[j], d, pkt).Hit?
    {
      PeerSame(inp, nets, r.peers[j], d, pkt);
    }
  }

  lemma {:induction false} RulesFirst(inp: Input, nets: seq<string>, rs: seq<RuleSpec>, d: Dir, pkt: Packet)
    requires RulesOk(rs)
    ensures DecideRules(inp, nets, rs, d, pkt).Allow? <==>
            exists j :: 0 <= j < |rs| && DecideRule(inp, nets, rs[j], d, pkt).Allow? &&
              forall l :: 0 <= l < j ==> !DecideRule(inp, nets, rs[l], d, pkt).Deny?
    ensures DecideRules(inp, nets, rs, d, pkt).Deny? ==>
            exists j :: 0 <= j < |rs| && DecideRule(inp, nets, rs[j], d, pkt).Deny?
    ensures DecideRules(inp, nets, rs, d, pkt).Next? ==>
            forall j :: 0 <= j < |rs| ==> DecideRule(inp, nets, rs[j], d, pkt).Next?
  {
    hide DecideRule, RuleOk;
    if rs != [] {
      var rest := rs[1..];
      RulesFirst(inp, nets, rest, d, pkt);
      assert forall i :: 0 <= i < |rest| ==> rest[i] == rs[i + 1];
      assert forall i :: 0 < i < |rs| ==> rs[i] == rest[i - 1];
      var x := DecideRules(inp, nets, rest, d, pkt);
      if DecideRule(inp, nets, rs[0], d, pkt).Next? {
        if x.Allow? {
          var j :| 0 <= j < |rest| && DecideRule(inp, nets, rest[j], d, pkt).Allow? &&
                   forall l :: 0 <= l < j ==> !DecideRule(inp, nets, rest[l], d, pkt).Deny?;
          assert DecideRule(inp, nets, rs[j + 1], d, pkt).Allow?;
        }
        if x.Deny? {
          var j :| 0 <= j < |rest| && DecideRule(inp, nets, rest[j], d, pkt).Deny?;
          assert DecideRule(inp, nets, rs[j + 1], d, pkt).Deny?;
        }
        if j :| 0 <= j < |rs| && DecideRule(inp, nets, rs[j], d, pkt).Allow? &&
                forall l :: 0 <= l < j ==> !DecideRule(inp, nets, rs[l], d, pkt).Deny? {
          assert DecideRule(inp, nets, rest[j - 1], d, pkt).Allow?;
        }
      }
    }
  }

  lemma {:induction false} PoliciesFirst(inp: Input, ps: seq<PolicySpec>, d: Dir, pkt: Packet)
    requires PoliciesOk(ps, d)
    ensures DecidePolicies(inp, ps, d, pkt).Allow? ==>
            exists i :: 0 <= i < |ps| && DecidePolicy(inp, ps[i], d, pkt).Allow? &&
              forall k :: 0 <= k < i ==> DecidePolicy(inp, ps[k], d, pkt).Next?
    ensures (exists i :: 0 <= i < |ps| && DecidePolicy(inp, ps[i], d, pkt).Allow? &&
               forall k :: 0 <= k < i ==> !DecidePolicy(inp, ps[k], d, pkt).Deny?) ==>
            DecidePolicies(inp, ps, d, pkt).Allow?
  {
    hide DecidePolicy, RulesOk;
    if ps != [] {
      var rest := ps[1..];
      PoliciesFirst(inp, rest, d, pkt);
      assert forall i :: 0 <= i < |rest| ==> rest[i] == ps[i + 1];
      assert forall i :: 0 < i < |ps| ==> ps[i] == rest[i - 1];
      if DecidePolicy(inp, ps[0], d, pkt).Next? {
        if DecidePolicies(inp, rest, d, pkt).Allow? {
          var i :| 0 <= i < |rest| && DecidePolicy(inp, rest[i], d, pkt).Allow? &&
                   forall k :: 0 <= k < i ==> DecidePolicy(inp, rest[k], d, pkt).Next?;
          assert DecidePolicy(inp, ps[i + 1], d, pkt).Allow?;
        }
        if i :| 0 <= i < |ps| && DecidePolicy(inp, ps[i], d, pkt).Allow? &&
                forall k :: 0 <= k < i ==> !DecidePolicy(inp, ps[k], d, pkt).Deny? {
          assert DecidePolicy(inp, rest[i - 1], d, pkt).Allow?;
        }
      }
    }
  }

  /** Rule j of policy i in direction d, of the list that applies there. */
  ghost predicate At(inp: Input, d: Dir, i: int, j: int, pkt: Packet, x: Decision)
    requires PoliciesOk(PoliciesFor(inp, d), d)
  {
    && 0 <= i < |PoliciesFor(inp, d)| && Concerns(inp, PoliciesFor(inp, d)[i], d, pkt)
    && 0 <= j < |RulesFor(PoliciesFor(inp, d)[i], d)|
    && DecideRule(inp, PoliciesFor(inp, d)[i].nets, RulesFor(PoliciesFor(inp, d)[i], d)[j], d, pkt) == x
  }

  lemma PolicyAtRules(inp: Input, d: Dir, i: nat, pkt: Packet)
    requires PoliciesOk(PoliciesFor(inp, d), d) && i < |PoliciesFor(inp, d)|
    ensures DecidePolicy(inp, PoliciesFor(inp, d)[i], d, pkt).Allow? <==>
            exists j :: At(inp, d, i, j, pkt, Allow) && forall l :: l < j ==> !At(inp, d, i, l, pkt, Deny)
    ensures DecidePolicy(inp, PoliciesFor(inp, d)[i], d, pkt).Deny? ==> exists j :: At(inp, d, i, j, pkt, Deny)
    ensures DecidePolicy(inp, PoliciesFor(inp, d)[i], d, pkt).Next? ==> forall j :: !At(inp, d, i, j, pkt, Deny)
  {
    hide DecideRule, Concerns, RuleOk, DecideRules;
    var p := PoliciesFor(inp, d)[i];
    var rs := RulesFor(p, d);
    RulesFirst(inp, p.nets, rs, d, pkt);
    if Concerns(inp, p, d, pkt) {
      var y := DecideRules(inp, p.nets, rs, d, pkt);
      assert DecidePolicy(inp, p, d, pkt) == y;
      if y.Allow? {
        var j :| 0 <= j < |rs| && DecideRule(inp, p.nets, rs[j], d, pkt).Allow? &&
                 forall l :: 0 <= l < j ==> !DecideRule(inp, p.nets, rs[l], d, pkt).Deny?;
        assert At(inp, d, i, j, pkt, Allow);
      } else if y.Deny? {
        var j :| 0 <= j < |rs| && DecideRule(inp, p.nets, rs[j], d, pkt).Deny?;
        assert At(inp, d, i, j, pkt, Deny);
      }
      if j :| At(inp, d, i, j, pkt, Allow) && forall l :: l < j ==> !At(inp, d, i, l, pkt, Deny) {
        forall l | 0 <= l < j ensures !DecideRule(inp, p.nets, rs[l], d, pkt).Deny? {
          assert !At(inp, d, i, l, pkt, Deny);
        }
      }
    }
  }

  /** The decision list allows iff some rule allows and none before it denies. */
  lemma FirstAt(inp: Input, d: Dir, pkt: Packet)
    requires PoliciesOk(PoliciesFor(inp, d), d)
    ensures DecidePolicies(inp, PoliciesFor(inp, d), d, pkt).Allow? <==>
            exists i, j :: At(inp, d, i, j, pkt, Allow) &&
              forall k, l :: k < i || (k == i && l < j) ==> !At(inp, d, k, l, pkt, Deny)
  {
    hide DecidePolicy, DecidePolicies, RulesOk;
    var ps := PoliciesFor(inp, d);
    PoliciesFirst(inp, ps, d, pkt);
    if DecidePolicies(inp, ps, d, pkt).Allow? {
      var i :| 0 <= i < |ps| && DecidePolicy(inp, ps[i], d, pkt).Allow? &&
               forall k :: 0 <= k < i ==> DecidePolicy(inp, ps[k], d, pkt).Next?;
      PolicyAtRules(inp, d, i, pkt);
      var j :| At(inp, d, i, j, pkt, Allow) && forall l :: l < j ==> !At(inp, d, i, l, pkt, Deny);
      forall k, l | k < i || (k == i && l < j) ensures !At(inp, d, k, l, pkt, Deny) {
        if 0 <= k < i {
          PolicyAtRules(inp, d, k, pkt);
        }
      }
    }
    if i, j :| At(inp, d, i, j, pkt, Allow) &&
               forall k, l :: k < i || (k == i && l < j) ==> !At(inp, d, k, l, pkt, Deny) {
      PolicyAtRules(inp, d, i, pkt);
      forall k | 0 <= k < i ensures !DecidePolicy(inp, ps[k], d, pkt).Deny? {
        PolicyAtRules(inp, d, k, pkt);
      }
    }
  }

  lemma ConcernsSame(inp: Input, p: PolicySpec, d: Dir, pkt: Packet)
    ensures ForIface(inp, p, if d == Ingress then pkt.iif else pkt.oif) <==> Concerns(inp, p, d, pkt)
  {
  }

  lemma AtIngress(inp: Input, i: int, j: int, pkt: Packet)
    requires InputOk(inp)
    ensures PoliciesOk(PoliciesFor(inp, Ingress), Ingress)
    ensures LetsIn(inp, i, j, pkt) <==> At(inp, Ingress, i, j, pkt, Allow)
    ensures StopsIn(inp, i, j, pkt) <==> At(inp, Ingress, i, j, pkt, Deny)
  {
    hide DecideRule, RuleLets, RuleStops, ForIface, Concerns;
    if 0 <= i < |inp.ingress| && 0 <= j < |inp.ingress[i].ingress| {
      ConcernsSame(inp, inp.ingress[i], Ingress, pkt);
      RuleSame(inp, inp.ingress[i].nets, inp.ingress[i].ingress[j], Ingress, pkt);
    }
  }

  lemma AtEgress(inp: Input, i: int, j: int, pkt: Packet)
    requires InputOk(inp)
    ensures PoliciesOk(PoliciesFor(inp, Egress), Egress)
    ensures LetsOut(inp, i, j, pkt) <==> At(inp, Egress, i, j, pkt, Allow)
    ensures StopsOut(inp, i, j, pkt) <==> At(inp, Egress, i, j, pkt, Deny)
  {
    hide DecideRule, RuleLets, RuleStops, ForIface, Concerns;
    if 0 <= i < |inp.egress| && 0 <= j < |inp.egress[i].egress| {
      ConcernsSame(inp, inp.egress[i], Egress, pkt);
      RuleSame(inp, inp.egress[i].nets, inp.egress[i].egress[j], Egress, pkt);
    }
  }

  lemma ExemptSame(inp: Input, pkt: Packet)
    requires InputOk(inp)
    ensures ExemptIn(inp, pkt) <==>
            !OnPod(inp, Ingress, pkt) || CommonAccepts(inp.cfg, Ingress, pkt) || PoliciesFor(inp, Ingress) == []
    ensures ExemptOut(inp, pkt) <==>
            !OnPod(inp, Egress, pkt) || CommonAccepts(inp.cfg, Egress, pkt) || PoliciesFor(inp, Egress) == []
  {
    InsideOnePrefixes(inp.cfg.src, pkt.v6, pkt.src);
    InsideOnePrefixes(inp.cfg.dst, pkt.v6, pkt.dst);
    hide InsideOne, InPrefixes, Prefixes;
    assert Conntracked(pkt) <==> pkt.ct & 6 != 0;
  }

  /** For every accepted input, excepts included, and every packet: the decision
      list lets an incoming packet pass iff the spelled-out rules do. */
  lemma EnterMeans(inp: Input, pkt: Packet)
    requires InputOk(inp)
    ensures MayPass(inp, Ingress, pkt) <==> MayEnter(inp, pkt)
  {
    hide At, LetsIn, StopsIn, ExemptIn, OnPod, CommonAccepts, DecidePolicies;
    ExemptSame(inp, pkt);
    forall i, j
      ensures LetsIn(inp, i, j, pkt) <==> At(inp, Ingress, i, j, pkt, Allow)
      ensures StopsIn(inp, i, j, pkt) <==> At(inp, Ingress, i, j, pkt, Deny)
    {
      AtIngress(inp, i, j, pkt);
    }
    FirstAt(inp, Ingress, pkt);
  }

  /** And so it does for outgoing packets. */
  lemma LeaveMeans(inp: Input, pkt: Packet)
    requires InputOk(inp)
    ensures MayPass(inp, Egress, pkt) <==> MayLeave(inp, pkt)
  {
    hide At, LetsOut, StopsOut, ExemptOut, OnPod, CommonAccepts, DecidePolicies;
    ExemptSame(inp, pkt);
    forall i, j
      ensures LetsOut(inp, i, j, pkt) <==> At(inp, Egress, i, j, pkt, Allow)
      ensures StopsOut(inp, i, j, pkt) <==> At(inp, Egress, i, j, pkt, Deny)
    {
      AtEgress(inp, i, j, pkt);
    }
    FirstAt(inp, Egress, pkt);
  }

  /** A policy that allows an incoming packet has an ingress rule that lets it in. */
  lemma SomeLetsIn(inp: Input, pkt: Packet)
    requires InputOk(inp) && PoliciesOk(PoliciesFor(inp, Ingress), Ingress)
    requires SomeDecides(inp, PoliciesFor(inp, Ingress), Ingress, pkt, Allow)
    ensures exists i, j :: LetsIn(inp, i, j, pkt) && forall l :: l < j ==> !StopsIn(inp, i, l, pkt)
  {
    hide At, LetsIn, StopsIn, DecidePolicy;
    var i :| 0 <= i < |PoliciesFor(inp, Ingress)| &&
             DecidePolicy(inp, PoliciesFor(inp, Ingress)[i], Ingress, pkt) == Allow;
    PolicyAtRules(inp, Ingress, i, pkt);
    var j :| At(inp, Ingress, i, j, pkt, Allow) && forall l :: l < j ==> !At(inp, Ingress, i, l, pkt, Deny);
    AtIngress(inp, i, j, pkt);
    forall l | l < j ensures !StopsIn(inp, i, l, pkt) {
      AtIngress(inp, i, l, pkt);
    }
  }

  lemma SomeLetsOut(inp: Input, pkt: Packet)
    requires InputOk(inp) && PoliciesOk(PoliciesFor(inp, Egress), Egress)
    requires SomeDecides(inp, PoliciesFor(inp, Egress), Egress, pkt, Allow)
    ensures exists i, j :: LetsOut(inp, i, j, pkt) && forall l :: l < j ==> !StopsOut(inp, i, l, pkt)
  {
    hide At, LetsOut, StopsOut, DecidePolicy;
    var i :| 0 <= i < |PoliciesFor(inp, Egress)| &&
             DecidePolicy(inp, PoliciesFor(inp, Egress)[i], Egress, pkt) == Allow;
    PolicyAtRules(inp, Egress, i, pkt);
    var j :| At(inp, Egress, i, j, pkt, Allow) && forall l :: l < j ==> !At(inp, Egress, i, l, pkt, Deny);
    AtEgress(inp, i, j, pkt);
    forall l | l < j ensures !StopsOut(inp, i, l, pkt) {
      AtEgress(inp, i, l, pkt);
    }
  }
}
