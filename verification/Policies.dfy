/** Inputs of a pass and the meaning of policies: a recursive decision list over
    policies, rules and peers that knows nothing of chains, sets or marks. */
module Policies {
  import opened Ids
  import opened Machine
  import opened Intervals
  import Marks

  // ---------------------------------------------------------------- inputs

  datatype Addr = Addr(v6: bool, value: nat)

  /** A pod interface with the network attachment it belongs to. */
  datatype Iface = Iface(netattach: string, name: string, cni: string, ips: seq<Addr>)

  /** A port of a policy: a number, or a text with its value as a decimal number. */
  datatype PortVal = PortNum(n: int) | PortText(parsed: Option<int>)

  /** One entry of a ports list; a protocol other than UDP and SCTP counts as TCP. */
  datatype PortSpec = PortSpec(proto: Option<Proto>, port: Option<PortVal>, end: Option<int>)

  /** A label selector; matching is an uninterpreted relation of the cluster view. */
  datatype Selector = Selector(text: string, valid: bool)

  datatype IPBlock = IPBlock(cidr: Cidr, except: seq<Cidr>)

  datatype PeerSpec = PeerSpec(block: Option<IPBlock>, pods: Option<Selector>, namespaces: Option<Selector>)

  datatype RuleSpec = RuleSpec(ports: seq<PortSpec>, peers: seq<PeerSpec>)

  /** A selected policy with the networks it is for. */
  datatype PolicySpec = PolicySpec(key: PolicyKey, nets: seq<string>, ingress: seq<RuleSpec>, egress: seq<RuleSpec>)

  datatype Config = Config(icmp6: bool, icmp: bool, src: seq<Cidr>, dst: seq<Cidr>)

  /** A pod of the cluster; info is absent when its interfaces cannot be read. */
  datatype PodEntry = PodEntry(ns: string, labels: string, info: Option<seq<Iface>>)

  datatype View = View(pods: seq<PodEntry>, namespaces: map<string, string>, matches: set<(string, string)>)

  datatype Input = Input(
    ifs: seq<Iface>, cfg: Config, ingress: seq<PolicySpec>, egress: seq<PolicySpec>, view: View)

  function PoliciesFor(inp: Input, d: Dir): seq<PolicySpec> {
    if d.Ingress? then inp.ingress else inp.egress
  }

  function RulesFor(p: PolicySpec, d: Dir): seq<RuleSpec> {
    if d.Ingress? then p.ingress else p.egress
  }

  // -------------------------------------------------------------- networks

  /** InterfaceInfo.CheckPolicyNetwork */
  predicate OnNetwork(i: Iface, nets: seq<string>) {
    i.netattach in nets
  }

  function OnNetworks(ifs: seq<Iface>, nets: seq<string>): seq<Iface> {
    if ifs == [] then []
    else OnNetworks(ifs[..|ifs| - 1], nets) + if OnNetwork(ifs[|ifs| - 1], nets) then [ifs[|ifs| - 1]] else []
  }

  lemma {:induction false} OnNetworksMembers(ifs: seq<Iface>, nets: seq<string>, i: Iface)
    ensures i in OnNetworks(ifs, nets) <==> i in ifs && OnNetwork(i, nets)
  {
    if ifs != [] {
      OnNetworksMembers(ifs[..|ifs| - 1], nets, i);
    }
  }

  // ----------------------------------------------------------------- ports

  const MAX_PORT: int := 65535

  function PortNumber(v: PortVal): Option<int> {
    match v
    case PortNum(n) => if 1 <= n <= MAX_PORT then Some(n) else None
    case PortText(None) => None
    case PortText(Some(n)) => if 1 <= n <= MAX_PORT then Some(n) else None
  }

  /** `validatePortSpec` accepts the entry. */
  predicate PortOk(p: PortSpec) {
    p.port.Some? ==>
      && PortNumber(p.port.value).Some?
      && (p.end.Some? && p.end.value > PortNumber(p.port.value).value ==> p.end.value <= MAX_PORT)
  }

  /** The inclusive range of an entry; an entry with neither port nor protocol
      has none, an entry with a protocol alone covers 1..65535. */
  function PortRange(p: PortSpec): Option<Range>
    requires PortOk(p)
  {
    if p.port.None? then (if p.proto.Some? then Some(Range(1, MAX_PORT)) else None)
    else
      var n := PortNumber(p.port.value).value;
      Some(Range(n, if p.end.Some? && p.end.value > n then p.end.value else n))
  }

  function ProtoOf(p: PortSpec): Proto {
    if p.proto.Some? then p.proto.value else TCP
  }

  function L4Number(p: Proto): nat {
    match p
    case TCP => 6
    case UDP => 17
    case SCTP => 132
  }

  predicate PortsOk(ps: seq<PortSpec>) {
    forall i :: 0 <= i < |ps| ==> PortOk(ps[i])
  }

  /** The ranges of the entries for one protocol. */
  function ProtoRanges(ps: seq<PortSpec>, proto: Proto): seq<Range>
    requires PortsOk(ps)
  {
    if ps == [] then [] else
    var p := ps[|ps| - 1];
    ProtoRanges(ps[..|ps| - 1], proto) +
    if ProtoOf(p) == proto && PortRange(p).Some? then [PortRange(p).value] else []
  }

  /** Some entry names a range. */
  ghost predicate NamesPorts(ps: seq<PortSpec>)
    requires PortsOk(ps)
  {
    exists i :: 0 <= i < |ps| && PortRange(ps[i]).Some?
  }

  ghost predicate PortMatches(p: PortSpec, pkt: Packet)
    requires PortOk(p)
  {
    PortRange(p).Some? && pkt.l4 == L4Number(ProtoOf(p)) && Holds(PortRange(p).value, pkt.dport)
  }

  /** Ports of a rule: everything when no entry names a range. */
  ghost predicate PortsMatch(ps: seq<PortSpec>, pkt: Packet)
    requires PortsOk(ps)
  {
    NamesPorts(ps) ==> exists i :: 0 <= i < |ps| && PortMatches(ps[i], pkt)
  }

  // ----------------------------------------------------------------- peers

  function IfOf(d: Dir, pkt: Packet): string {
    if d.Ingress? then pkt.iif else pkt.oif
  }

  /** The address of the other side. */
  function Remote(d: Dir, pkt: Packet): nat {
    if d.Ingress? then pkt.src else pkt.dst
  }

  predicate Matches(v: View, s: Option<Selector>, labels: string) {
    s.Some? ==> (s.value.text, labels) in v.matches
  }

  /** A pod the peer selects: its labels match the pod selector, its namespace
      is known and matches the namespace selector if there is one (without one,
      pods of all namespaces are selected), and its interfaces are known. */
  predicate Selects(v: View, peer: PeerSpec, pod: PodEntry) {
    && Matches(v, peer.pods, pod.labels)
    && pod.ns in v.namespaces
    && Matches(v, peer.namespaces, v.namespaces[pod.ns])
    && pod.info.Some?
  }

  ghost predicate HasIp(ifs: seq<Iface>, nets: seq<string>, a: Addr) {
    exists i :: 0 <= i < |ifs| && OnNetwork(ifs[i], nets) && a in ifs[i].ips
  }

  /** PodInfo.CheckPolicyNetwork */
  predicate AnyOn(ifs: seq<Iface>, nets: seq<string>) {
    exists i :: 0 <= i < |ifs| && OnNetwork(ifs[i], nets)
  }

  /** Some selected pod has an interface on the policy networks. */
  ghost predicate PeerPresent(v: View, nets: seq<string>, peer: PeerSpec) {
    exists j :: 0 <= j < |v.pods| && Selects(v, peer, v.pods[j]) && AnyOn(v.pods[j].info.value, nets)
  }

  ghost predicate PeerHasIp(v: View, nets: seq<string>, peer: PeerSpec, a: Addr) {
    exists j :: 0 <= j < |v.pods| && Selects(v, peer, v.pods[j]) && HasIp(v.pods[j].info.value, nets, a)
  }

  /** The addresses of a selector peer: those of the selected pods and of the pod
      itself on the policy networks, or none if no selected pod is on them. */
  ghost predicate SelectorHas(v: View, ifs: seq<Iface>, nets: seq<string>, peer: PeerSpec, a: Addr) {
    && AnyOn(ifs, nets)
    && PeerPresent(v, nets, peer)
    && (HasIp(ifs, nets, a) || PeerHasIp(v, nets, peer, a))
  }

  predicate PeerOk(peer: PeerSpec) {
    if peer.block.Some? then peer.block.value.cidr.Parsed? && AllParsed(peer.block.value.except)
    else
      && (peer.pods.Some? || peer.namespaces.Some?)
      && (peer.pods.Some? ==> peer.pods.value.valid)
      && (peer.namespaces.Some? ==> peer.namespaces.value.valid)
  }

  predicate PeersOk(peers: seq<PeerSpec>) {
    forall i :: 0 <= i < |peers| ==> PeerOk(peers[i])
  }

  datatype Outcome = Hit | Miss | Denied

  /** One peer; an address in an except of the CIDR's family is denied at once. */
  ghost function PeerOutcome(inp: Input, nets: seq<string>, peer: PeerSpec, d: Dir, pkt: Packet): Outcome
    requires PeerOk(peer)
  {
    if peer.block.Some? then
      var cidr, except := peer.block.value.cidr.prefix, Prefixes(peer.block.value.except);
      if cidr.v6 != pkt.v6 then Miss
      else if InPrefixes(except, pkt.v6, Remote(d, pkt)) then Denied
      else if Contains(cidr, Remote(d, pkt)) then Hit
      else Miss
    else if SelectorHas(inp.view, inp.ifs, nets, peer, Addr(pkt.v6, Remote(d, pkt))) then Hit
    else Miss
  }

  /** Peers in order; the first that does not miss decides. */
  ghost function PeersOutcome(inp: Input, nets: seq<string>, peers: seq<PeerSpec>, d: Dir, pkt: Packet): Outcome
    requires PeersOk(peers)
  {
    if peers == [] then Miss
    else
      var o := PeerOutcome(inp, nets, peers[0], d, pkt);
      if o.Miss? then PeersOutcome(inp, nets, peers[1..], d, pkt) else o
  }

  // ------------------------------------------------------------- decisions

  datatype Decision = Allow | Deny | Next

  predicate RuleOk(r: RuleSpec) {
    PortsOk(r.ports) && PeersOk(r.peers)
  }

  predicate RulesOk(rs: seq<RuleSpec>) {
    forall i :: 0 <= i < |rs| ==> RuleOk(rs[i])
  }

  /** One rule: an except denies whatever the ports; otherwise ports and peers
      must both match.  No peers at all means every peer. */
  ghost function DecideRule(inp: Input, nets: seq<string>, r: RuleSpec, d: Dir, pkt: Packet): Decision
    requires RuleOk(r)
  {
    var o := if r.peers == [] then Hit else PeersOutcome(inp, nets, r.peers, d, pkt);
    if o.Denied? then Deny
    else if o.Hit? && PortsMatch(r.ports, pkt) then Allow
    else Next
  }

  ghost function DecideRules(inp: Input, nets: seq<string>, rs: seq<RuleSpec>, d: Dir, pkt: Packet): Decision
    requires RulesOk(rs)
  {
    if rs == [] then Next
    else
      var x := DecideRule(inp, nets, rs[0], d, pkt);
      if x.Next? then DecideRules(inp, nets, rs[1..], d, pkt) else x
  }

  /** The policy concerns the interface of the packet. */
  ghost predicate Concerns(inp: Input, p: PolicySpec, d: Dir, pkt: Packet) {
    exists i :: 0 <= i < |inp.ifs| && OnNetwork(inp.ifs[i], p.nets) && inp.ifs[i].name == IfOf(d, pkt)
  }

  predicate PoliciesOk(ps: seq<PolicySpec>, d: Dir) {
    forall i :: 0 <= i < |ps| ==> RulesOk(RulesFor(ps[i], d))
  }

  ghost function DecidePolicy(inp: Input, p: PolicySpec, d: Dir, pkt: Packet): Decision
    requires RulesOk(RulesFor(p, d))
  {
    if Concerns(inp, p, d, pkt) then DecideRules(inp, p.nets, RulesFor(p, d), d, pkt) else Next
  }

  /** Policies in order; what no policy allows is denied. */
  ghost function DecidePolicies(inp: Input, ps: seq<PolicySpec>, d: Dir, pkt: Packet): Decision
    requires PoliciesOk(ps, d)
  {
    if ps == [] then Deny
    else
      var x := DecidePolicy(inp, ps[0], d, pkt);
      if x.Next? then DecidePolicies(inp, ps[1..], d, pkt) else x
  }

  // ---------------------------------------------------------- common rules

  function CommonCidrs(cfg: Config, d: Dir): seq<Cidr> {
    if d.Ingress? then cfg.src else cfg.dst
  }

  predicate ConfigOk(cfg: Config) {
    AllParsed(cfg.src) && AllParsed(cfg.dst)
  }

  const ICMP: nat := 1
  const ICMPV6: nat := 58
  const NDP_TYPES: set<nat> := {133, 134, 135, 136}

  /** Related or established connections. */
  predicate Conntracked(pkt: Packet) {
    Marks.Masked(pkt.ct, 6, 0) != 0
  }

  ghost predicate CommonAccepts(cfg: Config, d: Dir, pkt: Packet)
    requires ConfigOk(cfg)
  {
    || (cfg.icmp6 && pkt.l4 == ICMPV6)
    || (!cfg.icmp6 && pkt.v6 && pkt.l4 == ICMPV6 && pkt.icmpType in NDP_TYPES)
    || (cfg.icmp && pkt.l4 == ICMP)
    || InPrefixes(Prefixes(CommonCidrs(cfg, d)), pkt.v6, Remote(d, pkt))
    || Conntracked(pkt)
  }

  // ---------------------------------------------------------- the whole pod

  predicate InputOk(inp: Input) {
    ConfigOk(inp.cfg) && PoliciesOk(inp.ingress, Ingress) && PoliciesOk(inp.egress, Egress)
  }

  ghost predicate OnPod(inp: Input, d: Dir, pkt: Packet) {
    exists i :: 0 <= i < |inp.ifs| && inp.ifs[i].name == IfOf(d, pkt)
  }

  /** The packet may pass: it is on no pod interface, a common rule accepts it, no
      policy applies in its direction, or the policies allow it. */
  ghost predicate MayPass(inp: Input, d: Dir, pkt: Packet)
    requires InputOk(inp)
  {
    || !OnPod(inp, d, pkt)
    || CommonAccepts(inp.cfg, d, pkt)
    || PoliciesFor(inp, d) == []
    || DecidePolicies(inp, PoliciesFor(inp, d), d, pkt).Allow?
  }

  predicate ValidPacket(pkt: Packet) {
    pkt.src < Top(pkt.v6) && pkt.dst < Top(pkt.v6) && pkt.dport <= MAX_PORT
  }

  // ------------------------------------------------- without except blocks

  predicate NoExcept(peer: PeerSpec) {
    peer.block.Some? ==> peer.block.value.except == []
  }

  predicate RuleNoExcept(r: RuleSpec) {
    forall i :: 0 <= i < |r.peers| ==> NoExcept(r.peers[i])
  }

  predicate PolicyNoExcept(p: PolicySpec, d: Dir) {
    forall i :: 0 <= i < |RulesFor(p, d)| ==> RuleNoExcept(RulesFor(p, d)[i])
  }

  predicate InputNoExcept(inp: Input, d: Dir) {
    forall i :: 0 <= i < |PoliciesFor(inp, d)| ==> PolicyNoExcept(PoliciesFor(inp, d)[i], d)
  }

  ghost predicate SomePeer(inp: Input, nets: seq<string>, peers: seq<PeerSpec>, d: Dir, pkt: Packet)
    requires PeersOk(peers)
  {
    exists i :: 0 <= i < |peers| && PeerOutcome(inp, nets, peers[i], d, pkt).Hit?
  }

  ghost predicate RuleAllows(inp: Input, nets: seq<string>, r: RuleSpec, d: Dir, pkt: Packet)
    requires RuleOk(r)
  {
    PortsMatch(r.ports, pkt) && (r.peers == [] || SomePeer(inp, nets, r.peers, d, pkt))
  }

  ghost predicate PolicyAllows(inp: Input, p: PolicySpec, d: Dir, pkt: Packet)
    requires RulesOk(RulesFor(p, d))
  {
    && Concerns(inp, p, d, pkt)
    && exists i :: 0 <= i < |RulesFor(p, d)| && RuleAllows(inp, p.nets, RulesFor(p, d)[i], d, pkt)
  }

  ghost predicate SomeAllows(inp: Input, ps: seq<PolicySpec>, d: Dir, pkt: Packet)
    requires PoliciesOk(ps, d)
  {
    exists i :: 0 <= i < |ps| && PolicyAllows(inp, ps[i], d, pkt)
  }

  lemma {:induction false} PeersNoExcept(inp: Input, nets: seq<string>, peers: seq<PeerSpec>, d: Dir, pkt: Packet)
    requires PeersOk(peers) && forall i :: 0 <= i < |peers| ==> NoExcept(peers[i])
    ensures PeersOutcome(inp, nets, peers, d, pkt) == if SomePeer(inp, nets, peers, d, pkt) then Hit else Miss
  {
    if peers != [] {
      PeersNoExcept(inp, nets, peers[1..], d, pkt);
      assert NoExcept(peers[0]);
      if SomePeer(inp, nets, peers, d, pkt) {
        var i :| 0 <= i < |peers| && PeerOutcome(inp, nets, peers[i], d, pkt).Hit?;
        if i > 0 {
          assert peers[1..][i - 1] == peers[i];
        }
      }
      if SomePeer(inp, nets, peers[1..], d, pkt) {
        var i :| 0 <= i < |peers| - 1 && PeerOutcome(inp, nets, peers[1..][i], d, pkt).Hit?;
        assert PeerOutcome(inp, nets, peers[i + 1], d, pkt).Hit?;
      }
    }
  }

  lemma RuleNoExceptDecides(inp: Input, nets: seq<string>, r: RuleSpec, d: Dir, pkt: Packet)
    requires RuleOk(r) && RuleNoExcept(r)
    ensures DecideRule(inp, nets, r, d, pkt) == if RuleAllows(inp, nets, r, d, pkt) then Allow else Next
  {
    PeersNoExcept(inp, nets, r.peers, d, pkt);
  }

  lemma {:induction false} RulesNoExcept(inp: Input, nets: seq<string>, rs: seq<RuleSpec>, d: Dir, pkt: Packet)
    requires RulesOk(rs) && forall i :: 0 <= i < |rs| ==> RuleNoExcept(rs[i])
    ensures DecideRules(inp, nets, rs, d, pkt) ==
            if exists i :: 0 <= i < |rs| && RuleAllows(inp, nets, rs[i], d, pkt) then Allow else Next
  {
    if rs != [] {
      RuleNoExceptDecides(inp, nets, rs[0], d, pkt);
      RulesNoExcept(inp, nets, rs[1..], d, pkt);
      if i :| 0 <= i < |rs| && RuleAllows(inp, nets, rs[i], d, pkt) {
        if i > 0 {
          assert rs[1..][i - 1] == rs[i];
        }
      }
      if i :| 0 <= i < |rs| - 1 && RuleAllows(inp, nets, rs[1..][i], d, pkt) {
        assert RuleAllows(inp, nets, rs[i + 1], d, pkt);
      }
    }
  }

  /** Without excepts the decision list is a disjunction. */
  lemma {:induction false} DecisionIsDisjunction(inp: Input, ps: seq<PolicySpec>, d: Dir, pkt: Packet)
    requires PoliciesOk(ps, d) && forall i :: 0 <= i < |ps| ==> PolicyNoExcept(ps[i], d)
    ensures DecidePolicies(inp, ps, d, pkt) == if SomeAllows(inp, ps, d, pkt) then Allow else Deny
  {
    if ps != [] {
      assert PolicyNoExcept(ps[0], d);
      RulesNoExcept(inp, ps[0].nets, RulesFor(ps[0], d), d, pkt);
      DecisionIsDisjunction(inp, ps[1..], d, pkt);
      if i :| 0 <= i < |ps| && PolicyAllows(inp, ps[i], d, pkt) {
        if i > 0 {
          assert ps[1..][i - 1] == ps[i];
        }
      }
      if i :| 0 <= i < |ps| - 1 && PolicyAllows(inp, ps[1..][i], d, pkt) {
        assert PolicyAllows(inp, ps[i + 1], d, pkt);
      }
    }
  }

  /** Hence its verdict depends only on which policies are in the list, not on
      their order or number of occurrences, and more policies allow no less. */
  lemma OrderFree(inp: Input, ps: seq<PolicySpec>, qs: seq<PolicySpec>, d: Dir, pkt: Packet)
    requires PoliciesOk(ps, d) && forall i :: 0 <= i < |ps| ==> PolicyNoExcept(ps[i], d)
    requires PoliciesOk(qs, d) && forall i :: 0 <= i < |qs| ==> PolicyNoExcept(qs[i], d)
    requires forall p :: p in ps ==> p in qs
    ensures DecidePolicies(inp, ps, d, pkt).Allow? ==> DecidePolicies(inp, qs, d, pkt).Allow?
    ensures (forall p :: p in qs ==> p in ps) ==> DecidePolicies(inp, ps, d, pkt) == DecidePolicies(inp, qs, d, pkt)
  {
    DecisionIsDisjunction(inp, ps, d, pkt);
    DecisionIsDisjunction(inp, qs, d, pkt);
    if i :| 0 <= i < |ps| && PolicyAllows(inp, ps[i], d, pkt) {
      assert ps[i] in qs;
      var j :| 0 <= j < |qs| && qs[j] == ps[i];
    }
    if (forall p :: p in qs ==> p in ps) && SomeAllows(inp, qs, d, pkt) {
      var i :| 0 <= i < |qs| && PolicyAllows(inp, qs[i], d, pkt);
      assert qs[i] in ps;
      var j :| 0 <= j < |ps| && ps[j] == qs[i];
    }
  }

  /** Rules of a policy and peers of a rule may be permuted, too. */
  lemma RulesOrderFree(inp: Input, nets: seq<string>, rs: seq<RuleSpec>, ss: seq<RuleSpec>, d: Dir, pkt: Packet)
    requires RulesOk(rs) && forall i :: 0 <= i < |rs| ==> RuleNoExcept(rs[i])
    requires RulesOk(ss) && forall i :: 0 <= i < |ss| ==> RuleNoExcept(ss[i])
    requires forall r :: r in rs <==> r in ss
    ensures DecideRules(inp, nets, rs, d, pkt) == DecideRules(inp, nets, ss, d, pkt)
  {
    RulesNoExcept(inp, nets, rs, d, pkt);
    RulesNoExcept(inp, nets, ss, d, pkt);
    if i :| 0 <= i < |rs| && RuleAllows(inp, nets, rs[i], d, pkt) {
      assert rs[i] in ss;
      var j :| 0 <= j < |ss| && ss[j] == rs[i];
    }
    if i :| 0 <= i < |ss| && RuleAllows(inp, nets, ss[i], d, pkt) {
      assert ss[i] in rs;
      var j :| 0 <= j < |rs| && rs[j] == ss[i];
    }
  }

  lemma PeersOrderFree(inp: Input, nets: seq<string>, xs: seq<PeerSpec>, ys: seq<PeerSpec>, d: Dir, pkt: Packet)
    requires PeersOk(xs) && forall i :: 0 <= i < |xs| ==> NoExcept(xs[i])
    requires PeersOk(ys) && forall i :: 0 <= i < |ys| ==> NoExcept(ys[i])
    requires forall r :: r in xs <==> r in ys
    ensures PeersOutcome(inp, nets, xs, d, pkt) == PeersOutcome(inp, nets, ys, d, pkt)
  {
    PeersNoExcept(inp, nets, xs, d, pkt);
    PeersNoExcept(inp, nets, ys, d, pkt);
    if i :| 0 <= i < |xs| && PeerOutcome(inp, nets, xs[i], d, pkt).Hit? {
      assert xs[i] in ys;
      var j :| 0 <= j < |ys| && ys[j] == xs[i];
    }
    if i :| 0 <= i < |ys| && PeerOutcome(inp, nets, ys[i], d, pkt).Hit? {
      assert ys[i] in xs;
      var j :| 0 <= j < |xs| && xs[j] == ys[i];
    }
  }

  /** With excepts the order does matter: an except of a policy denies at once
      what a policy behind it would allow. */
  const OPEN_POLICY: PolicySpec := PolicySpec(PolicyKey("ns", "open"), ["net"], [RuleSpec([], [])], [])
  const EXCEPT_POLICY: PolicySpec :=
    PolicySpec(PolicyKey("ns", "except"), ["net"],
               [RuleSpec([], [PeerSpec(Some(IPBlock(Parsed(Prefix(false, 0, 32)), [Parsed(Prefix(false, 0, 32))])),
                                       None, None)])],
               [])

  lemma ExceptOrderMatters()
    ensures var inp := Input([Iface("net", "net1", "", [])], Config(false, false, [], []), [], [], View([], map[], {}));
            var pkt := Packet("net1", "", false, 6, 0, 0, 80, 0, 0);
            && PoliciesOk([OPEN_POLICY, EXCEPT_POLICY], Ingress) && PoliciesOk([EXCEPT_POLICY, OPEN_POLICY], Ingress)
            && DecidePolicies(inp, [OPEN_POLICY, EXCEPT_POLICY], Ingress, pkt).Allow?
            && DecidePolicies(inp, [EXCEPT_POLICY, OPEN_POLICY], Ingress, pkt).Deny?
  {
    var inp := Input([Iface("net", "net1", "", [])], Config(false, false, [], []), [], [], View([], map[], {}));
    var pkt := Packet("net1", "", false, 6, 0, 0, 80, 0, 0);
    var open, shut := OPEN_POLICY.ingress[0], EXCEPT_POLICY.ingress[0];
    var except := Prefixes(shut.peers[0].block.value.except);
    assert inp.ifs[0].netattach == "net" && OnNetwork(inp.ifs[0], ["net"]);
    assert Concerns(inp, OPEN_POLICY, Ingress, pkt) && Concerns(inp, EXCEPT_POLICY, Ingress, pkt);
    assert InPrefixes(except, false, 0) by { assert Contains(except[0], 0); }
    assert PeerOutcome(inp, ["net"], shut.peers[0], Ingress, pkt) == Denied;
    assert DecideRule(inp, ["net"], shut, Ingress, pkt) == Deny;
    assert DecideRule(inp, ["net"], open, Ingress, pkt) == Allow;
    assert DecideRules(inp, ["net"], [shut], Ingress, pkt) == Deny &&
      DecideRules(inp, ["net"], [open], Ingress, pkt) == Allow;
  }

  // --------------------------------------------------------- when order matters

  ghost predicate SomeDecides(inp: Input, ps: seq<PolicySpec>, d: Dir, pkt: Packet, x: Decision)
    requires PoliciesOk(ps, d)
  {
    exists i :: 0 <= i < |ps| && DecidePolicy(inp, ps[i], d, pkt) == x
  }

  /** A list allows iff some policy allows and none before it denies. */
  lemma {:induction false} DecidesFirst(inp: Input, ps: seq<PolicySpec>, d: Dir, pkt: Packet)
    requires PoliciesOk(ps, d)
    ensures DecidePolicies(inp, ps, d, pkt) != Next
    ensures DecidePolicies(inp, ps, d, pkt).Allow? ==> SomeDecides(inp, ps, d, pkt, Allow)
    ensures DecidePolicies(inp, ps, d, pkt).Deny? && SomeDecides(inp, ps, d, pkt, Allow) ==>
              SomeDecides(inp, ps, d, pkt, Deny)
  {
    hide DecidePolicy;
    if ps != [] {
      DecidesFirst(inp, ps[1..], d, pkt);
      assert forall i :: 0 < i < |ps| ==> ps[i] == ps[1..][i - 1];
    }
  }

  lemma PermutedMembers(ps: seq<PolicySpec>, qs: seq<PolicySpec>, d: Dir)
    requires multiset(ps) == multiset(qs) && PoliciesOk(ps, d)
    ensures PoliciesOk(qs, d) && forall p :: p in ps <==> p in qs
  {
    forall p ensures p in ps <==> p in qs {
      assert p in ps <==> p in multiset(ps);
      assert p in qs <==> p in multiset(qs);
    }
    forall i | 0 <= i < |qs| ensures RulesOk(RulesFor(qs[i], d)) {
      assert qs[i] in ps;
      var j :| 0 <= j < |ps| && ps[j] == qs[i];
    }
  }

  lemma PermutedDecides(inp: Input, ps: seq<PolicySpec>, qs: seq<PolicySpec>, d: Dir, pkt: Packet, x: Decision)
    requires PoliciesOk(ps, d) && PoliciesOk(qs, d) && forall p :: p in ps <==> p in qs
    ensures SomeDecides(inp, ps, d, pkt, x) <==> SomeDecides(inp, qs, d, pkt, x)
  {
    hide DecidePolicy;
    if i :| 0 <= i < |ps| && DecidePolicy(inp, ps[i], d, pkt) == x {
      assert ps[i] in qs;
      var j :| 0 <= j < |qs| && qs[j] == ps[i];
    }
    if i :| 0 <= i < |qs| && DecidePolicy(inp, qs[i], d, pkt) == x {
      assert qs[i] in ps;
      var j :| 0 <= j < |ps| && ps[j] == qs[i];
    }
  }

  function Fronted(ps: seq<PolicySpec>, i: nat): (qs: seq<PolicySpec>)
    requires i < |ps|
    ensures multiset(qs) == multiset(ps) && qs != [] && qs[0] == ps[i]
  {
    assert ps == ps[..i] + [ps[i]] + ps[i + 1..];
    [ps[i]] + ps[..i] + ps[i + 1..]
  }

  lemma FrontDecides(inp: Input, ps: seq<PolicySpec>, i: nat, d: Dir, pkt: Packet)
    requires PoliciesOk(ps, d) && i < |ps| && DecidePolicy(inp, ps[i], d, pkt) != Next
    ensures PoliciesOk(Fronted(ps, i), d)
    ensures DecidePolicies(inp, Fronted(ps, i), d, pkt) == DecidePolicy(inp, ps[i], d, pkt)
  {
    hide DecidePolicy, Fronted;
    PermutedMembers(ps, Fronted(ps, i), d);
  }

  /** qs is ps in another order that is decided differently. */
  ghost predicate Reorders(inp: Input, ps: seq<PolicySpec>, qs: seq<PolicySpec>, d: Dir, pkt: Packet)
    requires PoliciesOk(ps, d)
  {
    && multiset(qs) == multiset(ps) && PoliciesOk(qs, d)
    && DecidePolicies(inp, qs, d, pkt) != DecidePolicies(inp, ps, d, pkt)
  }

  /** Order matters for a packet, for any policies at all, if and only if one
      policy allows what another denies. */
  lemma OrderMattersExactly(inp: Input, ps: seq<PolicySpec>, d: Dir, pkt: Packet)
    requires PoliciesOk(ps, d)
    ensures (exists qs :: Reorders(inp, ps, qs, d, pkt)) <==>
            SomeDecides(inp, ps, d, pkt, Allow) && SomeDecides(inp, ps, d, pkt, Deny)
  {
    hide DecidePolicy, DecidePolicies, Fronted;
    if qs :| Reorders(inp, ps, qs, d, pkt) {
      PermutedMembers(ps, qs, d);
      PermutedDecides(inp, ps, qs, d, pkt, Allow);
      PermutedDecides(inp, ps, qs, d, pkt, Deny);
      DecidesFirst(inp, ps, d, pkt);
      DecidesFirst(inp, qs, d, pkt);
    }
    if SomeDecides(inp, ps, d, pkt, Allow) && SomeDecides(inp, ps, d, pkt, Deny) {
      var i :| 0 <= i < |ps| && DecidePolicy(inp, ps[i], d, pkt) == Allow;
      var j :| 0 <= j < |ps| && DecidePolicy(inp, ps[j], d, pkt) == Deny;
      FrontDecides(inp, ps, i, d, pkt);
      FrontDecides(inp, ps, j, d, pkt);
      assert Reorders(inp, ps, Fronted(ps, i), d, pkt) || Reorders(inp, ps, Fronted(ps, j), d, pkt);
    }
  }
}
