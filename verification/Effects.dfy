/** What each compiled rule does to a packet. */
module Effects {
  import opened Ids
  import opened Marks
  import opened Machine
  import opened Policies
  import opened Compile

  // ------------------------------------------------------------- fragments

  lemma RunMark(t: Table, p: Packet, mask: Mark, xor: Mark, reg: Val, m: Mark)
    ensures Run(t, p, MarkWith(mask, xor), Running(reg, m)) ==
            Running(Word(Masked(m, mask, xor)), Masked(m, mask, xor))
  {
    hide Masked;
    Run3(t, p, Meta(MarkKey, false), Bitwise(mask, xor), Meta(MarkKey, true), Running(reg, m));
  }

  lemma RunCheck(t: Table, p: Packet, reg: Val, m: Mark)
    ensures Run(t, p, MARK_CHECK, Running(reg, m)) == if Both(m) then Running(Word(0x30000), m) else NoMatch(m)
  {
    hide Masked;
    Run3(t, p, Meta(MarkKey, false), Bitwise(0x30000, 0), Cmp(true, Word(0x30000)), Running(reg, m));
  }

  lemma RunThen(t: Table, p: Packet, v: Verdict, st: Mach)
    ensures Run(t, p, Then(v), st) == if st.Running? then Decided(st.mark, v) else st
  {
    Run2(t, p, Counter(0), Verdict(v), st);
  }

  /** The packet is of the family and its other side is in the set. */
  ghost predicate RemoteIn(t: Table, p: Packet, d: Dir, v6: bool, s: SetId) {
    p.v6 == v6 && InSet(t, s, Num(Remote(d, p)))
  }

  lemma RunRemote(t: Table, p: Packet, d: Dir, v6: bool, s: SetId, reg: Val, m: Mark)
    ensures Run(t, p, MatchRemote(d, v6, s), Running(reg, m)) ==
            if RemoteIn(t, p, d, v6, s) then Running(Num(Remote(d, p)), m) else NoMatch(m)
  {
    hide InSet;
    var f := Num(if v6 then NFPROTO_IPV6 else NFPROTO_IPV4);
    var a := [Meta(NfProto, false), Cmp(true, f)];
    var b := [Payload(NetworkHeader, RemoteOffset(d, v6), if v6 then 16 else 4), Lookup(s)];
    RunConcat(t, p, a, b, Running(reg, m));
    Run2(t, p, a[0], a[1], Running(reg, m));
    if p.v6 == v6 {
      Run2(t, p, b[0], b[1], Running(f, m));
      assert LoadPayload(p, NetworkHeader, RemoteOffset(d, v6), if v6 then 16 else 4) == Some(Remote(d, p));
    } else {
      StoppedStays(t, p, b, NoMatch(m));
    }
  }

  /** Byte offsets and protocol numbers as they are sent: address family 2 or 10,
      source at byte 12 or 8, destination at byte 16 or 24, 4 or 16 bytes long. */
  lemma MatchRemoteBytes(s: SetId)
    ensures MatchRemote(Ingress, false, s) ==
            [Meta(NfProto, false), Cmp(true, Num(2)), Payload(NetworkHeader, 12, 4), Lookup(s)]
    ensures MatchRemote(Egress, false, s) ==
            [Meta(NfProto, false), Cmp(true, Num(2)), Payload(NetworkHeader, 16, 4), Lookup(s)]
    ensures MatchRemote(Ingress, true, s) ==
            [Meta(NfProto, false), Cmp(true, Num(10)), Payload(NetworkHeader, 8, 16), Lookup(s)]
    ensures MatchRemote(Egress, true, s) ==
            [Meta(NfProto, false), Cmp(true, Num(10)), Payload(NetworkHeader, 24, 16), Lookup(s)]
  {
  }

  /** The rule of the nat table returns the packets of pod interfaces and touches
      no others. */
  lemma ExecNatFilter(t: Table, p: Packet, m: Mark)
    ensures NAT_FILTER.table == TableId(Inet, ManagedNat) && NAT_FILTER.chain == BaseChain(PreroutingHook)
    ensures Exec(t, p, NAT_FILTER, m) ==
            if InSet(t, PodInterfaces, Name(p.iif)) then Decided(m, Return) else NoMatch(m)
  {
    hide InSet;
    var a := [Meta(IifName, false), Lookup(PodInterfaces)];
    RunConcat(t, p, a, Then(Return), Running(Num(0), m));
    Run2(t, p, a[0], a[1], Running(Num(0), m));
    RunThen(t, p, Return, Step(t, p, a[1], Step(t, p, a[0], Running(Num(0), m))));
  }

  // ----------------------------------------------------------- entry chains

  lemma ExecInterfaceFilter(t: Table, p: Packet, d: Dir, m: Mark)
    ensures Exec(t, p, InterfaceFilter(d), m) ==
            if InSet(t, PodInterfaces, Name(IfOf(d, p))) then Decided(m, Jump(EntryChain(d))) else NoMatch(m)
  {
    hide InSet;
    var a := [Meta(IfKey(d), false), Lookup(PodInterfaces)];
    RunConcat(t, p, a, Then(Jump(EntryChain(d))), Running(Num(0), m));
    Run2(t, p, a[0], a[1], Running(Num(0), m));
    RunThen(t, p, Jump(EntryChain(d)), Step(t, p, a[1], Step(t, p, a[0], Running(Num(0), m))));
  }

  lemma ExecJumps(t: Table, p: Packet, d: Dir, k: PolicyKey, c: ChainId, m: Mark)
    ensures Exec(t, p, CommonJump(d), m) == Decided(m, Jump(CommonChain(d)))
    ensures Exec(t, p, JumpRule(d, k, c), m) == Decided(m, Jump(c))
    ensures Exec(t, p, DropRest(d), m) == Decided(m, Drop)
  {
    RunThen(t, p, Jump(CommonChain(d)), Running(Num(0), m));
    RunThen(t, p, Jump(c), Running(Num(0), m));
    RunThen(t, p, Drop, Running(Num(0), m));
  }

  lemma ExecIfaceJump(t: Table, p: Packet, d: Dir, k: PolicyKey, i: Iface, m: Mark)
    ensures Exec(t, p, IfaceJump(d, k, i), m) ==
            if i.name == IfOf(d, p) then Decided(m, Jump(PolicyChain(d, k))) else NoMatch(m)
  {
    var a := [Meta(IfKey(d), false), Cmp(true, Name(i.name))];
    RunConcat(t, p, a, Then(Jump(PolicyChain(d, k))), Running(Num(0), m));
    Run2(t, p, a[0], a[1], Running(Num(0), m));
    RunThen(t, p, Jump(PolicyChain(d, k)), Step(t, p, a[1], Step(t, p, a[0], Running(Num(0), m))));
  }

  lemma ExecChecks(t: Table, p: Packet, d: Dir, k: PolicyKey, n: nat, m: Mark)
    ensures Exec(t, p, PolicyMark(d, k), m) == if Both(m) then Decided(m, Return) else NoMatch(m)
    ensures Exec(t, p, ReturnRule(d, k, n), m) == if Both(m) then Decided(m, Return) else NoMatch(m)
  {
    RunConcat(t, p, MARK_CHECK, Then(Return), Running(Num(0), m));
    RunCheck(t, p, Num(0), m);
    RunThen(t, p, Return, Run(t, p, MARK_CHECK, Running(Num(0), m)));
  }

  lemma ExecReset(t: Table, p: Packet, d: Dir, k: PolicyKey, n: nat, m: Mark)
    ensures var r := Exec(t, p, ResetRule(d, k, n), m);
            r.Running? && r.mark == Reset(m)
  {
    RunConcat(t, p, MARK_RESET, COUNT, Running(Num(0), m));
    RunMark(t, p, 0xfffcffff, 0, Num(0), m);
    Run1(t, p, Counter(0), Running(Word(Reset(m)), Reset(m)));
  }

  // ------------------------------------------------------------ ports chains

  ghost predicate PortIn(t: Table, p: Packet, d: Dir, k: PolicyKey, n: nat, proto: Proto) {
    p.l4 == L4Number(proto) && InSet(t, PortsSet(d, k, n, proto), Num(p.dport))
  }

  lemma ExecPorts(t: Table, p: Packet, d: Dir, k: PolicyKey, n: nat, proto: Proto, m: Mark)
    ensures var r := Exec(t, p, PortsRule(d, k, n, proto), m);
            if PortIn(t, p, d, k, n, proto) then r.Running? && r.mark == SetPort(m) else r == NoMatch(m)
  {
    hide InSet;
    var s := PortsSet(d, k, n, proto);
    var a := [Meta(L4Proto, false), Cmp(true, Num(L4Number(proto)))];
    var b := [Payload(TransportHeader, 2, 2), Lookup(s)];
    var st := Running(Num(0), m);
    RunConcat(t, p, a + b + COUNT, MARK_PORT, st);
    RunConcat(t, p, a + b, COUNT, st);
    RunConcat(t, p, a, b, st);
    Run2(t, p, a[0], a[1], st);
    if p.l4 == L4Number(proto) {
      Run2(t, p, b[0], b[1], Running(Num(p.l4), m));
    } else {
      StoppedStays(t, p, b, NoMatch(m));
    }
    Run1(t, p, Counter(0), Run(t, p, a + b, st));
    if PortIn(t, p, d, k, n, proto) {
      RunMark(t, p, 0xfffeffff, 0x10000, Num(p.dport), m);
    } else {
      StoppedStays(t, p, MARK_PORT, NoMatch(m));
    }
  }

  lemma ExecAll(t: Table, p: Packet, d: Dir, k: PolicyKey, n: nat, m: Mark)
    ensures var r := Exec(t, p, AllPorts(d, k, n), m); r.Running? && r.mark == SetPort(m)
    ensures var r := Exec(t, p, AllPeers(d, k, n), m); r.Running? && r.mark == SetPeer(m)
  {
    var st := Running(Num(0), m);
    RunConcat(t, p, COUNT, MARK_PORT, st);
    RunConcat(t, p, COUNT, MARK_PEER, st);
    Run1(t, p, Counter(0), st);
    RunMark(t, p, 0xfffeffff, 0x10000, Num(0), m);
    RunMark(t, p, 0xfffdffff, 0x20000, Num(0), m);
  }

  // ------------------------------------------------------------ peers chains

  lemma RunRemoteThen(t: Table, p: Packet, d: Dir, v6: bool, s: SetId, v: Verdict, m: Mark)
    ensures Run(t, p, MatchRemote(d, v6, s) + Then(v), Running(Num(0), m)) ==
            if RemoteIn(t, p, d, v6, s) then Decided(m, v) else NoMatch(m)
  {
    hide RemoteIn;
    RunConcat(t, p, MatchRemote(d, v6, s), Then(v), Running(Num(0), m));
    RunRemote(t, p, d, v6, s, Num(0), m);
    RunThen(t, p, v, Run(t, p, MatchRemote(d, v6, s), Running(Num(0), m)));
  }

  lemma RunPeer(t: Table, p: Packet, d: Dir, v6: bool, s: SetId, m: Mark)
    ensures Run(t, p, MatchRemote(d, v6, s) + MARK_PEER + Then(Return), Running(Num(0), m)) ==
            if RemoteIn(t, p, d, v6, s) then Decided(SetPeer(m), Return) else NoMatch(m)
  {
    hide RemoteIn;
    var a, st := MatchRemote(d, v6, s), Running(Num(0), m);
    RunConcat(t, p, a + MARK_PEER, Then(Return), st);
    RunConcat(t, p, a, MARK_PEER, st);
    RunRemote(t, p, d, v6, s, Num(0), m);
    RunThen(t, p, Return, Run(t, p, a + MARK_PEER, st));
    if RemoteIn(t, p, d, v6, s) {
      RunMark(t, p, 0xfffdffff, 0x20000, Num(Remote(d, p)), m);
    } else {
      StoppedStays(t, p, MARK_PEER, NoMatch(m));
    }
  }

  lemma ExecExcept(t: Table, p: Packet, d: Dir, k: PolicyKey, n: nat, j: nat, cidr: Prefix, m: Mark)
    ensures Exec(t, p, ExceptRule(d, k, n, j, cidr), m) ==
            if RemoteIn(t, p, d, cidr.v6, ExceptSet(d, k, n, j, cidr.v6)) then Decided(m, Drop) else NoMatch(m)
  {
    RunRemoteThen(t, p, d, cidr.v6, ExceptSet(d, k, n, j, cidr.v6), Drop, m);
  }

  lemma ExecBlock(t: Table, p: Packet, d: Dir, k: PolicyKey, n: nat, j: nat, cidr: Prefix, m: Mark)
    ensures Exec(t, p, BlockRule(d, k, n, j, cidr), m) ==
            if RemoteIn(t, p, d, cidr.v6, BlockSet(d, k, n, j, cidr.v6)) then Decided(SetPeer(m), Return)
            else NoMatch(m)
  {
    RunPeer(t, p, d, cidr.v6, BlockSet(d, k, n, j, cidr.v6), m);
  }

  lemma ExecSelector(t: Table, p: Packet, d: Dir, k: PolicyKey, n: nat, j: nat, v6: bool, text: string, m: Mark)
    ensures Exec(t, p, SelectorRule(d, k, n, j, v6, text), m) ==
            if RemoteIn(t, p, d, v6, SelectorSet(d, k, n, j, v6, text)) then Decided(SetPeer(m), Return) else NoMatch(m)
  {
    RunPeer(t, p, d, v6, SelectorSet(d, k, n, j, v6, text), m);
  }

  // ----------------------------------------------------------- common chains

  lemma ExecPrefix(t: Table, p: Packet, d: Dir, v6: bool, m: Mark)
    ensures Exec(t, p, CommonPrefix(d, v6), m) ==
            if RemoteIn(t, p, d, v6, CommonSet(d, v6)) then Decided(m, Accept) else NoMatch(m)
  {
    RunRemoteThen(t, p, d, v6, CommonSet(d, v6), Accept, m);
  }

  lemma ExecIcmp(t: Table, p: Packet, d: Dir, v6: bool, m: Mark)
    ensures Exec(t, p, Icmp(d, v6), m) ==
            if p.l4 == (if v6 then ICMPV6 else ICMP) then Decided(m, Accept) else NoMatch(m)
  {
    var a := [Meta(L4Proto, false), Cmp(true, Num(if v6 then ICMPV6 else ICMP))];
    RunConcat(t, p, a, Then(Accept), Running(Num(0), m));
    Run2(t, p, a[0], a[1], Running(Num(0), m));
    RunThen(t, p, Accept, Run(t, p, a, Running(Num(0), m)));
  }

  lemma ExecNdp(t: Table, p: Packet, d: Dir, m: Mark)
    ensures Exec(t, p, Ndp(d), m) ==
            if p.v6 && p.l4 == ICMPV6 && InSet(t, NdpTypes, Num(p.icmpType)) then Decided(m, Accept) else NoMatch(m)
  {
    hide InSet;
    var st := Running(Num(0), m);
    var a, b := [Meta(NfProto, false), Cmp(true, Num(NFPROTO_IPV6))], [Meta(L4Proto, false), Cmp(true, Num(ICMPV6))];
    var c := [Payload(TransportHeader, 0, 1), Lookup(NdpTypes)];
    RunConcat(t, p, a + b + c, Then(Accept), st);
    RunConcat(t, p, a + b, c, st);
    RunConcat(t, p, a, b, st);
    Run2(t, p, a[0], a[1], st);
    Run2(t, p, b[0], b[1], Run(t, p, a, st));
    Run2(t, p, c[0], c[1], Run(t, p, a + b, st));
    RunThen(t, p, Accept, Run(t, p, a + b + c, st));
  }

  lemma ExecConntrack(t: Table, p: Packet, d: Dir, m: Mark)
    ensures Exec(t, p, ConntrackRule(d), m) == if Conntracked(p) then Decided(m, Accept) else NoMatch(m)
  {
    hide Masked;
    var a := [CtState, Bitwise(6, 0), Cmp(false, Word(0))];
    RunConcat(t, p, a, Then(Accept), Running(Num(0), m));
    Run3(t, p, a[0], a[1], a[2], Running(Num(0), m));
    RunThen(t, p, Accept, Run(t, p, a, Running(Num(0), m)));
  }
}
