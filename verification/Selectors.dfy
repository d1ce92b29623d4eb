/** Collecting the addresses of a selector peer: nested loops over pods and
    interfaces around a map that is never emptied. */
module Selectors {
  import opened Ids
  import opened Machine
  import opened Policies
  import opened Compile
  import opened Listing
  import S = Spelled

  function Members<T>(s: seq<T>): set<T> {
    set x | x in s
  }

  /** The cluster view with only the first n pods. */
  function Upto(v: View, n: nat): View
    requires n <= |v.pods|
  {
    v.(pods := v.pods[..n])
  }

  lemma OnSnoc(ifs: seq<Iface>, i: Iface, nets: seq<string>)
    ensures AnyOn(ifs + [i], nets) <==> AnyOn(ifs, nets) || OnNetwork(i, nets)
    ensures IpsOn(ifs + [i], nets) == IpsOn(ifs, nets) + if OnNetwork(i, nets) then Members(i.ips) else {}
  {
    assert i in ifs + [i] && forall x :: x in ifs + [i] <==> x in ifs || x == i;
    assert (ifs + [i])[|ifs|] == i;
    if k :| 0 <= k < |ifs| && OnNetwork(ifs[k], nets) {
      assert (ifs + [i])[k] == ifs[k];
    }
    var l, r := IpsOn(ifs + [i], nets), IpsOn(ifs, nets) + if OnNetwork(i, nets) then Members(i.ips) else {};
    forall a | a in l ensures a in r {
      var x :| x in ifs + [i] && OnNetwork(x, nets) && a in x.ips;
    }
    forall a | a in r ensures a in l {
      if a in IpsOn(ifs, nets) {
        var x :| x in ifs && OnNetwork(x, nets) && a in x.ips;
        assert x in ifs + [i];
      }
    }
  }

  /** What one selected pod contributes through the first a interfaces. */
  ghost function Gain(ifs: seq<Iface>, other: seq<Iface>, nets: seq<string>): set<Addr> {
    if AnyOn(ifs, nets) && AnyOn(other, nets) then IpsOn(ifs, nets) + IpsOn(other, nets) else {}
  }

  lemma NotOn(ifs: seq<Iface>, nets: seq<string>)
    requires !AnyOn(ifs, nets)
    ensures IpsOn(ifs, nets) == {}
  {
  }

  /** The loops over the interfaces of the pod and of one selected pod. */
  method CollectPair(ifs: seq<Iface>, other: seq<Iface>, nets: seq<string>, seen: set<Addr>, ips: seq<Addr>)
    returns (seen': set<Addr>, ips': seq<Addr>)
    requires Members(ips) == seen
    ensures seen' == seen + Gain(ifs, other, nets) && Members(ips') == seen'
  {
    seen', ips' := seen, ips;
    NotOn(ifs[..0], nets);
    for a := 0 to |ifs|
      invariant seen' == seen + Gain(ifs[..a], other, nets) && Members(ips') == seen'
    {
      assert ifs[..a + 1] == ifs[..a] + [ifs[a]];
      OnSnoc(ifs[..a], ifs[a], nets);
      if OnNetwork(ifs[a], nets) {
        seen', ips' := CollectOne(ifs[a], other, nets, seen', ips');
        GainSnoc(ifs[..a], ifs[a], other, nets);
      } else {
        assert Gain(ifs[..a + 1], other, nets) == Gain(ifs[..a], other, nets);
      }
    }
    assert ifs[..|ifs|] == ifs;
  }

  ghost function GainOne(i: Iface, other: seq<Iface>, nets: seq<string>): set<Addr> {
    if AnyOn(other, nets) then Members(i.ips) + IpsOn(other, nets) else {}
  }

  lemma GainSnoc(ifs: seq<Iface>, i: Iface, other: seq<Iface>, nets: seq<string>)
    requires OnNetwork(i, nets)
    ensures Gain(ifs + [i], other, nets) == Gain(ifs, other, nets) + GainOne(i, other, nets)
  {
    OnSnoc(ifs, i, nets);
    if !AnyOn(ifs, nets) {
      NotOn(ifs, nets);
    }
    hide AnyOn, IpsOn;
    assert Gain(ifs + [i], other, nets) == Gain(ifs, other, nets) + GainOne(i, other, nets);
  }

  /** The innermost loop; every round appends the whole map to the list. */
  method CollectOne(i: Iface, other: seq<Iface>, nets: seq<string>, seen: set<Addr>, ips: seq<Addr>)
    returns (seen': set<Addr>, ips': seq<Addr>)
    requires Members(ips) == seen
    ensures seen' == seen + GainOne(i, other, nets) && Members(ips') == seen'
  {
    seen', ips' := seen, ips;
    NotOn(other[..0], nets);
    for b := 0 to |other|
      invariant seen' == seen + GainOne(i, other[..b], nets) && Members(ips') == seen'
    {
      assert other[..b + 1] == other[..b] + [other[b]];
      OnSnoc(other[..b], other[b], nets);
      if OnNetwork(other[b], nets) {
        ghost var before := GainOne(i, other[..b], nets);
        if !AnyOn(other[..b], nets) {
          NotOn(other[..b], nets);
        }
        seen' := seen' + Members(i.ips) + Members(other[b].ips);
        assert GainOne(i, other[..b + 1], nets) == before + Members(i.ips) + Members(other[b].ips);
        var round := Enumerate(seen');
        MembersConcat(ips', round);
        ips' := ips' + round;
      } else {
        assert GainOne(i, other[..b + 1], nets) == GainOne(i, other[..b], nets);
      }
    }
    assert other[..|other|] == other;
  }

  lemma MembersConcat<T>(a: seq<T>, b: seq<T>)
    ensures Members(a + b) == Members(a) + Members(b)
  {
  }

  /** One more pod: nothing if the peer does not select it. */
  lemma PodSnoc(v: View, n: nat, ifs: seq<Iface>, nets: seq<string>, peer: PeerSpec)
    requires n < |v.pods|
    ensures SelectorAddrs(Upto(v, n + 1), ifs, nets, peer) ==
            SelectorAddrs(Upto(v, n), ifs, nets, peer) +
            if Selects(v, peer, v.pods[n]) then Gain(ifs, v.pods[n].info.value, nets) else {}
  {
    var pod, w, w' := v.pods[n], Upto(v, n), Upto(v, n + 1);
    assert forall x :: x in w'.pods <==> x in w.pods || x == pod;
    assert forall x :: Selects(w', peer, x) == Selects(w, peer, x) == Selects(v, peer, x);
    AnyPeerSnoc(v, n, nets, peer);
    PodIpsSnoc(v, n, nets, peer);
    if Selects(v, peer, pod) && !AnyOn(pod.info.value, nets) {
      NotOn(pod.info.value, nets);
    }
    if !AnyPeerOn(w, nets, peer) {
      NoPeerNoIps(w, nets, peer);
    }
    hide AnyOn, IpsOn, Selects, AnyPeerOn, PodIps;
    var x, y := SelectorAddrs(w, ifs, nets, peer),
                if Selects(v, peer, pod) then Gain(ifs, pod.info.value, nets) else {};
    assert SelectorAddrs(w', ifs, nets, peer) == x + y;
  }

  lemma AnyPeerSnoc(v: View, n: nat, nets: seq<string>, peer: PeerSpec)
    requires n < |v.pods|
    ensures AnyPeerOn(Upto(v, n + 1), nets, peer) <==>
            AnyPeerOn(Upto(v, n), nets, peer) || (Selects(v, peer, v.pods[n]) && AnyOn(v.pods[n].info.value, nets))
  {
    hide AnyOn;
    var w, w' := Upto(v, n), Upto(v, n + 1);
    assert forall x :: x in w'.pods <==> x in w.pods || x == v.pods[n];
    if pod :| pod in w.pods && Selects(w, peer, pod) && AnyOn(pod.info.value, nets) {
      assert pod in w'.pods && Selects(w', peer, pod);
    }
    if pod :| pod in w'.pods && Selects(w', peer, pod) && AnyOn(pod.info.value, nets) {
      assert pod in w.pods ==> Selects(w, peer, pod);
    }
    assert v.pods[n] in w'.pods;
  }

  lemma PodIpsSnoc(v: View, n: nat, nets: seq<string>, peer: PeerSpec)
    requires n < |v.pods|
    ensures PodIps(Upto(v, n + 1), nets, peer) ==
            PodIps(Upto(v, n), nets, peer) +
            if Selects(v, peer, v.pods[n]) then IpsOn(v.pods[n].info.value, nets) else {}
  {
    hide IpsOn;
    var w, w' := Upto(v, n), Upto(v, n + 1);
    assert forall x :: x in w'.pods <==> x in w.pods || x == v.pods[n];
    var l := PodIps(w', nets, peer);
    var r := PodIps(w, nets, peer) + if Selects(v, peer, v.pods[n]) then IpsOn(v.pods[n].info.value, nets) else {};
    forall a | a in l ensures a in r {
      var pod :| pod in w'.pods && Selects(w', peer, pod) && a in IpsOn(pod.info.value, nets);
      assert pod in w.pods ==> Selects(w, peer, pod);
    }
    forall a | a in r ensures a in l {
      if a in PodIps(w, nets, peer) {
        var pod :| pod in w.pods && Selects(w, peer, pod) && a in IpsOn(pod.info.value, nets);
        assert pod in w'.pods && Selects(w', peer, pod);
      } else {
        assert v.pods[n] in w'.pods && Selects(w', peer, v.pods[n]);
      }
    }
  }

  lemma NoPeerNoIps(v: View, nets: seq<string>, peer: PeerSpec)
    requires !AnyPeerOn(v, nets, peer)
    ensures PodIps(v, nets, peer) == {}
  {
  }

  /** The loops of applyPolicyPeersRulesSelector.  As a set, the collected list
      is exactly the addresses of the peer, whatever the map order: those of the pod
      and of the picked pods on the networks, spelled out in S.PickedAddress. */
  method CollectIps(v: View, ifs: seq<Iface>, nets: seq<string>, peer: PeerSpec) returns (ips: seq<Addr>)
    ensures Members(ips) == SelectorAddrs(v, ifs, nets, peer)
    ensures forall a :: a in ips <==> S.PickedAddress(v, ifs, nets, peer, a)
  {
    ips := [];
    var seen: set<Addr> := {};
    for n := 0 to |v.pods|
      invariant seen == SelectorAddrs(Upto(v, n), ifs, nets, peer) && Members(ips) == seen
    {
      var pod := v.pods[n];
      PodSnoc(v, n, ifs, nets, peer);
      if peer.pods.Some? && (peer.pods.value.text, pod.labels) !in v.matches {
        continue;
      }
      if pod.ns !in v.namespaces {
        continue;
      }
      if peer.namespaces.Some? && (peer.namespaces.value.text, v.namespaces[pod.ns]) !in v.matches {
        continue;
      }
      if pod.info.None? {
        continue;
      }
      seen, ips := CollectPair(ifs, pod.info.value, nets, seen, ips);
    }
    assert Upto(v, |v.pods|) == v by { assert v.pods[..|v.pods|] == v.pods; }
    hide S.PickedAddress, SelectorHas, SelectorAddrs;
    forall a ensures a in ips <==> S.PickedAddress(v, ifs, nets, peer, a) {
      assert a in ips <==> a in Members(ips);
      AddressSpelled(v, ifs, nets, peer, a);
    }
  }

  lemma AddressSpelled(v: View, ifs: seq<Iface>, nets: seq<string>, peer: PeerSpec, a: Addr)
    ensures a in SelectorAddrs(v, ifs, nets, peer) <==> S.PickedAddress(v, ifs, nets, peer, a)
  {
    hide S.PickedAddress, SelectorHas, SelectorAddrs;
    SelectorAddrsMeaning(v, ifs, nets, peer, a);
    S.PickedSame(v, ifs, nets, peer, a);
  }

  /** The v4/v6 split of addIPRules partitions the list. */
  method SplitFamilies(ips: seq<Addr>) returns (v4: seq<Addr>, v6: seq<Addr>)
    ensures multiset(v4) + multiset(v6) == multiset(ips)
    ensures (forall i :: 0 <= i < |v4| ==> !v4[i].v6) && (forall i :: 0 <= i < |v6| ==> v6[i].v6)
  {
    v4, v6 := [], [];
    for i := 0 to |ips|
      invariant multiset(v4) + multiset(v6) == multiset(ips[..i])
      invariant (forall i :: 0 <= i < |v4| ==> !v4[i].v6) && (forall i :: 0 <= i < |v6| ==> v6[i].v6)
    {
      assert ips[..i + 1] == ips[..i] + [ips[i]];
      if ips[i].v6 {
        v6 := v6 + [ips[i]];
      } else {
        v4 := v4 + [ips[i]];
      }
    }
    assert ips[..|ips|] == ips;
  }

  /** The elements of one family of the split are those the model asks for. */
  lemma SplitMembers(ips: seq<Addr>, v4: seq<Addr>, v6: seq<Addr>, a: Addr)
    requires multiset(v4) + multiset(v6) == multiset(ips)
    requires (forall i :: 0 <= i < |v4| ==> !v4[i].v6) && (forall i :: 0 <= i < |v6| ==> v6[i].v6)
    ensures a in (if a.v6 then v6 else v4) <==> a in ips
  {
    assert a in ips <==> a in multiset(ips);
    assert a in multiset(ips) <==> a in multiset(v4) || a in multiset(v6);
  }
}
