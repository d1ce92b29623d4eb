/** Which policies apply to a pod: the loop over the policy map, whose order is
    arbitrary, and the sort that makes the outcome independent of it. */
module Selection {
  import opened Ids
  import opened Intervals
  import opened Policies
  import opened Layout
  import opened SetLayout
  import opened Entry
  import opened Listing
  import opened Texts

  /** A policy as stored in the cluster.  An absent selector stands for an empty
      one; rule lists tell whether they were given at all. */
  datatype Policy = Policy(
    key: PolicyKey, selector: Option<Selector>, types: seq<string>,
    annotation: Option<string>, ingress: Option<seq<RuleSpec>>, egress: Option<seq<RuleSpec>>)

  datatype Pod = Pod(ns: string, labels: string)

  function Rules(rs: Option<seq<RuleSpec>>): seq<RuleSpec> {
    if rs.Some? then rs.value else []
  }

  // ----------------------------------------------------------- policy types

  function TypeName(d: Dir): string {
    match d
    case Ingress => "Ingress"
    case Egress => "Egress"
  }

  /** The policy restricts direction d: it says so, or says nothing and has rules
      for it. */
  predicate Enabled(p: Policy, d: Dir) {
    if p.types != [] then exists i :: 0 <= i < |p.types| && EqualFold(p.types[i], TypeName(d))
    else (if d.Ingress? then p.ingress else p.egress).Some?
  }

  lemma TypesDiffer(s: string)
    requires EqualFold(s, TypeName(Ingress))
    ensures !EqualFold(s, TypeName(Egress))
  {
    assert |TypeName(Ingress)| == 7 && |TypeName(Egress)| == 6;
  }

  /** The spellings of "Ingress": upper and lower case, and the long s. */
  predicate NamesIngress(s: string) {
    && |s| == 7 && s[0] in "iI" && s[1] in "nN" && s[2] in "gG" && s[3] in "rR" && s[4] in "eE"
    && s[5] in "sS\U{017F}" && s[6] in "sS\U{017F}"
  }

  /** The spellings of "Egress". */
  predicate NamesEgress(s: string) {
    && |s| == 6 && s[0] in "eE" && s[1] in "gG" && s[2] in "rR" && s[3] in "eE"
    && s[4] in "sS\U{017F}" && s[5] in "sS\U{017F}"
  }

  lemma IngressSpelled(s: string)
    ensures EqualFold(s, TypeName(Ingress)) <==> NamesIngress(s)
  {
    assert TypeName(Ingress) == "Ingress";
    if |s| == 7 {
      assert EqualFold(s, TypeName(Ingress)) <==>
             Folded(s[0]) == 'i' && Folded(s[1]) == 'n' && Folded(s[2]) == 'g' && Folded(s[3]) == 'r' &&
             Folded(s[4]) == 'e' && Folded(s[5]) == 's' && Folded(s[6]) == 's';
    }
  }

  lemma EgressSpelled(s: string)
    ensures EqualFold(s, TypeName(Egress)) <==> NamesEgress(s)
  {
    assert TypeName(Egress) == "Egress";
    if |s| == 6 {
      assert EqualFold(s, TypeName(Egress)) <==>
             Folded(s[0]) == 'e' && Folded(s[1]) == 'g' && Folded(s[2]) == 'r' && Folded(s[3]) == 'e' &&
             Folded(s[4]) == 's' && Folded(s[5]) == 's';
    }
  }

  method GetEnabledPolicyTypes(p: Policy) returns (ingress: bool, egress: bool)
    ensures ingress == Enabled(p, Ingress) && egress == Enabled(p, Egress)
    ensures p.types == [] ==> ingress == p.ingress.Some? && egress == p.egress.Some?
    ensures p.types != [] ==>
              && (ingress <==> exists i :: 0 <= i < |p.types| && NamesIngress(p.types[i]))
              && (egress <==> exists i :: 0 <= i < |p.types| && NamesEgress(p.types[i]))
    ensures ("Ingress" in p.types ==> ingress) && ("Egress" in p.types ==> egress)
  {
    hide EqualFold, NamesIngress, NamesEgress;
    forall i | 0 <= i < |p.types|
      ensures EqualFold(p.types[i], TypeName(Ingress)) <==> NamesIngress(p.types[i])
      ensures EqualFold(p.types[i], TypeName(Egress)) <==> NamesEgress(p.types[i])
    {
      IngressSpelled(p.types[i]);
      EgressSpelled(p.types[i]);
    }
    PlainSpelling();
    ingress, egress := false, false;
    if |p.types| > 0 {
      for i := 0 to |p.types|
        invariant ingress <==> exists j :: 0 <= j < i && EqualFold(p.types[j], TypeName(Ingress))
        invariant egress <==> exists j :: 0 <= j < i && EqualFold(p.types[j], TypeName(Egress))
      {
        if EqualFold(p.types[i], TypeName(Ingress)) {
          TypesDiffer(p.types[i]);
          ingress := true;
        } else if EqualFold(p.types[i], TypeName(Egress)) {
          egress := true;
        }
      }
      return;
    }
    return p.ingress.Some?, p.egress.Some?;
  }

  lemma PlainSpelling()
    ensures NamesIngress("Ingress") && NamesEgress("Egress")
  {
  }

  // --------------------------------------------------------------- networks

  function Qualified(ns: string, name: string): (q: string)
    ensures '/' in q
  {
    if '/' in name then name else
    var q := ns + "/" + name;
    assert q[|ns|] == '/';
    q
  }

  function AllQualified(ns: string, names: seq<string>): (qs: seq<string>)
    ensures |qs| == |names| && forall i :: 0 <= i < |names| ==> qs[i] == Qualified(ns, names[i])
  {
    seq(|names|, i requires 0 <= i < |names| => Qualified(ns, names[i]))
  }

  /** The networks an annotation names. */
  function Networks(ns: string, annotation: string): seq<string> {
    Sorted(AllQualified(ns, Split(NoSpaces(annotation), ',')))
  }

  /** Exactly the names between commas, spaces removed, with the namespace in front
      of those without a slash, in ascending order. */
  lemma NetworksSpelled(ns: string, annotation: string, net: string)
    ensures net in Networks(ns, annotation) <==>
            exists x :: Between(NoSpaces(annotation), ',', x) && net == if '/' in x then x else ns + "/" + x
    ensures var nets := Networks(ns, annotation); forall i, j :: 0 <= i < j < |nets| ==> Before(nets[i], nets[j])
  {
    hide Split, Sorted, NoSpaces, Between, AtMost, Before;
    var parts := Split(NoSpaces(annotation), ',');
    var qs := AllQualified(ns, parts);
    var nets := Sorted(qs);
    assert net in nets <==> net in qs by {
      assert net in multiset(nets) <==> net in multiset(qs);
    }
    if net in qs {
      var i :| 0 <= i < |qs| && qs[i] == net;
      SplitMembers(NoSpaces(annotation), ',', parts[i]);
      QualifiedIs(ns, parts[i]);
    }
    if x :| Between(NoSpaces(annotation), ',', x) && net == if '/' in x then x else ns + "/" + x {
      SplitMembers(NoSpaces(annotation), ',', x);
      var i :| 0 <= i < |parts| && parts[i] == x;
      QualifiedIs(ns, x);
      assert qs[i] == net;
    }
    SortedAscending(qs);
    forall i, j | 0 <= i < j < |nets| ensures Before(nets[i], nets[j]) {
      AtMostIsBefore(nets[i], nets[j]);
    }
  }

  /** The loop that rewrites the names in place. */
  method QualifyAll(ns: string, a: array<string>)
    modifies a
    ensures a[..] == AllQualified(ns, old(a[..]))
  {
    hide Qualified;
    for i := 0 to a.Length
      invariant forall j :: 0 <= j < i ==> a[j] == Qualified(ns, old(a[j]))
      invariant forall j :: i <= j < a.Length ==> a[j] == old(a[j])
    {
      QualifiedIs(ns, a[i]);
      if '/' !in a[i] {
        a[i] := ns + "/" + a[i];
      }
    }
  }

  lemma QualifiedIs(ns: string, name: string)
    ensures Qualified(ns, name) == if '/' in name then name else ns + "/" + name
  {
  }

  method ParseNetworks(ns: string, annotation: string) returns (nets: seq<string>)
    ensures nets == Networks(ns, annotation)
  {
    hide Qualified, Sorted, NoSpaces, Split;
    var names := Split(NoSpaces(annotation), ',');
    var a := new string[|names|](i requires 0 <= i < |names| => names[i]);
    assert a[..] == names;
    QualifyAll(ns, a);
    nets := Sorted(a[..]);
  }

  // --------------------------------------------------------------- selection

  function Spec(p: Policy): PolicySpec
    requires p.annotation.Some?
  {
    PolicySpec(p.key, Networks(p.key.ns, p.annotation.value), Rules(p.ingress), Rules(p.egress))
  }

  /** The policy is of the pod's namespace, selects it and names its networks. */
  predicate Applies(v: View, pod: Pod, ifs: seq<Iface>, p: Policy) {
    && p.key.ns == pod.ns
    && (p.selector.Some? ==> p.selector.value.valid && (p.selector.value.text, pod.labels) in v.matches)
    && p.annotation.Some? && AnyOn(ifs, Networks(p.key.ns, p.annotation.value))
  }

  predicate Chosen(v: View, pod: Pod, ifs: seq<Iface>, p: Policy, d: Dir) {
    Applies(v, pod, ifs, p) && Enabled(p, d)
  }

  /** "namespace/name", by which policies are sorted. */
  function FullName(k: PolicyKey): string {
    k.ns + "/" + k.name
  }

  ghost predicate InOrder(ps: seq<PolicySpec>) {
    forall i, j :: 0 <= i < j < |ps| ==> AtMost(FullName(ps[i].key), FullName(ps[j].key))
  }

  /** A stable insertion sort by name. */
  method SortPolicies(ps: seq<PolicySpec>) returns (r: seq<PolicySpec>)
    ensures multiset(r) == multiset(ps) && InOrder(r)
  {
    hide AtMost;
    r := [];
    for i := 0 to |ps|
      invariant multiset(r) == multiset(ps[..i]) && InOrder(r)
    {
      var k := |r|;
      while k > 0 && !AtMost(FullName(r[k - 1].key), FullName(ps[i].key))
        invariant 0 <= k <= |r|
        invariant forall j :: k <= j < |r| ==> !AtMost(FullName(r[j].key), FullName(ps[i].key))
      {
        k := k - 1;
      }
      assert ps[..i + 1] == ps[..i] + [ps[i]];
      InsertInOrder(r, k, ps[i]);
      r := r[..k] + [ps[i]] + r[k..];
    }
    assert ps[..|ps|] == ps;
  }

  lemma InsertInOrder(r: seq<PolicySpec>, k: nat, p: PolicySpec)
    requires k <= |r| && InOrder(r)
    requires k > 0 ==> AtMost(FullName(r[k - 1].key), FullName(p.key))
    requires forall j :: k <= j < |r| ==> !AtMost(FullName(r[j].key), FullName(p.key))
    ensures InOrder(r[..k] + [p] + r[k..]) && multiset(r[..k] + [p] + r[k..]) == multiset(r) + multiset{p}
  {
    hide AtMost, FullName;
    InsertMembers(r, k, p);
    forall j | 0 <= j < k ensures AtMost(FullName(r[j].key), FullName(p.key)) {
      if j < k - 1 {
        AtMostTransitive(FullName(r[j].key), FullName(r[k - 1].key), FullName(p.key));
      }
    }
    forall j | k <= j < |r| ensures AtMost(FullName(p.key), FullName(r[j].key)) {
      AtMostTotal(FullName(p.key), FullName(r[j].key));
    }
  }

  lemma InsertMembers(r: seq<PolicySpec>, k: nat, p: PolicySpec)
    requires k <= |r|
    ensures multiset(r[..k] + [p] + r[k..]) == multiset(r) + multiset{p}
  {
    assert r == r[..k] + r[k..];
  }

  /** The list holds exactly the specs of the chosen policies, in name order and
      without repetition. */
  ghost predicate IsSelection(ps: seq<PolicySpec>, policies: map<PolicyKey, Policy>, v: View, pod: Pod, ifs: seq<Iface>,
                              d: Dir) {
    && InOrder(ps) && DistinctKeys(ps)
    && forall x :: x in ps <==> IsChosen(x, policies.Keys, policies, v, pod, ifs, d)
  }

  ghost predicate IsChosen(x: PolicySpec, keys: set<PolicyKey>, policies: map<PolicyKey, Policy>, v: View, pod: Pod,
                           ifs: seq<Iface>, d: Dir) {
    exists k :: k in keys && k in policies && Chosen(v, pod, ifs, policies[k], d) && x == Spec(policies[k])
  }

  /** Policies are stored under their own names. */
  ghost predicate Keyed(policies: map<PolicyKey, Policy>) {
    forall k :: k in policies ==> policies[k].key == k
  }

  /** The specs collected so far are those chosen among the keys seen so far. */
  ghost predicate Collected(ps: seq<PolicySpec>, seen: seq<PolicyKey>, policies: map<PolicyKey, Policy>, v: View,
                            pod: Pod, ifs: seq<Iface>, d: Dir) {
    && DistinctKeys(ps)
    && (forall i :: 0 <= i < |ps| ==> ps[i].key in seen)
    && forall x :: x in ps <==> IsChosen(x, (set k | k in seen), policies, v, pod, ifs, d)
  }

  lemma CollectNext(ps: seq<PolicySpec>, seen: seq<PolicyKey>, policies: map<PolicyKey, Policy>, v: View, pod: Pod,
                    ifs: seq<Iface>, d: Dir, k: PolicyKey)
    requires Collected(ps, seen, policies, v, pod, ifs, d) && Keyed(policies) && k in policies && k !in seen
    ensures Collected(if Chosen(v, pod, ifs, policies[k], d) then ps + [Spec(policies[k])] else ps,
                      seen + [k], policies, v, pod, ifs, d)
  {
    hide Enabled, Networks, AnyOn;
    var on := Chosen(v, pod, ifs, policies[k], d);
    var ps' := if on then ps + [Spec(policies[k])] else ps;
    forall x ensures x in ps' <==> IsChosen(x, (set j | j in seen + [k]), policies, v, pod, ifs, d) {
      var a, b := set j | j in seen, set j | j in seen + [k];
      assert forall j :: j in b <==> j in a || j == k;
      assert IsChosen(x, b, policies, v, pod, ifs, d) <==>
             IsChosen(x, a, policies, v, pod, ifs, d) || (on && x == Spec(policies[k]));
    }
  }

  /** The loop over the policy map in some order, and the two sorts. */
  method SelectPolicies(policies: map<PolicyKey, Policy>, v: View, pod: Pod, ifs: seq<Iface>)
    returns (ingress: seq<PolicySpec>, egress: seq<PolicySpec>)
    requires Keyed(policies)
    ensures IsSelection(ingress, policies, v, pod, ifs, Ingress) && IsSelection(egress, policies, v, pod, ifs, Egress)
    ensures forall x :: x in ingress <==> ListedIn(x, policies, v, pod, ifs)
    ensures forall x :: x in egress <==> ListedOut(x, policies, v, pod, ifs)
    ensures NamesAscend(ingress) && NamesAscend(egress)
  {
    hide Collected, IsSelection, Networks, ListedIn, ListedOut, NamesAscend;
    ingress, egress := [], [];
    var keys := Enumerate(policies.Keys);
    NoneCollected(policies, v, pod, ifs);
    for i := 0 to |keys|
      invariant Collected(ingress, keys[..i], policies, v, pod, ifs, Ingress)
      invariant Collected(egress, keys[..i], policies, v, pod, ifs, Egress)
    {
      var p := policies[keys[i]];
      assert keys[i] in keys && keys[i] !in keys[..i] && keys[..i + 1] == keys[..i] + [keys[i]];
      CollectNext(ingress, keys[..i], policies, v, pod, ifs, Ingress, keys[i]);
      CollectNext(egress, keys[..i], policies, v, pod, ifs, Egress, keys[i]);
      if p.key.ns != pod.ns {
        continue;
      }
      if p.selector.Some? && (!p.selector.value.valid || (p.selector.value.text, pod.labels) !in v.matches) {
        continue;
      }
      var ingressOn, egressOn := GetEnabledPolicyTypes(p);
      hide Enabled;
      if p.annotation.None? {
        continue;
      }
      var nets := ParseNetworks(p.key.ns, p.annotation.value);
      if AnyOn(ifs, nets) {
        if ingressOn {
          ingress := ingress + [PolicySpec(p.key, nets, Rules(p.ingress), Rules(p.egress))];
        }
        if egressOn {
          egress := egress + [PolicySpec(p.key, nets, Rules(p.ingress), Rules(p.egress))];
        }
      }
    }
    assert keys[..|keys|] == keys;
    CollectedAll(ingress, keys, policies, v, pod, ifs, Ingress);
    CollectedAll(egress, keys, policies, v, pod, ifs, Egress);
    ingress := SortPolicies(ingress);
    egress := SortPolicies(egress);
    SelectionSpelled(ingress, egress, policies, v, pod, ifs);
  }

  lemma NoneCollected(policies: map<PolicyKey, Policy>, v: View, pod: Pod, ifs: seq<Iface>)
    ensures Collected([], [], policies, v, pod, ifs, Ingress) && Collected([], [], policies, v, pod, ifs, Egress)
  {
  }

  /** Sorting what was collected over all keys gives the selection. */
  lemma CollectedAll(ps: seq<PolicySpec>, keys: seq<PolicyKey>, policies: map<PolicyKey, Policy>, v: View, pod: Pod,
                     ifs: seq<Iface>, d: Dir)
    requires Collected(ps, keys, policies, v, pod, ifs, d) && forall k :: k in keys <==> k in policies.Keys
    ensures forall r :: multiset(r) == multiset(ps) && InOrder(r) ==> IsSelection(r, policies, v, pod, ifs, d)
  {
    hide Chosen, InOrder;
    assert (set k | k in keys) == policies.Keys;
    forall r | multiset(r) == multiset(ps) && InOrder(r) ensures IsSelection(r, policies, v, pod, ifs, d) {
      PermutedDistinct(ps, r);
      forall x ensures x in r <==> x in ps {
        assert x in r <==> x in multiset(r);
        assert x in ps <==> x in multiset(ps);
      }
    }
  }

  lemma PermutedDistinct(ps: seq<PolicySpec>, r: seq<PolicySpec>)
    requires DistinctKeys(ps) && multiset(r) == multiset(ps)
    ensures DistinctKeys(r)
  {
    forall i, j | 0 <= i < j < |r| ensures r[i].key != r[j].key {
      if r[i].key == r[j].key {
        assert r[i] in multiset(ps) && r[j] in multiset(ps);
        var a :| 0 <= a < |ps| && ps[a] == r[i];
        var b :| 0 <= b < |ps| && ps[b] == r[j];
        assert a == b;
        TwiceIn(r, i, j);
        OnceIn(ps, a);
      }
    }
  }

  lemma TwiceIn(r: seq<PolicySpec>, i: nat, j: nat)
    requires i < j < |r| && r[i] == r[j]
    ensures multiset(r)[r[i]] >= 2
  {
    assert r == r[..j] + [r[j]] + r[j + 1..];
    assert r[i] in r[..j];
  }

  lemma OnceIn(ps: seq<PolicySpec>, a: nat)
    requires DistinctKeys(ps) && a < |ps|
    ensures multiset(ps)[ps[a]] <= 1
  {
    var x, y := ps[..a], ps[a + 1..];
    assert ps == x + [ps[a]] + y;
    assert ps[a] !in x && ps[a] !in y;
  }

  // ------------------------------------------------------ selection spelled out

  /** Policy p applies to the pod and is listed as x. */
  ghost predicate Lists(p: Policy, x: PolicySpec, v: View, pod: Pod, ifs: seq<Iface>) {
    && p.key.ns == pod.ns
    && (p.selector.Some? ==> p.selector.value.valid && (p.selector.value.text, pod.labels) in v.matches)
    && p.annotation.Some? && x.key == p.key && x.nets == Networks(pod.ns, p.annotation.value)
    && (exists i :: 0 <= i < |ifs| && ifs[i].netattach in x.nets)
    && x.ingress == (if p.ingress.Some? then p.ingress.value else [])
    && x.egress == (if p.egress.Some? then p.egress.value else [])
  }

  /** It restricts ingress: some type names it, or there are no types and ingress
      rules are given. */
  ghost predicate ForIngress(p: Policy) {
    if p.types == [] then p.ingress.Some? else exists i :: 0 <= i < |p.types| && NamesIngress(p.types[i])
  }

  ghost predicate ForEgress(p: Policy) {
    if p.types == [] then p.egress.Some? else exists i :: 0 <= i < |p.types| && NamesEgress(p.types[i])
  }

  lemma EnabledSpelled(p: Policy)
    ensures Enabled(p, Ingress) <==> ForIngress(p)
    ensures Enabled(p, Egress) <==> ForEgress(p)
  {
    hide EqualFold, NamesIngress, NamesEgress;
    forall i | 0 <= i < |p.types|
      ensures EqualFold(p.types[i], TypeName(Ingress)) <==> NamesIngress(p.types[i])
      ensures EqualFold(p.types[i], TypeName(Egress)) <==> NamesEgress(p.types[i])
    {
      IngressSpelled(p.types[i]);
      EgressSpelled(p.types[i]);
    }
  }

  lemma ListsChosen(p: Policy, x: PolicySpec, v: View, pod: Pod, ifs: seq<Iface>)
    ensures Lists(p, x, v, pod, ifs) <==> Applies(v, pod, ifs, p) && x == Spec(p)
  {
    hide Networks;
  }

  ghost predicate ListedIn(x: PolicySpec, policies: map<PolicyKey, Policy>, v: View, pod: Pod, ifs: seq<Iface>) {
    exists k :: k in policies && Lists(policies[k], x, v, pod, ifs) && ForIngress(policies[k])
  }

  ghost predicate ListedOut(x: PolicySpec, policies: map<PolicyKey, Policy>, v: View, pod: Pod, ifs: seq<Iface>) {
    exists k :: k in policies && Lists(policies[k], x, v, pod, ifs) && ForEgress(policies[k])
  }

  /** Names ascend, character by character. */
  ghost predicate NamesAscend(ps: seq<PolicySpec>) {
    forall i, j :: 0 <= i < j < |ps| ==> ps[i].key.name != ps[j].key.name && Before(ps[i].key.name, ps[j].key.name)
  }

  lemma SelectionMembers(ps: seq<PolicySpec>, policies: map<PolicyKey, Policy>, v: View, pod: Pod, ifs: seq<Iface>,
                         d: Dir, x: PolicySpec)
    requires IsSelection(ps, policies, v, pod, ifs, d)
    ensures x in ps <==> if d == Ingress then ListedIn(x, policies, v, pod, ifs)
            else ListedOut(x, policies, v, pod, ifs)
  {
    hide InOrder, Enabled, ForIngress, ForEgress, Lists, Spec, DistinctKeys, AnyOn, Networks;
    forall k | k in policies
      ensures Lists(policies[k], x, v, pod, ifs) <==> Applies(v, pod, ifs, policies[k]) && x == Spec(policies[k])
      ensures Enabled(policies[k], Ingress) <==> ForIngress(policies[k])
      ensures Enabled(policies[k], Egress) <==> ForEgress(policies[k])
    {
      ListsChosen(policies[k], x, v, pod, ifs);
      EnabledSpelled(policies[k]);
    }
  }

  lemma SelectionAscends(ps: seq<PolicySpec>, policies: map<PolicyKey, Policy>, v: View, pod: Pod, ifs: seq<Iface>,
                         d: Dir)
    requires IsSelection(ps, policies, v, pod, ifs, d)
    ensures NamesAscend(ps) && forall i :: 0 <= i < |ps| ==> ps[i].key.ns == pod.ns
  {
    hide Networks, Enabled, AtMost, Before;
    forall i | 0 <= i < |ps| ensures ps[i].key.ns == pod.ns {
      assert ps[i] in ps;
      assert IsChosen(ps[i], policies.Keys, policies, v, pod, ifs, d);
    }
    forall i, j | 0 <= i < j < |ps| ensures ps[i].key.name != ps[j].key.name && Before(ps[i].key.name, ps[j].key.name) {
      assert ps[i].key != ps[j].key;
      AtMostBehind(pod.ns + "/", ps[i].key.name, ps[j].key.name);
      AtMostIsBefore(ps[i].key.name, ps[j].key.name);
    }
  }

  /** Both lists spelled out: exactly the policies of the pod's namespace that
      select it, name one of its networks and restrict the direction, once each
      and by name. */
  lemma SelectionSpelled(ingress: seq<PolicySpec>, egress: seq<PolicySpec>, policies: map<PolicyKey, Policy>, v: View,
                         pod: Pod, ifs: seq<Iface>)
    requires IsSelection(ingress, policies, v, pod, ifs, Ingress) && IsSelection(egress, policies, v, pod, ifs, Egress)
    ensures forall x :: x in ingress <==> ListedIn(x, policies, v, pod, ifs)
    ensures forall x :: x in egress <==> ListedOut(x, policies, v, pod, ifs)
    ensures NamesAscend(ingress) && NamesAscend(egress)
  {
    hide IsSelection, ListedIn, ListedOut, NamesAscend;
    forall x
      ensures x in ingress <==> ListedIn(x, policies, v, pod, ifs)
      ensures x in egress <==> ListedOut(x, policies, v, pod, ifs)
    {
      SelectionMembers(ingress, policies, v, pod, ifs, Ingress, x);
      SelectionMembers(egress, policies, v, pod, ifs, Egress, x);
    }
    SelectionAscends(ingress, policies, v, pod, ifs, Ingress);
    SelectionAscends(egress, policies, v, pod, ifs, Egress);
  }

  // ------------------------------------------------------------- determinism

  lemma FullNameWithin(a: PolicyKey, b: PolicyKey)
    requires a.ns == b.ns && FullName(a) == FullName(b)
    ensures a == b
  {
    assert FullName(a)[|a.ns| + 1..] == a.name && FullName(b)[|b.ns| + 1..] == b.name;
  }

  /** Lists of one namespace in name order without repetition that hold the same
      policies are the same list. */
  lemma {:induction false} SameList(ns: string, ps: seq<PolicySpec>, qs: seq<PolicySpec>)
    requires InOrder(ps) && DistinctKeys(ps) && InOrder(qs) && DistinctKeys(qs)
    requires forall x :: x in ps <==> x in qs
    requires forall x :: x in ps ==> x.key.ns == ns
    ensures ps == qs
  {
    BothEmpty(ps, qs);
    if ps != [] {
      var m, n := |ps| - 1, |qs| - 1;
      LastSame(ns, ps, qs);
      assert ps[m] == qs[n];
      SameInit(ps, qs);
      SameList(ns, ps[..m], qs[..n]);
      assert ps == ps[..m] + [ps[m]] && qs == qs[..n] + [qs[n]];
    }
  }

  lemma BothEmpty(ps: seq<PolicySpec>, qs: seq<PolicySpec>)
    requires forall x :: x in ps <==> x in qs
    ensures ps == [] <==> qs == []
  {
    if ps != [] {
      assert ps[0] in qs;
    }
    if qs != [] {
      assert qs[0] in ps;
    }
  }

  lemma LastSame(ns: string, ps: seq<PolicySpec>, qs: seq<PolicySpec>)
    requires ps != [] && qs != [] && InOrder(ps) && InOrder(qs) && DistinctKeys(ps)
    requires forall x :: x in ps <==> x in qs
    requires forall x :: x in ps ==> x.key.ns == ns
    ensures ps[|ps| - 1] == qs[|qs| - 1]
  {
    hide AtMost, FullName;
    var m, n := |ps| - 1, |qs| - 1;
    assert ps[m] in qs && qs[n] in ps;
    var i :| 0 <= i < |ps| && ps[i] == qs[n];
    var j :| 0 <= j < |qs| && qs[j] == ps[m];
    if i < m && j < n {
      AtMostAntisymmetric(FullName(ps[m].key), FullName(qs[n].key));
      FullNameWithin(ps[m].key, qs[n].key);
    }
  }

  lemma SameInit(ps: seq<PolicySpec>, qs: seq<PolicySpec>)
    requires ps != [] && qs != [] && DistinctKeys(ps) && DistinctKeys(qs) && ps[|ps| - 1] == qs[|qs| - 1]
    requires forall x :: x in ps <==> x in qs
    ensures var a, b := ps[..|ps| - 1], qs[..|qs| - 1]; forall x :: x in a <==> x in b
  {
    var m, n := |ps| - 1, |qs| - 1;
    forall x ensures x in ps[..m] <==> x in qs[..n] {
      assert x in ps <==> x in ps[..m] || x == ps[m];
      assert x in qs <==> x in qs[..n] || x == qs[n];
    }
  }

  /** The selection does not depend on the order of the policy map. */
  lemma SelectionDeterministic(ps: seq<PolicySpec>, qs: seq<PolicySpec>, policies: map<PolicyKey, Policy>, v: View,
                               pod: Pod, ifs: seq<Iface>, d: Dir)
    requires Keyed(policies) && IsSelection(ps, policies, v, pod, ifs, d) && IsSelection(qs, policies, v, pod, ifs, d)
    ensures ps == qs
  {
    hide InOrder, Networks, Enabled;
    forall x | x in ps ensures x.key.ns == pod.ns {
      assert IsChosen(x, policies.Keys, policies, v, pod, ifs, d);
    }
    SameList(pod.ns, ps, qs);
  }

  /** Selected policies have distinct names and an interface of the pod. */
  lemma SelectionFits(inp: Input, policies: map<PolicyKey, Policy>, pod: Pod)
    requires Keyed(policies)
    requires IsSelection(inp.ingress, policies, inp.view, pod, inp.ifs, Ingress)
    requires IsSelection(inp.egress, policies, inp.view, pod, inp.ifs, Egress)
    ensures DistinctPolicies(inp) && Selected(inp)
  {
    hide InOrder, Networks, Enabled;
    forall d: Dir, p | p in PoliciesFor(inp, d) ensures OnNetworks(inp.ifs, p.nets) != [] {
      assert IsSelection(PoliciesFor(inp, d), policies, inp.view, pod, inp.ifs, d);
      assert IsChosen(p, policies.Keys, policies, inp.view, pod, inp.ifs, d);
      var i :| 0 <= i < |inp.ifs| && inp.ifs[i].netattach in p.nets;
      OnNetworksMembers(inp.ifs, p.nets, inp.ifs[i]);
    }
  }
}
