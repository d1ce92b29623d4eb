/** A packet's way through an entry chain, read off its rules one by one: jumps
    of policies, mark checks, the common jump and the drop, in any order. */
module Travels {
  import opened Ids
  import opened Marks
  import opened Machine
  import opened Kernel
  import opened Reconcile
  import opened Policies
  import opened Compile
  import opened SetLayout
  import opened Effects
  import opened Walks
  import opened States
  import opened Entry
  import M = Meanings

  /** What the chain of a policy decides, and the number of its rules. */
  datatype Judged = Judged(x: Decision, rules: nat)

  /** A packet in one direction: whether the common chain accepts it, and what the
      chain of each policy decides. */
  datatype Scene = Scene(d: Dir, pkt: Packet, common: bool, judged: map<PolicyKey, Judged>)

  /** How far a packet has come: on its way with or without both bits, or done. */
  datatype Carry = Go(both: bool) | Stop(pass: bool)

  /** Whether both bits are set behind the chain of a policy that does not deny: a
      chain without rules leaves them, one with rules resets them. */
  function Carried(j: Judged, both: bool): bool {
    j.x.Allow? || (j.x.Next? && j.rules == 0 && both)
  }

  predicate JumpOf(r: Rule, k: PolicyKey) {
    r.comment.InterfaceJumpNote? && r.comment.key == k
  }

  predicate MarkOf(r: Rule, k: PolicyKey) {
    r.comment == PolicyMarkNote(k)
  }

  /** One rule: a jump on the packet's interface decides or sets and clears the
      bits, a check lets through whatever comes with both of them. */
  function Past(r: Rule, sc: Scene, both: bool): Carry {
    match r.comment
    case CommonJumpNote(_) => if sc.common then Stop(true) else Go(both)
    case InterfaceJumpNote(_, k, _, name, _) =>
      if name != IfOf(sc.d, sc.pkt) || k !in sc.judged then Go(both)
      else if sc.judged[k].x.Deny? then Stop(false)
      else Go(Carried(sc.judged[k], both))
    case PolicyMarkNote(_) => if both then Stop(true) else Go(false)
    case DropNote => Stop(false)
    case _ => Go(both)
  }

  /** The whole chain. */
  function Travel(s: seq<Rule>, sc: Scene, c: Carry): Carry {
    if s == [] then c
    else
      var c' := Travel(s[..|s| - 1], sc, c);
      if c'.Stop? then c' else Past(s[|s| - 1], sc, c'.both)
  }

  lemma {:induction false} TravelConcat(a: seq<Rule>, b: seq<Rule>, sc: Scene, c: Carry)
    ensures Travel(a + b, sc, c) == Travel(b, sc, Travel(a, sc, c))
  {
    hide Past;
    if b == [] {
      assert a + b == a;
    } else {
      var n := |b| - 1;
      assert (a + b)[..|a + b| - 1] == a + b[..n];
      TravelConcat(a, b[..n], sc, c);
    }
  }

  lemma {:induction false} TravelDone(s: seq<Rule>, sc: Scene, c: Carry)
    requires c.Stop?
    ensures Travel(s, sc, c) == c
  {
    if s != [] {
      TravelDone(s[..|s| - 1], sc, c);
    }
  }

  lemma TravelOne(r: Rule, sc: Scene, c: Carry)
    ensures Travel([r], sc, c) == if c.Stop? then c else Past(r, sc, c.both)
  {
    assert [r][..0] == [];
  }

  // -------------------------------------------------------- the walk follows it

  ghost predicate EntryRule(d: Dir, r: Rule) {
    r == CommonJump(d) || r == DropRest(d) || IsJump(d, r) || IsMark(d, r)
  }

  ghost predicate EntryOnly(d: Dir, s: seq<Rule>) {
    forall i :: 0 <= i < |s| ==> EntryRule(d, s[i])
  }

  /** Every jump leads to a policy that is judged. */
  ghost predicate AllJudged(s: seq<Rule>, sc: Scene) {
    forall i, k :: 0 <= i < |s| && JumpOf(s[i], k) ==> k in sc.judged
  }

  /** The common chain and the policy chains do what the scene says. */
  ghost predicate Acted(t: Table, sc: Scene) {
    && (forall m, n: nat ::
          Walk(t, sc.pkt, Rules(t, CommonChain(sc.d)), m, n) == Out(if sc.common then Accepted else Ended, m))
    && (forall k :: k in sc.judged ==>
          PolicyActs(t, sc.pkt, PolicyChain(sc.d, k), sc.judged[k].x, sc.judged[k].rules))
  }

  ghost predicate CarryOut(o: Out, c: Carry) {
    match c
    case Go(both) => o.fate.Ended? && (Both(o.mark) <==> both)
    case Stop(pass) => if pass then o.fate.Returned? || o.fate.Accepted? else o.fate.Dropped?
  }

  lemma AfterChain(w: Out, m: Mark, j: Judged)
    requires ChainOut(w, m, j.x, j.rules)
    ensures if j.x.Deny? then w.fate.Dropped?
            else (w.fate.Ended? || w.fate.Returned?) && (Both(w.mark) <==> Carried(j, Both(m)))
  {
    hide Both, Others;
  }

  lemma WalkIfaceRule(t: Table, sc: Scene, k: PolicyKey, i: Iface, m: Mark, depth: nat)
    requires depth > 1 && k in sc.judged
    requires PolicyActs(t, sc.pkt, PolicyChain(sc.d, k), sc.judged[k].x, sc.judged[k].rules)
    ensures CarryOut(Walk(t, sc.pkt, [IfaceJump(sc.d, k, i)], m, depth), Past(IfaceJump(sc.d, k, i), sc, Both(m)))
  {
    var d, pkt, j := sc.d, sc.pkt, sc.judged[k];
    EntryNotes(d, k, i);
    ExecIfaceJump(t, pkt, d, k, i, m);
    hide IfaceJump, Exec, Rules, Both, Others, Walk, ChainOut, Carried;
    var rs := [IfaceJump(d, k, i)];
    assert rs[1..] == [];
    if i.name == IfOf(d, pkt) {
      WalkJump(t, pkt, rs, PolicyChain(d, k), m, depth);
      var w := Walk(t, pkt, Rules(t, PolicyChain(d, k)), m, depth - 1);
      AfterChain(w, m, j);
      WalkNone(t, pkt, w.mark, depth);
    } else {
      WalkStep(t, pkt, rs, m, depth);
      WalkNone(t, pkt, m, depth);
    }
  }

  lemma WalkCheck(t: Table, sc: Scene, k: PolicyKey, m: Mark, depth: nat)
    ensures CarryOut(Walk(t, sc.pkt, [PolicyMark(sc.d, k)], m, depth), Past(PolicyMark(sc.d, k), sc, Both(m)))
  {
    EntryNotes(sc.d, k, Iface("", "", "", []));
    ExecChecks(t, sc.pkt, sc.d, k, 0, m);
    hide PolicyMark, Exec, Rules, Both, Walk;
    var a := [PolicyMark(sc.d, k)];
    assert a[1..] == [];
    WalkStep(t, sc.pkt, a, m, depth);
    WalkNone(t, sc.pkt, m, depth);
  }

  lemma WalkDrop(t: Table, sc: Scene, m: Mark, depth: nat)
    ensures CarryOut(Walk(t, sc.pkt, [DropRest(sc.d)], m, depth), Past(DropRest(sc.d), sc, Both(m)))
  {
    EntryNotes(sc.d, PolicyKey("", ""), Iface("", "", "", []));
    ExecJumps(t, sc.pkt, sc.d, PolicyKey("", ""), CommonChain(sc.d), m);
    hide DropRest, Exec, Rules, Both, Walk;
    var a := [DropRest(sc.d)];
    WalkStep(t, sc.pkt, a, m, depth);
  }

  lemma WalkCommon(t: Table, sc: Scene, m: Mark, depth: nat)
    requires depth > 0
    requires Walk(t, sc.pkt, Rules(t, CommonChain(sc.d)), m, depth - 1) == Out(if sc.common then Accepted else Ended, m)
    ensures CarryOut(Walk(t, sc.pkt, [CommonJump(sc.d)], m, depth), Past(CommonJump(sc.d), sc, Both(m)))
  {
    EntryNotes(sc.d, PolicyKey("", ""), Iface("", "", "", []));
    ExecJumps(t, sc.pkt, sc.d, PolicyKey("", ""), CommonChain(sc.d), m);
    hide CommonJump, Exec, Rules, Both, Walk;
    var a := [CommonJump(sc.d)];
    assert a[1..] == [];
    WalkJump(t, sc.pkt, a, CommonChain(sc.d), m, depth);
    WalkNone(t, sc.pkt, m, depth);
  }

  lemma WalkPast(t: Table, sc: Scene, r: Rule, m: Mark, depth: nat)
    requires depth > 1 && Acted(t, sc) && EntryRule(sc.d, r) && forall k :: JumpOf(r, k) ==> k in sc.judged
    ensures CarryOut(Walk(t, sc.pkt, [r], m, depth), Past(r, sc, Both(m)))
  {
    hide IfaceJump, PolicyMark, CommonJump, DropRest, Past, CarryOut, Walk, PolicyActs, Both, Rules;
    if IsJump(sc.d, r) {
      var k, i :| r == IfaceJump(sc.d, k, i);
      EntryNotes(sc.d, k, i);
      assert JumpOf(r, k);
      WalkIfaceRule(t, sc, k, i, m, depth);
    } else if IsMark(sc.d, r) {
      var k :| r == PolicyMark(sc.d, k);
      WalkCheck(t, sc, k, m, depth);
    } else if r == DropRest(sc.d) {
      WalkDrop(t, sc, m, depth);
    } else {
      WalkCommon(t, sc, m, depth);
    }
  }

  /** The walk through an entry chain ends as the chain reads. */
  lemma {:induction false} WalkTravel(t: Table, sc: Scene, s: seq<Rule>, m: Mark, depth: nat)
    requires depth > 1 && Acted(t, sc) && EntryOnly(sc.d, s) && AllJudged(s, sc)
    ensures CarryOut(Walk(t, sc.pkt, s, m, depth), Travel(s, sc, Go(Both(m))))
  {
    hide Past, Walk, Acted, Both, EntryRule;
    if s == [] {
      WalkNone(t, sc.pkt, m, depth);
    } else {
      var init, r := s[..|s| - 1], s[|s| - 1];
      WalkTravel(t, sc, init, m, depth);
      WalkConcat(t, sc.pkt, init, [r], m, depth);
      assert init + [r] == s;
      var o := Walk(t, sc.pkt, init, m, depth);
      if o.fate.Ended? {
        WalkPast(t, sc, r, o.mark, depth);
      }
    }
  }

  /** The exact verdict of any entry chain: a packet on a pod interface is dropped
      exactly when the chain, read rule by rule, says so. */
  lemma TravelVerdict(t: Table, sc: Scene, m: Mark)
    requires Shape(Chain(t, BaseChain(HookOf(sc.d)))) == [InterfaceFilter(sc.d)] && Acted(t, sc)
    requires EntryOnly(sc.d, Shape(Chain(t, EntryChain(sc.d)))) && AllJudged(Shape(Chain(t, EntryChain(sc.d))), sc)
    ensures Admits(t, sc.pkt, HookOf(sc.d), m) <==>
            || !InSet(t, PodInterfaces, Name(IfOf(sc.d, sc.pkt)))
            || Travel(Shape(Chain(t, EntryChain(sc.d))), sc, Go(Both(m))) != Stop(false)
  {
    hide Walk, Acted, Both, EntryRule, InterfaceFilter, InSet, Travel, Shape, Rules;
    BaseWalk(t, sc.pkt, sc.d, m);
    ShapeWalk(t, sc.pkt, EntryChain(sc.d), m, JUMP_STACK - 1);
    WalkTravel(t, sc, Shape(Chain(t, EntryChain(sc.d))), m, JUMP_STACK - 1);
  }

  // ------------------------------------------------------------ reading a chain

  /** A jump on the packet's interface to a policy that allows it. */
  predicate LetsIn(r: Rule, sc: Scene) {
    && r.comment.InterfaceJumpNote? && r.comment.iface == IfOf(sc.d, sc.pkt)
    && r.comment.key in sc.judged && sc.judged[r.comment.key].x.Allow?
  }

  /** Jumps and checks only. */
  predicate Inner(s: seq<Rule>) {
    forall i :: 0 <= i < |s| ==> s[i].comment.InterfaceJumpNote? || s[i].comment.PolicyMarkNote?
  }

  predicate NoneDenied(sc: Scene) {
    forall k :: k in sc.judged ==> !sc.judged[k].x.Deny?
  }

  /** Bits are carried, and packets let through, only behind a jump to a policy
      that allows the packet. */
  lemma {:induction false} TravelAllows(s: seq<Rule>, sc: Scene)
    requires Inner(s) && Travel(s, sc, Go(false)) in {Go(true), Stop(true)}
    ensures exists a :: 0 <= a < |s| && LetsIn(s[a], sc)
  {
    var n := |s| - 1;
    var c := Travel(s[..n], sc, Go(false));
    if c in {Go(true), Stop(true)} {
      TravelAllows(s[..n], sc);
      var a :| 0 <= a < n && LetsIn(s[..n][a], sc);
      assert s[a] == s[..n][a];
    } else {
      assert LetsIn(s[n], sc);
    }
  }

  lemma {:induction false} TravelNoDeny(s: seq<Rule>, sc: Scene, b: bool)
    requires Inner(s) && NoneDenied(sc)
    ensures Travel(s, sc, Go(b)) != Stop(false)
  {
    if s != [] {
      TravelNoDeny(s[..|s| - 1], sc, b);
    }
  }

  /** Behind such a jump only further jumps of its policy keep the bits. */
  lemma {:induction false} TravelHolds(s: seq<Rule>, sc: Scene, c: Carry, a: nat, b: nat)
    requires a < b <= |s| && LetsIn(s[a], sc) && Travel(s[..a], sc, c).Go?
    requires forall i :: a < i < b ==> JumpOf(s[i], s[a].comment.key)
    ensures Travel(s[..b], sc, c) == Go(true)
  {
    assert s[..b][..b - 1] == s[..b - 1];
    if a < b - 1 {
      TravelHolds(s, sc, c, a, b - 1);
      assert JumpOf(s[b - 1], s[a].comment.key);
    }
  }

  lemma TravelStays(s: seq<Rule>, sc: Scene, c: Carry, i: nat)
    requires i <= |s| && Travel(s[..i], sc, c).Stop?
    ensures Travel(s, sc, c) == Travel(s[..i], sc, c)
  {
    hide Travel;
    TravelConcat(s[..i], s[i..], sc, c);
    TravelDone(s[i..], sc, Travel(s[..i], sc, c));
    assert s[..i] + s[i..] == s;
  }

  lemma TravelCheck(s: seq<Rule>, sc: Scene, c: Carry, b: nat, k: PolicyKey)
    requires b < |s| && MarkOf(s[b], k) && Travel(s[..b], sc, c) == Go(true)
    ensures Travel(s[..b + 1], sc, c) == Stop(true)
  {
    assert s[..b + 1][..b] == s[..b];
  }

  /** With the check of the policy behind them the packet gets through. */
  lemma TravelReaches(s: seq<Rule>, sc: Scene, both: bool, a: nat, b: nat)
    requires Inner(s) && NoneDenied(sc) && a < b < |s| && LetsIn(s[a], sc) && MarkOf(s[b], s[a].comment.key)
    requires forall i :: a < i < b ==> JumpOf(s[i], s[a].comment.key)
    ensures Travel(s, sc, Go(both)) == Stop(true)
  {
    hide Travel, NoneDenied, JumpOf, MarkOf, LetsIn;
    var c := Go(both);
    TravelNoDeny(s[..a], sc, both);
    if Travel(s[..a], sc, c).Go? {
      assert s[a].comment.InterfaceJumpNote? by { LetsInJump(s[a], sc); }
      TravelHolds(s, sc, c, a, b);
      TravelCheck(s, sc, c, b, s[a].comment.key);
      TravelStays(s, sc, c, b + 1);
    } else {
      TravelStays(s, sc, c, a);
    }
  }

  lemma LetsInJump(r: Rule, sc: Scene)
    requires LetsIn(r, sc)
    ensures r.comment.InterfaceJumpNote?
  {
  }

  /** A chain of the form: the common jump, the middle, and perhaps the drop. */
  lemma TravelForm(mid: seq<Rule>, drop: bool, sc: Scene, both: bool)
    ensures var c := Travel(mid, sc, Go(both));
            Travel(Form(sc.d, mid, drop), sc, Go(both)) ==
            if sc.common then Stop(true) else if c.Go? && drop then Stop(false) else c
  {
    EntryNotes(sc.d, PolicyKey("", ""), Iface("", "", "", []));
    hide CommonJump, DropRest, Travel;
    var head, last := [CommonJump(sc.d)], [DropRest(sc.d)];
    var c := Travel(head, sc, Go(both));
    TravelOne(CommonJump(sc.d), sc, Go(both));
    TravelConcat(head, mid, sc, Go(both));
    if drop {
      TravelConcat(head + mid, last, sc, Go(both));
      TravelOne(DropRest(sc.d), sc, Travel(head + mid, sc, Go(both)));
    } else {
      assert head + mid + [] == head + mid;
    }
    if sc.common {
      TravelDone(mid, sc, c);
    }
  }
}
