/** Entry chains in which surviving policies have gained interfaces: a gained jump
    is appended behind the check of its policy.  What every pass keeps of such
    chains, and exactly when all jumps stand in front of their checks. */
module Gains {
  import opened Ids
  import opened Machine
  import opened Identity
  import opened Kernel
  import opened Reconcile
  import opened Flush
  import opened Cleanup
  import opened Policies
  import opened Compile
  import opened Requests
  import opened Layout
  import opened SetLayout
  import opened Passes
  import opened Walks
  import opened Targets
  import opened States
  import opened Entry
  import opened Runs
  import opened Blocks
  import opened Travels

  // -------------------------------------------------------- rules by comment

  /** Every interface jump has the mark check of its policy behind it. */
  ghost predicate Guarded(s: seq<Rule>) {
    forall a: nat, k :: a < |s| && JumpOf(s[a], k) ==> CheckBehind(s, a, k)
  }

  ghost predicate CheckBehind(s: seq<Rule>, a: nat, k: PolicyKey) {
    exists b :: a < b < |s| && MarkOf(s[b], k)
  }

  /** Between a jump and a check of its policy stand only jumps of that policy. */
  ghost predicate Tight(s: seq<Rule>) {
    forall a, b, c, k :: 0 <= a < c < b < |s| && JumpOf(s[a], k) && MarkOf(s[b], k) ==> JumpOf(s[c], k)
  }

  lemma ByComment(d: Dir, r: Rule, k: PolicyKey)
    requires EntryRule(d, r)
    ensures JumpOf(r, k) <==> exists i :: r == IfaceJump(d, k, i)
    ensures MarkOf(r, k) <==> r == PolicyMark(d, k)
  {
    hide IfaceJump, PolicyMark, CommonJump, DropRest;
    EntryNotes(d, k, Iface("", "", "", []));
    if k', i :| r == IfaceJump(d, k', i) {
      EntryNotes(d, k', i);
    } else if k' :| r == PolicyMark(d, k') {
      EntryNotes(d, k', Iface("", "", "", []));
    }
    if i :| r == IfaceJump(d, k, i) {
      EntryNotes(d, k, i);
    }
  }

  lemma FormOnly(d: Dir, mid: seq<Rule>, drop: bool)
    requires Middle(d, mid)
    ensures EntryOnly(d, Form(d, mid, drop)) && EntryOnly(d, mid)
  {
    hide IfaceJump, PolicyMark, CommonJump, DropRest, IsJump, IsMark;
  }

  /** The ends of a form are neither jumps nor checks. */
  lemma FormEnds(d: Dir, k: PolicyKey)
    ensures !JumpOf(CommonJump(d), k) && !MarkOf(CommonJump(d), k)
    ensures !JumpOf(DropRest(d), k) && !MarkOf(DropRest(d), k)
  {
    EntryNotes(d, k, Iface("", "", "", []));
  }

  /** A part of a chain, in order, is as tight as the chain. */
  lemma TightPart(s: seq<Rule>, l: seq<Rule>, f: seq<nat>)
    requires Tight(s) && |f| == |l| && forall i :: 0 <= i < |l| ==> f[i] < |s| && l[i] == s[f[i]]
    requires forall i, j :: 0 <= i < j < |f| ==> f[i] < f[j]
    ensures Tight(l)
  {
    hide JumpOf, MarkOf;
    forall a, b, c, k | 0 <= a < c < b < |l| && JumpOf(l[a], k) && MarkOf(l[b], k) ensures JumpOf(l[c], k) {
      assert f[a] < f[c] < f[b];
      assert JumpOf(s[f[a]], k) && MarkOf(s[f[b]], k);
    }
  }

  lemma TightJoin(x: seq<Rule>, y: seq<Rule>)
    requires Tight(x) && Tight(y)
    requires forall i, j, k :: 0 <= i < |x| && 0 <= j < |y| && JumpOf(x[i], k) ==> !MarkOf(y[j], k)
    ensures Tight(x + y)
  {
    hide JumpOf, MarkOf;
    var s := x + y;
    forall a, b, c, k | 0 <= a < c < b < |s| && JumpOf(s[a], k) && MarkOf(s[b], k) ensures JumpOf(s[c], k) {
      assert a < |x| ==> b < |x|;
      if b < |x| {
        assert s[a] == x[a] && s[b] == x[b] && s[c] == x[c];
      } else {
        assert s[a] == y[a - |x|] && s[b] == y[b - |x|] && s[c] == y[c - |x|];
      }
    }
  }

  lemma TightForm(d: Dir, mid: seq<Rule>, drop: bool)
    ensures Tight(Form(d, mid, drop)) <==> Tight(mid)
  {
    hide CommonJump, DropRest, JumpOf, MarkOf, Tight;
    var s, head, last := Form(d, mid, drop), [CommonJump(d)], if drop then [DropRest(d)] else [];
    forall k ensures !JumpOf(CommonJump(d), k) && !MarkOf(DropRest(d), k) {
      FormEnds(d, k);
    }
    if Tight(s) {
      TightPart(s, mid, seq(|mid|, i requires 0 <= i < |mid| => i + 1));
    }
    if Tight(mid) {
      TightShort(head);
      TightShort(last);
      TightJoin(head, mid);
      TightJoin(head + mid, last);
    }
  }

  lemma TightShort(s: seq<Rule>)
    requires |s| <= 1
    ensures Tight(s)
  {
  }

  // ------------------------------------------------------ positions of survivors

  /** Where the kept rules of a chain come from. */
  ghost function Places(s: seq<Rule>, p: seq<Req>): seq<nat> {
    if s == [] then [] else Places(s[..|s| - 1], p) + if Wanted(s[|s| - 1], p) then [|s| - 1] else []
  }

  lemma {:induction false} PlacesAre(s: seq<Rule>, p: seq<Req>)
    ensures var f := Places(s, p);
            |f| == |Keep(s, p)| && forall i :: 0 <= i < |f| ==>
            f[i] < |s| && Keep(s, p)[i] == s[f[i]] && Wanted(s[f[i]], p)
  {
    hide Wanted;
    if s != [] {
      PlacesAre(s[..|s| - 1], p);
    }
  }

  /** In order. */
  lemma {:induction false} PlacesRise(s: seq<Rule>, p: seq<Req>)
    ensures var f := Places(s, p); forall i, j :: 0 <= i < j < |f| ==> f[i] < f[j]
  {
    hide Wanted, Keep;
    if s != [] {
      PlacesRise(s[..|s| - 1], p);
      PlacesAre(s[..|s| - 1], p);
    }
  }

  lemma {:induction false} PlacesAll(s: seq<Rule>, p: seq<Req>, i: nat)
    requires i < |s| && Wanted(s[i], p)
    ensures i in Places(s, p)
  {
    hide Wanted;
    if i < |s| - 1 {
      PlacesAll(s[..|s| - 1], p, i);
    }
  }

  lemma KeepTight(s: seq<Rule>, p: seq<Req>)
    requires Tight(s)
    ensures Tight(Keep(s, p))
  {
    hide Keep, Wanted, Tight, Places;
    PlacesAre(s, p);
    PlacesRise(s, p);
    TightPart(s, Keep(s, p), Places(s, p));
  }

  /** Kept jumps have a kept check behind them iff they had one in the chain. */
  lemma KeepGuarded(s: seq<Rule>, p: seq<Req>)
    ensures Guarded(Keep(s, p)) <==>
            forall a: nat, k :: a < |s| && JumpOf(s[a], k) && Wanted(s[a], p) ==> WantedBehind(s, a, k, p)
  {
    hide JumpOf, MarkOf, Keep, Wanted, Places;
    var l, f := Keep(s, p), Places(s, p);
    PlacesAre(s, p);
    PlacesRise(s, p);
    if Guarded(l) {
      forall a: nat, k | a < |s| && JumpOf(s[a], k) && Wanted(s[a], p) ensures WantedBehind(s, a, k, p) {
        PlacesAll(s, p, a);
        var i :| 0 <= i < |f| && f[i] == a;
        assert JumpOf(l[i], k);
        var j :| i < j < |l| && MarkOf(l[j], k);
        assert f[i] < f[j] && MarkOf(s[f[j]], k);
      }
    }
    if forall a: nat, k :: a < |s| && JumpOf(s[a], k) && Wanted(s[a], p) ==> WantedBehind(s, a, k, p) {
      forall i: nat, k | i < |l| && JumpOf(l[i], k) ensures CheckBehind(l, i, k) {
        assert JumpOf(s[f[i]], k) && Wanted(s[f[i]], p);
        var b: nat :| f[i] < b < |s| && MarkOf(s[b], k) && Wanted(s[b], p);
        PlacesAll(s, p, b);
        var j :| 0 <= j < |f| && f[j] == b;
        assert i < j;
        assert MarkOf(l[j], k);
      }
    }
  }

  ghost predicate WantedBehind(s: seq<Rule>, a: nat, k: PolicyKey, p: seq<Req>) {
    exists b: nat :: a < b < |s| && MarkOf(s[b], k) && Wanted(s[b], p)
  }

  // ------------------------------------------------------- what a pass appends

  ghost function NewIfs(d: Dir, k: PolicyKey, ifs: seq<Iface>, s: seq<Rule>): seq<Iface> {
    if ifs == [] then []
    else NewIfs(d, k, ifs[..|ifs| - 1], s) + if IfaceJump(d, k, ifs[|ifs| - 1]) in s then [] else [ifs[|ifs| - 1]]
  }

  lemma {:induction false} NewIfsMembers(d: Dir, k: PolicyKey, ifs: seq<Iface>, s: seq<Rule>, i: Iface)
    ensures i in NewIfs(d, k, ifs, s) <==> i in ifs && IfaceJump(d, k, i) !in s
  {
    hide IfaceJump;
    if ifs != [] {
      NewIfsMembers(d, k, ifs[..|ifs| - 1], s, i);
    }
  }

  lemma {:induction false} NewJumps(d: Dir, k: PolicyKey, ifs: seq<Iface>, s: seq<Rule>)
    ensures AllRules(IfaceReqs(d, k, ifs)) && NewApp(IfaceReqs(d, k, ifs), s) == Jumps(d, k, NewIfs(d, k, ifs, s))
  {
    hide IfaceJump;
    if ifs != [] {
      var n := |ifs| - 1;
      NewJumps(d, k, ifs[..n], s);
      NewAppConcat(IfaceReqs(d, k, ifs[..n]), [Add(IfaceJump(d, k, ifs[n]))], s);
      NewOne(Add(IfaceJump(d, k, ifs[n])), s);
      var l := NewIfs(d, k, ifs[..n], s);
      JumpsSnoc(d, k, l, ifs[n]);
      assert l + [] == l;
    }
  }

  /** The interfaces of a policy that are not installed yet. */
  ghost function Gained(inp: Input, p: PolicySpec, d: Dir, s: seq<Rule>): seq<Iface> {
    NewIfs(d, p.key, OnNetworks(inp.ifs, p.nets), s)
  }

  /** What a pass appends for one policy: the missing jumps, and the mark check
      unless that is installed. */
  ghost function More(inp: Input, p: PolicySpec, d: Dir, s: seq<Rule>): seq<Rule> {
    Jumps(d, p.key, Gained(inp, p, d, s)) + if PolicyMark(d, p.key) in s then [] else [PolicyMark(d, p.key)]
  }

  ghost function MoreAll(inp: Input, ps: seq<PolicySpec>, d: Dir, s: seq<Rule>): seq<Rule> {
    if ps == [] then [] else MoreAll(inp, ps[..|ps| - 1], d, s) + More(inp, ps[|ps| - 1], d, s)
  }

  lemma NewMore(inp: Input, p: PolicySpec, d: Dir, s: seq<Rule>)
    ensures AllRules(BlockReqsOf(inp, p, d)) && NewApp(BlockReqsOf(inp, p, d), s) == More(inp, p, d, s)
  {
    hide PolicyMark, OnNetworks, IfaceReqs, Jumps, NewIfs, NewApp;
    var on := OnNetworks(inp.ifs, p.nets);
    NewJumps(d, p.key, on, s);
    NewOne(Add(PolicyMark(d, p.key)), s);
    NewAppConcat(IfaceReqs(d, p.key, on), [Add(PolicyMark(d, p.key))], s);
  }

  lemma {:induction false} NewMoreAll(inp: Input, ps: seq<PolicySpec>, d: Dir, s: seq<Rule>)
    ensures AllRules(EntryReqs(inp, ps, d)) && NewApp(EntryReqs(inp, ps, d), s) == MoreAll(inp, ps, d, s)
  {
    hide BlockReqsOf, More, NewApp;
    if ps == [] {
      NoneNew([], s);
    } else {
      var n := |ps| - 1;
      NewMoreAll(inp, ps[..n], d, s);
      NewMore(inp, ps[n], d, s);
      NewAppConcat(EntryReqs(inp, ps[..n], d), BlockReqsOf(inp, ps[n], d), s);
    }
  }

  ghost predicate AllJumps(s: seq<Rule>, k: PolicyKey, q: PolicyKey) {
    forall i :: 0 <= i < |s| ==> (JumpOf(s[i], q) <==> q == k) && !MarkOf(s[i], q)
  }

  lemma {:induction false} JumpsNotes(d: Dir, k: PolicyKey, ifs: seq<Iface>, q: PolicyKey)
    ensures AllJumps(Jumps(d, k, ifs), k, q)
  {
    hide IfaceJump;
    if ifs != [] {
      var n := |ifs| - 1;
      JumpsNotes(d, k, ifs[..n], q);
      EntryNotes(d, k, ifs[n]);
      var x, s := Jumps(d, k, ifs[..n]), Jumps(d, k, ifs);
      forall i | 0 <= i < |s| ensures (JumpOf(s[i], q) <==> q == k) && !MarkOf(s[i], q) {
        if i < |x| {
          assert s[i] == x[i];
        } else {
          assert s[i] == IfaceJump(d, k, ifs[n]);
        }
      }
    }
  }

  /** Jumps of policy k with perhaps its check behind them; none of policy q. */
  ghost predicate OwnRules(l: seq<Rule>, k: PolicyKey, q: PolicyKey) {
    && (forall i :: 0 <= i < |l| && q != k ==> !JumpOf(l[i], q) && !MarkOf(l[i], q))
    && (forall i :: 0 <= i < |l| - 1 ==> JumpOf(l[i], k))
  }

  lemma MoreNotes(inp: Input, p: PolicySpec, d: Dir, s: seq<Rule>, q: PolicyKey)
    ensures OwnRules(More(inp, p, d, s), p.key, q)
    ensures PolicyMark(d, p.key) !in s ==>
              More(inp, p, d, s) != [] && MarkOf(More(inp, p, d, s)[|More(inp, p, d, s)| - 1], p.key)
  {
    hide PolicyMark, Jumps, Gained;
    var x, l := Jumps(d, p.key, Gained(inp, p, d, s)), More(inp, p, d, s);
    JumpsNotes(d, p.key, Gained(inp, p, d, s), q);
    JumpsNotes(d, p.key, Gained(inp, p, d, s), p.key);
    EntryNotes(d, p.key, Iface("", "", "", []));
    forall i | 0 <= i < |l|
      ensures (q != p.key ==> !JumpOf(l[i], q) && !MarkOf(l[i], q)) && (i < |l| - 1 ==> JumpOf(l[i], p.key))
    {
      if i < |x| {
        assert l[i] == x[i];
      } else {
        assert l[i] == PolicyMark(d, p.key);
      }
    }
  }

  lemma MoreTight(inp: Input, p: PolicySpec, d: Dir, s: seq<Rule>)
    ensures Tight(More(inp, p, d, s))
  {
    hide JumpOf, MarkOf, More;
    var l := More(inp, p, d, s);
    MoreNotes(inp, p, d, s, p.key);
    forall a, b, c, k | 0 <= a < c < b < |l| && JumpOf(l[a], k) && MarkOf(l[b], k) ensures JumpOf(l[c], k) {
      MoreNotes(inp, p, d, s, k);
    }
  }

  ghost predicate NothingOf(l: seq<Rule>, k: PolicyKey) {
    forall i :: 0 <= i < |l| ==> !JumpOf(l[i], k) && !MarkOf(l[i], k)
  }

  lemma {:induction false} MoreAllNotes(inp: Input, ps: seq<PolicySpec>, d: Dir, s: seq<Rule>, k: PolicyKey)
    requires forall i :: 0 <= i < |ps| ==> ps[i].key != k
    ensures NothingOf(MoreAll(inp, ps, d, s), k)
  {
    hide JumpOf, MarkOf, More;
    if ps != [] {
      var n := |ps| - 1;
      MoreAllNotes(inp, ps[..n], d, s, k);
      MoreNotes(inp, ps[n], d, s, k);
      var x, y, l := MoreAll(inp, ps[..n], d, s), More(inp, ps[n], d, s), MoreAll(inp, ps, d, s);
      forall i | 0 <= i < |l| ensures !JumpOf(l[i], k) && !MarkOf(l[i], k) {
        if i < |x| {
          assert l[i] == x[i];
        } else {
          assert l[i] == y[i - |x|];
        }
      }
    }
  }

  /** What a pass appends is tight. */
  lemma {:induction false} MoreAllTight(inp: Input, ps: seq<PolicySpec>, d: Dir, s: seq<Rule>)
    requires DistinctKeys(ps)
    ensures Tight(MoreAll(inp, ps, d, s))
  {
    hide JumpOf, MarkOf, More, Tight;
    if ps == [] {
      TightShort([]);
    } else {
      var n := |ps| - 1;
      var x, y := MoreAll(inp, ps[..n], d, s), More(inp, ps[n], d, s);
      MoreAllTight(inp, ps[..n], d, s);
      MoreTight(inp, ps[n], d, s);
      MoreAllNotes(inp, ps[..n], d, s, ps[n].key);
      forall i, j, k | 0 <= i < |x| && 0 <= j < |y| && JumpOf(x[i], k) ensures !MarkOf(y[j], k) {
        MoreNotes(inp, ps[n], d, s, k);
      }
      TightJoin(x, y);
    }
  }

  /** The appended jumps of a policy without an installed check have one behind. */
  lemma {:induction false} MoreAllGuarded(inp: Input, ps: seq<PolicySpec>, d: Dir, s: seq<Rule>, a: nat, k: PolicyKey)
    requires a < |MoreAll(inp, ps, d, s)| && JumpOf(MoreAll(inp, ps, d, s)[a], k) && PolicyMark(d, k) !in s
    ensures CheckBehind(MoreAll(inp, ps, d, s), a, k)
  {
    hide JumpOf, MarkOf, More, PolicyMark;
    var n := |ps| - 1;
    var x, y := MoreAll(inp, ps[..n], d, s), More(inp, ps[n], d, s);
    if a < |x| {
      MoreAllGuarded(inp, ps[..n], d, s, a, k);
      var b :| a < b < |x| && MarkOf(x[b], k);
      assert (x + y)[b] == x[b];
    } else {
      assert JumpOf(y[a - |x|], k);
      MoreNotes(inp, ps[n], d, s, k);
      var last := y[|y| - 1];
      assert MarkOf((x + y)[|x| + |y| - 1], k);
      if a == |x| + |y| - 1 {
        JumpNoMark(last, k);
      }
    }
  }

  lemma JumpNoMark(r: Rule, k: PolicyKey)
    ensures !(JumpOf(r, k) && MarkOf(r, k))
  {
  }

  // -------------------------------------------------------- the chain at a stage

  /** An entry chain without its ends. */
  ghost function MiddleOf(d: Dir, s: seq<Rule>): seq<Rule> {
    if s == [] then []
    else if s[|s| - 1] == DropRest(d) && |s| > 1 then s[1..|s| - 1]
    else s[1..]
  }

  lemma MiddleForm(d: Dir, mid: seq<Rule>, drop: bool)
    requires Middle(d, mid)
    ensures MiddleOf(d, Form(d, mid, drop)) == mid
  {
    MiddleApart(d, mid);
    EntryNotes(d, PolicyKey("", ""), Iface("", "", "", []));
    hide CommonJump, DropRest, Middle;
    var s := Form(d, mid, drop);
    if !drop && mid != [] {
      assert s[|s| - 1] == mid[|mid| - 1];
    }
  }

  lemma AddedIsMore(inp: Input, d: Dir, s: seq<Rule>)
    ensures Added(inp, d, s) == MoreAll(inp, PoliciesFor(inp, d), d, s)
  {
    NewMoreAll(inp, PoliciesFor(inp, d), d, s);
  }

  /** After the main flush the new rules of all policies stand behind the old ones. */
  lemma FlushMiddle(rs: Ruleset, inp: Input, d: Dir) returns (drop: bool)
    requires WellFormed(rs) && InputOk(inp) && Selected(inp) && EntryOk(d, ShapeAt(rs, FILTER, EntryChain(d)))
    ensures var s, ps := ShapeAt(rs, FILTER, EntryChain(d)), PoliciesFor(inp, d);
            && Middle(d, MiddleOf(d, s)) && (s == [] || exists b :: s == Form(d, MiddleOf(d, s), b))
            && ShapeAt(PassStage(rs, inp, 1), FILTER, EntryChain(d)) ==
               Form(d, MiddleOf(d, s) + MoreAll(inp, ps, d, s), drop)
    ensures PoliciesFor(inp, d) != [] ==> drop
  {
    hide PassStage, Form, Added, InputOk, Selected, MoreAll, Middle, MiddleOf;
    FlushEntry(rs, inp, d);
    var s := ShapeAt(rs, FILTER, EntryChain(d));
    AddedIsMore(inp, d, s);
    if s == [] {
      drop := PoliciesFor(inp, d) != [];
      NoMiddle(d);
      assert [] + Added(inp, d, []) == Added(inp, d, []);
    } else {
      var mid, drop0 :| Middle(d, mid) && s == Form(d, mid, drop0);
      MiddleForm(d, mid, drop0);
      drop := drop0 || PoliciesFor(inp, d) != [];
    }
  }

  lemma NoMiddle(d: Dir)
    ensures Middle(d, []) && MiddleOf(d, []) == []
  {
  }

  /** Jumps of the middle have their checks there, and those are not appended. */
  lemma NoMarkAppended(inp: Input, d: Dir, s: seq<Rule>, i: nat, j: nat, k: PolicyKey)
    requires Middle(d, MiddleOf(d, s)) && (s == [] || exists b :: s == Form(d, MiddleOf(d, s), b))
    requires i < |MiddleOf(d, s)| && j < |Added(inp, d, s)| && JumpOf(MiddleOf(d, s)[i], k)
    ensures !MarkOf(Added(inp, d, s)[j], k)
  {
    var mid, r := MiddleOf(d, s), Added(inp, d, s)[j];
    FormOnly(d, mid, false);
    ByComment(d, mid[i], k);
    AddedMembers(inp, d, s, r);
    FlattenMiddle(d, BlocksFor(inp, PoliciesFor(inp, d)));
    FormOnly(d, Flatten(d, BlocksFor(inp, PoliciesFor(inp, d))), false);
    hide IfaceJump, PolicyMark, CommonJump, DropRest, MiddleOf, Added, Flatten, IsJump, IsMark, Form, JumpOf, MarkOf;
    var f :| mid[i] == IfaceJump(d, k, f);
    assert PolicyMark(d, k) in mid;
    if s != [] {
      var b :| s == Form(d, mid, b);
      FormMembers(d, mid, b, PolicyMark(d, k));
    }
    ByComment(d, r, k);
  }

  lemma FlushTight(rs: Ruleset, inp: Input, d: Dir)
    requires WellFormed(rs) && InputOk(inp) && Selected(inp) && EntryOk(d, ShapeAt(rs, FILTER, EntryChain(d)))
    requires DistinctKeys(PoliciesFor(inp, d)) && Tight(ShapeAt(rs, FILTER, EntryChain(d)))
    ensures Tight(ShapeAt(PassStage(rs, inp, 1), FILTER, EntryChain(d)))
  {
    hide PassStage, Form, InputOk, Selected, MoreAll, Middle, MiddleOf, Tight, EntryOk, JumpOf, MarkOf, Added;
    var s, ps := ShapeAt(rs, FILTER, EntryChain(d)), PoliciesFor(inp, d);
    var drop := FlushMiddle(rs, inp, d);
    var x, y := MiddleOf(d, s), MoreAll(inp, ps, d, s);
    AddedIsMore(inp, d, s);
    MoreAllTight(inp, ps, d, s);
    if s == [] {
      NoMiddle(d);
    } else {
      var b :| s == Form(d, x, b);
      TightForm(d, x, b);
    }
    forall i, j, k | 0 <= i < |x| && 0 <= j < |y| && JumpOf(x[i], k) ensures !MarkOf(y[j], k) {
      NoMarkAppended(inp, d, s, i, j, k);
    }
    TightJoin(x, y);
    TightForm(d, x + y, drop);
  }

  /** Whatever policies and interfaces come and go and wherever the pass is cut
      short: between a jump and a check of its policy stand only its jumps. */
  lemma StageTight(rs: Ruleset, inp: Input, d: Dir, k: nat)
    requires WellFormed(rs) && InputOk(inp) && Selected(inp) && EntryOk(d, ShapeAt(rs, FILTER, EntryChain(d)))
    requires DistinctKeys(PoliciesFor(inp, d)) && Tight(ShapeAt(rs, FILTER, EntryChain(d)))
    ensures Tight(ShapeAt(PassStage(rs, inp, k), FILTER, EntryChain(d)))
  {
    hide InputOk, Selected, Tight, EntryOk, PassLog, Keep, DistinctKeys;
    if k >= 1 {
      FlushTight(rs, inp, d);
      hide Stage;
      StageShape(rs, PassLog(rs, inp), k, FILTER, EntryChain(d));
      KeepTight(ShapeAt(PassStage(rs, inp, 1), FILTER, EntryChain(d)), Proj(PassLog(rs, inp), FILTER, EntryChain(d)));
    }
  }

  // ------------------------------------------------------- the exact condition

  /** Every wanted jump that is installed already has its check behind it. */
  ghost predicate KeptGuarded(inp: Input, d: Dir, s: seq<Rule>) {
    forall a: nat, k :: a < |s| && JumpOf(s[a], k) && s[a] in EntryWants(inp, d) ==> CheckBehind(s, a, k)
  }

  /** The chain after the main flush, compared with the one before: mid stays, then
      what is appended. */
  ghost predicate Grown(inp: Input, d: Dir, s: seq<Rule>, mid: seq<Rule>, drop: bool, s1: seq<Rule>) {
    && Middle(d, mid) && ((s == [] && mid == []) || exists b :: s == Form(d, mid, b))
    && s1 == Form(d, mid + MoreAll(inp, PoliciesFor(inp, d), d, s), drop)
  }

  /** Old jumps and checks keep their places. */
  lemma OldPlaces(inp: Input, d: Dir, s: seq<Rule>, mid: seq<Rule>, drop: bool, s1: seq<Rule>, a: nat, k: PolicyKey)
    requires Grown(inp, d, s, mid, drop, s1)
    ensures a < |s| && (JumpOf(s[a], k) || MarkOf(s[a], k)) ==> 1 <= a <= |mid| && s[a] == mid[a - 1]
    ensures 1 <= a <= |mid| ==> a < |s| && a < |s1| && s1[a] == mid[a - 1] && s[a] == mid[a - 1]
  {
    hide CommonJump, DropRest, Middle, MoreAll;
    FormEnds(d, k);
    hide JumpOf, MarkOf;
    if s != [] {
      var b :| s == Form(d, mid, b);
    }
  }

  /** A jump or check of the grown chain is an old one or an appended one. */
  lemma NewPlaces(inp: Input, d: Dir, s: seq<Rule>, mid: seq<Rule>, drop: bool, s1: seq<Rule>, a: nat, k: PolicyKey)
    requires Grown(inp, d, s, mid, drop, s1) && a < |s1| && (JumpOf(s1[a], k) || MarkOf(s1[a], k)) && !(1 <= a <= |mid|)
    ensures var y := MoreAll(inp, PoliciesFor(inp, d), d, s); |mid| < a <= |mid| + |y| && s1[a] == y[a - 1 - |mid|]
  {
    hide CommonJump, DropRest, Middle, MoreAll;
    FormEnds(d, k);
    hide JumpOf, MarkOf;
  }

  /** Wanted rules of the chain are the wanted ones of the pass. */
  lemma WantedHere(inp: Input, d: Dir, p: seq<Req>, r: Rule)
    requires AllRules(p) && Wants(p) == EntryWants(inp, d) && EntryRule(d, r)
    ensures Wanted(r, p) <==> r in EntryWants(inp, d)
  {
    EntryWanted(inp, d, p, r);
  }

  lemma GrownOnly(inp: Input, d: Dir, s: seq<Rule>, mid: seq<Rule>, drop: bool, s1: seq<Rule>)
    requires Grown(inp, d, s, mid, drop, s1)
    ensures EntryOnly(d, s) && EntryOnly(d, s1)
  {
    hide CommonJump, DropRest, MoreAll, IsJump, IsMark, Form, Flatten, Added;
    var y, flat := MoreAll(inp, PoliciesFor(inp, d), d, s), Flatten(d, BlocksFor(inp, PoliciesFor(inp, d)));
    AddedIsMore(inp, d, s);
    FlattenMiddle(d, BlocksFor(inp, PoliciesFor(inp, d)));
    forall i | 0 <= i < |y| ensures EntryRule(d, y[i]) {
      AddedMembers(inp, d, s, y[i]);
      var j :| 0 <= j < |flat| && flat[j] == y[i];
      assert IsJump(d, flat[j]) || IsMark(d, flat[j]);
    }
    forall i | 0 <= i < |mid| ensures EntryRule(d, mid[i]) {
      assert IsJump(d, mid[i]) || IsMark(d, mid[i]);
    }
    if s != [] {
      var b :| s == Form(d, mid, b);
      FormKnown(d, mid, b);
    }
    FormKnown(d, mid + y, drop);
  }

  lemma FormKnown(d: Dir, mid: seq<Rule>, drop: bool)
    requires EntryOnly(d, mid)
    ensures EntryOnly(d, Form(d, mid, drop))
  {
    hide CommonJump, DropRest, IsJump, IsMark;
  }

  /** Nobody gains and old jumps are guarded: then so are all kept ones. */
  lemma GuardedIf(inp: Input, d: Dir, s: seq<Rule>, mid: seq<Rule>, drop: bool, s1: seq<Rule>, p: seq<Req>, a: nat,
                  k: PolicyKey)
    requires Grown(inp, d, s, mid, drop, s1) && AllRules(p) && Wants(p) == EntryWants(inp, d)
    requires NoGain(inp, d, s) && KeptGuarded(inp, d, s)
    requires a < |s1| && JumpOf(s1[a], k) && Wanted(s1[a], p)
    ensures WantedBehind(s1, a, k, p)
  {
    GrownOnly(inp, d, s, mid, drop, s1);
    WantedHere(inp, d, p, s1[a]);
    ByComment(d, s1[a], k);
    WantedHere(inp, d, p, PolicyMark(d, k));
    hide JumpOf, MarkOf, Wanted, EntryWants, Grown, IfaceJump, PolicyMark, NoGain, MoreAll, EntryRule;
    var i :| s1[a] == IfaceJump(d, k, i);
    JumpWantsMark(inp, d, k, i);
    if 1 <= a <= |mid| {
      OldPlaces(inp, d, s, mid, drop, s1, a, k);
      var b :| a < b < |s| && MarkOf(s[b], k);
      OldPlaces(inp, d, s, mid, drop, s1, b, k);
      ByComment(d, s[b], k);
      assert MarkOf(s1[b], k) && Wanted(s1[b], p);
    } else {
      NewPlaces(inp, d, s, mid, drop, s1, a, k);
      var b := NewGuarded(inp, d, s, mid, drop, s1, a, k, i);
      ByComment(d, s1[b], k);
    }
  }

  lemma NewGuarded(inp: Input, d: Dir, s: seq<Rule>, mid: seq<Rule>, drop: bool, s1: seq<Rule>, a: nat, k: PolicyKey,
                   i: Iface)
    returns (b: nat)
    requires Grown(inp, d, s, mid, drop, s1) && NoGain(inp, d, s) && |mid| < a < |s1|
    requires a <= |mid| + |MoreAll(inp, PoliciesFor(inp, d), d, s)|
    requires s1[a] == IfaceJump(d, k, i) == MoreAll(inp, PoliciesFor(inp, d), d, s)[a - 1 - |mid|]
    ensures a < b < |s1| && MarkOf(s1[b], k)
  {
    hide JumpOf, MarkOf, IfaceJump, PolicyMark, NoGain, MoreAll, CommonJump, DropRest, Middle;
    var y := MoreAll(inp, PoliciesFor(inp, d), d, s);
    GainedHasPolicy(inp, d, s, k, i);
    JumpComment(d, k, i);
    MoreAllGuarded(inp, PoliciesFor(inp, d), d, s, a - 1 - |mid|, k);
    var c :| a - 1 - |mid| < c < |y| && MarkOf(y[c], k);
    b := 1 + |mid| + c;
    assert s1[b] == y[c];
  }

  lemma JumpComment(d: Dir, k: PolicyKey, i: Iface)
    ensures JumpOf(IfaceJump(d, k, i), k) && MarkOf(PolicyMark(d, k), k)
  {
    EntryNotes(d, k, i);
  }

  /** An appended jump is of a policy on that interface; its check is not installed
      if nobody gains. */
  lemma GainedHasPolicy(inp: Input, d: Dir, s: seq<Rule>, k: PolicyKey, i: Iface)
    requires NoGain(inp, d, s) && IfaceJump(d, k, i) in MoreAll(inp, PoliciesFor(inp, d), d, s)
    ensures PolicyMark(d, k) !in s
  {
    hide IfaceJump, PolicyMark, Flatten, MoreAll, Jumps, Added;
    var ps := PoliciesFor(inp, d);
    AddedIsMore(inp, d, s);
    AddedMembers(inp, d, s, IfaceJump(d, k, i));
    var bs := BlocksFor(inp, ps);
    JumpHasBlock(d, bs, k, i);
    var b :| b in bs && b.key == k && IfaceJump(d, k, i) in Jumps(d, k, b.ifs);
    JumpsMembers(d, k, b.ifs, IfaceJump(d, k, i));
    var j :| j in b.ifs && IfaceJump(d, k, i) == IfaceJump(d, k, j);
    var n :| 0 <= n < |ps| && bs[n] == b;
    assert ps[n] in ps;
  }

  /** A gained jump is appended, its check is not. */
  lemma GainPlace(inp: Input, d: Dir, s: seq<Rule>) returns (c: nat, k: PolicyKey, i: Iface)
    requires !NoGain(inp, d, s)
    ensures var y := MoreAll(inp, PoliciesFor(inp, d), d, s);
            c < |y| && y[c] == IfaceJump(d, k, i) && y[c] in EntryWants(inp, d) && PolicyMark(d, k) !in y
  {
    hide EntryWants, IfaceJump, PolicyMark, MoreAll, Added, OnNetworks, Flatten;
    var q;
    q, i :| q in PoliciesFor(inp, d) && i in OnNetworks(inp.ifs, q.nets) && PolicyMark(d, q.key) in s &&
            IfaceJump(d, q.key, i) !in s;
    k := q.key;
    var y := MoreAll(inp, PoliciesFor(inp, d), d, s);
    AddedIsMore(inp, d, s);
    JumpInFlat(inp, d, q, i);
    FlatWanted(inp, d, IfaceJump(d, k, i));
    AddedMembers(inp, d, s, IfaceJump(d, k, i));
    AddedMembers(inp, d, s, PolicyMark(d, k));
    c :| 0 <= c < |y| && y[c] == IfaceJump(d, k, i);
  }

  /** So it is unguarded. */
  lemma GainUnguarded(inp: Input, d: Dir, s: seq<Rule>, mid: seq<Rule>, drop: bool, s1: seq<Rule>, p: seq<Req>)
    requires Grown(inp, d, s, mid, drop, s1) && AllRules(p) && Wants(p) == EntryWants(inp, d) && !NoGain(inp, d, s)
    ensures exists a: nat, k :: a < |s1| && JumpOf(s1[a], k) && Wanted(s1[a], p) && !WantedBehind(s1, a, k, p)
  {
    hide JumpOf, MarkOf, Wanted, EntryWants, IfaceJump, PolicyMark, MoreAll, EntryRule, NoGain, Grown;
    GrownOnly(inp, d, s, mid, drop, s1);
    var c, k, i := GainPlace(inp, d, s);
    var a := 1 + |mid| + c;
    AppendedAt(inp, d, s, mid, drop, s1, c);
    JumpComment(d, k, i);
    WantedHere(inp, d, p, s1[a]);
    if b: nat :| a < b < |s1| && MarkOf(s1[b], k) && Wanted(s1[b], p) {
      NewPlaces(inp, d, s, mid, drop, s1, b, k);
      ByComment(d, s1[b], k);
      assert false;
    }
  }

  lemma AppendedAt(inp: Input, d: Dir, s: seq<Rule>, mid: seq<Rule>, drop: bool, s1: seq<Rule>, c: nat)
    requires Grown(inp, d, s, mid, drop, s1) && c < |MoreAll(inp, PoliciesFor(inp, d), d, s)|
    ensures 1 + |mid| + c < |s1| && s1[1 + |mid| + c] == MoreAll(inp, PoliciesFor(inp, d), d, s)[c]
  {
    hide CommonJump, DropRest, Middle, MoreAll;
  }

  lemma FlatWanted(inp: Input, d: Dir, r: Rule)
    requires r in Flatten(d, BlocksFor(inp, PoliciesFor(inp, d)))
    ensures r in EntryWants(inp, d)
  {
    hide Flatten;
    FormMembers(d, Flatten(d, BlocksFor(inp, PoliciesFor(inp, d))), PoliciesFor(inp, d) != [], r);
  }

  lemma JumpInFlat(inp: Input, d: Dir, p: PolicySpec, i: Iface)
    requires p in PoliciesFor(inp, d) && i in OnNetworks(inp.ifs, p.nets)
    ensures IfaceJump(d, p.key, i) in Flatten(d, BlocksFor(inp, PoliciesFor(inp, d)))
  {
    hide IfaceJump, PolicyMark, Flatten, BlockOf, OnNetworks;
    var ps := PoliciesFor(inp, d);
    var bs, r := BlocksFor(inp, ps), IfaceJump(d, p.key, i);
    var n :| 0 <= n < |ps| && ps[n] == p;
    assert bs[n] in bs;
    BlockMembers(d, p.key, bs[n].ifs, r);
    FlattenMembers(d, bs, r);
  }

  /** A wanted old jump without a check behind it stays so. */
  lemma OldUnguarded(inp: Input, d: Dir, s: seq<Rule>, mid: seq<Rule>, drop: bool, s1: seq<Rule>, p: seq<Req>, a: nat,
                     k: PolicyKey)
    requires Grown(inp, d, s, mid, drop, s1) && AllRules(p) && Wants(p) == EntryWants(inp, d)
    requires a < |s| && JumpOf(s[a], k) && s[a] in EntryWants(inp, d) && !CheckBehind(s, a, k)
    ensures a < |s1| && JumpOf(s1[a], k) && Wanted(s1[a], p) && !WantedBehind(s1, a, k, p)
  {
    hide Wanted, EntryWants, MoreAll, EntryRule, JumpOf, MarkOf, Grown;
    GrownOnly(inp, d, s, mid, drop, s1);
    OldPlaces(inp, d, s, mid, drop, s1, a, k);
    WantedHere(inp, d, p, s1[a]);
    if b: nat :| a < b < |s1| && MarkOf(s1[b], k) && Wanted(s1[b], p) {
      if b <= |mid| {
        OldPlaces(inp, d, s, mid, drop, s1, b, k);
        assert false;
      } else {
        NewPlaces(inp, d, s, mid, drop, s1, b, k);
        MarkNotNew(inp, d, s, mid, drop, s1, a - 1, b - 1 - |mid|, k);
      }
    }
  }

  lemma MarkNotNew(inp: Input, d: Dir, s: seq<Rule>, mid: seq<Rule>, drop: bool, s1: seq<Rule>, i: nat, j: nat,
                   k: PolicyKey)
    requires Grown(inp, d, s, mid, drop, s1) && i < |mid| && j < |MoreAll(inp, PoliciesFor(inp, d), d, s)|
    requires JumpOf(mid[i], k)
    ensures !MarkOf(MoreAll(inp, PoliciesFor(inp, d), d, s)[j], k)
  {
    hide MoreAll, JumpOf, MarkOf, Form, Middle, Added, MiddleOf;
    AddedIsMore(inp, d, s);
    if s == [] {
      NoMiddle(d);
      assert mid == [] || exists b :: s == Form(d, mid, b);
    }
    if b :| s == Form(d, mid, b) {
      MiddleForm(d, mid, b);
    }
    NoMarkAppended(inp, d, s, i, j, k);
  }

  /** A pass on any chain of the form leaves every jump in front of its check if
      and only if no policy with an installed check gains an interface and every
      wanted jump that is installed already has its check behind it. */
  lemma GuardedExactly(rs: Ruleset, inp: Input, d: Dir)
    requires WellFormed(rs) && InputOk(inp) && Selected(inp) && EntryOk(d, ShapeAt(rs, FILTER, EntryChain(d)))
    ensures var s := ShapeAt(rs, FILTER, EntryChain(d));
            Guarded(ShapeAt(PassOf(rs, inp), FILTER, EntryChain(d))) <==> NoGain(inp, d, s) && KeptGuarded(inp, d, s)
  {
    hide PassLog, InputOk, Selected, EntryOk, Stage, Keep, Wanted, NoGain, MoreAll, Form, Middle, MiddleOf, JumpOf,
         MarkOf, EntryWants, Guarded, WantedBehind, CheckBehind;
    var s, p := ShapeAt(rs, FILTER, EntryChain(d)), Proj(PassLog(rs, inp), FILTER, EntryChain(d));
    var drop := FlushMiddle(rs, inp, d);
    var mid, s1 := MiddleOf(d, s), ShapeAt(PassStage(rs, inp, 1), FILTER, EntryChain(d));
    if s == [] {
      NoMiddle(d);
    }
    assert Grown(inp, d, s, mid, drop, s1);
    PassLogWants(rs, inp, d);
    StageShape(rs, PassLog(rs, inp), LAST_STAGE, FILTER, EntryChain(d));
    KeepGuarded(s1, p);
    hide Grown;
    if NoGain(inp, d, s) && KeptGuarded(inp, d, s) {
      forall a: nat, k | a < |s1| && JumpOf(s1[a], k) && Wanted(s1[a], p) ensures WantedBehind(s1, a, k, p) {
        GuardedIf(inp, d, s, mid, drop, s1, p, a, k);
      }
    } else if NoGain(inp, d, s) {
      var a: nat, k :| a < |s| && JumpOf(s[a], k) && s[a] in EntryWants(inp, d) && !CheckBehind(s, a, k);
      OldUnguarded(inp, d, s, mid, drop, s1, p, a, k);
    } else {
      GainUnguarded(inp, d, s, mid, drop, s1, p);
    }
  }
}
